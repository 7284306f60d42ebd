# Gemini proxy core: retrying requests, IP access control, hourly backups

This project models three parts of the 2apifare proxy in Dafny and proves
properties of the models.

1. **The Gemini request path** (`src/google_chat_api.py`):
   - `send_gemini_request` takes a credential from the credential manager, prepares headers and payload, and calls upstream. It retries on 429 (rotating the credential), on 5xx (keeping it) and on auto-ban codes. On 400/401/404 it first tries a token refresh; otherwise it disables and rotates the credential.
   - Its helpers are modelled too: `_handle_api_error`, `_check_should_auto_ban`, `_handle_auto_ban`, `_get_next_credential`, `_prepare_request_headers_and_payload`, `_merge_safety_settings` and `build_gemini_payload_from_native`.
2. **The IP manager** (`src/ip_manager.py`, class `IPManager`):
   - the per-IP table with its cache-dirty flag;
   - `check_ip_allowed` and `record_request`;
   - `set_ip_status`, with its 80-request rule and its limit of three bans per operator. The limit counts the operator's list as `_load_ban_operations` hands it back: the last hour's bans when some operator had none left in the last hour, and otherwise every stored ban, stale ones included;
   - `_auto_unban_expired_ips` (24 hours) and `_cleanup_old_ips` (3/5/7-day tiers);
   - the summary and the paginated ranking.
3. **The backup scheduler** (`backup_scheduler.py`):
   - the 3-attempt `_run_backup`;
   - the step rule of `_scheduler_loop`;
   - `start`/`stop` and the process-wide `start_backup_scheduler`/`stop_backup_scheduler`.

How the world outside the core is represented:
- **Time** is whole seconds passed in as `now`, or a clock reading `(hour, minute, second)` for the scheduler. "Today" is passed in as a date string.
- **Upstream replies** are an oracle: a sequence of outcomes, one per attempt, each either an HTTP status or a raised exception.
  - `SendGeminiRequest` requires at least `max_retries + 1` of them, so that every attempt has one.
  - Token refresh results and backup results are oracles of booleans.
- **The credential manager** is not part of this model; its source is not available. `CredentialPool` gives it one concrete meaning:
  - a ring of named credentials with a cursor;
  - `get_valid_credential` returns the first enabled credential at or after the cursor;
  - `force_rotate_credential` advances the cursor;
  - `set_cred_disabled` disables every credential with that name;
  - `force_refresh_current_token` takes its result from the oracle;
  - `record_api_call_result` appends to a log.
- **Configuration getters** are fields of `RetryConfig`:
  - retry count, 429 retry switch, retry interval in milliseconds, auto-ban switch and codes.
  - `PrepareRequest` takes the user agent as a parameter.
  - `BuildGeminiPayloadFromNative` takes the model-name helpers as `ModelTraits`.

Shape of the model:
- Each stateful source class is a Dafny `class`: `Pool`, `IPManager`, `BackupScheduler` and `SchedulerRegistry`.
- Each method of such a class is proved to leave the state that a pure specification function computes from the old state. For example, `IPManager.RecordRequest` leaves `Model()` equal to `Recorded(old(Model()), …)`.
- What the source promises is proved about those functions in the `*Properties` modules and in `Backup`.
- Loops stay loops:
  - the retry loop in `SendGeminiRequest`;
  - the scan in `AutoUnbanExpiredIps`;
  - the collect and delete passes in `CollectStaleIps`/`CleanupOldIps`;
  - the safety-settings merge;
  - the backup retry;
  - the scheduler loop.

## Model

| member | source | states |
|---|---|---|
| GeminiPayload.MergeSafetySettings | src/google_chat_api.py:45-71 | the merged list equals `MergedSafetySettings`: the user's settings, then the defaults whose category the user did not set |
| GeminiPayload.MergedSafetySettingsSpec | src/google_chat_api.py:45-71 | user settings come first and unchanged; a default is appended iff its category is not among the user's; every category with a default is covered |
| GeminiPayload.MissingDefaultsMembers | src/google_chat_api.py:59-69 | a default is added iff it is a default and its category is not already set |
| GeminiPayload.BuildGeminiPayloadFromNative | src/google_chat_api.py:797-851 | the payload names the base model, carries the merged safety settings and passes every other field through (generation config and tools: `BuildGeminiPayloadKeepsCallerSettings`) |
| GeminiPayload.BuildGeminiPayloadKeepsCallerSettings | src/google_chat_api.py:809-840 | a generation and thinking config always exist, also when the caller gave a generation config without them; each of `includeThoughts`/`thinkingBudget` the caller gave is kept and each missing one is the model's value; the image config and every other generation-config field pass through; a non-search model's tools are unchanged; a search model's tools are the caller's tools (none: empty) followed by at most one `{"googleSearch": {}}` |
| GeminiPayload.AddSearchTool | src/google_chat_api.py:831-839 | `{"googleSearch": {}}` is appended iff no tool has a truthy `functionDeclarations` and none a truthy `googleSearch`; otherwise the tools are unchanged |
| GeminiPayload.SearchToolAccumulates | src/google_chat_api.py:835-839 | the appended tool is falsy under the same test, so building from an already built request appends a second search tool, and a request holding only `{"googleSearch": {}}` gets another |
| GeminiPayload.StripForPublicApi | src/google_chat_api.py:193-196 | for the public API the generation config is reduced to its image config; everything else is kept |
| GeminiPayload.PrepareRequest | src/google_chat_api.py:184-213 | succeeds iff there is an access token (`token` or `access_token`) and a project id, with the right error otherwise; on success the headers are `Bearer <token>`, JSON and the user agent, and the payload is model, project and (stripped) request |
| GeminiPayload.PrepareAfterStripUnchanged | src/google_chat_api.py:193-196 | stripping is idempotent: preparing an already stripped request gives the same result |
| CredentialPool.FirstEnabled | src/google_chat_api.py:249-259 | a credential found by the scan lies in the scanned range and is enabled |
| CredentialPool.FirstEnabledNone | src/google_chat_api.py:249-259 | when the scan finds nothing, every credential in the range is disabled |
| CredentialPool.GetValidSound | src/google_chat_api.py:249-259 | `get_valid_credential` returns the enabled credential under the new cursor, and nothing iff all are disabled; it changes no credential |
| CredentialPool.DisableAll | src/google_chat_api.py:132-150 | disabling a name disables exactly the credentials with that name and changes nothing else |
| CredentialPool.DisabledNeverAcquired | src/google_chat_api.py:146-150 | a credential just disabled is never handed out |
| CredentialPool.Pool.GetValidCredential | src/google_chat_api.py:171 | the pool's new state and result are those of `GetValid` |
| CredentialPool.Pool.ForceRotateCredential | src/google_chat_api.py:88 | the new state is `Rotate` of the old one |
| CredentialPool.Pool.SetCredDisabled | src/google_chat_api.py:108 | the new state is `SetDisabled` of the old one |
| CredentialPool.Pool.ForceRefreshCurrentToken | src/google_chat_api.py:394 | the new state and result are those of `ForceRefresh` (the next refresh oracle entry) |
| CredentialPool.Pool.RecordApiCallResult | src/google_chat_api.py:364 | the call is appended to the call log |
| CredentialPool.Pool.constructor | src/google_chat_api.py:216-246 | a pool starts in the state it is given |
| GeminiRetry.Pow2 | src/google_chat_api.py:312 | `2 ** attempt` is positive, larger than `attempt`, and even for every attempt after the first (the doubling itself is `DelayDoubles`) |
| GeminiRetry.GetNextCredential | src/google_chat_api.py:153-181 | the next credential, its preparation and the pool's new state follow `NextCredential` |
| GeminiRetry.RecordIfKnown | src/google_chat_api.py:363-366 | a call result is recorded only when there is a current file |
| GeminiRetry.HandleAutoBanM | src/google_chat_api.py:132-150 | the pool after an auto-ban is `HandleAutoBan` of the old pool |
| GeminiRetry.HandleApiErrorM | src/google_chat_api.py:74-111 | the pool after error handling is `HandleApiError` of the old pool |
| GeminiRetry.ResumeM | src/google_chat_api.py:400-426 | continuing after a credential switch gives the step result `Resume` |
| GeminiRetry.OnAutoBanM | src/google_chat_api.py:386-426 | the auto-ban branch gives the step result `OnAutoBan` |
| GeminiRetry.OnUpstreamErrorM | src/google_chat_api.py:376-449 | an upstream error status gives the step result `OnUpstreamError` |
| GeminiRetry.OnRateLimitedM | src/google_chat_api.py:310-341 | a 429 gives the step result `OnRateLimited` |
| GeminiRetry.Attempt | src/google_chat_api.py:264-582 | one attempt of the loop gives the step result `Step` |
| GeminiRetry.SendGeminiRequest | src/google_chat_api.py:216-585 | without a manager: error 500 and no call; otherwise response, trace of calls and sleeps, and pool state are those of `Dispatch` |
| GeminiRetryProperties.CallCountAppend | src/google_chat_api.py:264 | upstream calls in a concatenated trace add up |
| GeminiRetryProperties.StepIsOneAttempt | src/google_chat_api.py:264-582 | every attempt makes exactly one upstream call, then at most one sleep |
| GeminiRetryProperties.ResumeSleeps | src/google_chat_api.py:400-426 | continuing after a credential switch adds at most one sleep to the trace and nothing else |
| GeminiRetryProperties.OnAutoBanSleeps | src/google_chat_api.py:386-426 | the auto-ban branch, refreshed or banned, adds at most one sleep |
| GeminiRetryProperties.OnUpstreamErrorSleeps | src/google_chat_api.py:376-449 | an upstream error status adds at most one sleep |
| GeminiRetryProperties.OnRateLimitedSleeps | src/google_chat_api.py:310-341 | a 429 adds at most one sleep |
| GeminiRetryProperties.OneAttemptCounts | src/google_chat_api.py:264 | one attempt adds exactly one call to the trace |
| GeminiRetryProperties.LastAttemptReturns | src/google_chat_api.py:310-572 | at the last attempt every branch returns; no branch continues |
| GeminiRetryProperties.StepCounts | src/google_chat_api.py:264-582 | a step adds one call and returns once the budget is used |
| GeminiRetryProperties.LoopBound | src/google_chat_api.py:264-585 | from attempt a, the loop makes at most `max_retries + 1 - a` more calls and never reaches the fallback |
| GeminiRetryProperties.DispatchAttemptBound | src/google_chat_api.py:264-585 | at most `max_retries + 1` upstream calls in total; with `max_retries >= 0` the fallback 429 is unreachable |
| GeminiRetryProperties.NoCredentialNoAttempt | src/google_chat_api.py:249-259 | with every credential disabled the result is error 500 before any upstream call |
| GeminiRetryProperties.NegativeBudgetNoAttempt | src/google_chat_api.py:264-585 | with a negative retry count no call is made and the fallback 429 is returned |
| GeminiRetryProperties.LoopResponseSound | src/google_chat_api.py:430-569 | success needs an upstream 200 among the attempts; an API error carries a status upstream returned |
| GeminiRetryProperties.DispatchResponseSound | src/google_chat_api.py:216-585 | the same for the whole request |
| GeminiRetryProperties.DelayDoubles | src/google_chat_api.py:312 | the back-off `retry_interval * 2**attempt` doubles with every attempt (the same expression is at lines 484 and 574) |
| GeminiRetryProperties.RateLimitedStep | src/google_chat_api.py:277-341 | on 429 the result is recorded; with retry enabled and budget left the cursor moves one place on (modulo the pool size), the pool is that of `get_valid_credential` after the rotation, the loop goes on with the credential it returned (or keeps the old file when there is none or preparing it failed), and sleeps the back-off; otherwise it returns error 429 and changes no credential (the streaming path does the same at lines 474-503) |
| GeminiRetryProperties.ServerErrorStep | src/google_chat_api.py:376-383 | on 5xx with budget left the same credential is retried after the back-off, nothing disabled or rotated (the streaming path does the same at lines 508-515) |
| GeminiRetryProperties.AutoBanStepUnfolds | src/google_chat_api.py:386-390 | an auto-ban code with budget left records the failure and enters the auto-ban branch |
| GeminiRetryProperties.ResumeContinues | src/google_chat_api.py:400-426 | after the auto-ban branch the loop continues on the new credential after 0.5 s, or after the back-off when preparing it raised (the streaming path does the same at lines 557-564) |
| GeminiRetryProperties.NextCredentialFile | src/google_chat_api.py:153-181 | the next file is the old one or the credential `get_valid_credential` returned; with none, the old one |
| GeminiRetryProperties.GetValidAtCursor | src/google_chat_api.py:171 | when the cursor is on an enabled credential it is returned and the pool is unchanged |
| GeminiRetryProperties.RefreshSucceededStep | src/google_chat_api.py:390-406 | on 400/401/404 a successful refresh retries the same credential after 0.5 s and disables nothing (the streaming path does the same at lines 528-544) |
| GeminiRetryProperties.BanStep | src/google_chat_api.py:407-426 | otherwise every credential with the file's name is disabled, and the loop goes on with an enabled credential (or the old file) after one sleep (the streaming path does the same at lines 545-564) |
| GeminiRetryProperties.BanAndRotateSpec | src/google_chat_api.py:407-426 | after `_handle_auto_ban` and re-acquiring, every credential of the banned file is disabled, the loop continues with the old file or an enabled one, and it sleeps once |
| GeminiRetryProperties.BannedLastCredentialReused | src/google_chat_api.py:405-426 | with a single credential, the banned credential is used again for the next attempt |
| GeminiRetryProperties.TerminalErrorStep | src/google_chat_api.py:430-449 | a non-retryable or exhausted error returns its upstream status, records the failure, and disables/rotates only for auto-ban codes (the streaming path does the same at lines 567-569) |
| GeminiRetryProperties.HandleApiErrorScope | src/google_chat_api.py:74-111 | `_handle_api_error` rotates only on 429, disables then rotates only for enabled auto-ban codes, and otherwise does nothing |
| GeminiRetryProperties.ExceptionStep | src/google_chat_api.py:571-582 | an exception with budget left sleeps the back-off and retries the same credential; at the last attempt it returns error 500 |
| GeminiRetryProperties.SuccessStep | src/google_chat_api.py:450-459 | a 200 returns success, recording it for a non-streaming call |
| IpManager.Tally | src/ip_manager.py:661-684 | the active, banned and rate-limited counts add up to the number of IPs counted |
| IpManager.IPManager.constructor | src/ip_manager.py:27-35 | a new manager has no table, no records and a clean cache |
| IpManager.IPManager.CheckIpAllowed | src/ip_manager.py:215-256 | verdict and new table are `CheckAllowed` of the old table |
| IpManager.IPManager.RecordRequest | src/ip_manager.py:258-353 | verdict and new table are `Recorded` of the old table |
| IpManager.IPManager.SetIpStatus | src/ip_manager.py:592-659 | outcome and new table are `StatusSet` of the old table, whose ban limit reads the ban log through the load as written |
| IpManager.IPManager.Apply | src/ip_manager.py:632-657 | once the checks pass, the new table is `ApplyStatus` of the old one (the ban logged through the load as written) and stays well formed |
| IpManager.IPManager.Store | src/ip_manager.py:302-315 | the record is stored under the IP (a new IP goes last), the cache is marked dirty, and the table stays well formed (`set_ip_status` stores the same way at lines 632-651) |
| IpManager.IPManager.AutoUnbanExpiredIps | src/ip_manager.py:114-135 | the new table is `AutoUnbanned` of the old one |
| IpManager.IPManager.CollectStaleIps | src/ip_manager.py:157-195 | the keys collected are the stale IPs in table order, and every one of them is stale |
| IpManager.IPManager.CleanupOldIps | src/ip_manager.py:137-208 | the new table is `CleanedUp` of the old one and stays well formed |
| IpManager.IPManager.DeleteKeys | src/ip_manager.py:196-198 | deleting the keys one by one gives `DeleteEach` of the old records and order; nothing else changes |
| IpManager.PutRecordWellFormed | src/ip_manager.py:302-315 | storing a record keeps the table well formed |
| IpManager.UnbanEachKeys | src/ip_manager.py:120-131 | the unban pass keeps the set of IPs |
| IpManager.StaleIpsMembers | src/ip_manager.py:160-195 | an IP is collected iff it is in the table and stale |
| IpManager.DeleteEachSpec | src/ip_manager.py:198-199 | deleting the collected keys removes exactly them from records and order |
| IpManager.CleanedUpWellFormed | src/ip_manager.py:137-208 | cleanup keeps the table well formed |
| IpManager.CleanedUpSpec | src/ip_manager.py:137-208 | cleanup removes exactly the stale records, keeps the others unchanged and in order, and marks the cache dirty iff it removed any |
| IpManager.StaleDrop | src/ip_manager.py:157-195 | the collected keys are exactly the stale IPs, and some are collected iff a stale IP exists |
| IpManager.KeepFresh | src/ip_manager.py:196-198 | deleting exactly the stale keys leaves exactly the records that are not stale |
| IpManagerProperties.CheckAllowedVerdict | src/ip_manager.py:215-256 | an IP is denied iff it is banned and the ban is not 24 hours old, or it is rate-limited inside its window; without a table everything is allowed; the only change is lifting an expired ban |
| IpManagerProperties.RecordNeverUnbans | src/ip_manager.py:235-288 | `record_request` refuses a banned IP even after the ban expired, while `check_ip_allowed` lets it through |
| IpManagerProperties.RecordedSpec | src/ip_manager.py:278-353 | admitted iff not refused; a refusal changes no record; an admission updates this IP's record (creating it) and no other, and keeps the table well formed |
| IpManagerProperties.TouchCounts | src/ip_manager.py:317-351 | total and today's count go up by one (today restarts at 1 on a new date), models reset on a new date, the endpoint counter goes up by one, the last request time is now, status and ban unchanged |
| IpManagerProperties.UserAgentsBounded | src/ip_manager.py:334-339 | the user-agent list stays duplicate-free and at most 10 long; a new agent goes last and the oldest drops out; a known or empty one changes nothing |
| IpManagerProperties.RateLimitSpacesRequests | src/ip_manager.py:290-330 | right after an admitted request of a rate-limited IP, another at the same instant is refused by both gates |
| IpManagerProperties.RecentMembers | src/ip_manager.py:498-507 | a timestamp is kept iff it is less than an hour old |
| IpManagerProperties.RecentIdempotent | src/ip_manager.py:498-507 | cleaning twice equals cleaning once |
| IpManagerProperties.BanLimitAsWritten | src/ip_manager.py:496-584 | as written, an operator is refused iff the list the load hands back (`CountedBans`: the last hour's bans when some operator had expired, otherwise the whole stored list) holds at least 3 bans, and is told to wait `(3600 - (now - first)) // 60` minutes; when some operator had expired this is the verdict of the cleaning load |
| IpManagerProperties.ReloadStable | src/ip_manager.py:496-514 | loading what a load saved hands back exactly that data and rewrites nothing |
| IpManagerProperties.BanLimitCounts | src/ip_manager.py:559-590 | with the load the function's description promises (always cleaned; the corrected variant), an operator is refused iff it has at least 3 bans in the last hour, and the wait is never negative |
| IpManagerProperties.StaleBansCountedAsWritten | src/ip_manager.py:496-584 | as written, bans at 0, 2000 and 4000 s are all counted at 4100 s and the wait is -9 minutes; cleaned, only 2 count (finding) |
| IpManagerProperties.StatusSetRejections | src/ip_manager.py:609-630 | an unknown status, a ban of a known IP with fewer than 80 requests today, or a ban by an operator whose loaded list (`CountedBans`, stale bans included unless some operator had expired) holds at least 3 bans is rejected, each iff its condition holds; the wait is an hour from the first listed ban in whole minutes; a rejection changes no record |
| IpManagerProperties.StatusSetApplies | src/ip_manager.py:632-657 | a successful change sets the status, stamps a ban with now, stores a non-zero rate limit, touches no other IP, and logs an operator's ban after its loaded list (`CountedBans`) |
| IpManagerProperties.ApplyStatusSpec | src/ip_manager.py:632-653 | the write sets this IP's status and nothing else, and logs the ban operation for a ban by an operator |
| IpManagerProperties.RecordAfterLoad | src/ip_manager.py:535-557 | logging a ban stores the operator's loaded list (`CountedBans`) followed by this one, and leaves every other operator as the load handed it back |
| IpManagerProperties.BanHoldsForADay | src/ip_manager.py:235-246 | a ban set at time T denies the IP until T + 86400 and not after (the ban time is set by `set_ip_status` at lines 645-646) |
| IpManagerProperties.UnbanEachSpec | src/ip_manager.py:121-131 | the unban pass lifts exactly the expired bans among the visited IPs and counts some iff one expired |
| IpManagerProperties.AutoUnbannedSpec | src/ip_manager.py:114-135 | `_auto_unban_expired_ips` lifts exactly the expired bans, changes nothing else, and marks the cache dirty iff it lifted one |
| IpManagerProperties.CleanupTiers | src/ip_manager.py:153-195 | a non-banned IP with requests goes after 7, 5 or 3 idle days for 300+, 50+ or fewer requests; banned IPs and IPs never seen stay unchanged |
| IpManagerProperties.SummaryPartition | src/ip_manager.py:661-684 | every IP of the summary is exactly one of active, banned, rate-limited, and the total is the table size |
| IpManagerProperties.InsertPermutes | src/ip_manager.py:736-741 | inserting into the ranking adds exactly the one item |
| IpManagerProperties.InsertSorted | src/ip_manager.py:736-741 | inserting keeps the ranking in descending order of the key |
| IpManagerProperties.AppendSorted | src/ip_manager.py:736-741 | appending an item whose key is at most every key present keeps the descending order |
| IpManagerProperties.SortDescSpec | src/ip_manager.py:736-741 | the ranking is sorted by the chosen key, descending, and is a permutation of the candidates |
| IpManagerProperties.CandidatesSpec | src/ip_manager.py:719-733 | the rows are exactly the table's IPs with their counters, banned ones only when requested |
| IpManagerProperties.RankedSpec | src/ip_manager.py:719-741 | the whole ranking holds only the table's IPs, banned ones only when requested, sorted by the chosen key |
| IpManagerProperties.CeilPages | src/ip_manager.py:744-745 | the page count is the ceiling of total / page size |
| IpManagerProperties.PySliceSpec | src/ip_manager.py:751-755 | a page is the slice of the ranking from its start, cut at the end |
| IpManagerProperties.SliceSorted | src/ip_manager.py:751-757 | a page cut from the sorted ranking is sorted and holds only ranked items |
| IpManagerProperties.PageStart | src/ip_manager.py:744-755 | a clamped page starts inside the ranking when there is one, and every page but the last has a full page after its start |
| IpManagerProperties.RankingPageBounds | src/ip_manager.py:744-765 | the page is clamped into 1..pages (1 when empty), and next/previous exist iff the page is before the last / after the first |
| IpManagerProperties.RankingPageItems | src/ip_manager.py:744-757 | a page holds its slice of the ranking: at most a page size, full except on the last page, non-empty when anything is ranked |
| IpManagerProperties.PageOf | src/ip_manager.py:745-755 | ranking entry k lies on page k / size + 1, which exists |
| IpManagerProperties.RankingCoversAll | src/ip_manager.py:744-757 | every ranked IP appears on the page computed for it |
| IpManagerProperties.RankingContents | src/ip_manager.py:719-757 | without `include_banned` no banned IP is ranked, and each page is sorted by the chosen key |
| Backup.RunBackup | backup_scheduler.py:36-66 | the attempts and pauses are those of `Run` |
| Backup.RunFromShape | backup_scheduler.py:42-66 | from attempt a: success iff a later attempt completes; attempts alternate with 60 s pauses and stop at the first success or after attempt 3 |
| Backup.RunSpec | backup_scheduler.py:42-66 | a backup succeeds iff one of 3 attempts completes, makes 1–3 attempts, stops at the first success, and pauses 60 s only between failed attempts |
| Backup.StepRule | backup_scheduler.py:77-106 | a backup runs iff minute ≤ 2 and the hour differs from the last backed-up hour, then records the hour and sleeps 180 s; otherwise the time to the next hour is 1..3600 s and the loop wakes at hh:56:00 or polls every 30 s, never sleeping past the next window |
| Backup.OncePerHourValue | backup_scheduler.py:88-94 | right after a backup, no reading with the same hour backs up again |
| Backup.SchedulerLoop | backup_scheduler.py:68-110 | the passes over the clock readings are `Ticks`, starting from last hour -1 |
| Backup.FirstBackupNewHour | backup_scheduler.py:77-94 | the first backup after a stretch without one is in an hour other than the last backed-up hour |
| Backup.ConsecutiveBackupsDifferentHours | backup_scheduler.py:77-94 | two backups with none between them are in different hours |
| Backup.BackupScheduler.constructor | backup_scheduler.py:20-29 | a scheduler starts stopped, without a thread, with `interval_seconds = interval_hours * 3600` |
| Backup.BackupScheduler.Start | backup_scheduler.py:112-121 | a no-op while running; otherwise sets `running` and launches one thread |
| Backup.BackupScheduler.Stop | backup_scheduler.py:123-134 | a no-op while stopped; otherwise clears `running`; the thread stays recorded |
| Backup.SchedulerRegistry.constructor | backup_scheduler.py:137-138 | the process starts without a scheduler |
| Backup.SchedulerRegistry.StartBackupScheduler | backup_scheduler.py:141-151 | returns the existing scheduler unchanged, or creates, starts and stores a new one |
| Backup.SchedulerRegistry.StopBackupScheduler | backup_scheduler.py:154-160 | stops the existing scheduler and empties the slot |

### Notes on the code

- On 429 with retry enabled, the loop rotates the credential and also sleeps the exponential back-off `retry_interval * 2**attempt` (src/google_chat_api.py:310-341; the streaming path at lines 482-503).
- After a successful token refresh, the loop sleeps 0.5 s before retrying the same credential (src/google_chat_api.py:390-406).
- Status 400 is an auto-ban candidate that gets a refresh first, like 401 and 404 (src/google_chat_api.py:390-394).
- When no enabled credential is left, `get_valid_credential` returns nothing. The loop then keeps the current file and retries with the credential it just disabled (src/google_chat_api.py:419-424; `BannedLastCredentialReused`).
- The search-tool test at src/google_chat_api.py:832-839 checks truthiness, and the tool it appends, `{"googleSearch": {}}`, is falsy, so it does not stop a later append (`SearchToolAccumulates`). The comment at line 837 allows more search tools, so the model keeps this behaviour.
- `interval_hours` only feeds the log message and `interval_seconds`. The schedule is always the top of every hour (backup_scheduler.py:26-27, 88-106).

## Left out

- HTTP transport, JSON, FastAPI responses and stream handling (`_handle_streaming_response_managed`, the body parsing in `_handle_non_streaming_response`, `gc.collect`). Responses are `Success | Error(code, kind)`.
- A streamed success is recorded later, while the stream is consumed. The model records nothing for it inside the request (src/google_chat_api.py:450-459, 659-670).
- The credential manager's own source and `record_successful_call`. Their source is not available; `CredentialPool` is one concrete reading of the interface.
- `asyncio`/threading, `asyncio.sleep` and the periodic save and unban tasks (src/ip_manager.py:95-112). Sleeps are recorded as values in traces; everything runs sequentially.
- Locks and concurrent access to the IP table.
- `_get_ip_location` (HTTP geolocation). The location is a parameter.
- toml/aiofiles load and save, `_ensure_initialized`, `initialize` and `get_ip_stats`. The table is a value, and "no table loaded yet" is the `hasIps` flag.
- Timestamp strings (`strftime`) and the UTC+8 date computation. The date and clock readings are parameters.
- GeminiPayload.BuildGeminiPayloadFromNative: the source copies the request shallowly (src/google_chat_api.py:802), so filling in `thinkingConfig`, `includeThoughts`, `thinkingBudget` and appending the search tool also change the caller's own `generationConfig`, `thinkingConfig` and `tools` objects. The model works on values and does not capture this mutation of the caller's request.
- Float time: all times are whole seconds and intervals are whole milliseconds. `int()` truncation of a positive float wait is Dafny's division on integers.
- `CredsBackup.run`: its module is not available. It is an oracle of attempt outcomes; an exception and a missing entry are both failures.
- The `time.sleep(60)` after an exception inside `_scheduler_loop`: nothing in the modelled step raises. The thread join timeout of `stop` is also left out.
- migrate_backup_structure.py: a one-off filesystem migration.
- IpManager.Ranking: requires a page size of at least 1. With 0 the source divides by zero, and a negative size gives Python's negative slices.
- IpManager.SortDesc: is a stable insertion sort, as Python's `sorted` is, but stability itself (the order of equal keys) is not proved.
- IpManager.IPManager: aliasing of the returned dictionaries is not modelled. The summaries are values.
- GeminiRetry.SendGeminiRequest: requires an upstream outcome for each possible attempt (`max_retries < |upstream|`). This is a condition on the oracle, not on callers.

## Findings

| source | as written | input that shows it | evidently intended | confidence | as-written member | corrected member |
|---|---|---|---|---|---|---|
| src/ip_manager.py:496-515 | `_load_ban_operations` filters each operator's timestamps to the last hour, but puts the filtered lists back only when some operator lost all of them; otherwise it returns the unfiltered data, and `_check_ban_operation_limit` counts stale bans | operator bans at 0, 2000 and 4000 s, checked at 4100 s: counted 3, ban refused with "wait -9 minutes" | the loaded data is always the last hour's bans (the function's own description), so 2 count and the ban is allowed | not executed | IpManagerProperties.StaleBansCountedAsWritten (with IpManagerProperties.BanLimitAsWritten) | IpManagerProperties.BanLimitCounts (on IpManager.LoadBanOperations) |
