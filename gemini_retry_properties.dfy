/** What the retry policy of `send_gemini_request` guarantees, proved about its specification. */
module GeminiRetryProperties {
  import opened Wrappers
  import opened CredentialPool
  import opened GeminiPayload
  import opened GeminiRetry

  /** Number of upstream attempts recorded in a trace. */
  function CallCount(trace: seq<Event>): nat
  {
    if trace == [] then 0
    else CallCount(trace[..|trace| - 1]) + (if trace[|trace| - 1].Call? then 1 else 0)
  }

  lemma {:induction false} CallCountAppend(t: seq<Event>, u: seq<Event>)
    ensures CallCount(t + u) == CallCount(t) + CallCount(u)
    decreases |u|
  {
    if u == [] {
      assert t + u == t;
    } else {
      var u' := u[..|u| - 1];
      CallCountAppend(t, u');
      assert (t + u)[..|t + u| - 1] == t + u';
    }
  }

  /** An attempt appends its upstream call and at most one sleep after it. */
  ghost predicate OneAttempt(before: seq<Event>, after: seq<Event>, file: string)
  {
    || after == before + [Call(file)]
    || exists ms :: after == before + [Call(file), Sleep(ms)]
  }

  /** A handler leaves the trace as it was or appends one sleep. */
  ghost predicate AtMostOneSleep(before: seq<Event>, after: seq<Event>)
  {
    after == before || exists ms :: after == before + [Sleep(ms)]
  }

  lemma ResumeSleeps(cfg: RetryConfig, attempt: nat, st: LoopState, nc: NextCred, ms: nat)
    ensures AtMostOneSleep(st.trace, Resume(cfg, attempt, st, nc, ms).st.trace)
  {
  }

  lemma OnAutoBanSleeps(cfg: RetryConfig, ctx: RequestContext, attempt: nat, code: int, st: LoopState)
    ensures AtMostOneSleep(st.trace, OnAutoBan(cfg, ctx, attempt, code, st).st.trace)
  {
    if RefreshFirst(code) {
      var (ok, p1) := ForceRefresh(st.pool);
      if ok {
        ResumeSleeps(cfg, attempt, st, NextCredential(ctx, p1, st.file), ShortDelayMs);
      } else {
        var st' := st.(pool := p1);
        ResumeSleeps(cfg, attempt, st', NextCredential(ctx, HandleAutoBan(st'.pool, st'.file), st'.file), ShortDelayMs);
      }
    } else {
      ResumeSleeps(cfg, attempt, st, NextCredential(ctx, HandleAutoBan(st.pool, st.file), st.file), ShortDelayMs);
    }
  }

  lemma OnUpstreamErrorSleeps(cfg: RetryConfig, ctx: RequestContext, attempt: nat, code: int, st: LoopState)
    ensures AtMostOneSleep(st.trace, OnUpstreamError(cfg, ctx, attempt, code, st).st.trace)
  {
    var st1 := if ctx.streaming then st.(pool := RecordIf(st.pool, st.file, false, Some(code))) else st;
    var st2 := if ctx.streaming then st1 else st1.(pool := RecordIf(st1.pool, st1.file, false, Some(code)));
    OnAutoBanSleeps(cfg, ctx, attempt, code, st2);
  }

  lemma OnRateLimitedSleeps(cfg: RetryConfig, ctx: RequestContext, attempt: nat, st: LoopState)
    ensures AtMostOneSleep(st.trace, OnRateLimited(cfg, ctx, attempt, st).st.trace)
  {
    var st1 := st.(pool := RecordIf(st.pool, st.file, false, Some(429)));
    ResumeSleeps(cfg, attempt, st1, NextCredential(ctx, Rotate(st1.pool), st1.file), Delay(cfg, attempt));
  }

  lemma StepIsOneAttempt(cfg: RetryConfig, ctx: RequestContext, attempt: nat, outcome: Outcome, st: LoopState)
    ensures OneAttempt(st.trace, Step(cfg, ctx, attempt, outcome, st).st.trace, st.file)
  {
    var st1 := st.(trace := st.trace + [Call(st.file)]);
    var after := Step(cfg, ctx, attempt, outcome, st).st.trace;
    match outcome {
      case Raised =>
      case Status(code) =>
        if code == 429 {
          OnRateLimitedSleeps(cfg, ctx, attempt, st1);
        } else if code != 200 {
          OnUpstreamErrorSleeps(cfg, ctx, attempt, code, st1);
        }
    }
    assert AtMostOneSleep(st1.trace, after);
    if after != st1.trace {
      var ms :| after == st1.trace + [Sleep(ms)];
      assert after == st.trace + [Call(st.file), Sleep(ms)];
    }
  }

  lemma {:induction false} OneAttemptCounts(before: seq<Event>, after: seq<Event>, file: string)
    requires OneAttempt(before, after, file)
    ensures CallCount(after) == CallCount(before) + 1
  {
    if after == before + [Call(file)] {
      CallCountAppend(before, [Call(file)]);
      assert CallCount([Call(file)]) == 1;
    } else {
      var ms :| after == before + [Call(file), Sleep(ms)];
      CallCountAppend(before, [Call(file), Sleep(ms)]);
      assert [Call(file), Sleep(ms)][..1] == [Call(file)];
      assert [Call(file)][..0] == [];
      assert CallCount([Call(file)]) == 1;
      assert CallCount([Call(file), Sleep(ms)]) == 1;
    }
  }

  /** Every `continue` is guarded by `attempt < max_retries`: the last attempt always returns. */
  lemma LastAttemptReturns(cfg: RetryConfig, ctx: RequestContext, attempt: nat, outcome: Outcome, st: LoopState)
    requires attempt >= cfg.maxRetries
    ensures Step(cfg, ctx, attempt, outcome, st).Done?
  {
  }

  /** One attempt adds exactly one upstream call; the last attempt always returns. */
  lemma StepCounts(cfg: RetryConfig, ctx: RequestContext, attempt: nat, outcome: Outcome, st: LoopState)
    ensures CallCount(Step(cfg, ctx, attempt, outcome, st).st.trace) == CallCount(st.trace) + 1
    ensures attempt >= cfg.maxRetries ==> Step(cfg, ctx, attempt, outcome, st).Done?
  {
    StepIsOneAttempt(cfg, ctx, attempt, outcome, st);
    OneAttemptCounts(st.trace, Step(cfg, ctx, attempt, outcome, st).st.trace, st.file);
    if attempt >= cfg.maxRetries {
      LastAttemptReturns(cfg, ctx, attempt, outcome, st);
    }
  }

  lemma {:induction false} LoopBound(cfg: RetryConfig, ctx: RequestContext, upstream: seq<Outcome>, attempt: nat, st: LoopState)
    requires cfg.maxRetries < |upstream| && attempt <= cfg.maxRetries + 1
    ensures var d := Loop(cfg, ctx, upstream, attempt, st);
      && CallCount(d.trace) <= CallCount(st.trace) + (cfg.maxRetries + 1 - attempt)
      && (attempt <= cfg.maxRetries ==> d.resp != Error(429, MaxRetriesExceeded))
    decreases |upstream| - attempt
  {
    if attempt <= cfg.maxRetries {
      var r := Step(cfg, ctx, attempt, upstream[attempt], st);
      StepCounts(cfg, ctx, attempt, upstream[attempt], st);
      if r.Next? {
        LoopBound(cfg, ctx, upstream, attempt + 1, r.st);
      }
    }
  }

  /**
    At most `max_retries + 1` upstream attempts. With `max_retries >= 0` the
    loop always returns from inside, so the "Max retries exceeded" fallback is
    unreachable; with a negative budget it is all that happens.
  */
  lemma DispatchAttemptBound(cfg: RetryConfig, ctx: RequestContext, upstream: seq<Outcome>, p: PoolState)
    requires cfg.maxRetries < |upstream|
    ensures var d := Dispatch(cfg, ctx, upstream, p);
      && CallCount(d.trace) <= (if cfg.maxRetries < 0 then 0 else cfg.maxRetries + 1)
      && (cfg.maxRetries >= 0 ==> d.resp != Error(429, MaxRetriesExceeded))
  {
    var (r, p1) := GetValid(p);
    if r.Some? && PrepareRequest(ctx.payload, r.value.data, ctx.usePublicApi, ctx.userAgent).Ok? {
      if cfg.maxRetries >= 0 {
        LoopBound(cfg, ctx, upstream, 0, LoopState(p1, r.value.name, []));
      }
    }
  }

  /** Without a valid credential the request fails with 500 before any upstream attempt. */
  lemma NoCredentialNoAttempt(cfg: RetryConfig, ctx: RequestContext, upstream: seq<Outcome>, p: PoolState)
    requires cfg.maxRetries < |upstream|
    requires AllDisabled(p.creds)
    ensures Dispatch(cfg, ctx, upstream, p) == Dispatched(Error(500, NoValidCredentials), [], p)
  {
    GetValidSound(p);
  }

  /** A negative retry budget makes no attempt at all and returns the fallback 429. */
  lemma NegativeBudgetNoAttempt(cfg: RetryConfig, ctx: RequestContext, upstream: seq<Outcome>, p: PoolState)
    requires cfg.maxRetries < 0
    requires var r := GetValid(p).0;
      r.Some? && PrepareRequest(ctx.payload, r.value.data, ctx.usePublicApi, ctx.userAgent).Ok?
    ensures Dispatch(cfg, ctx, upstream, p).resp == Error(429, MaxRetriesExceeded)
    ensures Dispatch(cfg, ctx, upstream, p).trace == []
  {
  }

  ghost predicate SomeAttemptGot(upstream: seq<Outcome>, bound: int, code: int)
  {
    exists i :: 0 <= i < |upstream| && i <= bound && upstream[i] == Status(code)
  }

  lemma {:induction false} LoopResponseSound(cfg: RetryConfig, ctx: RequestContext, upstream: seq<Outcome>, attempt: nat, st: LoopState)
    requires cfg.maxRetries < |upstream|
    ensures var resp := Loop(cfg, ctx, upstream, attempt, st).resp;
      && (resp == Success ==> SomeAttemptGot(upstream, cfg.maxRetries, 200))
      && (resp.Error? && resp.kind.ApiError? ==>
            resp.code == resp.kind.status && resp.code != 200 && resp.code != 429 &&
            SomeAttemptGot(upstream, cfg.maxRetries, resp.code))
    decreases |upstream| - attempt
  {
    if attempt <= cfg.maxRetries {
      var r := Step(cfg, ctx, attempt, upstream[attempt], st);
      if r.Next? {
        LoopResponseSound(cfg, ctx, upstream, attempt + 1, r.st);
      }
    }
  }

  /**
    A success is only ever reported after an upstream 200, and an "API error"
    carries a non-200, non-429 status the upstream actually returned: no
    failure is turned into an empty success.
  */
  lemma DispatchResponseSound(cfg: RetryConfig, ctx: RequestContext, upstream: seq<Outcome>, p: PoolState)
    requires cfg.maxRetries < |upstream|
    ensures var resp := Dispatch(cfg, ctx, upstream, p).resp;
      && (resp == Success ==> SomeAttemptGot(upstream, cfg.maxRetries, 200))
      && (resp.Error? && resp.kind.ApiError? ==>
            resp.code == resp.kind.status && SomeAttemptGot(upstream, cfg.maxRetries, resp.code))
  {
    var (r, p1) := GetValid(p);
    if r.Some? {
      LoopResponseSound(cfg, ctx, upstream, 0, LoopState(p1, r.value.name, []));
    }
  }

  /** The back-off doubles from one attempt to the next. */
  lemma DelayDoubles(cfg: RetryConfig, attempt: nat)
    ensures Delay(cfg, attempt + 1) == 2 * Delay(cfg, attempt)
    ensures cfg.retryIntervalMs > 0 ==> Delay(cfg, attempt) < Delay(cfg, attempt + 1)
  {
    assert Pow2(attempt + 1) == 2 * Pow2(attempt);
    assert cfg.retryIntervalMs * (2 * Pow2(attempt)) == 2 * (cfg.retryIntervalMs * Pow2(attempt));
  }

  // ---------------------------------------------------------------------
  // One attempt, branch by branch
  // ---------------------------------------------------------------------

  /** Same credentials (no ban) and the same cursor (no rotation). */
  ghost predicate SameCredentials(p: PoolState, q: PoolState)
  {
    p.creds == q.creds && p.cursor == q.cursor
  }

  /**
    429 with retry enabled and budget left: one 429 record; the cursor moves
    one step round the ring and the manager then hands out the first enabled
    credential from there, which the next attempt uses unless preparing it
    raised; nothing is disabled, and the loop still sleeps
    `retry_interval * 2**attempt` (the rotation does not skip the back-off).
    Otherwise a 429 error with no sleep and no rotation.
  */
  lemma RateLimitedStep(cfg: RetryConfig, ctx: RequestContext, attempt: nat, st: LoopState)
    ensures var r := Step(cfg, ctx, attempt, Status(429), st);
      var recorded := RecordIf(st.pool, st.file, false, Some(429));
      var rotated := Rotate(recorded);
      var got := GetValid(rotated).0;
      && r.st.pool.creds == st.pool.creds
      && r.st.pool.calls == recorded.calls
      && (cfg.retry429Enabled && attempt < cfg.maxRetries ==>
            && r.Next? && r.st.trace == st.trace + [Call(st.file), Sleep(Delay(cfg, attempt))]
            && (|st.pool.creds| > 0 ==> rotated.cursor == (st.pool.cursor + 1) % |st.pool.creds|)
            && r.st.pool == GetValid(rotated).1
            && (got.Some? ==>
                  && r.st.pool.cursor < |r.st.pool.creds|
                  && r.st.pool.creds[r.st.pool.cursor].name == got.value.name
                  && !r.st.pool.creds[r.st.pool.cursor].disabled)
            && (r.st.file == st.file || (got.Some? && r.st.file == got.value.name))
            && (got.Some? && PrepareRequest(ctx.payload, got.value.data, ctx.usePublicApi, ctx.userAgent).Ok? ==>
                  r.st.file == got.value.name))
      && (!(cfg.retry429Enabled && attempt < cfg.maxRetries) ==>
            r.Done? && r.resp == Error(429, RateLimitExhausted) &&
            r.st.trace == st.trace + [Call(st.file)] && SameCredentials(r.st.pool, st.pool))
  {
    var st1 := st.(trace := st.trace + [Call(st.file)]);
    var st2 := st1.(pool := RecordIf(st1.pool, st1.file, false, Some(429)));
    if cfg.retry429Enabled && attempt < cfg.maxRetries {
      var rotated := Rotate(st2.pool);
      GetValidSound(rotated);
      NextCredentialFile(ctx, rotated, st.file);
      var nc := NextCredential(ctx, rotated, st.file);
      ResumeContinues(cfg, attempt, st2, nc, Delay(cfg, attempt));
    }
  }


  /** 5xx with budget left: the same credential again after `retry_interval * 2**attempt`; no rotation, no ban. */
  lemma ServerErrorStep(cfg: RetryConfig, ctx: RequestContext, attempt: nat, code: int, st: LoopState)
    requires 500 <= code < 600 && attempt < cfg.maxRetries
    ensures var r := Step(cfg, ctx, attempt, Status(code), st);
      && r.Next? && r.st.file == st.file
      && r.st.trace == st.trace + [Call(st.file), Sleep(Delay(cfg, attempt))]
      && SameCredentials(r.st.pool, st.pool)
      && r.st.pool.calls == (if ctx.streaming then st.pool.calls + (if st.file != "" then [CallResult(st.file, false, Some(code))] else [])
                             else st.pool.calls)
  {
  }

  /** The credential at the cursor, when it is the one in use and still enabled. */
  ghost predicate CursorOn(p: PoolState, file: string)
  {
    p.cursor < |p.creds| && p.creds[p.cursor].name == file && !p.creds[p.cursor].disabled
  }

  /** An auto-ban status with budget left reaches `OnAutoBan` with the error recorded once. */
  lemma AutoBanStepUnfolds(cfg: RetryConfig, ctx: RequestContext, attempt: nat, code: int, st: LoopState)
    requires ShouldAutoBan(cfg, code) && attempt < cfg.maxRetries && code != 429 && code != 200
    requires !(500 <= code < 600)
    ensures Step(cfg, ctx, attempt, Status(code), st)
         == OnAutoBan(cfg, ctx, attempt, code, LoopState(RecordIf(st.pool, st.file, false, Some(code)), st.file, st.trace + [Call(st.file)]))
  {
  }

  /** After `_get_next_credential` the loop sleeps once and continues, with the new file unless preparing it raised. */
  lemma ResumeContinues(cfg: RetryConfig, attempt: nat, st: LoopState, nc: NextCred, ms: nat)
    requires attempt < cfg.maxRetries
    ensures var r := Resume(cfg, attempt, st, nc, ms);
      && r.Next? && r.st.pool == nc.pool
      && r.st.file == (if nc.raised then st.file else nc.file)
      && r.st.trace == st.trace + [Sleep(if nc.raised then Delay(cfg, attempt) else ms)]
  {
  }

  /** `_get_next_credential` keeps the old file or switches to the one the manager handed out. */
  lemma NextCredentialFile(ctx: RequestContext, p: PoolState, file: string)
    ensures var nc := NextCredential(ctx, p, file);
      && nc.pool == GetValid(p).1
      && (nc.file == file || (GetValid(p).0.Some? && nc.file == GetValid(p).0.value.name))
      && (GetValid(p).0.None? ==> nc.file == file && !nc.raised)
  {
  }

  lemma GetValidAtCursor(p: PoolState, file: string)
    requires CursorOn(p, file)
    ensures GetValid(p) == (Some(Acquired(file, p.creds[p.cursor].data)), p)
  {
    assert p.cursor % |p.creds| == p.cursor;
  }

  /**
    400/401/404 that is an auto-ban code, with budget left and a successful
    refresh: nothing is disabled or rotated, the same credential is acquired
    again, and the loop sleeps 0.5 s.
  */
  lemma RefreshSucceededStep(cfg: RetryConfig, ctx: RequestContext, attempt: nat, code: int, st: LoopState)
    requires RefreshFirst(code) && ShouldAutoBan(cfg, code) && attempt < cfg.maxRetries
    requires ForceRefresh(st.pool).0
    requires CursorOn(st.pool, st.file)
    requires PrepareRequest(ctx.payload, st.pool.creds[st.pool.cursor].data, ctx.usePublicApi, ctx.userAgent).Ok?
    ensures var r := Step(cfg, ctx, attempt, Status(code), st);
      && r.Next? && r.st.file == st.file
      && SameCredentials(r.st.pool, st.pool)
      && r.st.trace == st.trace + [Call(st.file), Sleep(ShortDelayMs)]
  {
    var st2 := LoopState(RecordIf(st.pool, st.file, false, Some(code)), st.file, st.trace + [Call(st.file)]);
    AutoBanStepUnfolds(cfg, ctx, attempt, code, st);
    var p1 := ForceRefresh(st2.pool).1;
    assert ForceRefresh(st2.pool).0;
    assert CursorOn(p1, st.file);
    GetValidAtCursor(p1, st.file);
    var nc := NextCredential(ctx, p1, st.file);
    assert nc == NextCred(p1, st.file, false);
    assert OnAutoBan(cfg, ctx, attempt, code, st2) == Resume(cfg, attempt, st2, nc, ShortDelayMs);
    ResumeContinues(cfg, attempt, st2, nc, ShortDelayMs);
  }

  /**
    An auto-ban code with budget left whose refresh failed (or that is not
    refreshed at all): every credential of the file in use is disabled, and
    the next attempt goes out either with a credential that is still enabled
    or, when none could be acquired and prepared, with the old file name.
  */
  lemma BanStep(cfg: RetryConfig, ctx: RequestContext, attempt: nat, code: int, st: LoopState)
    requires ShouldAutoBan(cfg, code) && attempt < cfg.maxRetries && code != 429 && code != 200
    requires !(500 <= code < 600)
    requires RefreshFirst(code) ==> !ForceRefresh(st.pool).0
    requires st.file != ""
    ensures var r := Step(cfg, ctx, attempt, Status(code), st);
      && r.Next?
      && (forall i :: 0 <= i < |r.st.pool.creds| && r.st.pool.creds[i].name == st.file ==> r.st.pool.creds[i].disabled)
      && (r.st.file == st.file ||
          exists i :: 0 <= i < |r.st.pool.creds| && r.st.pool.creds[i].name == r.st.file && !r.st.pool.creds[i].disabled)
      && (exists ms :: r.st.trace == st.trace + [Call(st.file), Sleep(ms)])
  {
    var st2 := LoopState(RecordIf(st.pool, st.file, false, Some(code)), st.file, st.trace + [Call(st.file)]);
    AutoBanStepUnfolds(cfg, ctx, attempt, code, st);
    var p3 := if RefreshFirst(code) then ForceRefresh(st2.pool).1 else st2.pool;
    assert RefreshFirst(code) ==> !ForceRefresh(st2.pool).0;
    assert OnAutoBan(cfg, ctx, attempt, code, st2) == BanAndRotate(cfg, ctx, attempt, st2.(pool := p3));
    BanAndRotateSpec(cfg, ctx, attempt, st2.(pool := p3));
  }

  /** `_handle_auto_ban` then re-acquire: the file is disabled everywhere and the loop sleeps once with a usable file. */
  lemma BanAndRotateSpec(cfg: RetryConfig, ctx: RequestContext, attempt: nat, st: LoopState)
    requires attempt < cfg.maxRetries && st.file != ""
    ensures var r := BanAndRotate(cfg, ctx, attempt, st);
      && r.Next?
      && (forall i :: 0 <= i < |r.st.pool.creds| && r.st.pool.creds[i].name == st.file ==> r.st.pool.creds[i].disabled)
      && (r.st.file == st.file ||
          exists i :: 0 <= i < |r.st.pool.creds| && r.st.pool.creds[i].name == r.st.file && !r.st.pool.creds[i].disabled)
      && (exists ms :: r.st.trace == st.trace + [Sleep(ms)])
  {
    var banned := HandleAutoBan(st.pool, st.file);
    var nc := NextCredential(ctx, banned, st.file);
    ResumeContinues(cfg, attempt, st, nc, ShortDelayMs);
    NextCredentialFile(ctx, banned, st.file);
    GetValidSound(banned);
    var r := BanAndRotate(cfg, ctx, attempt, st);
    assert r.st.pool.creds == banned.creds;
    if r.st.file != st.file {
      var j := GetValid(banned).1.cursor;
      assert r.st.pool.creds[j].name == r.st.file && !r.st.pool.creds[j].disabled;
    }
    var ms := if nc.raised then Delay(cfg, attempt) else ShortDelayMs;
    assert r.st.trace == st.trace + [Sleep(ms)];
  }


  /**
    When the banned credential is the only one, `_get_next_credential` finds
    nothing and the loop keeps `current_file`: the next attempt goes out with
    the credential that was just disabled.
  */
  lemma BannedLastCredentialReused(cfg: RetryConfig, ctx: RequestContext, attempt: nat, st: LoopState)
    requires ShouldAutoBan(cfg, 403) && attempt < cfg.maxRetries
    requires |st.pool.creds| == 1 && st.pool.creds[0].name == st.file && st.file != ""
    ensures var r := Step(cfg, ctx, attempt, Status(403), st);
      && r.Next? && r.st.file == st.file && r.st.pool.creds[0].disabled
      && r.st.trace == st.trace + [Call(st.file), Sleep(ShortDelayMs)]
  {
    var st1 := st.(trace := st.trace + [Call(st.file)]);
    var st2 := st1.(pool := RecordIf(st1.pool, st1.file, false, Some(403)));
    var p3 := HandleAutoBan(st2.pool, st.file);
    assert AllDisabled(p3.creds);
    GetValidSound(p3);
  }

  /**
    A status that is neither retried nor auto-banned with budget left ends
    the request with an error carrying that status; `_handle_api_error`
    disables and rotates only for an enabled auto-ban code.
  */
  lemma TerminalErrorStep(cfg: RetryConfig, ctx: RequestContext, attempt: nat, code: int, st: LoopState)
    requires code != 200 && code != 429
    requires !(500 <= code < 600 && attempt < cfg.maxRetries)
    requires !(ShouldAutoBan(cfg, code) && attempt < cfg.maxRetries)
    ensures var r := Step(cfg, ctx, attempt, Status(code), st);
      && r == Done(Error(code, ApiError(code)), r.st)
      && r.st.trace == st.trace + [Call(st.file)]
      && r.st.pool.calls == st.pool.calls + (if st.file != "" then [CallResult(st.file, false, Some(code))] else [])
      && (!ShouldAutoBan(cfg, code) ==> SameCredentials(r.st.pool, st.pool))
      && (ShouldAutoBan(cfg, code) ==> r.st.pool == HandleAutoBanTerminal(st.pool, st.file, code))
  {
  }

  /** `_handle_api_error` for an enabled auto-ban code other than 429, after the error was recorded. */
  function HandleAutoBanTerminal(p: PoolState, file: string, code: int): PoolState
  {
    var recorded := RecordIf(p, file, false, Some(code));
    Rotate(if file != "" then SetDisabled(recorded, file) else recorded)
  }

  /** `_handle_api_error` changes the pool only for 429 (rotate) and enabled auto-ban codes (disable, rotate). */
  lemma HandleApiErrorScope(cfg: RetryConfig, p: PoolState, code: int, file: string)
    ensures code != 429 && !ShouldAutoBan(cfg, code) ==> HandleApiError(cfg, p, code, file) == p
    ensures code == 429 ==> HandleApiError(cfg, p, code, file) == Rotate(p)
    ensures code != 429 && ShouldAutoBan(cfg, code) && file != "" ==>
      forall i :: 0 <= i < |p.creds| && p.creds[i].name == file ==> HandleApiError(cfg, p, code, file).creds[i].disabled
  {
  }

  /** An exception backs off like a 5xx while budget is left, and then fails with "Request failed". */
  lemma ExceptionStep(cfg: RetryConfig, ctx: RequestContext, attempt: nat, st: LoopState)
    ensures var r := Step(cfg, ctx, attempt, Raised, st);
      && r.st.pool == st.pool && r.st.file == st.file
      && (attempt < cfg.maxRetries ==> r.Next? && r.st.trace == st.trace + [Call(st.file), Sleep(Delay(cfg, attempt))])
      && (attempt >= cfg.maxRetries ==> r == Done(Error(500, RequestFailed), st.(trace := st.trace + [Call(st.file)])))
  {
  }

  /** A 200 ends the request; a non-streamed success is recorded, a streamed one only once the stream is read. */
  lemma SuccessStep(cfg: RetryConfig, ctx: RequestContext, attempt: nat, st: LoopState)
    ensures var r := Step(cfg, ctx, attempt, Status(200), st);
      && r.Done? && r.resp == Success && r.st.trace == st.trace + [Call(st.file)]
      && SameCredentials(r.st.pool, st.pool)
      && r.st.pool.calls == (if !ctx.streaming && st.file != "" then st.pool.calls + [CallResult(st.file, true, None)]
                             else st.pool.calls)
  {
  }
}
