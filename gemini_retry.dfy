/**
  The retry loop of `send_gemini_request` (src/google_chat_api.py) and its
  helpers `_handle_api_error`, `_check_should_auto_ban`, `_handle_auto_ban`
  and `_get_next_credential`.

  The upstream is an oracle: attempt `a` gets `upstream[a]`, either an HTTP
  status or a raised exception. Every `asyncio.sleep` becomes a `Sleep`
  entry of the trace, in milliseconds. The streaming and non-streaming
  branches of the source share one loop; `streaming` selects the few places
  where they differ (when an error status is recorded, and that a streamed
  success is recorded only later, while the stream is read).

  The functions below specify one attempt (`Step`) and the whole request
  (`Dispatch`); the methods at the end run the same policy against a
  `Pool` object updated in place and are proved to agree with them.
*/
module GeminiRetry {
  import opened Wrappers
  import opened CredentialPool
  import opened GeminiPayload

  /** The configuration getters read at the start of a request. */
  datatype RetryConfig = RetryConfig(
    maxRetries: int,            // get_retry_429_max_retries
    retry429Enabled: bool,      // get_retry_429_enabled
    retryIntervalMs: nat,       // get_retry_429_interval, in milliseconds
    autoBanEnabled: bool,       // get_auto_ban_enabled
    autoBanCodes: set<int>)     // get_auto_ban_error_codes

  /** Everything about the request that does not change between attempts. */
  datatype RequestContext = RequestContext(
    payload: Payload,
    streaming: bool,
    usePublicApi: bool,         // base model name is in PUBLIC_API_MODELS
    userAgent: string)

  /** What one upstream attempt produced. */
  datatype Outcome = Status(code: int) | Raised

  datatype ErrorKind =
    | NoCredentialManager       // "Credential manager not provided"
    | NoValidCredentials        // "No valid credentials available"
    | PrepareFailed(reason: PrepareError)
    | RateLimitExhausted        // "429 rate limit exceeded, max retries reached"
    | ApiError(status: int)     // "API error: {status}"
    | RequestFailed             // "Request failed: {exception}"
    | MaxRetriesExceeded        // the fallback after the loop

  /** The response handed back to the caller: success and error are disjoint. */
  datatype Response = Success | Error(code: int, kind: ErrorKind)

  datatype Event = Call(file: string) | Sleep(ms: nat)

  /** The loop's variables between attempts: the pool, `current_file` and the trace so far. */
  datatype LoopState = LoopState(pool: PoolState, file: string, trace: seq<Event>)

  datatype StepResult = Done(resp: Response, st: LoopState) | Next(st: LoopState)

  /** What `_get_next_credential` left behind; `raised` when preparing the new credential raised. */
  datatype NextCred = NextCred(pool: PoolState, file: string, raised: bool)

  datatype Dispatched = Dispatched(resp: Response, trace: seq<Event>, pool: PoolState)

  /** `asyncio.sleep(0.5)` after a refresh or a ban. */
  const ShortDelayMs: nat := 500

  /** `2 ** n`: positive, larger than `n`, and even once `n > 0`. */
  function Pow2(n: nat): (r: nat)
    ensures r >= 1 && r > n
    ensures n > 0 ==> r % 2 == 0
  {
    if n == 0 then 1 else 2 * Pow2(n - 1)
  }

  /** `retry_interval * (2 ** attempt)`. */
  function Delay(cfg: RetryConfig, attempt: nat): nat
  {
    cfg.retryIntervalMs * Pow2(attempt)
  }

  /** `_check_should_auto_ban`. */
  predicate ShouldAutoBan(cfg: RetryConfig, code: int)
  {
    cfg.autoBanEnabled && code in cfg.autoBanCodes
  }

  /** The codes for which a token refresh is tried before banning. */
  predicate RefreshFirst(code: int)
  {
    code == 400 || code == 401 || code == 404
  }

  /** `record_api_call_result`, guarded by `credential_manager and current_file`. */
  function RecordIf(p: PoolState, file: string, success: bool, code: Option<int>): PoolState
  {
    if file != "" then Record(p, file, success, code) else p
  }

  /** `_handle_auto_ban`: disable the file and rotate, both only when a file name is known. */
  function HandleAutoBan(p: PoolState, file: string): PoolState
  {
    if file != "" then Rotate(SetDisabled(p, file)) else p
  }

  /** `_handle_api_error`: rotate on 429; for an auto-ban code disable the file (if known), then rotate. */
  function HandleApiError(cfg: RetryConfig, p: PoolState, code: int, file: string): PoolState
  {
    if code == 429 then Rotate(p)
    else if ShouldAutoBan(cfg, code) then Rotate(if file != "" then SetDisabled(p, file) else p)
    else p
  }

  /** `_get_next_credential` followed by the assignment of its result. */
  function NextCredential(ctx: RequestContext, p: PoolState, file: string): NextCred
  {
    var (r, p1) := GetValid(p);
    if r.None? then NextCred(p1, file, false)
    else if PrepareRequest(ctx.payload, r.value.data, ctx.usePublicApi, ctx.userAgent).Err? then NextCred(p1, file, true)
    else NextCred(p1, r.value.name, false)
  }

  function Slept(st: LoopState, ms: nat): LoopState
  {
    st.(trace := st.trace + [Sleep(ms)])
  }

  /** The `except Exception` arm: back off and retry while budget is left, else fail. */
  function OnException(cfg: RetryConfig, attempt: nat, st: LoopState): StepResult
  {
    if attempt < cfg.maxRetries then Next(Slept(st, Delay(cfg, attempt)))
    else Done(Error(500, RequestFailed), st)
  }

  /** After `_get_next_credential`: sleep and continue, unless preparing the new credential raised. */
  function Resume(cfg: RetryConfig, attempt: nat, st: LoopState, nc: NextCred, ms: nat): StepResult
  {
    if nc.raised then OnException(cfg, attempt, st.(pool := nc.pool))
    else Next(Slept(LoopState(nc.pool, nc.file, st.trace), ms))
  }

  /** Status 429: record it; with retry enabled and budget left rotate, re-acquire and back off. */
  function OnRateLimited(cfg: RetryConfig, ctx: RequestContext, attempt: nat, st: LoopState): StepResult
  {
    var st1 := st.(pool := RecordIf(st.pool, st.file, false, Some(429)));
    if cfg.retry429Enabled && attempt < cfg.maxRetries then
      Resume(cfg, attempt, st1, NextCredential(ctx, Rotate(st1.pool), st1.file), Delay(cfg, attempt))
    else Done(Error(429, RateLimitExhausted), st1)
  }

  /** `_handle_auto_ban`, re-acquire, and a short sleep. */
  function BanAndRotate(cfg: RetryConfig, ctx: RequestContext, attempt: nat, st: LoopState): StepResult
  {
    Resume(cfg, attempt, st, NextCredential(ctx, HandleAutoBan(st.pool, st.file), st.file), ShortDelayMs)
  }

  /** An auto-ban code with budget left: refresh first for 400/401/404, otherwise (or if that fails) ban. */
  function OnAutoBan(cfg: RetryConfig, ctx: RequestContext, attempt: nat, code: int, st: LoopState): StepResult
  {
    if RefreshFirst(code) then
      var (ok, p1) := ForceRefresh(st.pool);
      if ok then Resume(cfg, attempt, st, NextCredential(ctx, p1, st.file), ShortDelayMs)
      else BanAndRotate(cfg, ctx, attempt, st.(pool := p1))
    else BanAndRotate(cfg, ctx, attempt, st)
  }

  /** Any other non-200 status: 5xx backs off on the same credential, then auto-ban, else a terminal error. */
  function OnUpstreamError(cfg: RetryConfig, ctx: RequestContext, attempt: nat, code: int, st: LoopState): StepResult
  {
    var st1 := if ctx.streaming then st.(pool := RecordIf(st.pool, st.file, false, Some(code))) else st;
    if 500 <= code < 600 && attempt < cfg.maxRetries then Next(Slept(st1, Delay(cfg, attempt)))
    else
      var st2 := if ctx.streaming then st1 else st1.(pool := RecordIf(st1.pool, st1.file, false, Some(code)));
      if ShouldAutoBan(cfg, code) && attempt < cfg.maxRetries then OnAutoBan(cfg, ctx, attempt, code, st2)
      else Done(Error(code, ApiError(code)), st2.(pool := HandleApiError(cfg, st2.pool, code, st2.file)))
  }

  /** One iteration of `for attempt in range(max_retries + 1)`. */
  function Step(cfg: RetryConfig, ctx: RequestContext, attempt: nat, outcome: Outcome, st: LoopState): StepResult
  {
    var st1 := st.(trace := st.trace + [Call(st.file)]);
    match outcome
    case Raised => OnException(cfg, attempt, st1)
    case Status(code) =>
      if code == 429 then OnRateLimited(cfg, ctx, attempt, st1)
      else if code != 200 then OnUpstreamError(cfg, ctx, attempt, code, st1)
      else Done(Success, if ctx.streaming then st1 else st1.(pool := RecordIf(st1.pool, st1.file, true, None)))
  }

  /** The loop from `attempt` on; after the last attempt, the fallback error. */
  function Loop(cfg: RetryConfig, ctx: RequestContext, upstream: seq<Outcome>, attempt: nat, st: LoopState): Dispatched
    requires cfg.maxRetries < |upstream|
    decreases |upstream| - attempt
  {
    if attempt > cfg.maxRetries then Dispatched(Error(429, MaxRetriesExceeded), st.trace, st.pool)
    else match Step(cfg, ctx, attempt, upstream[attempt], st)
      case Done(resp, st1) => Dispatched(resp, st1.trace, st1.pool)
      case Next(st1) => Loop(cfg, ctx, upstream, attempt + 1, st1)
  }

  /** `send_gemini_request` given a credential manager: acquire and prepare, then the loop. */
  function Dispatch(cfg: RetryConfig, ctx: RequestContext, upstream: seq<Outcome>, p: PoolState): Dispatched
    requires cfg.maxRetries < |upstream|
  {
    var (r, p1) := GetValid(p);
    if r.None? then Dispatched(Error(500, NoValidCredentials), [], p1)
    else match PrepareRequest(ctx.payload, r.value.data, ctx.usePublicApi, ctx.userAgent)
      case Err(e) => Dispatched(Error(500, PrepareFailed(e)), [], p1)
      case Ok(_) => Loop(cfg, ctx, upstream, 0, LoopState(p1, r.value.name, []))
  }

  // ---------------------------------------------------------------------
  // The loop against a credential manager object
  // ---------------------------------------------------------------------

  method GetNextCredential(pool: Pool, ctx: RequestContext, file: string) returns (nc: NextCred)
    modifies pool
    ensures nc == NextCredential(ctx, old(pool.Model()), file) && nc.pool == pool.Model()
  {
    var r := pool.GetValidCredential();
    nc := NextCred(pool.Model(), file, false);
    if r.Some? {
      var prepared := PrepareRequest(ctx.payload, r.value.data, ctx.usePublicApi, ctx.userAgent);
      if prepared.Err? {
        nc := nc.(raised := true);
      } else {
        nc := nc.(file := r.value.name);
      }
    }
  }

  method RecordIfKnown(pool: Pool, file: string, success: bool, code: Option<int>)
    modifies pool
    ensures pool.Model() == RecordIf(old(pool.Model()), file, success, code)
  {
    if file != "" {
      pool.RecordApiCallResult(file, success, code);
    }
  }

  method HandleAutoBanM(pool: Pool, file: string)
    modifies pool
    ensures pool.Model() == HandleAutoBan(old(pool.Model()), file)
  {
    if file != "" {
      pool.SetCredDisabled(file);
      pool.ForceRotateCredential();
    }
  }

  method HandleApiErrorM(pool: Pool, cfg: RetryConfig, code: int, file: string)
    modifies pool
    ensures pool.Model() == HandleApiError(cfg, old(pool.Model()), code, file)
  {
    if code == 429 {
      pool.ForceRotateCredential();
    } else if cfg.autoBanEnabled && code in cfg.autoBanCodes {
      if file != "" {
        pool.SetCredDisabled(file);
      }
      pool.ForceRotateCredential();
    }
  }

  /** The `continue` after `_get_next_credential`, or the `except` arm if it raised. */
  method ResumeM(pool: Pool, cfg: RetryConfig, attempt: nat, trace: seq<Event>, nc: NextCred, ms: nat, file: string)
    returns (r: StepResult)
    requires nc.pool == pool.Model()
    ensures r == Resume(cfg, attempt, LoopState(pool.Model(), file, trace), nc, ms)
    ensures r.st.pool == pool.Model()
  {
    if nc.raised {
      if attempt < cfg.maxRetries {
        r := Next(LoopState(pool.Model(), file, trace + [Sleep(Delay(cfg, attempt))]));
      } else {
        r := Done(Error(500, RequestFailed), LoopState(pool.Model(), file, trace));
      }
    } else {
      r := Next(LoopState(pool.Model(), nc.file, trace + [Sleep(ms)]));
    }
  }

  method OnAutoBanM(pool: Pool, cfg: RetryConfig, ctx: RequestContext, attempt: nat, code: int, file: string, trace: seq<Event>)
    returns (r: StepResult)
    modifies pool
    ensures r == OnAutoBan(cfg, ctx, attempt, code, LoopState(old(pool.Model()), file, trace))
    ensures r.st.pool == pool.Model()
  {
    if code == 400 || code == 401 || code == 404 {
      var ok := pool.ForceRefreshCurrentToken();
      if ok {
        var nc := GetNextCredential(pool, ctx, file);
        r := ResumeM(pool, cfg, attempt, trace, nc, ShortDelayMs, file);
        return;
      }
    }
    HandleAutoBanM(pool, file);
    var nc := GetNextCredential(pool, ctx, file);
    r := ResumeM(pool, cfg, attempt, trace, nc, ShortDelayMs, file);
  }

  method OnUpstreamErrorM(pool: Pool, cfg: RetryConfig, ctx: RequestContext, attempt: nat, code: int, file: string, trace: seq<Event>)
    returns (r: StepResult)
    modifies pool
    ensures r == OnUpstreamError(cfg, ctx, attempt, code, LoopState(old(pool.Model()), file, trace))
    ensures r.st.pool == pool.Model()
  {
    if ctx.streaming {
      RecordIfKnown(pool, file, false, Some(code));
    }
    if 500 <= code < 600 && attempt < cfg.maxRetries {
      return Next(LoopState(pool.Model(), file, trace + [Sleep(Delay(cfg, attempt))]));
    }
    if !ctx.streaming {
      RecordIfKnown(pool, file, false, Some(code));
    }
    if cfg.autoBanEnabled && code in cfg.autoBanCodes && attempt < cfg.maxRetries {
      r := OnAutoBanM(pool, cfg, ctx, attempt, code, file, trace);
    } else {
      HandleApiErrorM(pool, cfg, code, file);
      r := Done(Error(code, ApiError(code)), LoopState(pool.Model(), file, trace));
    }
  }

  method OnRateLimitedM(pool: Pool, cfg: RetryConfig, ctx: RequestContext, attempt: nat, file: string, trace: seq<Event>)
    returns (r: StepResult)
    modifies pool
    ensures r == OnRateLimited(cfg, ctx, attempt, LoopState(old(pool.Model()), file, trace))
    ensures r.st.pool == pool.Model()
  {
    RecordIfKnown(pool, file, false, Some(429));
    if cfg.retry429Enabled && attempt < cfg.maxRetries {
      var delay := Delay(cfg, attempt);
      pool.ForceRotateCredential();
      var nc := GetNextCredential(pool, ctx, file);
      r := ResumeM(pool, cfg, attempt, trace, nc, delay, file);
    } else {
      r := Done(Error(429, RateLimitExhausted), LoopState(pool.Model(), file, trace));
    }
  }

  /** One attempt: the upstream call and the branch its outcome selects. */
  method Attempt(pool: Pool, cfg: RetryConfig, ctx: RequestContext, attempt: nat, outcome: Outcome, file: string, trace: seq<Event>)
    returns (r: StepResult)
    modifies pool
    ensures r == Step(cfg, ctx, attempt, outcome, LoopState(old(pool.Model()), file, trace))
    ensures r.st.pool == pool.Model()
  {
    var trace1 := trace + [Call(file)];
    match outcome {
      case Raised =>
        if attempt < cfg.maxRetries {
          r := Next(LoopState(pool.Model(), file, trace1 + [Sleep(Delay(cfg, attempt))]));
        } else {
          r := Done(Error(500, RequestFailed), LoopState(pool.Model(), file, trace1));
        }
      case Status(code) =>
        if code == 429 {
          r := OnRateLimitedM(pool, cfg, ctx, attempt, file, trace1);
        } else if code != 200 {
          r := OnUpstreamErrorM(pool, cfg, ctx, attempt, code, file, trace1);
        } else {
          if !ctx.streaming {
            RecordIfKnown(pool, file, true, None);
          }
          r := Done(Success, LoopState(pool.Model(), file, trace1));
        }
    }
  }

  /**
    `send_gemini_request`. Without a credential manager it fails with 500;
    otherwise it does exactly what `Dispatch` specifies.
  */
  method SendGeminiRequest(cfg: RetryConfig, ctx: RequestContext, upstream: seq<Outcome>, manager: Pool?)
    returns (resp: Response, trace: seq<Event>)
    requires cfg.maxRetries < |upstream|
    modifies manager
    ensures manager == null ==> resp == Error(500, NoCredentialManager) && trace == []
    ensures manager != null ==>
      Dispatched(resp, trace, manager.Model()) == Dispatch(cfg, ctx, upstream, old(manager.Model()))
  {
    if manager == null {
      return Error(500, NoCredentialManager), [];
    }
    trace := [];
    var acquired := manager.GetValidCredential();
    if acquired.None? {
      return Error(500, NoValidCredentials), [];
    }
    var prepared := PrepareRequest(ctx.payload, acquired.value.data, ctx.usePublicApi, ctx.userAgent);
    if prepared.Err? {
      return Error(500, PrepareFailed(prepared.error)), [];
    }
    var file := acquired.value.name;
    var attempt: nat := 0;
    while attempt <= cfg.maxRetries
      invariant attempt <= |upstream|
      invariant Loop(cfg, ctx, upstream, attempt, LoopState(manager.Model(), file, trace))
             == Dispatch(cfg, ctx, upstream, old(manager.Model()))
      decreases |upstream| - attempt
    {
      var r := Attempt(manager, cfg, ctx, attempt, upstream[attempt], file, trace);
      if r.Done? {
        return r.resp, r.st.trace;
      }
      file, trace := r.st.file, r.st.trace;
      attempt := attempt + 1;
    }
    resp := Error(429, MaxRetriesExceeded);
  }
}
