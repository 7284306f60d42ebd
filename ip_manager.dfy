/**
  The IP access table of `IPManager` (src/ip_manager.py).

  The manager keeps a dictionary of per-IP records under the key `"ips"` of
  its cache and updates them in place; a separate file holds, per operator,
  the times of the bans that operator issued. Time is an integer number of
  seconds and the UTC+8 calendar date a string, both passed in by the caller;
  the geolocation of a new IP is passed in as well.
*/
module IpManager {
  import opened Wrappers

  const BanSeconds: int := 86400            // automatic unban after 24 hours
  const DefaultRateLimitSeconds: int := 60
  const MinTodayRequestsToBan: nat := 80
  const MaxBanOperations: nat := 3          // per operator ...
  const BanOperationWindow: int := 3600     // ... per hour
  const MaxUserAgents: nat := 10
  const DaySeconds: int := 86400

  datatype IpStatus = Active | Banned | RateLimited

  /** One entry of `_ip_cache["ips"]`; a key the source reads with a default holds that default when absent. */
  datatype IpRecord = IpRecord(
    status: IpStatus,
    bannedTime: int,                  // `banned_time`, 0 when absent
    lastRequestTime: int,             // `last_request_time`, 0 when absent
    rateLimitSeconds: Option<int>,    // `rate_limit_seconds`; absent means 60
    totalRequests: nat,
    todayRequests: nat,
    todayDate: string,                // `today_date`, "" when absent
    userAgents: seq<string>,
    modelsUsed: map<string, nat>,
    endpoints: map<string, nat>,
    location: string)

  /**
    The manager's state: whether the cache has an `"ips"` table, that table,
    its keys in insertion order (the order in which the source iterates it),
    `_cache_dirty`, and the contents of the ban-operations file.
  */
  datatype Table = Table(
    hasIps: bool,
    ips: map<string, IpRecord>,
    order: seq<string>,
    dirty: bool,
    banOps: map<string, seq<int>>)

  ghost predicate Distinct(s: seq<string>)
  {
    forall i, j :: 0 <= i < j < |s| ==> s[i] != s[j]
  }

  /** `order` lists each key of the table exactly once; without a table there are no records. */
  ghost predicate WellFormed(t: Table)
  {
    && Distinct(t.order)
    && (forall ip :: ip in t.ips <==> ip in t.order)
    && (!t.hasIps ==> t.ips == map[])
  }

  /** Python truthiness of an optional string. */
  predicate Truthy(s: Option<string>)
  {
    s.Some? && s.value != ""
  }

  function NewRecord(status: IpStatus, date: string, location: string): IpRecord
  {
    IpRecord(status, 0, 0, None, 0, 0, date, [], map[], map[], location)
  }

  // ---------------------------------------------------------------------
  // Gating: bans, automatic unban, rate limits
  // ---------------------------------------------------------------------

  predicate BanExpired(r: IpRecord, now: int)
  {
    r.bannedTime > 0 && now - r.bannedTime >= BanSeconds
  }

  predicate ExpiredBan(r: IpRecord, now: int)
  {
    r.status == Banned && BanExpired(r, now)
  }

  function RateLimitOf(r: IpRecord): int
  {
    match r.rateLimitSeconds
    case None => DefaultRateLimitSeconds
    case Some(s) => s
  }

  /** A rate-limited IP whose last request is less than its limit ago. */
  predicate InRateWindow(r: IpRecord, now: int)
  {
    r.status == RateLimited && now - r.lastRequestTime < RateLimitOf(r)
  }

  /** The status change made by an automatic unban. */
  function Unbanned(r: IpRecord, now: int): IpRecord
  {
    if ExpiredBan(r, now) then r.(status := Active) else r
  }

  /** `check_ip_allowed`: the verdict and the new state (an expired ban is lifted on the way). */
  function CheckAllowed(t: Table, ip: string, now: int): (bool, Table)
  {
    if !t.hasIps || ip !in t.ips then (true, t)
    else
      var r := t.ips[ip];
      if r.status == Banned && !BanExpired(r, now) then (false, t)
      else if r.status == Banned then
        (true, t.(ips := t.ips[ip := r.(status := Active)], dirty := true))
      else (!InRateWindow(r, now), t)
  }

  // ---------------------------------------------------------------------
  // Request statistics
  // ---------------------------------------------------------------------

  /** The last `n` elements of `s` (`s[-n:]`). */
  function LastN(s: seq<string>, n: nat): (r: seq<string>)
  {
    if |s| <= n then s else s[|s| - n..]
  }

  /** Append a new, non-empty user agent and keep only the last ten. */
  function AddUserAgent(uas: seq<string>, ua: Option<string>): seq<string>
  {
    if Truthy(ua) && ua.value !in uas then LastN(uas + [ua.value], MaxUserAgents) else uas
  }

  /** `d[k] = d.get(k, 0) + 1`. */
  function Bump(m: map<string, nat>, k: string): map<string, nat>
  {
    m[k := (if k in m then m[k] else 0) + 1]
  }

  /** The daily reset (UTC+8): a new date clears today's count and today's models. */
  function StartDay(r: IpRecord, today: string): IpRecord
  {
    if r.todayDate != today then r.(todayRequests := 0, todayDate := today, modelsUsed := map[]) else r
  }

  /** The update an admitted request makes to its IP's record. */
  function Touch(r: IpRecord, endpoint: string, userAgent: Option<string>, model: Option<string>,
                 now: int, today: string): IpRecord
  {
    var r1 := StartDay(r, today);
    var r2 := r1.(totalRequests := r1.totalRequests + 1, todayRequests := r1.todayRequests + 1, lastRequestTime := now);
    var r3 := r2.(userAgents := AddUserAgent(r2.userAgents, userAgent));
    var r4 := if Truthy(model) then r3.(modelsUsed := Bump(r3.modelsUsed, model.value)) else r3;
    r4.(endpoints := Bump(r4.endpoints, endpoint))
  }

  /** Store `r` under `ip`; a new key goes to the end of the order. */
  function PutRecord(t: Table, ip: string, r: IpRecord): Table
  {
    t.(ips := t.ips[ip := r], order := if ip in t.ips then t.order else t.order + [ip])
  }

  /** `record_request` refuses a banned IP (expired or not) and a rate-limited IP inside its window. */
  predicate Refused(r: IpRecord, now: int)
  {
    r.status == Banned || InRateWindow(r, now)
  }

  /** `record_request`: the verdict and the new state. */
  function Recorded(t: Table, ip: string, endpoint: string, userAgent: Option<string>, model: Option<string>,
                    now: int, today: string, location: string): (bool, Table)
  {
    var t1 := t.(hasIps := true);
    if ip in t1.ips && Refused(t1.ips[ip], now) then (false, t1)
    else
      var r0 := if ip in t1.ips then t1.ips[ip] else NewRecord(Active, today, location);
      (true, PutRecord(t1, ip, Touch(r0, endpoint, userAgent, model, now, today)).(dirty := true))
  }

  // ---------------------------------------------------------------------
  // Ban operations per operator
  // ---------------------------------------------------------------------

  /** The timestamps less than an hour old, in their order. */
  function Recent(ts: seq<int>, now: int): seq<int>
  {
    if ts == [] then []
    else (if now - ts[0] < BanOperationWindow then [ts[0]] else []) + Recent(ts[1..], now)
  }

  /** Whether some operator has no timestamp left in the window (`removed_count > 0`). */
  predicate AnyOperatorExpired(ops: map<string, seq<int>>, now: int)
  {
    exists op :: op in ops && Recent(ops[op], now) == []
  }

  /** Operators with their recent timestamps; operators with none are dropped. */
  function Cleaned(ops: map<string, seq<int>>, now: int): map<string, seq<int>>
  {
    map op | op in ops && Recent(ops[op], now) != [] :: Recent(ops[op], now)
  }

  /** What a load hands back, and what the file holds afterwards. */
  datatype Loaded = Loaded(data: map<string, seq<int>>, file: map<string, seq<int>>)

  /**
    `_load_ban_operations` as written: the cleaned operators are put back into
    the loaded data only when some operator was dropped entirely; otherwise the
    unfiltered lists are returned.
  */
  function LoadBanOperationsAsWritten(file: map<string, seq<int>>, now: int): Loaded
  {
    if AnyOperatorExpired(file, now) then Loaded(Cleaned(file, now), Cleaned(file, now))
    else Loaded(file, file)
  }

  /**
    `_load_ban_operations` as its documentation describes it: the data is
    always cleaned; the file is rewritten when an operator was dropped.
  */
  function LoadBanOperations(file: map<string, seq<int>>, now: int): Loaded
  {
    Loaded(Cleaned(file, now), if AnyOperatorExpired(file, now) then Cleaned(file, now) else file)
  }

  /** `_check_ban_operation_limit` on loaded data: `Some(minutes to wait)` when the operator is over the limit. */
  function BanLimit(data: map<string, seq<int>>, operator: string, now: int): Option<int>
  {
    var recs := if operator in data then data[operator] else [];
    if |recs| >= MaxBanOperations then Some((BanOperationWindow - (now - recs[0])) / 60) else None
  }

  /** `_record_ban_operation`: load (as written), append the time of this ban, save. */
  function RecordBanOperation(file: map<string, seq<int>>, operator: string, now: int): map<string, seq<int>>
  {
    var data := LoadBanOperationsAsWritten(file, now).data;
    data[operator := (if operator in data then data[operator] else []) + [now]]
  }

  // ---------------------------------------------------------------------
  // Status changes
  // ---------------------------------------------------------------------

  datatype StatusError = InvalidStatus | TooFewRequests(todayRequests: nat) | BanRateLimited(minutes: int)

  datatype StatusChange = Changed | Rejected(reason: StatusError)

  function ParseStatus(s: string): Option<IpStatus>
  {
    if s == "active" then Some(Active)
    else if s == "banned" then Some(Banned)
    else if s == "rate_limited" then Some(RateLimited)
    else None
  }

  /** The record after `set_ip_status` has set its status (creating it first if needed). */
  function WithStatus(r: IpRecord, status: IpStatus, rateLimitSeconds: Option<int>, now: int): IpRecord
  {
    r.(status := status,
       bannedTime := if status == Banned then now else r.bannedTime,
       rateLimitSeconds :=
         if status == RateLimited && rateLimitSeconds.Some? && rateLimitSeconds.value != 0 then rateLimitSeconds
         else r.rateLimitSeconds)
  }

  /** The write `set_ip_status` makes once its checks pass (`t` already holds the table). */
  function ApplyStatus(t: Table, ip: string, st: IpStatus, rateLimitSeconds: Option<int>,
                       operator: Option<string>, now: int, location: string): Table
  {
    var r0 := if ip in t.ips then t.ips[ip] else NewRecord(st, "", location);
    var t1 := PutRecord(t, ip, WithStatus(r0, st, rateLimitSeconds, now)).(dirty := true);
    if st == Banned && Truthy(operator) then t1.(banOps := RecordBanOperation(t1.banOps, operator.value, now)) else t1
  }

  /** `set_ip_status`: the outcome and the new state. */
  function StatusSet(t: Table, ip: string, status: string, rateLimitSeconds: Option<int>,
                     operator: Option<string>, now: int, location: string): (StatusChange, Table)
  {
    match ParseStatus(status)
    case None => (Rejected(InvalidStatus), t)
    case Some(st) =>
      var t1 := t.(hasIps := true);
      if st == Banned && ip in t1.ips && t1.ips[ip].todayRequests < MinTodayRequestsToBan then
        (Rejected(TooFewRequests(t1.ips[ip].todayRequests)), t1)
      else if st == Banned && Truthy(operator) then
        var loaded := LoadBanOperationsAsWritten(t1.banOps, now);
        var t2 := t1.(banOps := loaded.file);
        match BanLimit(loaded.data, operator.value, now)
        case Some(minutes) => (Rejected(BanRateLimited(minutes)), t2)
        case None => (Changed, ApplyStatus(t2, ip, st, rateLimitSeconds, operator, now, location))
      else (Changed, ApplyStatus(t1, ip, st, rateLimitSeconds, operator, now, location))
  }

  // ---------------------------------------------------------------------
  // Periodic maintenance
  // ---------------------------------------------------------------------

  /** The table after visiting `keys` in order, lifting expired bans, and how many were lifted. */
  function UnbanEach(ips: map<string, IpRecord>, keys: seq<string>, now: int): (map<string, IpRecord>, nat)
  {
    if keys == [] then (ips, 0)
    else
      var (m, n) := UnbanEach(ips, keys[..|keys| - 1], now);
      var k := keys[|keys| - 1];
      if k in m && ExpiredBan(m[k], now) then (m[k := m[k].(status := Active)], n + 1) else (m, n)
  }

  /** `_auto_unban_expired_ips`. */
  function AutoUnbanned(t: Table, now: int): Table
  {
    if !t.hasIps then t
    else
      var (m, n) := UnbanEach(t.ips, t.order, now);
      t.(ips := m, dirty := t.dirty || n > 0)
  }

  /** How long an IP may stay inactive before cleanup, by its total request count. */
  function InactivityLimit(totalRequests: nat): int
  {
    if totalRequests >= 300 then 7 * DaySeconds
    else if totalRequests >= 50 then 5 * DaySeconds
    else 3 * DaySeconds
  }

  /** A record `_cleanup_old_ips` removes. */
  predicate Stale(r: IpRecord, now: int)
  {
    r.status != Banned && r.lastRequestTime != 0 && now - r.lastRequestTime >= InactivityLimit(r.totalRequests)
  }

  /** The stale keys of `keys`, in order. */
  function StaleIps(keys: seq<string>, ips: map<string, IpRecord>, now: int): seq<string>
  {
    if keys == [] then []
    else
      var last := keys[|keys| - 1];
      StaleIps(keys[..|keys| - 1], ips, now) + (if last in ips && Stale(ips[last], now) then [last] else [])
  }

  /** `s` without the elements of `drop`, in order. */
  function Remove(s: seq<string>, drop: set<string>): seq<string>
  {
    if s == [] then [] else (if s[0] in drop then [] else [s[0]]) + Remove(s[1..], drop)
  }

  /** `del ips[k]` for each `k` of `keys` in turn, as the table and as its key order. */
  function DeleteEach(ips: map<string, IpRecord>, order: seq<string>, keys: seq<string>): (map<string, IpRecord>, seq<string>)
  {
    if keys == [] then (ips, order)
    else
      var (m, o) := DeleteEach(ips, order, keys[..|keys| - 1]);
      var k := keys[|keys| - 1];
      (m - {k}, Remove(o, {k}))
  }

  function StaleSet(t: Table, now: int): set<string>
  {
    set ip | ip in t.ips && Stale(t.ips[ip], now)
  }

  /** `_cleanup_old_ips`: collect the stale keys, then delete them. */
  function CleanedUp(t: Table, now: int): Table
  {
    if !t.hasIps then t
    else
      var drop := StaleIps(t.order, t.ips, now);
      var (m, o) := DeleteEach(t.ips, t.order, drop);
      t.(ips := m, order := o, dirty := t.dirty || |drop| > 0)
  }

  // ---------------------------------------------------------------------
  // Read-only reports
  // ---------------------------------------------------------------------

  datatype IpSummary = IpSummary(totalIps: nat, activeIps: nat, bannedIps: nat, rateLimitedIps: nat,
                                 totalRequests: nat, todayRequests: nat)

  /** Counts and sums over the records of `keys`. */
  function Tally(keys: seq<string>, ips: map<string, IpRecord>): (s: IpSummary)
    ensures s.activeIps + s.bannedIps + s.rateLimitedIps == s.totalIps <= |keys|
  {
    if keys == [] then IpSummary(0, 0, 0, 0, 0, 0)
    else
      var rest := Tally(keys[1..], ips);
      if keys[0] !in ips then rest
      else
        var r := ips[keys[0]];
        IpSummary(rest.totalIps + 1,
                  rest.activeIps + (if r.status == Active then 1 else 0),
                  rest.bannedIps + (if r.status == Banned then 1 else 0),
                  rest.rateLimitedIps + (if r.status == RateLimited then 1 else 0),
                  rest.totalRequests + r.totalRequests,
                  rest.todayRequests + r.todayRequests)
  }

  /** `get_all_ips_summary`. */
  function Summary(t: Table): IpSummary
  {
    Tally(t.order, t.ips).(totalIps := |t.ips|)
  }

  datatype RankItem = RankItem(ip: string, todayRequests: nat, totalRequests: nat, status: IpStatus, location: string)

  datatype RankingPage = RankingPage(items: seq<RankItem>, page: int, pageSize: int, total: nat,
                                     totalPages: int, hasNext: bool, hasPrev: bool)

  /** The rows `get_ip_ranking` considers, in table order: banned IPs only when asked for. */
  function Candidates(keys: seq<string>, ips: map<string, IpRecord>, includeBanned: bool): seq<RankItem>
  {
    if keys == [] then []
    else
      var rest := Candidates(keys[1..], ips, includeBanned);
      if keys[0] !in ips || (!includeBanned && ips[keys[0]].status == Banned) then rest
      else
        var r := ips[keys[0]];
        [RankItem(keys[0], r.todayRequests, r.totalRequests, r.status, r.location)] + rest
  }

  function Key(item: RankItem, byToday: bool): nat
  {
    if byToday then item.todayRequests else item.totalRequests
  }

  ghost predicate SortedDesc(s: seq<RankItem>, byToday: bool)
  {
    forall i, j :: 0 <= i < j < |s| ==> Key(s[i], byToday) >= Key(s[j], byToday)
  }

  /** Insert `x` after every element whose key is at least its own (a stable descending insert). */
  function Insert(s: seq<RankItem>, x: RankItem, byToday: bool): seq<RankItem>
  {
    if s == [] then [x]
    else if Key(s[|s| - 1], byToday) >= Key(x, byToday) then s + [x]
    else Insert(s[..|s| - 1], x, byToday) + [s[|s| - 1]]
  }

  /** `sorted(..., key=..., reverse=True)`: insertion from the left keeps equal keys in table order. */
  function SortDesc(s: seq<RankItem>, byToday: bool): seq<RankItem>
  {
    if s == [] then [] else Insert(SortDesc(s[..|s| - 1], byToday), s[|s| - 1], byToday)
  }

  /** `s[start:end]` for non-negative bounds. */
  function PySlice<T>(s: seq<T>, start: nat, end: nat): seq<T>
  {
    var e := if end < |s| then end else |s|;
    if start < e then s[start..e] else []
  }

  function Ranked(t: Table, rankBy: string, includeBanned: bool): seq<RankItem>
  {
    SortDesc(Candidates(t.order, t.ips, includeBanned), rankBy == "today")
  }

  /** `get_ip_ranking` for a positive page size. */
  function Ranking(t: Table, rankBy: string, page: int, pageSize: int, includeBanned: bool): RankingPage
    requires pageSize >= 1
  {
    var sorted := Ranked(t, rankBy, includeBanned);
    var total := |sorted|;
    var totalPages := (total + pageSize - 1) / pageSize;
    var upper := if totalPages > 0 then totalPages else 1;
    var p := if page < 1 then 1 else if page > upper then upper else page;
    var start := (p - 1) * pageSize;
    RankingPage(PySlice(sorted, start, start + pageSize), p, pageSize, total, totalPages, p < totalPages, p > 1)
  }

  // ---------------------------------------------------------------------
  // The manager
  // ---------------------------------------------------------------------

  class IPManager {
    var hasIps: bool
    var ips: map<string, IpRecord>
    var order: seq<string>
    var dirty: bool
    var banOps: map<string, seq<int>>

    function Model(): Table
      reads this
    {
      Table(hasIps, ips, order, dirty, banOps)
    }

    ghost predicate Valid()
      reads this
    {
      WellFormed(Model())
    }

    /** `__init__`: an empty cache without an `"ips"` table, clean, and no ban operations on file. */
    constructor ()
      ensures Valid() && Model() == Table(false, map[], [], false, map[])
    {
      hasIps, ips, order, dirty, banOps := false, map[], [], false, map[];
    }

    method CheckIpAllowed(ip: string, now: int) returns (allowed: bool)
      requires Valid()
      modifies this
      ensures Valid()
      ensures (allowed, Model()) == CheckAllowed(old(Model()), ip, now)
    {
      if !hasIps {
        return true;
      }
      if ip in ips {
        var r := ips[ip];
        if r.status == Banned {
          if BanExpired(r, now) {
            r := r.(status := Active);
            ips := ips[ip := r];
            dirty := true;
          } else {
            return false;
          }
        }
        if r.status == RateLimited && now - r.lastRequestTime < RateLimitOf(r) {
          return false;
        }
      }
      return true;
    }

    method RecordRequest(ip: string, endpoint: string, userAgent: Option<string>, model: Option<string>,
                         now: int, today: string, location: string) returns (allowed: bool)
      requires Valid()
      modifies this
      ensures Valid()
      ensures (allowed, Model()) == Recorded(old(Model()), ip, endpoint, userAgent, model, now, today, location)
    {
      hasIps := true;
      ghost var t1 := Model();
      if ip in ips {
        var r := ips[ip];
        if r.status == Banned {
          return false;
        }
        if r.status == RateLimited && now - r.lastRequestTime < RateLimitOf(r) {
          return false;
        }
      }
      assert !(ip in t1.ips && Refused(t1.ips[ip], now));
      var r0 := if ip in ips then ips[ip] else NewRecord(Active, today, location);
      if r0.todayDate != today {
        dirty := true;   // the daily reset
      }
      var r := Touch(r0, endpoint, userAgent, model, now, today);
      Store(ip, r);
      return true;
    }

    method SetIpStatus(ip: string, status: string, rateLimitSeconds: Option<int>, operator: Option<string>,
                       now: int, location: string) returns (outcome: StatusChange)
      requires Valid()
      modifies this
      ensures Valid()
      ensures (outcome, Model()) == StatusSet(old(Model()), ip, status, rateLimitSeconds, operator, now, location)
    {
      var st := ParseStatus(status);
      if st.None? {
        return Rejected(InvalidStatus);
      }
      hasIps := true;
      ghost var t1 := Model();
      if st.value == Banned {
        if ip in ips && ips[ip].todayRequests < MinTodayRequestsToBan {
          return Rejected(TooFewRequests(ips[ip].todayRequests));
        }
        if Truthy(operator) {
          var loaded := LoadBanOperationsAsWritten(banOps, now);
          banOps := loaded.file;
          assert Model() == t1.(banOps := loaded.file);
          var limit := BanLimit(loaded.data, operator.value, now);
          if limit.Some? {
            return Rejected(BanRateLimited(limit.value));
          }
        }
      }
      ghost var t2 := Model();
      Apply(ip, st.value, rateLimitSeconds, operator, now, location);
      assert Model() == ApplyStatus(t2, ip, st.value, rateLimitSeconds, operator, now, location);
      return Changed;
    }

    /** The write `set_ip_status` makes once its checks have passed. */
    method Apply(ip: string, st: IpStatus, rateLimitSeconds: Option<int>, operator: Option<string>,
                 now: int, location: string)
      requires Valid() && hasIps
      modifies this
      ensures Valid()
      ensures Model() == ApplyStatus(old(Model()), ip, st, rateLimitSeconds, operator, now, location)
    {
      var r0 := if ip in ips then ips[ip] else NewRecord(st, "", location);
      Store(ip, WithStatus(r0, st, rateLimitSeconds, now));
      if st == Banned && Truthy(operator) {
        banOps := RecordBanOperation(banOps, operator.value, now);
      }
    }

    /** `ips[ip] = r` (a new key goes last) and mark the cache dirty. */
    method Store(ip: string, r: IpRecord)
      requires Valid() && hasIps
      modifies this
      ensures Valid()
      ensures Model() == PutRecord(old(Model()), ip, r).(dirty := true)
    {
      PutRecordWellFormed(Model(), ip, r);
      if ip !in ips {
        order := order + [ip];
      }
      ips := ips[ip := r];
      dirty := true;
    }

    method AutoUnbanExpiredIps(now: int)
      requires Valid()
      modifies this
      ensures Valid()
      ensures Model() == AutoUnbanned(old(Model()), now)
    {
      if !hasIps {
        return;
      }
      ghost var ips0 := ips;
      var unbanCount := 0;
      var i := 0;
      while i < |order|
        invariant 0 <= i <= |order|
        invariant order == old(order) && hasIps && dirty == old(dirty) && banOps == old(banOps)
        invariant (ips, unbanCount) == UnbanEach(ips0, order[..i], now)
      {
        var ip := order[i];
        if ip in ips && ips[ip].status == Banned {
          var bannedTime := ips[ip].bannedTime;
          if bannedTime > 0 && now - bannedTime >= BanSeconds {
            ips := ips[ip := ips[ip].(status := Active)];
            unbanCount := unbanCount + 1;
          }
        }
        assert order[..i + 1][..i] == order[..i];
        i := i + 1;
      }
      assert order[..i] == order;
      if unbanCount > 0 {
        dirty := true;
      }
      UnbanEachKeys(ips0, order, now);
    }

    /** The first pass of `_cleanup_old_ips`: the keys to delete, in table order. */
    method CollectStaleIps(now: int) returns (toRemove: seq<string>)
      ensures toRemove == StaleIps(order, ips, now)
      ensures forall ip :: ip in toRemove <==> ip in order && ip in ips && Stale(ips[ip], now)
    {
      toRemove := [];
      var i := 0;
      while i < |order|
        invariant 0 <= i <= |order|
        invariant toRemove == StaleIps(order[..i], ips, now)
      {
        var ip := order[i];
        if ip in ips {
          var r := ips[ip];
          if r.status != Banned && r.lastRequestTime != 0 && now - r.lastRequestTime >= InactivityLimit(r.totalRequests) {
            toRemove := toRemove + [ip];
          }
        }
        assert order[..i + 1][..i] == order[..i];
        i := i + 1;
      }
      assert order[..i] == order;
      StaleIpsMembers(order, ips, now);
    }

    method CleanupOldIps(now: int)
      requires Valid()
      modifies this
      ensures Valid()
      ensures Model() == CleanedUp(old(Model()), now)
    {
      if !hasIps {
        return;
      }
      ghost var t0 := Model();
      var toRemove := CollectStaleIps(now);
      DeleteKeys(toRemove);
      if |toRemove| > 0 {
        dirty := true;
      }
      assert Model() == CleanedUp(t0, now);
      CleanedUpWellFormed(t0, now);
    }

    /** The second pass of `_cleanup_old_ips`: `del ips[ip]` for each collected key, in turn. */
    method DeleteKeys(keys: seq<string>)
      modifies this
      ensures (ips, order) == DeleteEach(old(ips), old(order), keys)
      ensures hasIps == old(hasIps) && dirty == old(dirty) && banOps == old(banOps)
    {
      var j := 0;
      while j < |keys|
        invariant 0 <= j <= |keys|
        invariant hasIps == old(hasIps) && dirty == old(dirty) && banOps == old(banOps)
        invariant (ips, order) == DeleteEach(old(ips), old(order), keys[..j])
      {
        var ip := keys[j];
        ips := ips - {ip};
        order := Remove(order, {ip});
        assert keys[..j + 1][..j] == keys[..j] && keys[..j + 1][j] == ip;
        j := j + 1;
      }
      assert keys[..j] == keys;
    }

    /** `get_all_ips_summary`. */
    function GetAllIpsSummary(): IpSummary
      reads this
    {
      Summary(Model())
    }

    /** `get_ip_ranking`. */
    function GetIpRanking(rankBy: string, page: int, pageSize: int, includeBanned: bool): RankingPage
      reads this
      requires pageSize >= 1
    {
      Ranking(Model(), rankBy, page, pageSize, includeBanned)
    }
  }

  // ---------------------------------------------------------------------
  // The table stays well formed
  // ---------------------------------------------------------------------

  lemma PutRecordWellFormed(t: Table, ip: string, r: IpRecord)
    requires WellFormed(t.(hasIps := true))
    ensures WellFormed(PutRecord(t, ip, r).(hasIps := true))
  {
  }

  lemma {:induction false} UnbanEachKeys(ips: map<string, IpRecord>, keys: seq<string>, now: int)
    ensures UnbanEach(ips, keys, now).0.Keys == ips.Keys
    decreases |keys|
  {
    if keys != [] {
      UnbanEachKeys(ips, keys[..|keys| - 1], now);
    }
  }

  lemma {:induction false} StaleIpsMembers(keys: seq<string>, ips: map<string, IpRecord>, now: int)
    ensures forall x :: x in StaleIps(keys, ips, now) <==> x in keys && x in ips && Stale(ips[x], now)
    decreases |keys|
  {
    if keys != [] {
      var init := keys[..|keys| - 1];
      StaleIpsMembers(init, ips, now);
      assert keys == init + [keys[|keys| - 1]];
    }
  }

  lemma {:induction false} RemoveMembers(s: seq<string>, drop: set<string>)
    ensures forall x :: x in Remove(s, drop) <==> x in s && x !in drop
    decreases |s|
  {
    if s != [] {
      RemoveMembers(s[1..], drop);
      assert s == [s[0]] + s[1..];
    }
  }

  lemma {:induction false} RemoveDistinct(s: seq<string>, drop: set<string>)
    requires Distinct(s)
    ensures Distinct(Remove(s, drop))
    decreases |s|
  {
    if s != [] {
      RemoveDistinct(s[1..], drop);
      RemoveMembers(s[1..], drop);
      assert s[0] !in s[1..];
    }
  }

  lemma {:induction false} RemoveConcat(a: seq<string>, b: seq<string>, drop: set<string>)
    ensures Remove(a + b, drop) == Remove(a, drop) + Remove(b, drop)
    decreases |a|
  {
    if a != [] {
      RemoveConcat(a[1..], b, drop);
      assert (a + b)[1..] == a[1..] + b;
    } else {
      assert a + b == b;
    }
  }

  lemma {:induction false} RemoveTwice(s: seq<string>, drop: set<string>, x: string)
    ensures Remove(Remove(s, drop), {x}) == Remove(s, drop + {x})
    decreases |s|
  {
    if s != [] {
      RemoveTwice(s[1..], drop, x);
      var head := if s[0] in drop then [] else [s[0]];
      assert Remove(s, drop) == head + Remove(s[1..], drop);
      RemoveConcat(head, Remove(s[1..], drop), {x});
    }
  }

  /** Deleting keys one by one leaves the other records, in their order. */
  lemma {:induction false} DeleteEachSpec(ips: map<string, IpRecord>, order: seq<string>, keys: seq<string>)
    ensures DeleteEach(ips, order, keys).0 == map ip | ip in ips && ip !in keys :: ips[ip]
    ensures DeleteEach(ips, order, keys).1 == Remove(order, set k | k in keys)
    decreases |keys|
  {
    if keys == [] {
      RemoveNothing(order);
      assert DeleteEach(ips, order, keys).0 == map ip | ip in ips && ip !in keys :: ips[ip];
      assert (set k | k in keys) == {};
    } else {
      var init := keys[..|keys| - 1];
      var k := keys[|keys| - 1];
      DeleteEachSpec(ips, order, init);
      assert keys == init + [k];
      RemoveTwice(order, (set x | x in init), k);
      assert (set x | x in init) + {k} == set x | x in keys;
    }
  }

  lemma {:induction false} RemoveNothing(s: seq<string>)
    ensures Remove(s, {}) == s
    decreases |s|
  {
    if s != [] {
      RemoveNothing(s[1..]);
    }
  }

  lemma CleanedUpWellFormed(t: Table, now: int)
    requires WellFormed(t)
    ensures WellFormed(CleanedUp(t, now))
  {
    CleanedUpSpec(t, now);
  }

  /**
    `_cleanup_old_ips` deletes exactly the stale records, keeps the others
    unchanged and in order, and marks the cache dirty exactly when it deleted
    something.
  */
  lemma CleanedUpSpec(t: Table, now: int)
    requires WellFormed(t)
    ensures var c := CleanedUp(t, now);
      && WellFormed(c)
      && c.hasIps == t.hasIps && c.banOps == t.banOps
      && (t.hasIps ==> c.ips == map ip | ip in t.ips && !Stale(t.ips[ip], now) :: t.ips[ip])
      && (t.hasIps ==> c.order == Remove(t.order, StaleSet(t, now)))
      && (t.hasIps ==> (c.dirty <==> t.dirty || StaleSet(t, now) != {}))
  {
    if t.hasIps {
      var drop := StaleIps(t.order, t.ips, now);
      StaleDrop(t, now);
      DeleteEachSpec(t.ips, t.order, drop);
      KeepFresh(t.ips, drop, now);
      RemoveMembers(t.order, StaleSet(t, now));
      RemoveDistinct(t.order, StaleSet(t, now));
    }
  }

  /** The keys the first pass collects are the stale set, and there are some exactly when it is not empty. */
  lemma StaleDrop(t: Table, now: int)
    requires WellFormed(t)
    ensures var drop := StaleIps(t.order, t.ips, now);
      && (forall x :: x in drop <==> x in t.ips && Stale(t.ips[x], now))
      && (set k | k in drop) == StaleSet(t, now)
      && (|drop| > 0 <==> StaleSet(t, now) != {})
  {
    var drop := StaleIps(t.order, t.ips, now);
    StaleIpsMembers(t.order, t.ips, now);
    if |drop| > 0 {
      assert drop[0] in StaleSet(t, now);
    }
  }

  /** Deleting exactly the stale keys keeps the records that are not stale. */
  lemma KeepFresh(ips: map<string, IpRecord>, drop: seq<string>, now: int)
    requires forall x :: x in drop <==> x in ips && Stale(ips[x], now)
    ensures (map ip | ip in ips && ip !in drop :: ips[ip]) == (map ip | ip in ips && !Stale(ips[ip], now) :: ips[ip])
  {
  }
}
