/** What the IP access table guarantees, proved about the functions that specify `IPManager`. */
module IpManagerProperties {
  import opened Wrappers
  import opened IpManager

  // ---------------------------------------------------------------------
  // Gating
  // ---------------------------------------------------------------------

  /**
    `check_ip_allowed` denies exactly a banned IP whose ban has not expired
    and a rate-limited IP inside its window; without a table it allows all.
    The only change it makes is lifting an expired ban (and marking the cache
    dirty).
  */
  lemma CheckAllowedVerdict(t: Table, ip: string, now: int)
    ensures var (allowed, t') := CheckAllowed(t, ip, now);
      && (allowed <==> !(t.hasIps && ip in t.ips &&
                         ((t.ips[ip].status == Banned && !BanExpired(t.ips[ip], now)) || InRateWindow(t.ips[ip], now))))
      && (t.hasIps && ip in t.ips && ExpiredBan(t.ips[ip], now) ==>
            t' == t.(ips := t.ips[ip := t.ips[ip].(status := Active)], dirty := true))
      && (!(t.hasIps && ip in t.ips && ExpiredBan(t.ips[ip], now)) ==> t' == t)
  {
  }

  /**
    `record_request` refuses a banned IP even once its ban has expired (it
    never lifts a ban), while `check_ip_allowed` lets the same IP through.
  */
  lemma RecordNeverUnbans(t: Table, ip: string, endpoint: string, userAgent: Option<string>, model: Option<string>,
                          now: int, today: string, location: string)
    requires t.hasIps && ip in t.ips && ExpiredBan(t.ips[ip], now)
    ensures Recorded(t, ip, endpoint, userAgent, model, now, today, location) == (false, t)
    ensures CheckAllowed(t, ip, now).0
  {
  }

  /**
    An admitted `record_request` counts the request on its IP (creating the
    record if needed) and leaves every other IP alone; a refused one changes
    no record.
  */
  lemma RecordedSpec(t: Table, ip: string, endpoint: string, userAgent: Option<string>, model: Option<string>,
                     now: int, today: string, location: string)
    requires WellFormed(t)
    ensures var (ok, t') := Recorded(t, ip, endpoint, userAgent, model, now, today, location);
      && (ok <==> !(ip in t.ips && Refused(t.ips[ip], now)))
      && (!ok ==> t' == t.(hasIps := true))
      && (ok ==> && WellFormed(t') && t'.hasIps && t'.dirty && t'.banOps == t.banOps
                 && ip in t'.ips
                 && t'.ips[ip] == Touch(if ip in t.ips then t.ips[ip] else NewRecord(Active, today, location),
                                        endpoint, userAgent, model, now, today)
                 && (forall other :: other != ip ==> (other in t'.ips <==> other in t.ips))
                 && (forall other :: other != ip && other in t.ips ==> t'.ips[other] == t.ips[other]))
  {
    var t1 := t.(hasIps := true);
    if !(ip in t.ips && Refused(t.ips[ip], now)) {
      var r0 := if ip in t1.ips then t1.ips[ip] else NewRecord(Active, today, location);
      PutRecordWellFormed(t1, ip, Touch(r0, endpoint, userAgent, model, now, today));
    }
  }

  /**
    The per-request counters: total and today's count go up by one, today's
    count and models restart on a new date, the endpoint counter goes up by
    one, the last request time is now; status, ban and limit are untouched.
  */
  lemma TouchCounts(r: IpRecord, endpoint: string, userAgent: Option<string>, model: Option<string>,
                    now: int, today: string)
    ensures var r' := Touch(r, endpoint, userAgent, model, now, today);
      && r'.totalRequests == r.totalRequests + 1
      && r'.todayRequests == (if r.todayDate == today then r.todayRequests + 1 else 1)
      && r'.todayDate == today && r'.lastRequestTime == now
      && r'.status == r.status && r'.bannedTime == r.bannedTime
      && r'.rateLimitSeconds == r.rateLimitSeconds && r'.location == r.location
      && r'.endpoints.Keys == r.endpoints.Keys + {endpoint}
      && r'.endpoints[endpoint] == (if endpoint in r.endpoints then r.endpoints[endpoint] else 0) + 1
      && (forall e :: e in r.endpoints && e != endpoint ==> r'.endpoints[e] == r.endpoints[e])
      && (r.todayDate != today ==> r'.modelsUsed == if Truthy(model) then map[model.value := 1] else map[])
      && (r.todayDate == today && !Truthy(model) ==> r'.modelsUsed == r.modelsUsed)
      && (r.todayDate == today && Truthy(model) ==>
            r'.modelsUsed[model.value] == (if model.value in r.modelsUsed then r.modelsUsed[model.value] else 0) + 1)
      && r'.userAgents == AddUserAgent(r.userAgents, userAgent)
  {
  }

  /**
    The user-agent list stays duplicate-free and at most ten long; a new
    agent is appended and the oldest dropped; a known one changes nothing.
  */
  lemma UserAgentsBounded(uas: seq<string>, ua: Option<string>)
    requires Distinct(uas) && |uas| <= MaxUserAgents
    ensures var r := AddUserAgent(uas, ua);
      && Distinct(r) && |r| <= MaxUserAgents
      && (Truthy(ua) ==> ua.value in r)
      && (Truthy(ua) && ua.value !in uas ==>
            |r| == (if |uas| < MaxUserAgents then |uas| + 1 else MaxUserAgents) &&
            r[|r| - 1] == ua.value && r == (uas + [ua.value])[|uas| + 1 - |r|..])
      && (!(Truthy(ua) && ua.value !in uas) ==> r == uas)
  {
    if Truthy(ua) && ua.value !in uas {
      var s := uas + [ua.value];
      assert Distinct(s) by {
        forall i, j | 0 <= i < j < |s| ensures s[i] != s[j] {
          if j == |uas| {
            assert s[i] == uas[i];
          }
        }
      }
      var r := LastN(s, MaxUserAgents);
      assert r == s[|s| - |r|..];
      assert |r| == (if |uas| < MaxUserAgents then |uas| + 1 else MaxUserAgents);
      assert r[|r| - 1] == s[|s| - 1] == ua.value;
      assert Distinct(r) by {
        forall i, j | 0 <= i < j < |r| ensures r[i] != r[j] {
          assert r[i] == s[|s| - |r| + i] && r[j] == s[|s| - |r| + j];
        }
      }
    }
  }

  /** A rate limit spaces requests: right after an admitted request, the next one at the same instant is refused. */
  lemma RateLimitSpacesRequests(t: Table, ip: string, endpoint: string, userAgent: Option<string>, model: Option<string>,
                                now: int, today: string, location: string)
    requires ip in t.ips && t.ips[ip].status == RateLimited && RateLimitOf(t.ips[ip]) > 0
    requires Recorded(t, ip, endpoint, userAgent, model, now, today, location).0
    ensures var t' := Recorded(t, ip, endpoint, userAgent, model, now, today, location).1;
      !Recorded(t', ip, endpoint, userAgent, model, now, today, location).0 &&
      !CheckAllowed(t', ip, now).0
  {
    var t' := Recorded(t, ip, endpoint, userAgent, model, now, today, location).1;
    TouchCounts(t.ips[ip], endpoint, userAgent, model, now, today);
    assert t'.ips[ip].lastRequestTime == now;
    assert InRateWindow(t'.ips[ip], now);
  }

  // ---------------------------------------------------------------------
  // Ban operations
  // ---------------------------------------------------------------------

  lemma {:induction false} RecentMembers(ts: seq<int>, now: int)
    ensures forall x :: x in Recent(ts, now) <==> x in ts && now - x < BanOperationWindow
    ensures |Recent(ts, now)| <= |ts|
    decreases |ts|
  {
    if ts != [] {
      RecentMembers(ts[1..], now);
      assert ts == [ts[0]] + ts[1..];
    }
  }

  lemma {:induction false} RecentIdempotent(ts: seq<int>, now: int)
    ensures Recent(Recent(ts, now), now) == Recent(ts, now)
    decreases |ts|
  {
    if ts != [] {
      RecentIdempotent(ts[1..], now);
      var head := if now - ts[0] < BanOperationWindow then [ts[0]] else [];
      RecentConcat(head, Recent(ts[1..], now), now);
    }
  }

  lemma {:induction false} RecentConcat(a: seq<int>, b: seq<int>, now: int)
    ensures Recent(a + b, now) == Recent(a, now) + Recent(b, now)
    decreases |a|
  {
    if a == [] {
      assert a + b == b;
    } else {
      RecentConcat(a[1..], b, now);
      assert (a + b)[1..] == a[1..] + b;
    }
  }

  /** The operator's timestamps in the window, as the intended load sees them. */
  function RecentOf(file: map<string, seq<int>>, operator: string, now: int): seq<int>
  {
    if operator in file then Recent(file[operator], now) else []
  }

  /**
    With the cleaning load, an operator is refused exactly when three or more
    of its bans fall within the last hour, and the wait it is told is never
    negative.
  */
  lemma BanLimitCounts(file: map<string, seq<int>>, operator: string, now: int)
    ensures var limit := BanLimit(LoadBanOperations(file, now).data, operator, now);
      && (limit.Some? <==> |RecentOf(file, operator, now)| >= MaxBanOperations)
      && (limit.Some? ==> limit.value >= 0)
  {
    var data := LoadBanOperations(file, now).data;
    if operator in file {
      var recs := Recent(file[operator], now);
      RecentMembers(file[operator], now);
      if |recs| >= MaxBanOperations {
        assert operator in data && data[operator] == recs;
        assert recs[0] in recs;
        assert now - recs[0] < BanOperationWindow;
      } else if recs != [] {
        assert operator in data && data[operator] == recs;
      }
    }
  }

  /**
    The operator's list as `_load_ban_operations` hands it back: the recent
    timestamps when some operator had none left, and otherwise the whole list
    as stored, stale timestamps included.
  */
  function CountedBans(file: map<string, seq<int>>, operator: string, now: int): seq<int>
  {
    if AnyOperatorExpired(file, now) then RecentOf(file, operator, now)
    else if operator in file then file[operator] else []
  }

  lemma LoadedOperator(file: map<string, seq<int>>, operator: string, now: int)
    ensures var data := LoadBanOperationsAsWritten(file, now).data;
      (if operator in data then data[operator] else []) == CountedBans(file, operator, now)
  {
    if AnyOperatorExpired(file, now) && operator in file && operator !in Cleaned(file, now) {
      assert Recent(file[operator], now) == [];
    }
  }

  /**
    `_check_ban_operation_limit` on the load as written: an operator is refused
    exactly when the list the load hands back holds three or more timestamps,
    and is told to wait an hour from the first of them, in whole minutes
    rounded down. When some operator had expired the load cleaned, and the
    verdict is that of the cleaning load.
  */
  lemma BanLimitAsWritten(file: map<string, seq<int>>, operator: string, now: int)
    ensures var limit := BanLimit(LoadBanOperationsAsWritten(file, now).data, operator, now);
      var recs := CountedBans(file, operator, now);
      && (limit.Some? <==> |recs| >= MaxBanOperations)
      && (limit.Some? ==> limit.value == (BanOperationWindow - (now - recs[0])) / 60)
      && (AnyOperatorExpired(file, now) ==> limit == BanLimit(LoadBanOperations(file, now).data, operator, now))
  {
    LoadedOperator(file, operator, now);
  }

  /** What a load saves is loaded back unchanged: a cleaned file has no expired operator. */
  lemma ReloadStable(file: map<string, seq<int>>, now: int)
    ensures var stored := LoadBanOperationsAsWritten(file, now).file;
      LoadBanOperationsAsWritten(stored, now) == Loaded(stored, stored)
  {
    if AnyOperatorExpired(file, now) {
      var stored := Cleaned(file, now);
      forall op | op in stored ensures Recent(stored[op], now) != [] {
        RecentIdempotent(file[op], now);
      }
      assert !AnyOperatorExpired(stored, now);
    }
  }

  /**
    As written, the load only cleans when some operator lost every timestamp:
    three bans at 0, 2000 and 4000 s are all still counted at 4100 s, so a
    fourth ban is refused with a negative wait; the cleaning load counts two
    and lets it through.
  */
  lemma StaleBansCountedAsWritten()
    ensures var file := map["203.0.113.7" := [0, 2000, 4000]];
      && BanLimit(LoadBanOperationsAsWritten(file, 4100).data, "203.0.113.7", 4100) == Some(-9)
      && BanLimit(LoadBanOperations(file, 4100).data, "203.0.113.7", 4100) == None
  {
    var ip := "203.0.113.7";
    var file := map[ip := [0, 2000, 4000]];
    RecentExample();
    assert forall op :: op in file ==> op == ip;
    assert !AnyOperatorExpired(file, 4100);
    assert LoadBanOperationsAsWritten(file, 4100).data == file;
    var cleaned := Cleaned(file, 4100);
    assert ip in cleaned && cleaned[ip] == [2000, 4000];
  }

  lemma RecentExample()
    ensures Recent([0, 2000, 4000], 4100) == [2000, 4000]
  {
    assert [0, 2000, 4000][1..] == [2000, 4000];
    assert [2000, 4000][1..] == [4000];
    assert [4000][1..] == [];
    assert Recent([4000], 4100) == [4000];
    assert Recent([2000, 4000], 4100) == [2000, 4000];
  }

  // ---------------------------------------------------------------------
  // Status changes
  // ---------------------------------------------------------------------

  /**
    `set_ip_status` rejects an unknown status, a ban of a known IP with fewer
    than 80 requests today, and a ban by an operator whose loaded list holds
    three bans (stale ones included unless some operator had expired); a
    rejection changes no record.
  */
  lemma StatusSetRejections(t: Table, ip: string, status: string, rateLimitSeconds: Option<int>,
                            operator: Option<string>, now: int, location: string)
    ensures var (res, t') := StatusSet(t, ip, status, rateLimitSeconds, operator, now, location);
      && (res == Rejected(InvalidStatus) <==> ParseStatus(status).None?)
      && (ParseStatus(status).None? ==> t' == t)
      && (res.Rejected? ==> t'.ips == t.ips && t'.order == t.order && t'.dirty == t.dirty)
      && (res.Rejected? && res.reason.TooFewRequests? <==>
            ParseStatus(status) == Some(Banned) && ip in t.ips && t.ips[ip].todayRequests < MinTodayRequestsToBan)
      && (res.Rejected? && res.reason.BanRateLimited? <==>
            && ParseStatus(status) == Some(Banned)
            && !(ip in t.ips && t.ips[ip].todayRequests < MinTodayRequestsToBan)
            && Truthy(operator) && |CountedBans(t.banOps, operator.value, now)| >= MaxBanOperations)
      && (res.Rejected? && res.reason.BanRateLimited? ==>
            && Truthy(operator)
            && var recs := CountedBans(t.banOps, operator.value, now);
               res.reason.minutes == (BanOperationWindow - (now - recs[0])) / 60)
      && (res.Rejected? && res.reason.BanRateLimited? && AnyOperatorExpired(t.banOps, now) ==>
            res.reason.minutes >= 0)
  {
    if Truthy(operator) {
      BanLimitAsWritten(t.banOps, operator.value, now);
      BanLimitCounts(t.banOps, operator.value, now);
    }
  }

  /**
    A successful `set_ip_status` gives the IP the new status, stamps a ban
    with the current time, stores a non-zero rate limit, leaves every other
    IP alone, and logs a ban by an operator after the list the load handed back.
  */
  lemma StatusSetApplies(t: Table, ip: string, status: string, rateLimitSeconds: Option<int>,
                         operator: Option<string>, now: int, location: string)
    requires WellFormed(t)
    requires StatusSet(t, ip, status, rateLimitSeconds, operator, now, location).0 == Changed
    ensures ParseStatus(status).Some?
    ensures var t' := StatusSet(t, ip, status, rateLimitSeconds, operator, now, location).1;
      var st := ParseStatus(status).value;
      && WellFormed(t') && t'.hasIps && t'.dirty
      && ip in t'.ips && t'.ips[ip].status == st
      && (st == Banned ==> t'.ips[ip].bannedTime == now)
      && (st == RateLimited && rateLimitSeconds.Some? && rateLimitSeconds.value != 0 ==>
            RateLimitOf(t'.ips[ip]) == rateLimitSeconds.value)
      && (forall other :: other != ip ==> (other in t'.ips <==> other in t.ips))
      && (forall other :: other != ip && other in t.ips ==> t'.ips[other] == t.ips[other])
      && (st == Banned && Truthy(operator) ==>
            operator.value in t'.banOps && t'.banOps[operator.value] == CountedBans(t.banOps, operator.value, now) + [now])
  {
    var st := ParseStatus(status).value;
    var t1 := t.(hasIps := true);
    if st == Banned && Truthy(operator) {
      var t2 := t1.(banOps := LoadBanOperationsAsWritten(t1.banOps, now).file);
      ApplyStatusSpec(t2, ip, st, rateLimitSeconds, operator, now, location);
      RecordAfterLoad(t.banOps, operator.value, now);
    } else {
      ApplyStatusSpec(t1, ip, st, rateLimitSeconds, operator, now, location);
    }
  }

  /** The write itself: the IP gets the new status, every other IP is kept, a ban by an operator is logged. */
  lemma ApplyStatusSpec(t: Table, ip: string, st: IpStatus, rateLimitSeconds: Option<int>,
                        operator: Option<string>, now: int, location: string)
    requires WellFormed(t) && t.hasIps
    ensures var t' := ApplyStatus(t, ip, st, rateLimitSeconds, operator, now, location);
      && WellFormed(t') && t'.hasIps == t.hasIps && t'.dirty
      && ip in t'.ips && t'.ips[ip].status == st
      && (st == Banned ==> t'.ips[ip].bannedTime == now)
      && (st == RateLimited && rateLimitSeconds.Some? && rateLimitSeconds.value != 0 ==>
            RateLimitOf(t'.ips[ip]) == rateLimitSeconds.value)
      && (forall other :: other != ip ==> (other in t'.ips <==> other in t.ips))
      && (forall other :: other != ip && other in t.ips ==> t'.ips[other] == t.ips[other])
      && t'.banOps == (if st == Banned && Truthy(operator) then RecordBanOperation(t.banOps, operator.value, now)
                       else t.banOps)
  {
    var r0 := if ip in t.ips then t.ips[ip] else NewRecord(st, "", location);
    PutRecordWellFormed(t, ip, WithStatus(r0, st, rateLimitSeconds, now));
  }

  /**
    Logging a ban right after a load appends this ban to the operator's list
    as the load handed it back, and keeps every other operator as saved.
  */
  lemma RecordAfterLoad(file: map<string, seq<int>>, operator: string, now: int)
    ensures var stored := LoadBanOperationsAsWritten(file, now).file;
      RecordBanOperation(stored, operator, now) == stored[operator := CountedBans(file, operator, now) + [now]]
  {
    var stored := LoadBanOperationsAsWritten(file, now).file;
    ReloadStable(file, now);
    LoadedOperator(file, operator, now);
    assert LoadBanOperationsAsWritten(file, now).data == stored;
  }


  /** A ban stamped at a positive time holds for exactly 24 hours against `check_ip_allowed`. */
  lemma BanHoldsForADay(t: Table, ip: string, rateLimitSeconds: Option<int>, operator: Option<string>,
                        banTime: int, later: int, location: string)
    requires WellFormed(t) && banTime > 0 && later >= banTime
    requires StatusSet(t, ip, "banned", rateLimitSeconds, operator, banTime, location).0 == Changed
    ensures var t' := StatusSet(t, ip, "banned", rateLimitSeconds, operator, banTime, location).1;
      CheckAllowed(t', ip, later).0 <==> later - banTime >= BanSeconds
  {
    StatusSetApplies(t, ip, "banned", rateLimitSeconds, operator, banTime, location);
  }

  // ---------------------------------------------------------------------
  // Periodic maintenance
  // ---------------------------------------------------------------------

  lemma {:induction false} UnbanEachSpec(ips: map<string, IpRecord>, keys: seq<string>, now: int)
    requires Distinct(keys) && forall k :: k in keys ==> k in ips
    ensures UnbanEach(ips, keys, now).0 == map ip | ip in ips :: if ip in keys then Unbanned(ips[ip], now) else ips[ip]
    ensures UnbanEach(ips, keys, now).1 > 0 <==> exists k :: k in keys && ExpiredBan(ips[k], now)
    decreases |keys|
  {
    if keys == [] {
      assert UnbanEach(ips, keys, now).0 == map ip | ip in ips :: ips[ip];
    } else {
      var init := keys[..|keys| - 1];
      var k := keys[|keys| - 1];
      assert keys == init + [k];
      assert Distinct(init);
      assert k !in init;
      UnbanEachSpec(ips, init, now);
    }
  }

  /**
    `_auto_unban_expired_ips` lifts exactly the expired bans, changes nothing
    else, and marks the cache dirty exactly when it lifted one.
  */
  lemma AutoUnbannedSpec(t: Table, now: int)
    requires WellFormed(t)
    ensures var u := AutoUnbanned(t, now);
      && WellFormed(u)
      && u.order == t.order && u.banOps == t.banOps && u.hasIps == t.hasIps
      && (forall ip :: ip in u.ips <==> ip in t.ips)
      && (forall ip :: ip in t.ips ==> u.ips[ip] == Unbanned(t.ips[ip], now))
      && (u.dirty <==> t.dirty || (t.hasIps && exists ip :: ip in t.ips && ExpiredBan(t.ips[ip], now)))
  {
    if t.hasIps {
      UnbanEachSpec(t.ips, t.order, now);
    }
  }

  /**
    The cleanup tiers: a record goes after 7 days without requests at 300 or
    more requests in total, after 5 days at 50 or more, after 3 days below
    that; banned records and records that never saw a request always stay.
  */
  lemma CleanupTiers(t: Table, now: int, ip: string)
    requires WellFormed(t) && t.hasIps && ip in t.ips
    ensures var r := t.ips[ip];
      var idle := now - r.lastRequestTime;
      && (r.status == Banned || r.lastRequestTime == 0 ==> ip in CleanedUp(t, now).ips)
      && (r.status != Banned && r.lastRequestTime != 0 ==>
            (ip !in CleanedUp(t, now).ips <==>
               if r.totalRequests >= 300 then idle >= 604800
               else if r.totalRequests >= 50 then idle >= 432000
               else idle >= 259200))
      && (ip in CleanedUp(t, now).ips ==> CleanedUp(t, now).ips[ip] == r)
  {
    CleanedUpSpec(t, now);
  }

  // ---------------------------------------------------------------------
  // Reports
  // ---------------------------------------------------------------------

  lemma {:induction false} TallyAll(keys: seq<string>, ips: map<string, IpRecord>)
    requires forall k :: k in keys ==> k in ips
    ensures Tally(keys, ips).totalIps == |keys|
    decreases |keys|
  {
    if keys != [] {
      TallyAll(keys[1..], ips);
    }
  }

  lemma {:induction false} DistinctCard(s: seq<string>)
    requires Distinct(s)
    ensures |set x | x in s| == |s|
    decreases |s|
  {
    if s != [] {
      var init := s[..|s| - 1];
      var last := s[|s| - 1];
      assert s == init + [last];
      DistinctCard(init);
      assert last !in init;
      assert (set x | x in s) == (set x | x in init) + {last};
    }
  }

  /** In the summary every IP is exactly one of active, banned and rate-limited. */
  lemma SummaryPartition(t: Table)
    requires WellFormed(t)
    ensures var s := Summary(t);
      s.activeIps + s.bannedIps + s.rateLimitedIps == s.totalIps == |t.ips|
  {
    TallyAll(t.order, t.ips);
    DistinctCard(t.order);
    assert t.ips.Keys == set x | x in t.order;
  }

  lemma {:induction false} InsertPermutes(s: seq<RankItem>, x: RankItem, byToday: bool)
    ensures multiset(Insert(s, x, byToday)) == multiset(s) + multiset{x}
    decreases |s|
  {
    if s != [] && Key(s[|s| - 1], byToday) < Key(x, byToday) {
      var init := s[..|s| - 1];
      assert s == init + [s[|s| - 1]];
      InsertPermutes(init, x, byToday);
    }
  }

  lemma {:induction false} InsertSorted(s: seq<RankItem>, x: RankItem, byToday: bool)
    requires SortedDesc(s, byToday)
    ensures SortedDesc(Insert(s, x, byToday), byToday)
    decreases |s|
  {
    if s == [] {
    } else if Key(s[|s| - 1], byToday) >= Key(x, byToday) {
      forall y | y in s ensures Key(y, byToday) >= Key(x, byToday) {
        var i :| 0 <= i < |s| && s[i] == y;
        assert i == |s| - 1 || Key(s[i], byToday) >= Key(s[|s| - 1], byToday);
      }
      AppendSorted(s, x, byToday);
    } else {
      var init := s[..|s| - 1];
      var last := s[|s| - 1];
      assert SortedDesc(init, byToday);
      InsertSorted(init, x, byToday);
      InsertPermutes(init, x, byToday);
      var r' := Insert(init, x, byToday);
      forall y | y in r' ensures Key(y, byToday) >= Key(last, byToday) {
        assert y in multiset(r');
        if y != x {
          assert y in multiset(init);
          var i :| 0 <= i < |init| && init[i] == y;
          assert s[i] == y;
        }
      }
      AppendSorted(r', last, byToday);
    }
  }

  /** Appending an element whose key is at most every key already there keeps the order. */
  lemma AppendSorted(s: seq<RankItem>, x: RankItem, byToday: bool)
    requires SortedDesc(s, byToday)
    requires forall y :: y in s ==> Key(y, byToday) >= Key(x, byToday)
    ensures SortedDesc(s + [x], byToday)
  {
    var r := s + [x];
    forall i, j | 0 <= i < j < |r| ensures Key(r[i], byToday) >= Key(r[j], byToday) {
      assert r[i] == s[i];
      if j == |s| {
        assert s[i] in s;
      } else {
        assert r[j] == s[j];
      }
    }
  }

  /** The ranking order: descending by the chosen key, and a permutation of the candidates. */
  lemma {:induction false} SortDescSpec(s: seq<RankItem>, byToday: bool)
    ensures multiset(SortDesc(s, byToday)) == multiset(s)
    ensures SortedDesc(SortDesc(s, byToday), byToday)
    decreases |s|
  {
    if s != [] {
      var init := s[..|s| - 1];
      assert s == init + [s[|s| - 1]];
      SortDescSpec(init, byToday);
      InsertPermutes(SortDesc(init, byToday), s[|s| - 1], byToday);
      InsertSorted(SortDesc(init, byToday), s[|s| - 1], byToday);
    }
  }

  /**
    The ranking's rows are exactly the table's records, as rows, without the
    banned ones unless they were asked for.
  */
  lemma {:induction false} CandidatesSpec(keys: seq<string>, ips: map<string, IpRecord>, includeBanned: bool)
    ensures forall item :: item in Candidates(keys, ips, includeBanned) ==>
      && item.ip in keys && item.ip in ips
      && item == RankItem(item.ip, ips[item.ip].todayRequests, ips[item.ip].totalRequests, ips[item.ip].status, ips[item.ip].location)
      && (includeBanned || item.status != Banned)
    ensures forall ip :: ip in keys && ip in ips && (includeBanned || ips[ip].status != Banned) ==>
      exists item :: item in Candidates(keys, ips, includeBanned) && item.ip == ip
    decreases |keys|
  {
    if keys != [] {
      CandidatesSpec(keys[1..], ips, includeBanned);
      var c := Candidates(keys, ips, includeBanned);
      var rest := Candidates(keys[1..], ips, includeBanned);
      assert forall item :: item in rest ==> item in c;
      forall ip | ip in keys && ip in ips && (includeBanned || ips[ip].status != Banned)
        ensures exists item :: item in c && item.ip == ip
      {
        if ip == keys[0] {
          var r := ips[ip];
          assert c[0] == RankItem(ip, r.todayRequests, r.totalRequests, r.status, r.location);
        } else {
          assert ip in keys[1..];
        }
      }
    }
  }

  /** The page count of `get_ip_ranking` is the ceiling of total / page size. */
  lemma CeilPages(total: nat, pageSize: int)
    requires pageSize >= 1
    ensures var q := (total + pageSize - 1) / pageSize;
      && q >= 0 && q * pageSize >= total
      && (q > 0 ==> (q - 1) * pageSize < total)
      && (total > 0 ==> q > 0)
  {
    var n := total + pageSize - 1;
    var q := n / pageSize;
    assert n == q * pageSize + n % pageSize;
    assert (q - 1) * pageSize == q * pageSize - pageSize;
  }

  lemma MulMono(a: int, b: int, c: nat)
    requires a <= b
    ensures a * c <= b * c
  {
  }

  /** `s[start:end]` holds the elements of `s` from `start` on, as many as fit below `end` and `|s|`. */
  lemma PySliceSpec<T>(s: seq<T>, start: nat, end: nat)
    ensures var e := if end < |s| then end else |s|;
      |PySlice(s, start, end)| == (if start < e then e - start else 0)
    ensures forall j :: 0 <= j < |PySlice(s, start, end)| ==>
      start + j < |s| && PySlice(s, start, end)[j] == s[start + j]
  {
  }

  /**
    `get_ip_ranking` pagination: the page count is the ceiling of
    total / page size, the page is clamped into range, and the links to the
    next and previous page say whether those pages exist.
  */
  lemma RankingPageBounds(t: Table, rankBy: string, page: int, pageSize: int, includeBanned: bool)
    requires pageSize >= 1
    ensures var r := Ranking(t, rankBy, page, pageSize, includeBanned);
      && r.total == |Ranked(t, rankBy, includeBanned)| && r.pageSize == pageSize
      && r.totalPages >= 0 && r.totalPages * pageSize >= r.total
      && (r.totalPages > 0 ==> (r.totalPages - 1) * pageSize < r.total)
      && 1 <= r.page <= (if r.totalPages > 0 then r.totalPages else 1)
      && (1 <= page <= r.totalPages ==> r.page == page)
      && (r.hasNext <==> r.page < r.totalPages) && (r.hasPrev <==> r.page > 1)
  {
    CeilPages(|Ranked(t, rankBy, includeBanned)|, pageSize);
  }

  /** The items of a page are that page's slice of the ranking: a full page except on the last, never empty when something is ranked. */
  lemma RankingPageItems(t: Table, rankBy: string, page: int, pageSize: int, includeBanned: bool)
    requires pageSize >= 1
    ensures var r := Ranking(t, rankBy, page, pageSize, includeBanned);
      var sorted := Ranked(t, rankBy, includeBanned);
      && |r.items| <= pageSize
      && (r.page < r.totalPages ==> |r.items| == pageSize)
      && (r.total > 0 ==> |r.items| > 0)
      && (forall j :: 0 <= j < |r.items| ==>
            (r.page - 1) * pageSize + j < r.total && r.items[j] == sorted[(r.page - 1) * pageSize + j])
  {
    var sorted := Ranked(t, rankBy, includeBanned);
    var r := Ranking(t, rankBy, page, pageSize, includeBanned);
    RankingPageBounds(t, rankBy, page, pageSize, includeBanned);
    PageStart(|sorted|, pageSize, r.page);
    var start := (r.page - 1) * pageSize;
    PySliceSpec(sorted, start, start + pageSize);
  }

  /** Where page `p` starts: inside the ranking when there is one, a full page before the end on every page but the last. */
  lemma PageStart(total: nat, pageSize: int, p: int)
    requires pageSize >= 1
    requires var q := (total + pageSize - 1) / pageSize; 1 <= p <= (if q > 0 then q else 1)
    ensures var q := (total + pageSize - 1) / pageSize;
      var start := (p - 1) * pageSize;
      && start >= 0
      && (q > 0 ==> start < total)
      && (p < q ==> start + pageSize <= total)
  {
    var q := (total + pageSize - 1) / pageSize;
    CeilPages(total, pageSize);
    MulMono(0, p - 1, pageSize);
    if q > 0 {
      MulMono(p - 1, q - 1, pageSize);
      if p < q {
        MulMono(p, q - 1, pageSize);
        assert (p - 1) * pageSize + pageSize == p * pageSize;
      }
    }
  }

  /** Element `k` lies on page `k / size + 1`, at offset `k % size`, and that page exists. */
  lemma PageOf(k: nat, total: nat, pageSize: int)
    requires pageSize >= 1 && k < total
    ensures var p := k / pageSize + 1;
      && p <= (total + pageSize - 1) / pageSize
      && (p - 1) * pageSize + k % pageSize == k
  {
    var q := (total + pageSize - 1) / pageSize;
    assert k == (k / pageSize) * pageSize + k % pageSize;
    CeilPages(total, pageSize);
    if q <= k / pageSize {
      MulMono(q, k / pageSize, pageSize);
    }
  }

  /** Every ranked IP is shown: the k-th of the ranking is item k % size of page k / size + 1. */
  lemma RankingCoversAll(t: Table, rankBy: string, pageSize: int, includeBanned: bool, k: nat)
    requires pageSize >= 1 && k < |Ranked(t, rankBy, includeBanned)|
    ensures var r := Ranking(t, rankBy, k / pageSize + 1, pageSize, includeBanned);
      k % pageSize < |r.items| && r.items[k % pageSize] == Ranked(t, rankBy, includeBanned)[k]
  {
    var sorted := Ranked(t, rankBy, includeBanned);
    var p := k / pageSize + 1;
    PageOf(k, |sorted|, pageSize);
    var start := (p - 1) * pageSize;
    var r := Ranking(t, rankBy, p, pageSize, includeBanned);
    assert r.page == p;
    assert r.items == PySlice(sorted, start, start + pageSize);
    PySliceSpec(sorted, start, start + pageSize);
  }

  /** The whole ranking: only records of the table, banned ones only when asked for, sorted by the chosen key. */
  lemma RankedSpec(t: Table, rankBy: string, includeBanned: bool)
    ensures forall item :: item in Ranked(t, rankBy, includeBanned) ==>
      item.ip in t.ips && (includeBanned || item.status != Banned)
    ensures SortedDesc(Ranked(t, rankBy, includeBanned), rankBy == "today")
  {
    var cands := Candidates(t.order, t.ips, includeBanned);
    SortDescSpec(cands, rankBy == "today");
    CandidatesSpec(t.order, t.ips, includeBanned);
    forall item | item in Ranked(t, rankBy, includeBanned)
      ensures item.ip in t.ips && (includeBanned || item.status != Banned)
    {
      assert item in multiset(Ranked(t, rankBy, includeBanned));
      assert item in multiset(cands);
    }
  }

  /** A slice of a sorted sequence is sorted and holds only its elements. */
  lemma SliceSorted(s: seq<RankItem>, start: nat, end: nat, byToday: bool)
    requires SortedDesc(s, byToday)
    ensures SortedDesc(PySlice(s, start, end), byToday)
    ensures forall item :: item in PySlice(s, start, end) ==> item in s
  {
    PySliceSpec(s, start, end);
    var p := PySlice(s, start, end);
    forall i, j | 0 <= i < j < |p| ensures Key(p[i], byToday) >= Key(p[j], byToday) {
      assert p[i] == s[start + i] && p[j] == s[start + j];
    }
    forall item | item in p ensures item in s {
      var j :| 0 <= j < |p| && p[j] == item;
      assert s[start + j] == item;
    }
  }

  /** Without `include_banned` no banned IP is ranked, and every page is sorted by the chosen key. */
  lemma RankingContents(t: Table, rankBy: string, page: int, pageSize: int, includeBanned: bool)
    requires pageSize >= 1
    ensures var r := Ranking(t, rankBy, page, pageSize, includeBanned);
      && (forall item :: item in r.items ==> item.ip in t.ips && (includeBanned || item.status != Banned))
      && SortedDesc(r.items, rankBy == "today")
  {
    var r := Ranking(t, rankBy, page, pageSize, includeBanned);
    RankedSpec(t, rankBy, includeBanned);
    MulMono(0, r.page - 1, pageSize);
    var start := (r.page - 1) * pageSize;
    SliceSorted(Ranked(t, rankBy, includeBanned), start, start + pageSize, rankBy == "today");
  }
}
