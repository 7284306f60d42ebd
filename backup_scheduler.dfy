/**
  The hourly credential backup: the retry of one backup, the step rule of the
  scheduler loop (back up in the first three minutes of an hour not yet
  backed up, otherwise sleep until four minutes before the next hour), the
  loop over clock readings, and the start/stop flags of the scheduler and of
  the process-wide instance.

  Time is the UTC+8 wall clock handed in as readings; the backup itself is an
  oracle: one boolean per attempt, `true` when it completed.
*/
module Backup {
  import opened Wrappers

  const MaxAttempts: nat := 3
  const RetryDelaySeconds: nat := 60
  const NoBackupYet: int := -1
  const BackupWindowMinutes: int := 2        // minutes 0, 1 and 2 of the hour
  const AfterBackupSleep: int := 180
  const NearHourSeconds: int := 300
  const WakeEarlySeconds: int := 240
  const PollSeconds: int := 30

  // ---------------------------------------------------------------------
  // One backup, with retries
  // ---------------------------------------------------------------------

  datatype Event = Attempt(n: nat) | Sleep(seconds: nat)

  datatype BackupRun = BackupRun(events: seq<Event>, succeeded: bool)

  /** Whether attempt `attempt` (counted from 1) completes; a missing entry is a failure. */
  predicate Completes(outcomes: seq<bool>, attempt: nat)
    requires attempt >= 1
  {
    attempt - 1 < |outcomes| && outcomes[attempt - 1]
  }

  /** The attempts from `attempt` on, with a pause after each failure but the last. */
  function RunFrom(outcomes: seq<bool>, attempt: nat): BackupRun
    requires 1 <= attempt <= MaxAttempts
    decreases MaxAttempts - attempt
  {
    if Completes(outcomes, attempt) then BackupRun([Attempt(attempt)], true)
    else if attempt < MaxAttempts then
      var rest := RunFrom(outcomes, attempt + 1);
      BackupRun([Attempt(attempt), Sleep(RetryDelaySeconds)] + rest.events, rest.succeeded)
    else BackupRun([Attempt(attempt)], false)
  }

  /** `_run_backup`. */
  function Run(outcomes: seq<bool>): BackupRun
  {
    RunFrom(outcomes, 1)
  }

  /** `_run_backup` as a loop over the attempts. */
  method RunBackup(outcomes: seq<bool>) returns (run: BackupRun)
    ensures run == Run(outcomes)
  {
    var events: seq<Event> := [];
    var attempt: nat := 1;
    while true
      invariant 1 <= attempt <= MaxAttempts
      invariant Run(outcomes) == BackupRun(events + RunFrom(outcomes, attempt).events, RunFrom(outcomes, attempt).succeeded)
      decreases MaxAttempts - attempt
    {
      if Completes(outcomes, attempt) {
        return BackupRun(events + [Attempt(attempt)], true);
      }
      if attempt < MaxAttempts {
        ghost var rest := RunFrom(outcomes, attempt + 1);
        assert RunFrom(outcomes, attempt) == BackupRun([Attempt(attempt), Sleep(RetryDelaySeconds)] + rest.events, rest.succeeded);
        assert events + ([Attempt(attempt), Sleep(RetryDelaySeconds)] + rest.events)
            == (events + [Attempt(attempt), Sleep(RetryDelaySeconds)]) + rest.events;
        events := events + [Attempt(attempt), Sleep(RetryDelaySeconds)];
        attempt := attempt + 1;
      } else {
        return BackupRun(events + [Attempt(attempt)], false);
      }
    }
  }

  /** How many attempts a backup makes. */
  function AttemptsMade(outcomes: seq<bool>): nat
  {
    if Completes(outcomes, 1) then 1 else if Completes(outcomes, 2) then 2 else 3
  }

  lemma {:induction false} RunFromShape(outcomes: seq<bool>, attempt: nat)
    requires 1 <= attempt <= MaxAttempts
    ensures var r := RunFrom(outcomes, attempt);
      && (r.succeeded <==> exists a :: attempt <= a <= MaxAttempts && Completes(outcomes, a))
      && exists last :: attempt <= last <= MaxAttempts
           && |r.events| == 2 * (last - attempt) + 1
           && (forall a :: attempt <= a < last ==> !Completes(outcomes, a))
           && (last < MaxAttempts ==> Completes(outcomes, last))
           && (forall j :: 0 <= j < |r.events| ==>
                 r.events[j] == if j % 2 == 0 then Attempt(attempt + j / 2) else Sleep(RetryDelaySeconds))
    decreases MaxAttempts - attempt
  {
    var r := RunFrom(outcomes, attempt);
    if Completes(outcomes, attempt) {
      assert |r.events| == 1 && r.events[0] == Attempt(attempt);
    } else if attempt < MaxAttempts {
      RunFromShape(outcomes, attempt + 1);
      var rest := RunFrom(outcomes, attempt + 1);
      var last :| attempt + 1 <= last <= MaxAttempts
           && |rest.events| == 2 * (last - attempt - 1) + 1
           && (forall a :: attempt + 1 <= a < last ==> !Completes(outcomes, a))
           && (last < MaxAttempts ==> Completes(outcomes, last))
           && (forall j :: 0 <= j < |rest.events| ==>
                 rest.events[j] == if j % 2 == 0 then Attempt(attempt + 1 + j / 2) else Sleep(RetryDelaySeconds));
      assert r.events == [Attempt(attempt), Sleep(RetryDelaySeconds)] + rest.events;
      forall j | 0 <= j < |r.events|
        ensures r.events[j] == if j % 2 == 0 then Attempt(attempt + j / 2) else Sleep(RetryDelaySeconds)
      {
        if j >= 2 {
          assert r.events[j] == rest.events[j - 2];
          assert (j - 2) / 2 == j / 2 - 1 && (j - 2) % 2 == j % 2;
        }
      }
      assert forall a :: attempt <= a < last ==> !Completes(outcomes, a);
    } else {
      assert |r.events| == 1 && r.events[0] == Attempt(attempt);
    }
  }

  /**
    `_run_backup` succeeds exactly when one of its three attempts completes;
    it stops at the first that does (after three failures otherwise), and
    pauses 60 s between failed attempts, never after the last one.
  */
  lemma RunSpec(outcomes: seq<bool>)
    ensures var r := Run(outcomes);
      var k := AttemptsMade(outcomes);
      && (r.succeeded <==> exists a :: 1 <= a <= MaxAttempts && Completes(outcomes, a))
      && 1 <= k <= MaxAttempts
      && |r.events| == 2 * k - 1
      && (forall j :: 0 <= j < |r.events| ==>
            r.events[j] == if j % 2 == 0 then Attempt(j / 2 + 1) else Sleep(RetryDelaySeconds))
      && (r.succeeded ==> Completes(outcomes, k))
  {
    RunFromShape(outcomes, 1);
    var r := Run(outcomes);
    var last :| 1 <= last <= MaxAttempts
           && |r.events| == 2 * (last - 1) + 1
           && (forall a :: 1 <= a < last ==> !Completes(outcomes, a))
           && (last < MaxAttempts ==> Completes(outcomes, last))
           && (forall j :: 0 <= j < |r.events| ==>
                 r.events[j] == if j % 2 == 0 then Attempt(1 + j / 2) else Sleep(RetryDelaySeconds));
    assert last == AttemptsMade(outcomes);
  }

  // ---------------------------------------------------------------------
  // The scheduler loop
  // ---------------------------------------------------------------------

  /** A reading of the UTC+8 wall clock. */
  datatype Clock = Clock(hour: int, minute: int, second: int)

  predicate ValidClock(c: Clock)
  {
    0 <= c.hour < 24 && 0 <= c.minute < 60 && 0 <= c.second < 60
  }

  /** Seconds since the top of the hour. */
  function IntoHour(c: Clock): int
  {
    c.minute * 60 + c.second
  }

  /** What one pass of the loop does: back up or not, how long it sleeps, and the hour last backed up. */
  datatype Decision = Decision(runBackup: bool, sleepSeconds: int, lastBackupHour: int)

  function SecondsToNextHour(c: Clock): int
  {
    (60 - c.minute) * 60 - c.second
  }

  /** One pass of `_scheduler_loop`. */
  function SchedulerStep(c: Clock, lastBackupHour: int): Decision
  {
    if c.minute <= BackupWindowMinutes && c.hour != lastBackupHour then
      Decision(true, AfterBackupSleep, c.hour)
    else
      var toNext := SecondsToNextHour(c);
      Decision(false, if toNext > NearHourSeconds then toNext - WakeEarlySeconds else PollSeconds, lastBackupHour)
  }

  /**
    The step rule: a backup runs exactly in minutes 0 to 2 of an hour other
    than the last one backed up, and then records that hour and sleeps three
    minutes; otherwise the time to the next hour is between 1 s and an hour,
    and the loop either wakes exactly four minutes before the hour or polls
    every 30 s, never sleeping past the end of the next backup window.
  */
  lemma StepRule(c: Clock, lastBackupHour: int)
    requires ValidClock(c)
    ensures var d := SchedulerStep(c, lastBackupHour);
      && (d.runBackup <==> c.minute <= BackupWindowMinutes && c.hour != lastBackupHour)
      && (d.runBackup ==> d.lastBackupHour == c.hour && d.sleepSeconds == AfterBackupSleep)
      && (!d.runBackup ==> d.lastBackupHour == lastBackupHour)
      && 1 <= SecondsToNextHour(c) <= 3600
      && IntoHour(c) + SecondsToNextHour(c) == 3600
      && d.sleepSeconds > 0
      && (!d.runBackup && SecondsToNextHour(c) > NearHourSeconds ==> IntoHour(c) + d.sleepSeconds == 3600 - WakeEarlySeconds)
      && (!d.runBackup && SecondsToNextHour(c) <= NearHourSeconds ==> d.sleepSeconds == PollSeconds)
      && (!d.runBackup ==> IntoHour(c) + d.sleepSeconds < 3600 + (BackupWindowMinutes + 1) * 60)
  {
  }

  /** Right after a backup, no reading in the same hour backs up again. */
  lemma OncePerHourValue(c: Clock, c': Clock, lastBackupHour: int)
    requires SchedulerStep(c, lastBackupHour).runBackup && c'.hour == c.hour
    ensures !SchedulerStep(c', SchedulerStep(c, lastBackupHour).lastBackupHour).runBackup
  {
  }

  /** A pass of the loop: the decision and, when it backed up, how the backup went. */
  datatype Tick = Tick(decision: Decision, backup: Option<BackupRun>)

  /** The passes of the loop over successive clock readings, with one backup oracle per reading. */
  function Ticks(readings: seq<Clock>, oracles: seq<seq<bool>>, lastBackupHour: int): seq<Tick>
    requires |oracles| == |readings|
    decreases |readings|
  {
    if readings == [] then []
    else
      var d := SchedulerStep(readings[0], lastBackupHour);
      [Tick(d, if d.runBackup then Some(Run(oracles[0])) else None)]
        + Ticks(readings[1..], oracles[1..], d.lastBackupHour)
  }

  /** `_scheduler_loop` while the scheduler runs: one pass per clock reading, the last backed-up hour starting at -1. */
  method SchedulerLoop(readings: seq<Clock>, oracles: seq<seq<bool>>) returns (ticks: seq<Tick>)
    requires |oracles| == |readings|
    ensures ticks == Ticks(readings, oracles, NoBackupYet)
  {
    ticks := [];
    var lastBackupHour := NoBackupYet;
    var i := 0;
    while i < |readings|
      invariant 0 <= i <= |readings|
      invariant ticks + Ticks(readings[i..], oracles[i..], lastBackupHour) == Ticks(readings, oracles, NoBackupYet)
    {
      assert readings[i..][1..] == readings[i + 1..] && oracles[i..][1..] == oracles[i + 1..];
      var d := SchedulerStep(readings[i], lastBackupHour);
      var backup: Option<BackupRun> := None;
      if d.runBackup {
        var run := RunBackup(oracles[i]);
        backup := Some(run);
      }
      ticks := ticks + [Tick(d, backup)];
      lastBackupHour := d.lastBackupHour;
      i := i + 1;
    }
  }

  lemma {:induction false} TicksLength(readings: seq<Clock>, oracles: seq<seq<bool>>, lastBackupHour: int)
    requires |oracles| == |readings|
    ensures |Ticks(readings, oracles, lastBackupHour)| == |readings|
    decreases |readings|
  {
    if readings != [] {
      TicksLength(readings[1..], oracles[1..], lastBackupHour);
      TicksLength(readings[1..], oracles[1..], SchedulerStep(readings[0], lastBackupHour).lastBackupHour);
    }
  }

  /** The first backup of a stretch is in an hour other than the one last backed up before it. */
  lemma {:induction false} FirstBackupNewHour(readings: seq<Clock>, oracles: seq<seq<bool>>, lastBackupHour: int, m: nat)
    requires |oracles| == |readings| && m < |readings|
    requires TicksLengthHolds(readings, oracles, lastBackupHour)
    requires Ticks(readings, oracles, lastBackupHour)[m].decision.runBackup
    requires forall k :: 0 <= k < m ==> !Ticks(readings, oracles, lastBackupHour)[k].decision.runBackup
    ensures readings[m].hour != lastBackupHour
    decreases m
  {
    var ticks := Ticks(readings, oracles, lastBackupHour);
    var d := SchedulerStep(readings[0], lastBackupHour);
    var rest := Ticks(readings[1..], oracles[1..], d.lastBackupHour);
    assert ticks == [Tick(d, if d.runBackup then Some(Run(oracles[0])) else None)] + rest;
    if m > 0 {
      assert ticks[0].decision == d;
      assert !d.runBackup;
      TicksLength(readings[1..], oracles[1..], d.lastBackupHour);
      forall k | 0 <= k < m - 1 ensures !rest[k].decision.runBackup {
        assert rest[k] == ticks[k + 1];
      }
      assert rest[m - 1] == ticks[m];
      FirstBackupNewHour(readings[1..], oracles[1..], d.lastBackupHour, m - 1);
    }
  }

  predicate TicksLengthHolds(readings: seq<Clock>, oracles: seq<seq<bool>>, lastBackupHour: int)
    requires |oracles| == |readings|
  {
    |Ticks(readings, oracles, lastBackupHour)| == |readings|
  }

  /** Two backups with none between them fall in different hours: the same hour is never backed up twice in a row. */
  lemma {:induction false} ConsecutiveBackupsDifferentHours(readings: seq<Clock>, oracles: seq<seq<bool>>,
                                                           lastBackupHour: int, i: nat, j: nat)
    requires |oracles| == |readings| && i < j < |readings|
    requires TicksLengthHolds(readings, oracles, lastBackupHour)
    requires Ticks(readings, oracles, lastBackupHour)[i].decision.runBackup
    requires Ticks(readings, oracles, lastBackupHour)[j].decision.runBackup
    requires forall k :: i < k < j ==> !Ticks(readings, oracles, lastBackupHour)[k].decision.runBackup
    ensures readings[i].hour != readings[j].hour
    decreases i
  {
    var ticks := Ticks(readings, oracles, lastBackupHour);
    var d := SchedulerStep(readings[0], lastBackupHour);
    var rest := Ticks(readings[1..], oracles[1..], d.lastBackupHour);
    assert ticks == [Tick(d, if d.runBackup then Some(Run(oracles[0])) else None)] + rest;
    TicksLength(readings[1..], oracles[1..], d.lastBackupHour);
    assert rest[j - 1] == ticks[j];
    if i == 0 {
      forall k | 0 <= k < j - 1 ensures !rest[k].decision.runBackup {
        assert rest[k] == ticks[k + 1];
      }
      FirstBackupNewHour(readings[1..], oracles[1..], d.lastBackupHour, j - 1);
    } else {
      assert rest[i - 1] == ticks[i];
      forall k | i - 1 < k < j - 1 ensures !rest[k].decision.runBackup {
        assert rest[k] == ticks[k + 1];
      }
      ConsecutiveBackupsDifferentHours(readings[1..], oracles[1..], d.lastBackupHour, i - 1, j - 1);
    }
  }

  // ---------------------------------------------------------------------
  // Starting and stopping
  // ---------------------------------------------------------------------

  class BackupScheduler {
    var intervalHours: int
    var intervalSeconds: int
    var running: bool
    var hasThread: bool
    /** How many loop threads `start` has launched. */
    ghost var threadsStarted: nat

    constructor (intervalHours: int)
      ensures this.intervalHours == intervalHours && intervalSeconds == intervalHours * 3600
      ensures !running && !hasThread && threadsStarted == 0
    {
      this.intervalHours := intervalHours;
      intervalSeconds := intervalHours * 3600;
      running := false;
      hasThread := false;
      threadsStarted := 0;
    }

    /** `start`: a no-op while running; otherwise sets `running` and launches the loop thread. */
    method Start()
      modifies this
      ensures old(running) ==> unchanged(this)
      ensures !old(running) ==> running && hasThread && threadsStarted == old(threadsStarted) + 1
      ensures intervalHours == old(intervalHours) && intervalSeconds == old(intervalSeconds)
    {
      if running {
        return;
      }
      running := true;
      hasThread := true;
      threadsStarted := threadsStarted + 1;
    }

    /** `stop`: a no-op while not running; otherwise clears `running` (the thread object stays). */
    method Stop()
      modifies this
      ensures !running
      ensures !old(running) ==> unchanged(this)
      ensures hasThread == old(hasThread) && threadsStarted == old(threadsStarted)
      ensures intervalHours == old(intervalHours) && intervalSeconds == old(intervalSeconds)
    {
      if !running {
        return;
      }
      running := false;
    }
  }

  /** The process-wide scheduler slot (`_scheduler`). */
  class SchedulerRegistry {
    var current: BackupScheduler?

    constructor ()
      ensures current == null
    {
      current := null;
    }

    /** `start_backup_scheduler`: the existing scheduler if there is one, else a new, started one. */
    method StartBackupScheduler(intervalHours: int) returns (s: BackupScheduler)
      modifies this
      ensures old(current) != null ==> s == old(current) && current == old(current)
      ensures old(current) == null ==>
        && fresh(s) && current == s && s.running && s.hasThread && s.threadsStarted == 1
        && s.intervalHours == intervalHours && s.intervalSeconds == intervalHours * 3600
    {
      if current != null {
        return current;
      }
      s := new BackupScheduler(intervalHours);
      s.Start();
      current := s;
    }

    /** `stop_backup_scheduler`: stops the scheduler there is and empties the slot. */
    method StopBackupScheduler()
      modifies this, current
      ensures current == null
      ensures old(current) != null ==> !old(current).running
    {
      if current != null {
        current.Stop();
        current := null;
      }
    }
  }
}
