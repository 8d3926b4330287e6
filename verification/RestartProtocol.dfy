/** The restart protocol of agent/lifecycle.py: a watchdog thread replacing scheduler threads that share one stop flag,
    over every interleaving up to shutdown. */
module RestartProtocol {
  import opened Prelude
  import opened WatchdogCheck

  /** Where the watchdog thread is inside _restart_worker. */
  datatype Phase = Idle | StopWanted | Joining | StopSet | Starting

  /** `alive[i]` is thread i of all scheduler threads ever started; the last one started is the worker.
      `timeouts` counts joins given up and `log` the restarts: clock reading and heartbeat of the check. */
  datatype System = System(counters: Counters, phase: Phase, stop: bool, alive: seq<bool>, timeouts: nat,
                           log: seq<(Time, Time)>)

  /** Agent.run has started the first worker and the watchdog. */
  const STARTED: System := System(FRESH_COUNTERS, Idle, false, [true], 0, [])

  datatype Event =
    | Check(heartbeat: Option<Time>, now: Time)
    | SetStop
    | WorkerGone
    | JoinTimesOut
    | ClearStop
    | StartThread
    | SeesStop(thread: nat)
    | Dies(thread: nat)

  function Worker(s: System): bool {
    s.alive != [] && s.alive[|s.alive| - 1]
  }

  /** What can happen next.  The watchdog thread runs its phases in order; a scheduler thread may look at the stop flag,
      or die of an unhandled error, at any moment. */
  predicate Enabled(s: System, e: Event) {
    match e
    case Check(_, _) => s.phase == Idle
    case SetStop => s.phase == StopWanted
    case WorkerGone => s.phase == Joining && !Worker(s)
    case JoinTimesOut => s.phase == Joining && Worker(s)
    case ClearStop => s.phase == StopSet
    case StartThread => s.phase == Starting
    case SeesStop(i) => i < |s.alive| && s.alive[i] && s.stop
    case Dies(i) => i < |s.alive| && s.alive[i]
  }

  function Next(l: Limits, s: System, e: Event): System
    requires Enabled(s, e)
  {
    match e
    case Check(heartbeat, now) =>
      var restart := Restarts(l, s.counters, heartbeat, now);
      s.(counters := Checked(l, s.counters, heartbeat, now),
         phase := if restart then StopWanted else Idle,
         log := if restart then s.log + [(now, heartbeat.value)] else s.log)
    case SetStop => s.(stop := true, phase := Joining)
    case WorkerGone => s.(phase := StopSet)
    case JoinTimesOut => s.(phase := StopSet, timeouts := s.timeouts + 1)
    case ClearStop => s.(stop := false, phase := Starting)
    case StartThread => s.(alive := s.alive + [true], phase := Idle)
    case SeesStop(i) => s.(alive := s.alive[i := false])
    case Dies(i) => s.(alive := s.alive[i := false])
  }

  predicate Possible(l: Limits, s: System, events: seq<Event>)
    decreases |events|, 0
  {
    events == [] || (Possible(l, s, events[..|events| - 1])
                     && Enabled(After(l, s, events[..|events| - 1]), events[|events| - 1]))
  }

  function After(l: Limits, s: System, events: seq<Event>): System
    requires Possible(l, s, events)
    decreases |events|, 1
  {
    if events == [] then s else Next(l, After(l, s, events[..|events| - 1]), events[|events| - 1])
  }

  lemma NoEventYet(l: Limits, s: System)
    ensures Possible(l, s, []) && After(l, s, []) == s
  {
  }

  lemma OneMoreEvent(l: Limits, s: System, events: seq<Event>, e: Event)
    requires Possible(l, s, events) && Enabled(After(l, s, events), e)
    ensures Possible(l, s, events + [e])
    ensures After(l, s, events + [e]) == Next(l, After(l, s, events), e)
  {
    assert (events + [e])[..|events|] == events;
  }

  /* ---- threads ---- */

  function LiveThreads(alive: seq<bool>): nat {
    if alive == [] then 0
    else LiveThreads(alive[..|alive| - 1]) + if alive[|alive| - 1] then 1 else 0
  }

  lemma {:induction false} OneThreadLess(alive: seq<bool>, i: nat)
    requires i < |alive| && alive[i]
    ensures LiveThreads(alive[i := false]) == LiveThreads(alive) - 1
  {
    var k := |alive| - 1;
    if i < k {
      OneThreadLess(alive[..k], i);
      assert alive[i := false][..k] == alive[..k][i := false];
    } else {
      assert alive[i := false][..k] == alive[..k];
    }
  }

  lemma OneThreadMore(alive: seq<bool>)
    ensures LiveThreads(alive + [true]) == LiveThreads(alive) + 1
  {
    assert (alive + [true])[..|alive|] == alive;
  }

  /** The worker has been told to stop and waited for. */
  predicate WorkerLeft(p: Phase) {
    p == StopSet || p == Starting
  }

  /* ---- the invariant ---- */

  ghost predicate Consistent(l: Limits, s: System) {
    && s.alive != []
    && LiveThreads(s.alive) <= s.timeouts + (if WorkerLeft(s.phase) then 0 else 1)
    && (LiveThreads(s.alive[..|s.alive| - 1]) <= s.timeouts)
    && |s.log| == s.counters.restarts <= l.maxRestarts
    && s.timeouts + (if s.phase == StopWanted || s.phase == Joining then 1 else 0) <= s.counters.restarts
    && (forall i :: 0 <= i < |s.log| ==> s.log[i].0 - s.log[i].1 > l.staleAfter)
    && (forall i :: 0 < i < |s.log| ==> s.log[i].0 - s.log[i - 1].0 >= l.backoff)
    && s.counters.lastRestart == (if s.log == [] then 0.0 else s.log[|s.log| - 1].0)
  }

  /** A thread leaving raises neither the number of live threads nor that of the older ones. */
  lemma ThreadLeaves(alive: seq<bool>, i: nat)
    requires i < |alive| && alive[i]
    ensures
      var left := alive[i := false];
      && LiveThreads(left) <= LiveThreads(alive)
      && LiveThreads(left[..|alive| - 1]) <= LiveThreads(alive[..|alive| - 1])
  {
    var k := |alive| - 1;
    OneThreadLess(alive, i);
    if i < k {
      OneThreadLess(alive[..k], i);
      assert alive[i := false][..k] == alive[..k][i := false];
    } else {
      assert alive[i := false][..k] == alive[..k];
    }
  }

  lemma ConsistentStop(l: Limits, s: System, e: Event, i: nat)
    requires Consistent(l, s) && Enabled(s, e) && (e == SeesStop(i) || e == Dies(i))
    ensures Consistent(l, Next(l, s, e))
  {
    ThreadLeaves(s.alive, i);
  }

  lemma ConsistentCheck(l: Limits, s: System, e: Event)
    requires Consistent(l, s) && Enabled(s, e) && e.Check?
    ensures Consistent(l, Next(l, s, e))
  {
    hide LiveThreads;
  }

  lemma ConsistentStep(l: Limits, s: System, e: Event)
    requires Consistent(l, s) && Enabled(s, e)
    ensures Consistent(l, Next(l, s, e))
  {
    hide Restarts, Checked;
    match e {
      case Check(_, _) => ConsistentCheck(l, s, e);
      case SeesStop(i) => ConsistentStop(l, s, e, i);
      case Dies(i) => ConsistentStop(l, s, e, i);
      case StartThread =>
        OneThreadMore(s.alive);
        assert (s.alive + [true])[..|s.alive|] == s.alive;
      case _ =>
    }
  }

  lemma {:induction false} ConsistentOverRuns(l: Limits, events: seq<Event>)
    requires Possible(l, STARTED, events)
    ensures Consistent(l, After(l, STARTED, events))
  {
    if events == [] {
      assert LiveThreads(STARTED.alive[..0]) == 0;
    } else {
      ConsistentOverRuns(l, events[..|events| - 1]);
      ConsistentStep(l, After(l, STARTED, events[..|events| - 1]), events[|events| - 1]);
    }
  }

  /** Over every interleaving: restarts never exceed the cap; each follows a stale check; restart times are at least the
      backoff apart, even if the clock jumps back in between; live scheduler threads never exceed one plus the joins
      given up, which never exceed the restarts; and with no join given up there is at most one live thread. */
  lemma RestartsAreBounded(l: Limits, events: seq<Event>)
    requires Possible(l, STARTED, events)
    ensures
      var s := After(l, STARTED, events);
      && s.counters.restarts <= l.maxRestarts && |s.log| == s.counters.restarts
      && (forall i :: 0 <= i < |s.log| ==> s.log[i].0 - s.log[i].1 > l.staleAfter)
      && (forall i :: 0 < i < |s.log| ==> s.log[i].0 - s.log[i - 1].0 >= l.backoff)
      && LiveThreads(s.alive) <= 1 + s.timeouts && s.timeouts <= s.counters.restarts
      && (s.timeouts == 0 ==> LiveThreads(s.alive) <= 1)
  {
    ConsistentOverRuns(l, events);
  }

  /** A check restarts exactly if the heartbeat is stale, the log has fewer restarts than the cap, and the last of them, if
      any, is a backoff ago; the log then grows by this check and nothing else. */
  lemma CheckRestartsIff(l: Limits, events: seq<Event>, heartbeat: Option<Time>, now: Time)
    requires Possible(l, STARTED, events) && After(l, STARTED, events).phase == Idle && l.backoff <= now
    ensures
      var s := After(l, STARTED, events);
      var after := Next(l, s, Check(heartbeat, now));
      var due :=
        && heartbeat.Some? && heartbeat.value < now - l.staleAfter
        && |s.log| < l.maxRestarts
        && (s.log != [] ==> s.log[|s.log| - 1].0 + l.backoff <= now);
      && (after.phase == StopWanted <==> due)
      && after.log == (if due then s.log + [(now, heartbeat.value)] else s.log)
  {
    ConsistentOverRuns(l, events);
  }

  /** A check of a heartbeat older than the limit. */
  predicate FindsStale(l: Limits, e: Event) {
    e.Check? && e.heartbeat.Some? && e.heartbeat.value < e.now - l.staleAfter
  }

  /** Event i is the newest check so far that found the heartbeat stale. */
  ghost predicate NewestStale(l: Limits, events: seq<Event>, i: int) {
    0 <= i < |events| && FindsStale(l, events[i]) && forall j :: i < j < |events| ==> !FindsStale(l, events[j])
  }

  /** Only a check that finds the heartbeat stale puts anything on record. */
  lemma RecordOfStep(l: Limits, s: System, e: Event)
    requires Enabled(s, e)
    ensures
      var c, after := s.counters, Next(l, s, e).counters;
      if FindsStale(l, e) then
        after.staleDetected && after.failures == Some(c.restarts + 1) && after.lastFailure == Some(e.now)
      else
        after.staleDetected == c.staleDetected && after.failures == c.failures && after.lastFailure == c.lastFailure
  {
  }

  /** A failure is on record exactly if some check found the heartbeat stale. */
  lemma {:induction false} FailureIsRecorded(l: Limits, events: seq<Event>)
    requires Possible(l, STARTED, events)
    ensures
      var c := After(l, STARTED, events).counters;
      && (c.staleDetected <==> exists i :: 0 <= i < |events| && FindsStale(l, events[i]))
      && c.failures.Some? == c.lastFailure.Some? == c.staleDetected
  {
    hide Enabled, Next, FindsStale;
    if events != [] {
      var before, e := events[..|events| - 1], events[|events| - 1];
      FailureIsRecorded(l, before);
      RecordOfStep(l, After(l, STARTED, before), e);
      assert FindsStale(l, e) ==> FindsStale(l, events[|events| - 1]);
      assert forall i :: 0 <= i < |before| ==> before[i] == events[i];
    }
  }

  /** The record is that of the newest stale check: its time, and one more than the restarts before it. */
  lemma {:induction false} NewestFailure(l: Limits, events: seq<Event>, i: nat)
    requires Possible(l, STARTED, events) && NewestStale(l, events, i)
    ensures
      var c := After(l, STARTED, events).counters;
      && Possible(l, STARTED, events[..i])
      && c.lastFailure == Some(events[i].now) && c.failures == Some(|After(l, STARTED, events[..i]).log| + 1)
  {
    hide Enabled, Next, FindsStale, LiveThreads;
    var before, e := events[..|events| - 1], events[|events| - 1];
    RecordOfStep(l, After(l, STARTED, before), e);
    if i == |events| - 1 {
      ConsistentOverRuns(l, before);
    } else {
      NewestFailure(l, before, i);
      assert before[..i] == events[..i];
    }
  }

  /** A restart begun runs to its end: whether or not the join times out, it leaves the flag clear and a live worker. */
  lemma RestartCompletes(l: Limits, s: System)
    requires s.phase == StopWanted && s.alive != []
    ensures
      var joined := if Worker(s) then JoinTimesOut else WorkerGone;
      var events := [SetStop] + [joined] + [ClearStop] + [StartThread];
      && Possible(l, s, events)
      && var after := After(l, s, events);
         after.phase == Idle && !after.stop && Worker(after) && after.alive == s.alive + [true] && after.log == s.log
  {
    var joined := if Worker(s) then JoinTimesOut else WorkerGone;
    OneMoreEvent(l, s, [], SetStop);
    OneMoreEvent(l, s, [] + [SetStop], joined);
    OneMoreEvent(l, s, [] + [SetStop] + [joined], ClearStop);
    OneMoreEvent(l, s, [] + [SetStop] + [joined] + [ClearStop], StartThread);
    assert [] + [SetStop] == [SetStop];
  }

  /** Any two restarts, n apart in the log, are at least n backoffs apart in time. */
  lemma {:induction false} AnyTwoRestartsAreApart(l: Limits, s: System, i: nat, j: nat)
    requires Consistent(l, s) && i <= j < |s.log|
    ensures s.log[j].0 - s.log[i].0 >= (j - i) as real * l.backoff
    decreases j
  {
    if i < j {
      AnyTwoRestartsAreApart(l, s, i, j - 1);
      assert s.log[j].0 - s.log[j - 1].0 >= l.backoff;
      assert (j - i) as real * l.backoff == (j - 1 - i) as real * l.backoff + l.backoff;
    }
  }

  lemma TwoThreads()
    ensures LiveThreads([true] + [true]) == 2
  {
    OneThreadMore([]);
    OneThreadMore([true]);
    assert [] + [true] == [true];
  }

  /** The bound is tight: a join given up really can leave two live schedulers, since clearing the shared flag for the new
      thread revives the old one. */
  lemma GivenUpJoinLeavesTwo(heartbeat: Time, now: Time)
    requires now - heartbeat > STALE_AFTER && now >= BACKOFF_SECONDS
    ensures
      var events := [Check(Some(heartbeat), now), SetStop, JoinTimesOut, ClearStop, StartThread];
      Possible(DEFAULTS, STARTED, events) && LiveThreads(After(DEFAULTS, STARTED, events).alive) == 2
  {
    hide Possible, After, LiveThreads;
    var check := Check(Some(heartbeat), now);
    var s1 := Next(DEFAULTS, STARTED, check);
    var e1, e2, e3 := [check], [check, SetStop], [check, SetStop, JoinTimesOut];
    var e4 := [check, SetStop, JoinTimesOut, ClearStop];
    NoEventYet(DEFAULTS, STARTED);
    OneMoreEvent(DEFAULTS, STARTED, [], check);
    assert [] + [check] == e1 && s1.phase == StopWanted && s1.alive == [true];
    OneMoreEvent(DEFAULTS, STARTED, e1, SetStop);
    assert e1 + [SetStop] == e2;
    OneMoreEvent(DEFAULTS, STARTED, e2, JoinTimesOut);
    assert e2 + [JoinTimesOut] == e3;
    OneMoreEvent(DEFAULTS, STARTED, e3, ClearStop);
    assert e3 + [ClearStop] == e4;
    OneMoreEvent(DEFAULTS, STARTED, e4, StartThread);
    assert e4 + [StartThread] == [check, SetStop, JoinTimesOut, ClearStop, StartThread];
    TwoThreads();
  }
}
