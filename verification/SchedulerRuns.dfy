/** What the loop guarantees over whole runs: paced cycles, spaced prunes, and a heartbeat that never gets old. */
module SchedulerRuns {
  import opened Prelude
  import opened Storage
  import opened Configuration
  import opened Machine
  import opened Scheduling
  import opened StorageBound
  import Evidence

  /* ---- the loop paces its cycles ---- */

  /** Each collector returns what it returns once per cycle, and the scheduler's first cycle is not stamped before
      `floor`.  After that its clock may jump as it likes. */
  ghost predicate Orderly(cfg: Config, st: LoopState, ticks: seq<Tick>, floor: Time) {
    ticks == []
    || (var before := ticks[..|ticks| - 1];
        var t := ticks[|ticks| - 1];
        var atTurn := StateAfter(cfg, st, before);
        && Orderly(cfg, st, before, floor)
        && |Added(t.high, Cpu, t.now, t.sessionId)| <= 1 && Added(t.low, Cpu, t.now, t.sessionId) == []
        && (HighDue(cfg, atTurn, t.now) && !atTurn.cycled ==> floor <= t.now))
  }

  lemma {:induction false} PacedConcat(cfg: Config, w: World, a: seq<Step>, b: seq<Step>, d: real)
    requires PacedRun(cfg, w, a, d) && PacedRun(cfg, Run(cfg, w, a), b, d)
    ensures PacedRun(cfg, w, a + b, d)
  {
    if b == [] {
      assert a + b == a;
    } else {
      assert (a + b)[..|a + b| - 1] == a + b[..|b| - 1];
      PacedConcat(cfg, w, a, b[..|b| - 1], d);
      RunConcat(cfg, w, a, b[..|b| - 1]);
    }
  }

  lemma PacedOne(cfg: Config, w: World, s: Step, d: real)
    requires PacedStep(w, s, d)
    ensures PacedRun(cfg, w, [s], d)
  {
    assert [s][..0] == [];
    assert Run(cfg, w, []) == w;
  }

  /** Either no cycle was due yet and the world is as of `floor`, or the loop's own record of its last cycle is. */
  ghost predicate InStep(w: World, st: LoopState, floor: Time) {
    if st.cycled then Onward(w, st.lastHigh) && w.lastCycle == Some(st.lastHigh) else Onward(w, floor)
  }

  lemma PacedHigh(cfg: Config, w: World, st: LoopState, t: Tick, floor: Time)
    requires cfg.interval > 0.0 && InStep(w, st, floor) && |Added(t.high, Cpu, t.now, t.sessionId)| <= 1
    requires HighDue(cfg, st, t.now) && !st.cycled ==> floor <= t.now
    ensures
      var w' := Run(cfg, w, HighSteps(cfg, st, t));
      PacedRun(cfg, w, HighSteps(cfg, st, t), cfg.interval) && InStep(w', AfterTick(cfg, st, t), floor)
  {
    if HighSteps(cfg, st, t) != [] {
      var s := HighCycle(t.now, t.sessionId, t.high, !st.cycled, t.highOk);
      PacedOne(cfg, w, s, cfg.interval);
      RunOne(cfg, w, s);
    }
  }

  lemma PacedLow(cfg: Config, w: World, st: LoopState, t: Tick)
    requires Added(t.low, Cpu, t.now, t.sessionId) == []
    ensures PacedRun(cfg, w, LowSteps(cfg, st, t), cfg.interval)
    ensures
      var w' := Run(cfg, w, LowSteps(cfg, st, t));
      w'.store.incidents == w.store.incidents && w'.lastCycle == w.lastCycle
  {
    var low := LowCycle(t.now, t.sessionId, t.low, t.sizes, t.commits);
    var prune := Prune(t.pruneClock, cfg.retentionHours, t.listed, t.failed);
    LowThenPrune(cfg, w, low, prune);
    PacedOne(cfg, w, low, cfg.interval);
    PacedOne(cfg, Apply(cfg, w, low), prune, cfg.interval);
    PacedConcat(cfg, w, [low], [prune], cfg.interval);
    PacedConcat(cfg, w, [low], [], cfg.interval);
  }

  lemma PacedTick(cfg: Config, w: World, st: LoopState, t: Tick, floor: Time)
    requires cfg.interval > 0.0 && InStep(w, st, floor)
    requires |Added(t.high, Cpu, t.now, t.sessionId)| <= 1 && Added(t.low, Cpu, t.now, t.sessionId) == []
    requires HighDue(cfg, st, t.now) && !st.cycled ==> floor <= t.now
    ensures PacedRun(cfg, w, TickSteps(cfg, st, t), cfg.interval)
    ensures InStep(Run(cfg, w, TickSteps(cfg, st, t)), AfterTick(cfg, st, t), floor)
  {
    var append := Append(t.arrived);
    var arrived := Apply(cfg, w, append);
    var high, low := HighSteps(cfg, st, t), LowSteps(cfg, st, t);
    PacedOne(cfg, w, append, cfg.interval);
    RunOne(cfg, w, append);
    PacedHigh(cfg, arrived, st, t, floor);
    PacedConcat(cfg, w, [append], high, cfg.interval);
    RunConcat(cfg, w, [append], high);
    PacedLow(cfg, Run(cfg, arrived, high), st, t);
    PacedConcat(cfg, w, [append] + high, low, cfg.interval);
    RunConcat(cfg, w, [append] + high, low);
  }

  /** Whatever the clock does and whichever cycles fail, the loop's cycles are at least an interval apart and run on. */
  lemma {:induction false} PacedTicks(cfg: Config, w: World, st: LoopState, ticks: seq<Tick>, floor: Time)
    requires cfg.interval > 0.0 && Orderly(cfg, st, ticks, floor) && InStep(w, st, floor)
    ensures PacedRun(cfg, w, StepsOf(cfg, st, ticks), cfg.interval)
    ensures InStep(Run(cfg, w, StepsOf(cfg, st, ticks)), StateAfter(cfg, st, ticks), floor)
  {
    if ticks != [] {
      var before := ticks[..|ticks| - 1];
      var t := ticks[|ticks| - 1];
      PacedTicks(cfg, w, st, before, floor);
      var w' := Run(cfg, w, StepsOf(cfg, st, before));
      var st' := StateAfter(cfg, st, before);
      PacedTick(cfg, w', st', t, floor);
      PacedConcat(cfg, w, StepsOf(cfg, st, before), TickSteps(cfg, st', t), cfg.interval);
      RunConcat(cfg, w, StepsOf(cfg, st, before), TickSteps(cfg, st', t));
    }
  }

  /** A scheduler started on any tidy store keeps it tidy: one more start, and cycles at least an interval apart, even if
      the clock steps back meanwhile.  So the storage bound holds of what the loop itself does. */
  lemma LoopKeepsTidy(cfg: Config, w: World, lastRetention: Time, ticks: seq<Tick>, floor: Time)
    requires cfg.interval > 0.0 && Tidy(w, cfg.interval)
    requires Onward(w, floor) && Orderly(cfg, Fresh(lastRetention), ticks, floor)
    ensures Tidy(Run(cfg, w, StepsOf(cfg, Fresh(lastRetention), ticks)), cfg.interval)
    ensures Run(cfg, w, StepsOf(cfg, Fresh(lastRetention), ticks)).starts <= w.starts + 1
  {
    var st := Fresh(lastRetention);
    PacedTicks(cfg, w, st, ticks, floor);
    TidyOverRuns(cfg, w, StepsOf(cfg, st, ticks), cfg.interval);
    StartsOnce(cfg, w, st, ticks);
  }

  lemma {:induction false} StartsOnce(cfg: Config, w: World, st: LoopState, ticks: seq<Tick>)
    requires !st.cycled
    ensures Run(cfg, w, StepsOf(cfg, st, ticks)).starts
         == w.starts + if StateAfter(cfg, st, ticks).cycled then 1 else 0
  {
    if ticks != [] {
      var before := ticks[..|ticks| - 1];
      StartsOnce(cfg, w, st, before);
      var st' := StateAfter(cfg, st, before);
      RunConcat(cfg, w, StepsOf(cfg, st, before), TickSteps(cfg, st', ticks[|ticks| - 1]));
      StartsOfTick(cfg, Run(cfg, w, StepsOf(cfg, st, before)), st', ticks[|ticks| - 1]);
    }
  }

  lemma StartsOfTick(cfg: Config, w: World, st: LoopState, t: Tick)
    ensures Run(cfg, w, TickSteps(cfg, st, t)).starts
         == w.starts + if !st.cycled && AfterTick(cfg, st, t).cycled then 1 else 0
  {
    TurnSteps(cfg, w, st, t);
    var afterHigh := Run(cfg, Apply(cfg, w, Append(t.arrived)), HighSteps(cfg, st, t));
    LowThenPrune(cfg, afterHigh, LowCycle(t.now, t.sessionId, t.low, t.sizes, t.commits),
                 Prune(t.pruneClock, cfg.retentionHours, t.listed, t.failed));
  }

  /* ---- the heartbeat of a live loop ---- */

  /** A heartbeat write: the value (the cycle's clock reading) and the moment it lands in the database. */
  datatype Beat = Beat(value: Time, written: Time)

  function BeatOf(cfg: Config, st: LoopState, t: Tick): seq<Beat> {
    if HighDue(cfg, st, t.now) && t.highOk then [Beat(t.now, t.now + t.beatDelay)] else []
  }

  function Beats(cfg: Config, st: LoopState, ticks: seq<Tick>): seq<Beat> {
    if ticks == [] then []
    else
      var before := ticks[..|ticks| - 1];
      Beats(cfg, st, before) + BeatOf(cfg, StateAfter(cfg, st, before), ticks[|ticks| - 1])
  }

  /** The heartbeat of a store whose last beat this is. */
  function LastBeat(beats: seq<Beat>, before: Option<Time>): Option<Time> {
    if beats == [] then before else Some(beats[|beats| - 1].value)
  }

  lemma HeartbeatOfTick(cfg: Config, w: World, st: LoopState, t: Tick)
    ensures Run(cfg, w, TickSteps(cfg, st, t)).store.heartbeat == LastBeat(BeatOf(cfg, st, t), w.store.heartbeat)
  {
    hide Apply, Run, TickSteps, HighDue, LowDue, RetentionDue;
    var append := Append(t.arrived);
    var arrived := Apply(cfg, w, append);
    var afterHigh := Run(cfg, arrived, HighSteps(cfg, st, t));
    var low := LowCycle(t.now, t.sessionId, t.low, t.sizes, t.commits);
    var prune := Prune(t.pruneClock, cfg.retentionHours, t.listed, t.failed);
    TurnSteps(cfg, w, st, t);
    LowThenPrune(cfg, afterHigh, low, prune);
    Evidence.HeartbeatOfStep(cfg, w, append);
    Evidence.HeartbeatOfStep(cfg, arrived, HighCycle(t.now, t.sessionId, t.high, !st.cycled, t.highOk));
    Evidence.HeartbeatOfStep(cfg, afterHigh, low);
    Evidence.HeartbeatOfStep(cfg, Apply(cfg, afterHigh, low), prune);
  }

  /** The beats are those of the machine: after any turns, its store holds the value of the last one. */
  lemma {:induction false} StoreHoldsLastBeat(cfg: Config, w: World, st: LoopState, ticks: seq<Tick>)
    ensures Run(cfg, w, StepsOf(cfg, st, ticks)).store.heartbeat == LastBeat(Beats(cfg, st, ticks), w.store.heartbeat)
  {
    hide Apply, TickSteps, BeatOf;
    if ticks != [] {
      var before := ticks[..|ticks| - 1];
      var t := ticks[|ticks| - 1];
      var st' := StateAfter(cfg, st, before);
      StoreHoldsLastBeat(cfg, w, st, before);
      RunConcat(cfg, w, StepsOf(cfg, st, before), TickSteps(cfg, st', t));
      HeartbeatOfTick(cfg, Run(cfg, w, StepsOf(cfg, st, before)), st', t);
    }
  }

  /** What the watchdog reads at time t. */
  function HeartbeatAt(beats: seq<Beat>, t: Time): Option<Time> {
    if beats == [] then None
    else
      var last := beats[|beats| - 1];
      if last.written <= t then Some(last.value) else HeartbeatAt(beats[..|beats| - 1], t)
  }

  /** The slowest a cycle of each kind and the pause between turns may be. */
  datatype Pace = Pace(high: real, low: real, pause: real)

  /** The longest a turn takes until the next clock reading. */
  function TurnTime(cfg: Config, st: LoopState, now: Time, p: Pace): real {
    (if HighDue(cfg, st, now) then p.high else 0.0) + (if LowDue(cfg, st, now) then p.low else 0.0) + p.pause
  }

  /** Every turn starts in time after the one before, every high cycle succeeds, and each heartbeat lands within its
      cycle. */
  ghost predicate Live(cfg: Config, st: LoopState, ticks: seq<Tick>, p: Pace) {
    ticks == []
    || (var before := ticks[..|ticks| - 1];
        var t := ticks[|ticks| - 1];
        && Live(cfg, st, before, p)
        && t.highOk && 0.0 <= t.beatDelay <= p.high
        && InTime(cfg, st, before, t.now, p))
  }

  /** `now` is a moment at which the turn after `before` may start, at the latest. */
  ghost predicate InTime(cfg: Config, st: LoopState, before: seq<Tick>, now: Time, p: Pace) {
    before != [] ==>
      var last := before[|before| - 1];
      var atLast := StateAfter(cfg, st, before[..|before| - 1]);
      && last.now <= now <= last.now + TurnTime(cfg, atLast, last.now, p)
      && (HighDue(cfg, atLast, last.now) ==> last.now + last.beatDelay <= now)
  }

  /** The longest distance between two heartbeat values. */
  function Stretch(cfg: Config, p: Pace): real {
    Max(cfg.interval, p.high) + p.low + p.pause
  }

  ghost predicate Steady(beats: seq<Beat>, p: Pace, stretch: real) {
    && (forall i :: 0 <= i < |beats| ==> beats[i].value <= beats[i].written <= beats[i].value + p.high)
    && (forall i :: 0 < i < |beats| ==> beats[i].value - beats[i - 1].value <= stretch)
  }

  lemma SteadySnoc(beats: seq<Beat>, b: Beat, p: Pace, stretch: real)
    requires Steady(beats, p, stretch) && b.value <= b.written <= b.value + p.high
    requires beats != [] ==> b.value - beats[|beats| - 1].value <= stretch
    ensures Steady(beats + [b], p, stretch)
  {
  }

  /** The time from a cycle to the next turn, whether or not the cycle was due. */
  lemma TurnKeepsBeatYoung(cfg: Config, st: LoopState, now: Time, next: Time, p: Pace)
    requires p.high >= 0.0 && p.low >= 0.0 && next <= now + TurnTime(cfg, st, now, p)
    ensures HighDue(cfg, st, now) ==> next - now <= Stretch(cfg, p)
    ensures !HighDue(cfg, st, now) ==> next - st.lastHigh <= Stretch(cfg, p)
  {
  }

  /** While the loop lives, its beats are steady, and at every moment the last one is at most a stretch old. */
  lemma {:induction false} BeatsAreSteady(cfg: Config, st: LoopState, ticks: seq<Tick>, now: Time, p: Pace)
    requires p.high >= 0.0 && p.low >= 0.0 && p.pause >= 0.0
    requires Live(cfg, st, ticks, p) && InTime(cfg, st, ticks, now, p)
    ensures Steady(Beats(cfg, st, ticks), p, Stretch(cfg, p))
    ensures Beats(cfg, st, ticks) != [] ==>
              var last := Beats(cfg, st, ticks)[|Beats(cfg, st, ticks)| - 1];
              && last.value == StateAfter(cfg, st, ticks).lastHigh
              && now - last.value <= Stretch(cfg, p)
  {
    hide HighDue, TurnTime, Stretch;
    if ticks != [] {
      var before := ticks[..|ticks| - 1];
      var t := ticks[|ticks| - 1];
      var atTurn := StateAfter(cfg, st, before);
      BeatsAreSteady(cfg, st, before, t.now, p);
      TurnKeepsBeatYoung(cfg, atTurn, t.now, now, p);
      if HighDue(cfg, atTurn, t.now) {
        SteadySnoc(Beats(cfg, st, before), Beat(t.now, t.now + t.beatDelay), p, Stretch(cfg, p));
      } else {
        assert Beats(cfg, st, ticks) == Beats(cfg, st, before);
      }
    }
  }

  /** The age of the heartbeat the watchdog reads, once the first has been written, is bounded. */
  lemma {:induction false} AgeIsBounded(beats: seq<Beat>, t: Time, p: Pace, stretch: real)
    requires p.high >= 0.0 && stretch >= 0.0 && Steady(beats, p, stretch)
    requires beats != [] && beats[0].written <= t
    requires t - beats[|beats| - 1].value <= stretch + p.high
    ensures HeartbeatAt(beats, t).Some? && t - HeartbeatAt(beats, t).value <= stretch + p.high
  {
    var k := |beats| - 1;
    if beats[k].written > t {
      assert k > 0;
      assert Steady(beats[..k], p, stretch);
      AgeIsBounded(beats[..k], t, p, stretch);
    }
  }

  /** A live scheduler's heartbeat: from its first write on, at any moment up to the next turn's latest start, it is at
      most max(I, H) + H + L + W old. */
  lemma HeartbeatAge(cfg: Config, st: LoopState, ticks: seq<Tick>, t: Time, end: Time, p: Pace)
    requires cfg.interval >= 0.0 && p.high >= 0.0 && p.low >= 0.0 && p.pause >= 0.0
    requires Live(cfg, st, ticks, p) && InTime(cfg, st, ticks, end, p) && t <= end
    requires Beats(cfg, st, ticks) != [] && Beats(cfg, st, ticks)[0].written <= t
    ensures HeartbeatAt(Beats(cfg, st, ticks), t).Some?
    ensures t - HeartbeatAt(Beats(cfg, st, ticks), t).value <= Max(cfg.interval, p.high) + p.high + p.low + p.pause
  {
    BeatsAreSteady(cfg, st, ticks, end, p);
    AgeIsBounded(Beats(cfg, st, ticks), t, p, Stretch(cfg, p));
  }

  /** Once every beat has landed, the watchdog reads what the machine's store holds. */
  lemma WatchdogReadsTheStore(cfg: Config, w: World, st: LoopState, ticks: seq<Tick>, t: Time)
    requires Beats(cfg, st, ticks) != [] && Beats(cfg, st, ticks)[|Beats(cfg, st, ticks)| - 1].written <= t
    ensures HeartbeatAt(Beats(cfg, st, ticks), t) == Run(cfg, w, StepsOf(cfg, st, ticks)).store.heartbeat
  {
    StoreHoldsLastBeat(cfg, w, st, ticks);
  }

  /** So the heartbeat the machine stores after a live loop's turns is at most max(I, H) + L + W old until the next turn. */
  lemma StoredHeartbeatAge(cfg: Config, w: World, st: LoopState, ticks: seq<Tick>, end: Time, p: Pace)
    requires cfg.interval >= 0.0 && p.high >= 0.0 && p.low >= 0.0 && p.pause >= 0.0
    requires Live(cfg, st, ticks, p) && InTime(cfg, st, ticks, end, p) && Beats(cfg, st, ticks) != []
    ensures
      var heartbeat := Run(cfg, w, StepsOf(cfg, st, ticks)).store.heartbeat;
      heartbeat.Some? && end - heartbeat.value <= Max(cfg.interval, p.high) + p.low + p.pause
  {
    StoreHoldsLastBeat(cfg, w, st, ticks);
    BeatsAreSteady(cfg, st, ticks, end, p);
  }
}
