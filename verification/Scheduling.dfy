/** agent/scheduler.py: the collection loop, its two cadences, and the retention it triggers. */
module Scheduling {
  import opened Prelude
  import opened Storage
  import opened Configuration
  import opened EventTail
  import opened Machine
  import Retention

  const RETENTION_SECONDS := 300.0

  /** What one turn of the loop meets: the clock reading, the records that arrived before it, and what each cycle gets
      to commit before it fails, if it fails: `highOk` says that the high cycle got to its heartbeat and `lowOk` that the
      low cycle got to its retention check.  `beatDelay` is how long after the reading the heartbeat is written. */
  datatype Tick = Tick(now: Time, sessionId: int, arrived: seq<LogRecord>,
                       highOk: bool, high: Snapshot, beatDelay: real,
                       lowOk: bool, low: Snapshot, sizes: seq<BatchSize>, commits: nat,
                       pruneClock: Time, listed: bool, failed: set<Table>)

  /** The loop's locals, the scheduler's retention mark, and whether a high cycle was due yet. */
  datatype LoopState = LoopState(lastHigh: Time, lastLow: Time, lastRetention: Time, cycled: bool)

  /** A loop about to start. */
  function Fresh(lastRetention: Time): LoopState {
    LoopState(0.0, 0.0, lastRetention, false)
  }

  predicate HighDue(cfg: Config, st: LoopState, now: Time) {
    now - st.lastHigh >= cfg.interval
  }

  predicate LowDue(cfg: Config, st: LoopState, now: Time) {
    now - st.lastLow >= cfg.lowInterval
  }

  predicate RetentionDue(cfg: Config, lastRetention: Time, now: Time) {
    now - lastRetention >= Max(RETENTION_SECONDS, cfg.lowInterval)
  }

  /** The machine steps one turn takes. */
  function HighSteps(cfg: Config, st: LoopState, t: Tick): seq<Step> {
    if HighDue(cfg, st, t.now) then [HighCycle(t.now, t.sessionId, t.high, !st.cycled, t.highOk)] else []
  }

  function LowSteps(cfg: Config, st: LoopState, t: Tick): seq<Step> {
    if LowDue(cfg, st, t.now) then
      [LowCycle(t.now, t.sessionId, t.low, t.sizes, t.commits)]
      + if t.lowOk && RetentionDue(cfg, st.lastRetention, t.now) then
          [Prune(t.pruneClock, cfg.retentionHours, t.listed, t.failed)]
        else []
    else []
  }

  function TickSteps(cfg: Config, st: LoopState, t: Tick): seq<Step> {
    [Append(t.arrived)] + HighSteps(cfg, st, t) + LowSteps(cfg, st, t)
  }

  function AfterTick(cfg: Config, st: LoopState, t: Tick): LoopState {
    LoopState(if HighDue(cfg, st, t.now) then t.now else st.lastHigh,
              if LowDue(cfg, st, t.now) then t.now else st.lastLow,
              if LowDue(cfg, st, t.now) && t.lowOk && RetentionDue(cfg, st.lastRetention, t.now) then t.now
              else st.lastRetention,
              st.cycled || HighDue(cfg, st, t.now))
  }

  function StateAfter(cfg: Config, st: LoopState, ticks: seq<Tick>): LoopState {
    if ticks == [] then st
    else AfterTick(cfg, StateAfter(cfg, st, ticks[..|ticks| - 1]), ticks[|ticks| - 1])
  }

  function StepsOf(cfg: Config, st: LoopState, ticks: seq<Tick>): seq<Step> {
    if ticks == [] then []
    else
      var before := ticks[..|ticks| - 1];
      StepsOf(cfg, st, before) + TickSteps(cfg, StateAfter(cfg, st, before), ticks[|ticks| - 1])
  }

  lemma {:induction false} RunConcat(cfg: Config, w: World, a: seq<Step>, b: seq<Step>)
    ensures Run(cfg, w, a + b) == Run(cfg, Run(cfg, w, a), b)
  {
    if b == [] {
      assert a + b == a;
    } else {
      assert (a + b)[..|a + b| - 1] == a + b[..|b| - 1];
      RunConcat(cfg, w, a, b[..|b| - 1]);
    }
  }

  lemma RunOne(cfg: Config, w: World, s: Step)
    ensures Run(cfg, w, [s]) == Apply(cfg, w, s)
  {
    assert [s][..0] == [];
    assert Run(cfg, w, []) == w;
  }

  class Scheduler {
    const db: Database
    const cfg: Config
    var lastRetention: Time

    constructor (db: Database, cfg: Config)
      ensures this.db == db && this.cfg == cfg && lastRetention == 0.0
    {
      this.db, this.cfg, lastRetention := db, cfg, 0.0;
    }

    /** Two commits; a cycle that fails in between leaves its rows without a heartbeat. */
    method CollectHigh(ghost w: World, now: Time, sessionId: int, snapshot: Snapshot, first: bool, beat: bool)
      requires w.store == db.View()
      modifies db`metrics, db`heartbeat
      ensures db.View() == Apply(cfg, w, HighCycle(now, sessionId, snapshot, first, beat)).store
    {
      var _ := db.InsertSnapshot(snapshot, now, sessionId);
      if beat {
        db.UpdateHeartbeat(now);
      }
    }

    /** Tail the log, then store the slow metrics if there are any. */
    method CollectSlow(ghost w: World, log: seq<LogRecord>, t: Tick)
      requires w.store == db.View() && w.log == log
      modifies db`metrics, db`events, db`lastRecordId, db`lastEventTime
      ensures db.View() == Apply(cfg, w, LowCycle(t.now, t.sessionId, t.low, t.sizes, t.commits)).store
    {
      hide Collected;
      Collect(db, log, t.sizes, t.sessionId, t.commits);
      if t.low != [] {
        var _ := db.InsertSnapshot(t.low, t.now, t.sessionId);
      }
    }

    /** The slow collection, and a prune if it is time and nothing failed before. */
    method CollectLow(ghost w: World, ghost st: LoopState, log: seq<LogRecord>, t: Tick)
      requires w.store == db.View() && w.log == log && st.lastRetention == lastRetention
      requires LowDue(cfg, st, t.now)
      modifies this`lastRetention, db`metrics, db`events, db`lastRecordId, db`lastEventTime
      ensures db.View() == Run(cfg, w, LowSteps(cfg, st, t)).store
      ensures lastRetention == AfterTick(cfg, st, t).lastRetention
    {
      hide Retention.PrunedStore, Collected;
      LowThenPrune(cfg, w, LowCycle(t.now, t.sessionId, t.low, t.sizes, t.commits),
                   Prune(t.pruneClock, cfg.retentionHours, t.listed, t.failed));
      CollectSlow(w, log, t);
      if t.lowOk && t.now - lastRetention >= Max(RETENTION_SECONDS, cfg.lowInterval) {
        Retention.MetricTablesAreTheSchema();
        var _ := Retention.PruneMetrics(db, METRIC_TABLES, t.pruneClock, cfg.retentionHours, t.listed, t.failed);
        lastRetention := t.now;
      }
    }

    /** One turn: a high-frequency cycle if due, a low-frequency cycle if due; what a failing cycle
        has committed stays. */
    method Turn(ghost w: World, st: LoopState, log: seq<LogRecord>, t: Tick)
      requires w.store == db.View() && w.log + t.arrived == log && st.lastRetention == lastRetention
      modifies this`lastRetention, db
      ensures db.View() == Run(cfg, w, TickSteps(cfg, st, t)).store
      ensures lastRetention == AfterTick(cfg, st, t).lastRetention
    {
      ghost var arrived := Apply(cfg, w, Append(t.arrived));
      ghost var afterHigh := Run(cfg, arrived, HighSteps(cfg, st, t));
      TurnSteps(cfg, w, st, t);
      if t.now - st.lastHigh >= cfg.interval {
        CollectHigh(arrived, t.now, t.sessionId, t.high, !st.cycled, t.highOk);
      }
      assert db.View() == afterHigh.store;
      if t.now - st.lastLow >= cfg.lowInterval {
        CollectLow(afterHigh, st, log, t);
      }
    }

    /** The loop is a run of the agent machine: its effect on the database is that of the steps it takes. */
    method Loop(ghost w: World, log: seq<LogRecord>, ticks: seq<Tick>)
      requires w.store == db.View() && w.log == log
      modifies this`lastRetention, db
      ensures db.View() == Run(cfg, w, StepsOf(cfg, Fresh(old(lastRetention)), ticks)).store
    {
      var lastHigh, lastLow, cycled := 0.0, 0.0, false;
      var seen := log;
      ghost var st0 := Fresh(lastRetention);
      ghost var world := w;
      for i := 0 to |ticks|
        invariant LoopState(lastHigh, lastLow, lastRetention, cycled) == StateAfter(cfg, st0, ticks[..i])
        invariant world == Run(cfg, w, StepsOf(cfg, st0, ticks[..i]))
        invariant world.store == db.View() && world.log == seen
      {
        var t := ticks[i];
        var st := LoopState(lastHigh, lastLow, lastRetention, cycled);
        assert ticks[..i + 1][..i] == ticks[..i];
        RunConcat(cfg, w, StepsOf(cfg, st0, ticks[..i]), TickSteps(cfg, st, t));
        LogAfterTick(cfg, world, st, t);
        seen := seen + t.arrived;
        Turn(world, st, seen, t);
        world := Run(cfg, world, TickSteps(cfg, st, t));
        if t.now - lastHigh >= cfg.interval {
          lastHigh, cycled := t.now, true;
        }
        if t.now - lastLow >= cfg.lowInterval {
          lastLow := t.now;
        }
      }
      assert ticks[..|ticks|] == ticks;
    }
  }

  lemma LowThenPrune(cfg: Config, w: World, low: Step, prune: Step)
    ensures Run(cfg, w, [low]) == Apply(cfg, w, low)
    ensures Run(cfg, w, [low] + [prune]) == Apply(cfg, Apply(cfg, w, low), prune)
    ensures Run(cfg, w, [low] + []) == Apply(cfg, w, low)
    ensures Run(cfg, w, []) == w
  {
    RunOne(cfg, w, low);
    RunConcat(cfg, w, [low], [prune]);
    RunOne(cfg, Apply(cfg, w, low), prune);
    assert [low] + [] == [low];
  }

  /** One turn, stage by stage. */
  lemma TurnSteps(cfg: Config, w: World, st: LoopState, t: Tick)
    ensures
      var arrived := Apply(cfg, w, Append(t.arrived));
      var afterHigh := Run(cfg, arrived, HighSteps(cfg, st, t));
      && Run(cfg, w, TickSteps(cfg, st, t)) == Run(cfg, afterHigh, LowSteps(cfg, st, t))
      && afterHigh.log == w.log + t.arrived
      && (HighSteps(cfg, st, t) == [] ==> afterHigh == arrived)
      && (HighSteps(cfg, st, t) != [] ==>
            afterHigh == Apply(cfg, arrived, HighCycle(t.now, t.sessionId, t.high, !st.cycled, t.highOk)))
      && (LowSteps(cfg, st, t) == [] ==> Run(cfg, afterHigh, LowSteps(cfg, st, t)) == afterHigh)
  {
    var arrived := Apply(cfg, w, Append(t.arrived));
    RunConcat(cfg, w, [Append(t.arrived)] + HighSteps(cfg, st, t), LowSteps(cfg, st, t));
    RunConcat(cfg, w, [Append(t.arrived)], HighSteps(cfg, st, t));
    RunOne(cfg, w, Append(t.arrived));
    RunOne(cfg, arrived, HighCycle(t.now, t.sessionId, t.high, !st.cycled, t.highOk));
  }

  lemma LogAfterTick(cfg: Config, w: World, st: LoopState, t: Tick)
    ensures Run(cfg, w, TickSteps(cfg, st, t)).log == w.log + t.arrived
  {
    TurnSteps(cfg, w, st, t);
    var afterHigh := Run(cfg, Apply(cfg, w, Append(t.arrived)), HighSteps(cfg, st, t));
    var low := LowCycle(t.now, t.sessionId, t.low, t.sizes, t.commits);
    LowThenPrune(cfg, afterHigh, low, Prune(t.pruneClock, cfg.retentionHours, t.listed, t.failed));
  }
}
