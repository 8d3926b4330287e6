/** When the scheduler's loop runs its cycles and prunes: exactly as often as configured, over every sequence of turns. */
module Cadence {
  import opened Prelude
  import opened Storage
  import opened Configuration
  import opened EventTail
  import opened Machine
  import opened Scheduling

  /* ---- what a turn did ---- */

  /** The steps turn i took. */
  function Took(cfg: Config, st: LoopState, ticks: seq<Tick>, i: nat): seq<Step>
    requires i < |ticks|
  {
    TickSteps(cfg, StateAfter(cfg, st, ticks[..i]), ticks[i])
  }

  ghost predicate RanHigh(cfg: Config, st: LoopState, ticks: seq<Tick>, i: nat)
    requires i < |ticks|
  {
    exists s :: s in Took(cfg, st, ticks, i) && s.HighCycle?
  }

  ghost predicate RanLow(cfg: Config, st: LoopState, ticks: seq<Tick>, i: nat)
    requires i < |ticks|
  {
    exists s :: s in Took(cfg, st, ticks, i) && s.LowCycle?
  }

  ghost predicate Pruned(cfg: Config, st: LoopState, ticks: seq<Tick>, i: nat)
    requires i < |ticks|
  {
    exists s :: s in Took(cfg, st, ticks, i) && s.Prune?
  }

  /** What each step of a turn is given: the turn's clock reading, session, rows and batches, the configured retention. */
  lemma StepsAreOfTheTurn(cfg: Config, st: LoopState, ticks: seq<Tick>, i: nat, s: Step)
    requires i < |ticks| && s in Took(cfg, st, ticks, i)
    ensures
      var t := ticks[i];
      match s
      case Append(records) => records == t.arrived
      case HighCycle(now, id, snapshot, _, beat) =>
        now == t.now && id == t.sessionId && snapshot == t.high && beat == t.highOk
      case LowCycle(now, id, snapshot, sizes, commits) =>
        now == t.now && id == t.sessionId && snapshot == t.low && sizes == t.sizes && commits == t.commits
      case Prune(now, hours, listed, failed) =>
        now == t.pruneClock && hours == cfg.retentionHours && listed == t.listed && failed == t.failed
      case _ => false
  {
  }

  /** Records arrive before the turn's cycles, and a prune follows the slow collection. */
  lemma TurnOrder(cfg: Config, st: LoopState, t: Tick)
    ensures
      var steps := TickSteps(cfg, st, t);
      && steps[0] == Append(t.arrived)
      && (forall i, j :: 0 <= i < j < |steps| ==>
            !steps[j].Append? && !(steps[i].LowCycle? && steps[j].HighCycle?) && !steps[i].Prune?)
  {
  }

  /* ---- a cadence ---- */

  /** Readings that never fall. */
  ghost predicate Onwards(ticks: seq<Tick>) {
    forall i, j :: 0 <= i < j < |ticks| ==> ticks[i].now <= ticks[j].now
  }

  /** No run since `last`, or since any run before turn i, is less than `period` ago. */
  ghost predicate Overdue(ticks: seq<Tick>, ran: nat -> bool, i: nat, last: Time, period: real)
    requires i < |ticks|
  {
    && ticks[i].now - last >= period
    && forall j: nat :: j < i && ran(j) ==> ticks[i].now - ticks[j].now >= period
  }

  /** The mark a loop keeps of its last run: the reading of the newest turn that ran, or the mark it started with. */
  ghost predicate Marks(ticks: seq<Tick>, ran: nat -> bool, n: nat, first: Time, mark: Time)
    requires n <= |ticks|
  {
    && (mark == first || exists j: nat :: j < n && ran(j) && ticks[j].now == mark)
    && first <= mark && (forall j: nat :: j < n && ran(j) ==> ticks[j].now <= mark)
  }

  lemma OverdueMeans(ticks: seq<Tick>, ran: nat -> bool, i: nat, first: Time, mark: Time, period: real)
    requires i < |ticks| && Marks(ticks, ran, i, first, mark)
    ensures ticks[i].now - mark >= period <==> Overdue(ticks, ran, i, first, period)
  {
  }

  lemma MarkMoves(ticks: seq<Tick>, ran: nat -> bool, n: nat, first: Time, mark: Time, next: Time)
    requires n < |ticks| && Marks(ticks, ran, n, first, mark) && Onwards(ticks) && first <= ticks[n].now
    requires next == if ran(n) then ticks[n].now else mark
    ensures Marks(ticks, ran, n + 1, first, next)
  {
    if ran(n) {
      forall j: nat | j < n + 1 && ran(j) ensures ticks[j].now <= next {
      }
    }
  }

  /* ---- the loop's marks ---- */

  function HighRuns(cfg: Config, st: LoopState, ticks: seq<Tick>): nat -> bool {
    (i: nat) => i < |ticks| && HighDue(cfg, StateAfter(cfg, st, ticks[..i]), ticks[i].now)
  }

  function LowRuns(cfg: Config, st: LoopState, ticks: seq<Tick>): nat -> bool {
    (i: nat) => i < |ticks| && LowDue(cfg, StateAfter(cfg, st, ticks[..i]), ticks[i].now)
  }

  function Prunes(cfg: Config, st: LoopState, ticks: seq<Tick>): nat -> bool {
    (i: nat) =>
      && i < |ticks| && LowDue(cfg, StateAfter(cfg, st, ticks[..i]), ticks[i].now) && ticks[i].lowOk
      && RetentionDue(cfg, StateAfter(cfg, st, ticks[..i]).lastRetention, ticks[i].now)
  }

  lemma RunsAreSteps(cfg: Config, st: LoopState, ticks: seq<Tick>, i: nat)
    requires i < |ticks|
    ensures RanHigh(cfg, st, ticks, i) == HighRuns(cfg, st, ticks)(i)
    ensures RanLow(cfg, st, ticks, i) == LowRuns(cfg, st, ticks)(i)
    ensures Pruned(cfg, st, ticks, i) == Prunes(cfg, st, ticks)(i)
  {
    var t := ticks[i];
    var at := StateAfter(cfg, st, ticks[..i]);
    TurnSteps(cfg, at, t);
  }

  lemma TurnSteps(cfg: Config, st: LoopState, t: Tick)
    ensures (exists s :: s in TickSteps(cfg, st, t) && s.HighCycle?) == HighDue(cfg, st, t.now)
    ensures (exists s :: s in TickSteps(cfg, st, t) && s.LowCycle?) == LowDue(cfg, st, t.now)
    ensures (exists s :: s in TickSteps(cfg, st, t) && s.Prune?)
         == (LowDue(cfg, st, t.now) && t.lowOk && RetentionDue(cfg, st.lastRetention, t.now))
  {
    hide HighDue, LowDue, RetentionDue;
    var high := HighCycle(t.now, t.sessionId, t.high, !st.cycled, t.highOk);
    var low := LowCycle(t.now, t.sessionId, t.low, t.sizes, t.commits);
    var prune := Prune(t.pruneClock, cfg.retentionHours, t.listed, t.failed);
    var steps := TickSteps(cfg, st, t);
    assert forall s :: s in steps <==> s == Append(t.arrived) || s in HighSteps(cfg, st, t) || s in LowSteps(cfg, st, t);
    assert HighDue(cfg, st, t.now) ==> high in steps;
    assert LowDue(cfg, st, t.now) ==> low in steps;
    assert LowDue(cfg, st, t.now) && t.lowOk && RetentionDue(cfg, st.lastRetention, t.now) ==> prune in steps;
  }

  lemma {:induction false} MarksOverTicks(cfg: Config, st: LoopState, ticks: seq<Tick>, n: nat)
    requires n <= |ticks| && Onwards(ticks)
    requires forall i :: 0 <= i < |ticks| ==>
               st.lastHigh <= ticks[i].now && st.lastLow <= ticks[i].now && st.lastRetention <= ticks[i].now
    ensures
      var at := StateAfter(cfg, st, ticks[..n]);
      && Marks(ticks, HighRuns(cfg, st, ticks), n, st.lastHigh, at.lastHigh)
      && Marks(ticks, LowRuns(cfg, st, ticks), n, st.lastLow, at.lastLow)
      && Marks(ticks, Prunes(cfg, st, ticks), n, st.lastRetention, at.lastRetention)
  {
    hide Marks, HighDue, LowDue, RetentionDue, Onwards;
    if n == 0 {
      NoRuns(ticks, HighRuns(cfg, st, ticks), st.lastHigh);
      NoRuns(ticks, LowRuns(cfg, st, ticks), st.lastLow);
      NoRuns(ticks, Prunes(cfg, st, ticks), st.lastRetention);
    } else {
      MarksOverTicks(cfg, st, ticks, n - 1);
      assert ticks[..n][..n - 1] == ticks[..n - 1];
      var before := StateAfter(cfg, st, ticks[..n - 1]);
      var at := StateAfter(cfg, st, ticks[..n]);
      MarkMoves(ticks, HighRuns(cfg, st, ticks), n - 1, st.lastHigh, before.lastHigh, at.lastHigh);
      MarkMoves(ticks, LowRuns(cfg, st, ticks), n - 1, st.lastLow, before.lastLow, at.lastLow);
      MarkMoves(ticks, Prunes(cfg, st, ticks), n - 1, st.lastRetention, before.lastRetention, at.lastRetention);
    }
  }

  lemma NoRuns(ticks: seq<Tick>, ran: nat -> bool, first: Time)
    ensures Marks(ticks, ran, 0, first, first)
  {
  }

  /* ---- exactly when ---- */

  /** The marks the loop starts with do not lie in its future. */
  ghost predicate Startable(st: LoopState, ticks: seq<Tick>) {
    && Onwards(ticks)
    && forall i :: 0 <= i < |ticks| ==>
         st.lastHigh <= ticks[i].now && st.lastLow <= ticks[i].now && st.lastRetention <= ticks[i].now
  }

  /** Every turn starts at most `turn` after the one before. */
  ghost predicate Punctual(ticks: seq<Tick>, turn: real) {
    forall i :: 0 < i < |ticks| ==> ticks[i].now <= ticks[i - 1].now + turn
  }

  /** A high cycle runs at a turn exactly if the last one, and the start's mark, are at least the collection interval ago. */
  lemma HighCycleIff(cfg: Config, st: LoopState, ticks: seq<Tick>, i: nat)
    requires Startable(st, ticks) && i < |ticks|
    ensures RanHigh(cfg, st, ticks, i) <==>
              && ticks[i].now - st.lastHigh >= cfg.interval
              && forall j: nat :: j < i && RanHigh(cfg, st, ticks, j) ==> ticks[i].now - ticks[j].now >= cfg.interval
  {
    hide RanHigh, RanLow, Pruned, Marks;
    forall j: nat | j <= i ensures RanHigh(cfg, st, ticks, j) == HighRuns(cfg, st, ticks)(j) {
      RunsAreSteps(cfg, st, ticks, j);
    }
    MarksOverTicks(cfg, st, ticks, i);
    OverdueMeans(ticks, HighRuns(cfg, st, ticks), i, st.lastHigh, StateAfter(cfg, st, ticks[..i]).lastHigh, cfg.interval);
  }

  /** A low cycle runs at a turn exactly if the last one, and the start's mark, are at least the low interval ago. */
  lemma LowCycleIff(cfg: Config, st: LoopState, ticks: seq<Tick>, i: nat)
    requires Startable(st, ticks) && i < |ticks|
    ensures RanLow(cfg, st, ticks, i) <==>
              && ticks[i].now - st.lastLow >= cfg.lowInterval
              && forall j: nat :: j < i && RanLow(cfg, st, ticks, j) ==> ticks[i].now - ticks[j].now >= cfg.lowInterval
  {
    hide RanHigh, RanLow, Pruned, Marks;
    forall j: nat | j <= i ensures RanLow(cfg, st, ticks, j) == LowRuns(cfg, st, ticks)(j) {
      RunsAreSteps(cfg, st, ticks, j);
    }
    MarksOverTicks(cfg, st, ticks, i);
    OverdueMeans(ticks, LowRuns(cfg, st, ticks), i, st.lastLow, StateAfter(cfg, st, ticks[..i]).lastLow, cfg.lowInterval);
  }

  /** The least time between prunes. */
  function PrunePeriod(cfg: Config): real {
    if cfg.lowInterval < 300.0 then 300.0 else cfg.lowInterval
  }

  /** A turn prunes exactly if its low cycle runs and gets that far, and the last prune, and the start's mark, are at least
      300 seconds or the low interval ago, whichever is more. */
  lemma PruneIff(cfg: Config, st: LoopState, ticks: seq<Tick>, i: nat)
    requires Startable(st, ticks) && i < |ticks|
    ensures Pruned(cfg, st, ticks, i) <==>
              && RanLow(cfg, st, ticks, i) && ticks[i].lowOk
              && ticks[i].now - st.lastRetention >= PrunePeriod(cfg)
              && forall j: nat :: j < i && Pruned(cfg, st, ticks, j) ==> ticks[i].now - ticks[j].now >= PrunePeriod(cfg)
  {
    hide RanHigh, RanLow, Pruned, Marks;
    forall j: nat | j <= i ensures Pruned(cfg, st, ticks, j) == Prunes(cfg, st, ticks)(j) {
      RunsAreSteps(cfg, st, ticks, j);
    }
    RunsAreSteps(cfg, st, ticks, i);
    MarksOverTicks(cfg, st, ticks, i);
    OverdueMeans(ticks, Prunes(cfg, st, ticks), i, st.lastRetention, StateAfter(cfg, st, ticks[..i]).lastRetention,
                 PrunePeriod(cfg));
  }

  /* ---- how often ---- */

  /** Low cycles are at least the low interval apart, and so are prunes by theirs. */
  lemma RunsAreApart(cfg: Config, st: LoopState, ticks: seq<Tick>, i: nat, j: nat)
    requires Startable(st, ticks) && i < j < |ticks|
    ensures RanLow(cfg, st, ticks, i) && RanLow(cfg, st, ticks, j) ==> ticks[j].now - ticks[i].now >= cfg.lowInterval
    ensures Pruned(cfg, st, ticks, i) && Pruned(cfg, st, ticks, j) ==>
              ticks[j].now - ticks[i].now >= Max(300.0, cfg.lowInterval)
  {
    hide RanLow, Pruned, Startable;
    LowCycleIff(cfg, st, ticks, j);
    PruneIff(cfg, st, ticks, j);
  }

  /** Whatever turn one looks at, a low cycle runs at it or after it, within the low interval and one turn: so every record
      appended by then meets a collection within that time. */
  lemma LowCycleSoon(cfg: Config, st: LoopState, ticks: seq<Tick>, i: nat, turn: real)
    requires Startable(st, ticks) && Punctual(ticks, turn) && i < |ticks| && turn >= 0.0
    requires ticks[|ticks| - 1].now - ticks[i].now >= cfg.lowInterval >= 0.0
    ensures exists j: nat ::
              i <= j < |ticks| && RanLow(cfg, st, ticks, j) && ticks[j].now - ticks[i].now <= cfg.lowInterval + turn
  {
    hide RanLow;
    var k := FirstAfter(ticks, i, cfg.lowInterval, turn);
    LowCycleIff(cfg, st, ticks, k);
    if !RanLow(cfg, st, ticks, k) {
      assert st.lastLow <= ticks[i].now;
      assert ticks[k].now - st.lastLow >= cfg.lowInterval;
      var j: nat :| j < k && RanLow(cfg, st, ticks, j) && ticks[k].now - ticks[j].now < cfg.lowInterval;
      assert j >= i;
    }
  }

  /** The first turn at least `period` after turn i. */
  lemma {:induction false} FirstAfter(ticks: seq<Tick>, i: nat, period: real, turn: real) returns (k: nat)
    requires Onwards(ticks) && Punctual(ticks, turn) && i < |ticks| && period >= 0.0
    requires ticks[|ticks| - 1].now - ticks[i].now >= period
    ensures i <= k < |ticks| && ticks[k].now - ticks[i].now >= period
    ensures k == i || ticks[k].now - ticks[i].now <= period + turn
  {
    k := |ticks| - 1;
    while k > i && ticks[k - 1].now - ticks[i].now >= period
      invariant i <= k < |ticks| && ticks[k].now - ticks[i].now >= period
    {
      k := k - 1;
    }
  }

  /** Successive low cycles are at most the low interval and one turn apart: after each, another follows by then. */
  lemma NextLowCycle(cfg: Config, st: LoopState, ticks: seq<Tick>, i: nat, turn: real)
    requires Startable(st, ticks) && Punctual(ticks, turn) && i < |ticks| && RanLow(cfg, st, ticks, i)
    requires cfg.lowInterval > 0.0 && ticks[|ticks| - 1].now - ticks[i].now >= cfg.lowInterval
    ensures exists j: nat ::
              && i < j < |ticks| && RanLow(cfg, st, ticks, j)
              && cfg.lowInterval <= ticks[j].now - ticks[i].now <= cfg.lowInterval + turn
  {
    hide RanLow;
    var k := FirstAfter(ticks, i, cfg.lowInterval, turn);
    if RanLow(cfg, st, ticks, k) {
    } else {
      LowCycleIff(cfg, st, ticks, i);
      LowCycleIff(cfg, st, ticks, k);
      var j: nat :| j < k && RanLow(cfg, st, ticks, j) && ticks[k].now - ticks[j].now < cfg.lowInterval;
      LowCycleIff(cfg, st, ticks, j);
      assert j > i;
    }
  }

  /** The last low cycle before a limit. */
  lemma LastLowBefore(cfg: Config, st: LoopState, ticks: seq<Tick>, i: nat, limit: Time) returns (last: nat)
    requires i < |ticks| && RanLow(cfg, st, ticks, i) && ticks[i].now < limit
    ensures i <= last < |ticks| && RanLow(cfg, st, ticks, last) && ticks[last].now < limit
    ensures forall m: nat :: last < m < |ticks| && RanLow(cfg, st, ticks, m) ==> ticks[m].now >= limit
  {
    hide RanLow;
    last := i;
    for n := i + 1 to |ticks|
      invariant i <= last < n && RanLow(cfg, st, ticks, last) && ticks[last].now < limit
      invariant forall m: nat :: last < m < n && RanLow(cfg, st, ticks, m) ==> ticks[m].now >= limit
    {
      if RanLow(cfg, st, ticks, n) && ticks[n].now < limit {
        last := n;
      }
    }
  }

  /** When no low cycle fails, each prune is followed by another within its period, one further low interval and one turn. */
  lemma NextPrune(cfg: Config, st: LoopState, ticks: seq<Tick>, i: nat, turn: real)
    requires Startable(st, ticks) && Punctual(ticks, turn) && i < |ticks| && Pruned(cfg, st, ticks, i)
    requires cfg.lowInterval > 0.0 && forall j :: 0 <= j < |ticks| ==> ticks[j].lowOk
    requires ticks[|ticks| - 1].now - ticks[i].now >= PrunePeriod(cfg) + cfg.lowInterval
    ensures exists j: nat ::
              && i < j < |ticks| && Pruned(cfg, st, ticks, j)
              && PrunePeriod(cfg) <= ticks[j].now - ticks[i].now <= PrunePeriod(cfg) + cfg.lowInterval + turn
  {
    hide RanLow, Pruned;
    PruneIff(cfg, st, ticks, i);
    var last := LastLowBefore(cfg, st, ticks, i, ticks[i].now + PrunePeriod(cfg));
    NextLowCycle(cfg, st, ticks, last, turn);
    var l: nat :| last < l < |ticks| && RanLow(cfg, st, ticks, l)
               && ticks[l].now - ticks[last].now <= cfg.lowInterval + turn;
    PruneIff(cfg, st, ticks, l);
    if !Pruned(cfg, st, ticks, l) {
      var j: nat :| j < l && Pruned(cfg, st, ticks, j) && ticks[l].now - ticks[j].now < PrunePeriod(cfg);
      PruneIff(cfg, st, ticks, j);
      assert i < j;
    }
  }
}
