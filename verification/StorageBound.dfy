/** Storage stays bounded: a packing argument over the rows a prune leaves. */
module StorageBound {
  import opened Prelude
  import opened Intervals
  import opened Storage
  import opened Configuration
  import opened EventTail
  import opened Diagnosis
  import opened Retention
  import opened Machine
  import opened IncidentRuns
  import EngineSpec
  import Evidence

  /* ---- packing ---- */

  ghost predicate Ascending(rows: seq<MetricRow>) {
    forall i, j :: 0 <= i < j < |rows| ==> rows[i].timestamp <= rows[j].timestamp
  }

  /** How many rows follow their predecessor by less than d. */
  function Crowded(rows: seq<MetricRow>, d: real): nat {
    if |rows| < 2 then 0
    else
      Crowded(rows[..|rows| - 1], d)
      + if rows[|rows| - 1].timestamp - rows[|rows| - 2].timestamp < d then 1 else 0
  }

  function InsideOf(span: Span): MetricRow -> bool {
    (row: MetricRow) => Inside(span, row.timestamp)
  }

  function OutsideOf(span: Span): MetricRow -> bool {
    (row: MetricRow) => !Inside(span, row.timestamp)
  }

  /** Appending a row crowds at most once, and only if the row is close to the one before. */
  lemma CrowdedSnoc(rows: seq<MetricRow>, row: MetricRow, d: real)
    ensures Crowded(rows + [row], d)
         == Crowded(rows, d) + if rows != [] && row.timestamp - rows[|rows| - 1].timestamp < d then 1 else 0
  {
    assert (rows + [row])[..|rows|] == rows;
  }

  lemma {:induction false} FilterAscends(rows: seq<MetricRow>, p: MetricRow -> bool)
    requires Ascending(rows)
    ensures Ascending(Filter(rows, p))
    ensures Filter(rows, p) != [] ==>
              Filter(rows, p)[|Filter(rows, p)| - 1].timestamp <= rows[|rows| - 1].timestamp
  {
    if rows != [] {
      var rest := rows[..|rows| - 1];
      var last := rows[|rows| - 1];
      assert rows == rest + [last];
      FilterAscends(rest, p);
      var kept := Filter(rest, p);
      forall i | 0 <= i < |kept| ensures kept[i].timestamp <= last.timestamp {
        assert kept[i] in kept;
        assert kept[i] in rest;
      }
    }
  }

  /** Splitting an ascending table in two never creates crowding. */
  lemma {:induction false} SplitCrowds(rows: seq<MetricRow>, span: Span, d: real)
    requires Ascending(rows)
    ensures Crowded(Filter(rows, InsideOf(span)), d) + Crowded(Filter(rows, OutsideOf(span)), d) <= Crowded(rows, d)
    ensures |Filter(rows, InsideOf(span))| + |Filter(rows, OutsideOf(span))| == |rows|
  {
    hide Filter;
    if rows != [] {
      var rest := rows[..|rows| - 1];
      var last := rows[|rows| - 1];
      assert rows == rest + [last];
      SplitCrowds(rest, span, d);
      var p := if Inside(span, last.timestamp) then InsideOf(span) else OutsideOf(span);
      FilterAscends(rest, p);
      FilterSnoc(rest, last, InsideOf(span));
      FilterSnoc(rest, last, OutsideOf(span));
      CrowdedSnoc(rest, last, d);
      CrowdedSnoc(Filter(rest, p), last, d);
    }
  }

  /** The same for an arbitrary selection: deleting rows never creates crowding. */
  lemma {:induction false} FilterCrowds(rows: seq<MetricRow>, p: MetricRow -> bool, d: real)
    requires Ascending(rows)
    ensures Crowded(Filter(rows, p), d) <= Crowded(rows, d)
  {
    hide Filter;
    if rows != [] {
      var rest := rows[..|rows| - 1];
      var last := rows[|rows| - 1];
      assert rows == rest + [last];
      FilterCrowds(rest, p, d);
      FilterAscends(rest, p);
      FilterSnoc(rest, last, p);
      CrowdedSnoc(rest, last, d);
      CrowdedSnoc(Filter(rest, p), last, d);
    }
  }

  /** Packing: an ascending table has at most the slots of the time it spans, plus its crowded rows. */
  lemma {:induction false} PackingFirstToLast(rows: seq<MetricRow>, d: real)
    requires Ascending(rows) && rows != [] && d > 0.0
    ensures |rows| <= Slots(rows[|rows| - 1].timestamp - rows[0].timestamp, d) + Crowded(rows, d)
  {
    if |rows| > 1 {
      var rest := rows[..|rows| - 1];
      PackingFirstToLast(rest, d);
      var before := rest[|rest| - 1].timestamp - rest[0].timestamp;
      var after := rows[|rows| - 1].timestamp - rows[0].timestamp;
      if Crowded(rows, d) == Crowded(rest, d) {
        SlotsGrow(before, after - d, d);
      } else {
        SlotsGrow(before, after, d);
      }
    }
  }

  /** The rows inside one span are at most its slots, plus the crowded ones. */
  lemma Packing(rows: seq<MetricRow>, span: Span, d: real)
    requires Ascending(rows) && d > 0.0
    requires forall row :: row in rows ==> Inside(span, row.timestamp)
    ensures |rows| <= Slots(span.end - span.start, d) + Crowded(rows, d)
  {
    if rows != [] {
      PackingFirstToLast(rows, d);
      EndsInside(rows, span);
      SlotsGrow(rows[|rows| - 1].timestamp - rows[0].timestamp, span.end - span.start, d);
    }
  }

  lemma EndsInside(rows: seq<MetricRow>, span: Span)
    requires Ascending(rows) && rows != []
    requires forall row :: row in rows ==> Inside(span, row.timestamp)
    ensures 0.0 <= rows[|rows| - 1].timestamp - rows[0].timestamp <= span.end - span.start
  {
    assert rows[0] in rows && rows[|rows| - 1] in rows;
  }

  function TotalSlots(spans: seq<Span>, d: real): nat
    requires d > 0.0
  {
    if spans == [] then 0
    else
      var last := spans[|spans| - 1];
      TotalSlots(spans[..|spans| - 1], d) + Slots(last.end - last.start, d)
  }

  /** Packing over a union of spans, overlapping or not. */
  lemma {:induction false} PackingUnion(rows: seq<MetricRow>, spans: seq<Span>, d: real)
    requires Ascending(rows) && d > 0.0
    requires forall row :: row in rows ==> Covered(spans, row.timestamp)
    ensures |rows| <= TotalSlots(spans, d) + Crowded(rows, d)
    decreases |spans|
  {
    if spans == [] {
      NothingCovered(rows);
    } else {
      var last := spans[|spans| - 1];
      var rest := spans[..|spans| - 1];
      FilterAscends(rows, InsideOf(last));
      FilterAscends(rows, OutsideOf(last));
      SplitCrowds(rows, last, d);
      Packing(Filter(rows, InsideOf(last)), last, d);
      CoveredOutside(rows, spans);
      PackingUnion(Filter(rows, OutsideOf(last)), rest, d);
    }
  }

  lemma NothingCovered(rows: seq<MetricRow>)
    requires forall row :: row in rows ==> Covered([], row.timestamp)
    ensures rows == []
  {
    if rows != [] {
      var row := rows[0];
      assert Covered([], row.timestamp) by {
        assert row in rows;
      }
      assert false;
    }
  }

  lemma CoveredOutside(rows: seq<MetricRow>, spans: seq<Span>)
    requires spans != [] && forall row :: row in rows ==> Covered(spans, row.timestamp)
    ensures forall row :: row in Filter(rows, OutsideOf(spans[|spans| - 1])) ==>
              Covered(spans[..|spans| - 1], row.timestamp)
  {
    var last := spans[|spans| - 1];
    var rest := spans[..|spans| - 1];
    assert spans == rest + [last];
    forall row | row in Filter(rows, OutsideOf(last)) ensures Covered(rest, row.timestamp) {
      var span :| span in spans && Inside(span, row.timestamp);
      assert span in rest;
    }
  }

  /* ---- the spans a prune leaves ---- */

  /** The two stretches of a protected span that can hold rows: up to the last activity, and from the reboot on. */
  function Halves(incidents: seq<Incident>): (spans: seq<Span>)
    ensures forall inc :: inc in incidents && Protects(inc) ==>
              && Span(inc.lastMetric.value - MARGIN_BEFORE, inc.lastMetric.value) in spans
              && Span(inc.reboot, inc.reboot + MARGIN_AFTER) in spans
  {
    if incidents == [] then []
    else
      var last := incidents[|incidents| - 1];
      assert incidents == incidents[..|incidents| - 1] + [last];
      var rest := Halves(incidents[..|incidents| - 1]);
      if Protects(last) then
        rest + [Span(last.lastMetric.value - MARGIN_BEFORE, last.lastMetric.value),
                Span(last.reboot, last.reboot + MARGIN_AFTER)]
      else rest
  }

  /** Rows an incident can keep: an hour's worth before its last activity, ten minutes' worth after its reboot. */
  function PerIncident(d: real): nat
    requires d > 0.0
  {
    Slots(MARGIN_BEFORE, d) + Slots(MARGIN_AFTER, d)
  }

  /** In figures: at most 4200 / d + 2. */
  lemma PerIncidentInFigures(d: real)
    requires d > 0.0
    ensures PerIncident(d) <= Quotient(MARGIN_BEFORE + MARGIN_AFTER, d) + 2
  {
    SlotsIsQuotient(MARGIN_BEFORE, d);
    SlotsIsQuotient(MARGIN_AFTER, d);
    var a, b, c := MARGIN_BEFORE / d, MARGIN_AFTER / d, (MARGIN_BEFORE + MARGIN_AFTER) / d;
    assert a * d == MARGIN_BEFORE && b * d == MARGIN_AFTER && c * d == MARGIN_BEFORE + MARGIN_AFTER;
    assert (a + b) * d == a * d + b * d;
    Cancel(c, a + b, d);
  }

  lemma TotalSlotsOfOne(spans: seq<Span>, x: Span, d: real)
    requires d > 0.0
    ensures TotalSlots(spans + [x], d) == TotalSlots(spans, d) + Slots(x.end - x.start, d)
  {
    assert (spans + [x])[..|spans|] == spans;
  }

  lemma TotalSlotsOfTwo(spans: seq<Span>, x: Span, y: Span, d: real)
    requires d > 0.0
    ensures TotalSlots(spans + [x, y], d)
         == TotalSlots(spans, d) + Slots(x.end - x.start, d) + Slots(y.end - y.start, d)
  {
    assert (spans + [x, y])[..|spans| + 1] == spans + [x];
    assert (spans + [x])[..|spans|] == spans;
  }

  /** The share of n protected incidents. */
  function Budget(n: nat, d: real): nat
    requires d > 0.0
  {
    if n == 0 then 0 else Budget(n - 1, d) + PerIncident(d)
  }

  lemma {:induction false} BudgetIsProduct(n: nat, d: real)
    requires d > 0.0
    ensures Budget(n, d) == n * PerIncident(d)
  {
    if n > 0 {
      BudgetIsProduct(n - 1, d);
    }
  }

  lemma {:induction false} HalvesSlots(incidents: seq<Incident>, d: real)
    requires d > 0.0
    ensures TotalSlots(Halves(incidents), d) <= Budget(|Spans(incidents)|, d)
  {
    if incidents != [] {
      var last := incidents[|incidents| - 1];
      var rest := incidents[..|incidents| - 1];
      HalvesSlots(rest, d);
      if Protects(last) {
        TotalSlotsOfTwo(Halves(rest), Span(last.lastMetric.value - MARGIN_BEFORE, last.lastMetric.value),
                        Span(last.reboot, last.reboot + MARGIN_AFTER), d);
      }
    }
  }

  /** No CPU row lies strictly between an incident's last activity and its reboot. */
  ghost predicate Silent(rows: seq<MetricRow>, inc: Incident) {
    inc.lastMetric.Some? ==>
      forall row :: row in rows ==> row.timestamp <= inc.lastMetric.value || row.timestamp >= inc.reboot
  }

  ghost predicate AllSilent(rows: seq<MetricRow>, incidents: seq<Incident>) {
    forall inc :: inc in incidents ==> Silent(rows, inc)
  }

  lemma NewestAreIncidents(incidents: seq<Incident>, limit: nat)
    ensures forall inc :: inc in Newest(incidents, limit) ==> inc in incidents
  {
    var newest := incidents[|incidents| - Min(limit, |incidents|)..];
    forall inc | inc in Newest(incidents, limit) ensures inc in incidents {
      var k :| 0 <= k < |newest| && Newest(incidents, limit)[k] == inc;
      assert newest[|newest| - 1 - k] == inc;
    }
  }

  /** A surviving row is recent, or in one of the halves. */
  lemma SurvivorsAreCovered(rows: seq<MetricRow>, incidents: seq<Incident>, cutoff: Time, clock: Time, row: MetricRow)
    requires row in rows && row.timestamp <= clock
    requires AllSilent(rows, incidents)
    requires Survives(cutoff, ProtectedSpans(incidents, true))(row)
    ensures Covered(Halves(Newest(incidents, PROTECTED_INCIDENTS)) + [Span(cutoff, clock)], row.timestamp)
  {
    var halves := Halves(Newest(incidents, PROTECTED_INCIDENTS));
    if row.timestamp >= cutoff {
      assert (halves + [Span(cutoff, clock)])[|halves|] == Span(cutoff, clock);
      assert Inside(Span(cutoff, clock), row.timestamp);
    } else {
      var span :| span in ProtectedSpans(incidents, true) && Inside(span, row.timestamp);
      var inc :| inc in Newest(incidents, PROTECTED_INCIDENTS) && Protects(inc) && span == SpanOf(inc);
      NewestAreIncidents(incidents, PROTECTED_INCIDENTS);
      assert Silent(rows, inc);
      var half := if row.timestamp <= inc.lastMetric.value
                  then Span(inc.lastMetric.value - MARGIN_BEFORE, inc.lastMetric.value)
                  else Span(inc.reboot, inc.reboot + MARGIN_AFTER);
      assert half in halves && Inside(half, row.timestamp);
    }
  }

  lemma AllSurvivorsAreCovered(rows: seq<MetricRow>, incidents: seq<Incident>, cutoff: Time, clock: Time)
    requires AllSilent(rows, incidents)
    requires forall row :: row in rows ==> row.timestamp <= clock
    ensures
      var kept := Filter(rows, Survives(cutoff, ProtectedSpans(incidents, true)));
      var spans := Halves(Newest(incidents, PROTECTED_INCIDENTS)) + [Span(cutoff, clock)];
      forall row :: row in kept ==> Covered(spans, row.timestamp)
  {
    var kept := Filter(rows, Survives(cutoff, ProtectedSpans(incidents, true)));
    var spans := Halves(Newest(incidents, PROTECTED_INCIDENTS)) + [Span(cutoff, clock)];
    forall row | row in kept ensures Covered(spans, row.timestamp) {
      SurvivorsAreCovered(rows, incidents, cutoff, clock, row);
    }
  }

  /** Packing what survived into the halves of the protected incidents and the retention time. */
  lemma PackSurvivors(kept: seq<MetricRow>, halves: seq<Span>, recent: Span, retention: real, budget: nat,
                      crowded: nat, d: real)
    requires d > 0.0 && Ascending(kept) && Crowded(kept, d) <= crowded
    requires forall row :: row in kept ==> Covered(halves + [recent], row.timestamp)
    requires TotalSlots(halves, d) <= budget && recent.end - recent.start == retention
    ensures |kept| <= Slots(retention, d) + budget + crowded
  {
    PackingUnion(kept, halves + [recent], d);
    TotalSlotsOfOne(halves, recent, d);
  }

  lemma SurvivorsAscend(rows: seq<MetricRow>, p: MetricRow -> bool, d: real)
    requires Ascending(rows)
    ensures Ascending(Filter(rows, p)) && Crowded(Filter(rows, p), d) <= Crowded(rows, d)
  {
    FilterAscends(rows, p);
    FilterCrowds(rows, p, d);
  }

  /** Any selection that leaves only covered rows is bounded. */
  lemma SelectionIsBounded(rows: seq<MetricRow>, p: MetricRow -> bool, halves: seq<Span>, recent: Span, retention: real,
                           budget: nat, starts: nat, d: real)
    requires d > 0.0 && Ascending(rows) && Crowded(rows, d) <= starts
    requires forall row :: row in Filter(rows, p) ==> Covered(halves + [recent], row.timestamp)
    requires TotalSlots(halves, d) <= budget && recent.end - recent.start == retention
    ensures |Filter(rows, p)| <= Slots(retention, d) + budget + starts
  {
    SurvivorsAscend(rows, p, d);
    PackSurvivors(Filter(rows, p), halves, recent, retention, budget, starts, d);
  }

  /** Everything retention protects fits the budget of the protected incidents. */
  lemma ProtectedBudget(incidents: seq<Incident>, d: real)
    requires d > 0.0
    ensures TotalSlots(Halves(Newest(incidents, PROTECTED_INCIDENTS)), d)
         <= Budget(|ProtectedSpans(incidents, true)|, d)
  {
    HalvesSlots(Newest(incidents, PROTECTED_INCIDENTS), d);
  }

  /* ---- over runs ---- */

  /** What the bound needs: an ascending, silent CPU table, crowded only by scheduler starts. */
  ghost predicate TidyTable(rows: seq<MetricRow>, incidents: seq<Incident>, lastCycle: Option<Time>, starts: nat,
                            d: real) {
    && Ascending(rows) && Crowded(rows, d) <= starts && AllSilent(rows, incidents)
    && (rows != [] ==> lastCycle.Some? && rows[|rows| - 1].timestamp <= lastCycle.value)
  }

  ghost predicate Tidy(w: World, d: real) {
    TidyTable(Rows(w.store.metrics, Cpu), w.store.incidents, w.lastCycle, w.starts, d)
  }

  /** A clock reading that is not behind an earlier cycle or a recorded reboot. */
  ghost predicate Onward(w: World, now: Time) {
    && (w.lastCycle.Some? ==> w.lastCycle.value <= now)
    && (forall inc :: inc in w.store.incidents ==> inc.reboot <= now)
  }

  /** A cycle stores at most one CPU row, its clock reading is onward, and within one scheduler run the cycles are at
      least d apart.  In between, at startups and at prunes, the clock may jump as it likes. */
  ghost predicate PacedStep(w: World, s: Step, d: real) {
    match s
    case HighCycle(now, id, snapshot, first, _) =>
      && Onward(w, now) && |Added(snapshot, Cpu, now, id)| <= 1
      && (first || (w.lastCycle.Some? && now - w.lastCycle.value >= d))
    case LowCycle(now, id, snapshot, _, _) => Added(snapshot, Cpu, now, id) == []
    case _ => true
  }

  ghost predicate PacedRun(cfg: Config, w: World, steps: seq<Step>, d: real) {
    steps == []
    || (PacedRun(cfg, w, steps[..|steps| - 1], d)
        && PacedStep(Run(cfg, w, steps[..|steps| - 1]), steps[|steps| - 1], d))
  }

  lemma TidyAppend(rows: seq<MetricRow>, incidents: seq<Incident>, row: MetricRow)
    requires Ascending(rows) && AllSilent(rows, incidents)
    requires rows != [] ==> rows[|rows| - 1].timestamp <= row.timestamp
    requires forall inc :: inc in incidents ==> inc.reboot <= row.timestamp
    ensures Ascending(rows + [row]) && AllSilent(rows + [row], incidents)
  {
    var after := rows + [row];
    forall inc | inc in incidents ensures Silent(after, inc) {
      assert Silent(rows, inc);
    }
  }

  lemma TidyCycle(cfg: Config, w: World, s: Step, d: real)
    requires d > 0.0 && Tidy(w, d) && PacedStep(w, s, d) && s.HighCycle?
    ensures Tidy(Apply(cfg, w, s), d)
  {
    hide Silent;
    var rows := Rows(w.store.metrics, Cpu);
    var added := Added(s.snapshot, Cpu, s.now, s.sessionId);
    Evidence.MetricsOfStep(cfg, w, s, Cpu);
    IncidentsOfStep(cfg, w, s);
    if added == [] {
      assert rows + added == rows;
    } else {
      assert added == [added[0]];
      assert added[0] in added;
      CrowdedSnoc(rows, added[0], d);
      TidyAppend(rows, w.store.incidents, added[0]);
    }
  }

  lemma TidySelection(rows: seq<MetricRow>, p: MetricRow -> bool, incidents: seq<Incident>, lastCycle: Option<Time>,
                      starts: nat, d: real)
    requires TidyTable(rows, incidents, lastCycle, starts, d)
    ensures TidyTable(Filter(rows, p), incidents, lastCycle, starts, d)
  {
    hide Filter;
    FilterAscends(rows, p);
    FilterCrowds(rows, p, d);
    forall inc | inc in incidents ensures Silent(Filter(rows, p), inc) {
      assert Silent(rows, inc);
    }
  }

  lemma TidyPrune(cfg: Config, w: World, s: Step, d: real)
    requires Tidy(w, d) && s.Prune?
    ensures Tidy(Apply(cfg, w, s), d)
  {
    hide Retention.PrunedStore, Survives, ProtectedSpans, Filter, Silent, AllSilent, Crowded;
    var p := Survives(s.now - s.hours * 3600.0, ProtectedSpans(w.store.incidents, s.listed));
    Evidence.MetricsOfStep(cfg, w, s, Cpu);
    IncidentsOfStep(cfg, w, s);
    TidySelection(Rows(w.store.metrics, Cpu), p, w.store.incidents, w.lastCycle, w.starts, d);
  }

  /** A newly recorded incident starts out silent. */
  lemma NewIncidentIsSilent(cfg: Config, w: World, s: Step)
    requires Records(cfg, w, s)
    ensures Silent(Rows(w.store.metrics, Cpu), NewIncident(cfg, w, s))
  {
    hide LastActivity, NewIncident, VerdictOf, InferenceOf;
    IncidentsOfStep(cfg, w, s);
    Evidence.NewIncidentFields(cfg, w, s);
    EngineSpec.NothingAfterLastActivity(w.store, s.boot);
    assert ACTIVITY_TABLES[0] == Cpu;
  }

  lemma TidyIncident(rows: seq<MetricRow>, incidents: seq<Incident>, inc: Incident, lastCycle: Option<Time>,
                     starts: nat, d: real)
    requires TidyTable(rows, incidents, lastCycle, starts, d) && Silent(rows, inc)
    ensures TidyTable(rows, incidents + [inc], lastCycle, starts, d)
  {
  }

  lemma TidyStartup(cfg: Config, w: World, s: Step, d: real)
    requires Tidy(w, d) && s.Startup?
    ensures Tidy(Apply(cfg, w, s), d)
  {
    hide Started, NewIncident, VerdictOf;
    Evidence.MetricsOfStep(cfg, w, s, Cpu);
    IncidentsOfStep(cfg, w, s);
    if Records(cfg, w, s) {
      NewIncidentIsSilent(cfg, w, s);
      TidyIncident(Rows(w.store.metrics, Cpu), w.store.incidents, NewIncident(cfg, w, s), w.lastCycle, w.starts, d);
    }
  }

  lemma TidyStep(cfg: Config, w: World, s: Step, d: real)
    requires d > 0.0 && Tidy(w, d) && PacedStep(w, s, d)
    ensures Tidy(Apply(cfg, w, s), d)
  {
    match s {
      case Startup(_, _, _, _, _) => TidyStartup(cfg, w, s, d);
      case HighCycle(_, _, _, _, _) => TidyCycle(cfg, w, s, d);
      case Prune(_, _, _, _) => TidyPrune(cfg, w, s, d);
      case _ =>
        Evidence.MetricsOfStep(cfg, w, s, Cpu);
        IncidentsOfStep(cfg, w, s);
        assert Rows(w.store.metrics, Cpu) + [] == Rows(w.store.metrics, Cpu);
    }
  }

  lemma {:induction false} TidyOverRuns(cfg: Config, w: World, steps: seq<Step>, d: real)
    requires d > 0.0 && Tidy(w, d) && PacedRun(cfg, w, steps, d)
    ensures Tidy(Run(cfg, w, steps), d)
  {
    if steps != [] {
      TidyOverRuns(cfg, w, steps[..|steps| - 1], d);
      TidyStep(cfg, Run(cfg, w, steps[..|steps| - 1]), steps[|steps| - 1], d);
    }
  }

  /* ---- the bound ---- */

  /** How far the pruning clock is behind the newest cycle: rows from its future are recent to it. */
  function Lag(w: World, now: Time): real {
    if w.lastCycle.Some? && now < w.lastCycle.value then w.lastCycle.value - now else 0.0
  }

  /** At most 200 incidents are protected. */
  lemma AtMostTwoHundred(incidents: seq<Incident>)
    ensures |ProtectedSpans(incidents, true)| <= PROTECTED_INCIDENTS
  {
  }

  lemma RowsUpTo(rows: seq<MetricRow>, last: Time)
    requires Ascending(rows) && (rows != [] ==> rows[|rows| - 1].timestamp <= last)
    ensures forall row :: row in rows ==> row.timestamp <= last
  {
    forall row | row in rows ensures row.timestamp <= last {
      var i :| 0 <= i < |rows| && rows[i] == row;
    }
  }

  /** A prune that listed the incidents selects, by some p, rows covered by the halves and the retention time. */
  lemma PruneSelects(cfg: Config, w: World, s: Step, halves: seq<Span>, recent: Span, after: seq<MetricRow>, d: real)
    returns (p: MetricRow -> bool)
    requires Tidy(w, d)
    requires s.Prune? && s.hours > 0.0 && s.listed && Cpu !in s.failed
    requires halves == Halves(Newest(w.store.incidents, PROTECTED_INCIDENTS))
    requires recent == Span(s.now - s.hours * 3600.0, s.now + Lag(w, s.now))
    requires after == Rows(Apply(cfg, w, s).store.metrics, Cpu)
    ensures after == Filter(Rows(w.store.metrics, Cpu), p)
    ensures forall row :: row in after ==> Covered(halves + [recent], row.timestamp)
  {
    hide Apply, Covered, Filter, Halves;
    p := Survives(recent.start, ProtectedSpans(w.store.incidents, true));
    Evidence.MetricsOfStep(cfg, w, s, Cpu);
    RowsUpTo(Rows(w.store.metrics, Cpu), recent.end);
    AllSurvivorsAreCovered(Rows(w.store.metrics, Cpu), w.store.incidents, recent.start, recent.end);
  }

  lemma PrunedWorldIsBounded(cfg: Config, w: World, s: Step, d: real, halves: seq<Span>, budget: nat, length: real,
                             after: seq<MetricRow>)
    requires d > 0.0 && Tidy(w, d) && s.Prune? && s.hours > 0.0 && s.listed && Cpu !in s.failed
    requires length == s.hours * 3600.0 + Lag(w, s.now)
    requires halves == Halves(Newest(w.store.incidents, PROTECTED_INCIDENTS)) && TotalSlots(halves, d) <= budget
    requires after == Rows(Apply(cfg, w, s).store.metrics, Cpu)
    ensures |after| <= Slots(length, d) + budget + w.starts
  {
    var recent := Span(s.now - s.hours * 3600.0, s.now + Lag(w, s.now));
    var p := PruneSelects(cfg, w, s, halves, recent, after, d);
    SelectionIsBounded(Rows(w.store.metrics, Cpu), p, halves, recent, length, budget, w.starts, d);
  }

  lemma BeginningIsTidy(d: real)
    ensures Tidy(BEGINNING, d)
  {
  }

  /** One row per interval of the retention time and one more, 4200 / d + 2 per protected incident, one per scheduler
      start. */
  function RowBound(length: real, guarded: nat, starts: nat, d: real): int
    requires d > 0.0
  {
    Quotient(length, d) + 1 + guarded * (Quotient(MARGIN_BEFORE + MARGIN_AFTER, d) + 2) + starts
  }

  lemma InFigures(length: real, guarded: nat, starts: nat, d: real)
    requires d > 0.0 && length >= 0.0
    ensures Slots(length, d) + Budget(guarded, d) + starts <= RowBound(length, guarded, starts, d)
  {
    var share := Quotient(MARGIN_BEFORE + MARGIN_AFTER, d) + 2;
    SlotsIsQuotient(length, d);
    BudgetIsProduct(guarded, d);
    PerIncidentInFigures(d);
    MoreEach(guarded, PerIncident(d), share);
  }

  lemma MoreEach(n: nat, x: int, y: int)
    requires x <= y
    ensures n * x <= n * y
  {
  }

  /** Storage is bounded: after any paced run and a prune that listed the incidents, the CPU table holds at most R / d + 1
      rows, 4200 / d + 2 for each of at most 200 protected incidents, and one per scheduler start.  R is the retention
      time, plus the time by which the pruning clock is behind the newest cycle. */
  lemma StorageIsBounded(cfg: Config, steps: seq<Step>, s: Step, d: real)
    requires d > 0.0 && PacedRun(cfg, BEGINNING, steps, d)
    requires s.Prune? && s.hours > 0.0 && s.listed && Cpu !in s.failed
    ensures
      var w := Run(cfg, BEGINNING, steps);
      var guarded := |ProtectedSpans(w.store.incidents, true)|;
      && guarded <= PROTECTED_INCIDENTS
      && |Rows(Apply(cfg, w, s).store.metrics, Cpu)|
           <= RowBound(s.hours * 3600.0 + Lag(w, s.now), guarded, w.starts, d)
  {
    hide *;
    var w := Run(cfg, BEGINNING, steps);
    var guarded := |ProtectedSpans(w.store.incidents, true)|;
    var length := s.hours * 3600.0 + Lag(w, s.now);
    BeginningIsTidy(d);
    TidyOverRuns(cfg, BEGINNING, steps, d);
    ProtectedBudget(w.store.incidents, d);
    PrunedWorldIsBounded(cfg, w, s, d, Halves(Newest(w.store.incidents, PROTECTED_INCIDENTS)), Budget(guarded, d), length,
                         Rows(Apply(cfg, w, s).store.metrics, Cpu));
    AtMostTwoHundred(w.store.incidents);
    LagIsPositive(w, s.now);
    InFigures(length, guarded, w.starts, d);
  }

  lemma LagIsPositive(w: World, now: Time)
    ensures Lag(w, now) >= 0.0
  {
  }
}
