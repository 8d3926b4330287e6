/** The evidence around a recorded incident survives every later interleaving of collection and pruning. */
module Evidence {
  import opened Prelude
  import opened Storage
  import opened Configuration
  import opened Termination
  import opened EventTail
  import opened Diagnosis
  import opened Retention
  import opened Machine
  import opened EngineSpec
  import opened IncidentRuns

  /* ---- one step ---- */

  /** The clock has passed the reboot, the incident is among the newest 200, and it can be listed. */
  ghost predicate GuardedStep(w: World, s: Step, k: nat)
    requires k < |w.store.incidents|
  {
    && (s.HighCycle? || s.LowCycle? ==> s.now >= w.store.incidents[k].reboot)
    && (s.Prune? ==> s.listed && |w.store.incidents| - k <= 200)
  }

  ghost predicate GuardedRun(cfg: Config, w: World, steps: seq<Step>, k: nat)
  {
    steps == []
    || (GuardedRun(cfg, w, steps[..|steps| - 1], k)
        && k < |Run(cfg, w, steps[..|steps| - 1]).store.incidents|
        && GuardedStep(Run(cfg, w, steps[..|steps| - 1]), steps[|steps| - 1], k))
  }

  /** What a step makes of one metric table. */
  function RowsAfter(before: seq<MetricRow>, incidents: seq<Incident>, s: Step, t: Table): seq<MetricRow> {
    if s.HighCycle? || s.LowCycle? then before + Added(s.snapshot, t, s.now, s.sessionId)
    else if s.Prune? && s.hours > 0.0 && t !in s.failed then
      Filter(before, Survives(s.now - s.hours * 3600.0, ProtectedSpans(incidents, s.listed)))
    else before
  }

  lemma MetricsOfStep(cfg: Config, w: World, s: Step, t: Table)
    ensures Rows(Apply(cfg, w, s).store.metrics, t) == RowsAfter(Rows(w.store.metrics, t), w.store.incidents, s, t)
  {
    if s.HighCycle? || s.LowCycle? {
      MetricsOfCycle(cfg, w, s, t);
    } else if s.Prune? {
      MetricsOfPrune(cfg, w, s, t);
    } else if s.Startup? {
      StartupMetrics(cfg, w, s);
    }
  }

  lemma MetricsOfCycle(cfg: Config, w: World, s: Step, t: Table)
    requires s.HighCycle? || s.LowCycle?
    ensures Rows(Apply(cfg, w, s).store.metrics, t)
         == Rows(w.store.metrics, t) + Added(s.snapshot, t, s.now, s.sessionId)
  {
    InsertOnlyAppends(w.store.metrics, s.snapshot, s.now, s.sessionId, t);
    if s.LowCycle? {
      assert Collected(w.store, w.log, s.sizes, s.sessionId, s.commits).metrics == w.store.metrics;
    }
  }

  lemma MetricsOfPrune(cfg: Config, w: World, s: Step, t: Table)
    requires s.Prune?
    ensures Rows(Apply(cfg, w, s).store.metrics, t) == RowsAfter(Rows(w.store.metrics, t), w.store.incidents, s, t)
  {
  }

  lemma StartupMetrics(cfg: Config, w: World, s: Step)
    requires s.Startup?
    ensures Started(cfg, w.store, w.log, s).metrics == w.store.metrics
    ensures Started(cfg, w.store, w.log, s).heartbeat == w.store.heartbeat
  {
    assert AfterTailing(w.store, w.log, s).metrics == w.store.metrics;
    assert AfterTailing(w.store, w.log, s).heartbeat == w.store.heartbeat;
  }

  lemma HeartbeatOfStep(cfg: Config, w: World, s: Step)
    ensures Apply(cfg, w, s).store.heartbeat == if s.HighCycle? && s.beat then Some(s.now) else w.store.heartbeat
  {
    if s.Startup? {
      StartupMetrics(cfg, w, s);
    }
  }

  /** A recorded incident stays where it is, as it is. */
  lemma IncidentStays(cfg: Config, w: World, s: Step, k: nat)
    requires k < |w.store.incidents|
    ensures k < |Apply(cfg, w, s).store.incidents| && Apply(cfg, w, s).store.incidents[k] == w.store.incidents[k]
  {
    IncidentsOfStep(cfg, w, s);
  }

  lemma NewestContains(incidents: seq<Incident>, limit: nat, k: nat)
    requires k < |incidents| && |incidents| - k <= limit
    ensures incidents[k] in Newest(incidents, limit)
  {
    var newest := incidents[|incidents| - Min(limit, |incidents|)..];
    var j := k - (|incidents| - Min(limit, |incidents|));
    assert newest[j] == incidents[k];
    assert Newest(incidents, limit)[|newest| - 1 - j] == incidents[k];
  }

  /** Inside the protected span of a listed incident, nothing is deleted. */
  lemma ProtectedSurvives(incidents: seq<Incident>, k: nat, cutoff: Time, row: MetricRow)
    requires k < |incidents| && |incidents| - k <= PROTECTED_INCIDENTS && Protects(incidents[k])
    requires Inside(SpanOf(incidents[k]), row.timestamp)
    ensures Survives(cutoff, ProtectedSpans(incidents, true))(row)
  {
    NewestContains(incidents, PROTECTED_INCIDENTS, k);
    assert SpanOf(incidents[k]) in ProtectedSpans(incidents, true);
  }

  /** Every row selected by p is inside the protected span of the incident. */
  ghost predicate WithinSpan(p: MetricRow -> bool, inc: Incident)
    requires Protects(inc)
  {
    forall row: MetricRow :: p(row) ==> Inside(SpanOf(inc), row.timestamp)
  }

  ghost predicate BeforeReboot(p: MetricRow -> bool, reboot: Time) {
    forall row: MetricRow :: p(row) ==> row.timestamp < reboot
  }

  /** The window's old rows stay, in order, and new ones only follow; before the reboot there are no new ones. */
  ghost predicate WindowKept(before: seq<MetricRow>, after: seq<MetricRow>, p: MetricRow -> bool, reboot: Time) {
    && Filter(before, p) <= Filter(after, p)
    && (BeforeReboot(p, reboot) ==> Filter(before, p) == Filter(after, p))
  }

  lemma WindowAfterInsert(rows: seq<MetricRow>, added: seq<MetricRow>, p: MetricRow -> bool, reboot: Time)
    requires forall row :: row in added ==> row.timestamp >= reboot
    ensures WindowKept(rows, rows + added, p, reboot)
  {
    FilterConcat(rows, added, p);
    if BeforeReboot(p, reboot) {
      FilterNone(added, p);
    }
  }

  lemma WindowAfterPrune(rows: seq<MetricRow>, incidents: seq<Incident>, k: nat, cutoff: Time, p: MetricRow -> bool)
    requires k < |incidents| && |incidents| - k <= PROTECTED_INCIDENTS && Protects(incidents[k])
    requires WithinSpan(p, incidents[k])
    ensures WindowKept(rows, Filter(rows, Survives(cutoff, ProtectedSpans(incidents, true))), p, incidents[k].reboot)
  {
    forall row | row in rows && p(row) ensures Survives(cutoff, ProtectedSpans(incidents, true))(row) {
      ProtectedSurvives(incidents, k, cutoff, row);
    }
    FilterAbsorbs(rows, Survives(cutoff, ProtectedSpans(incidents, true)), p);
  }

  lemma WindowOfTable(rows: seq<MetricRow>, incidents: seq<Incident>, s: Step, k: nat, t: Table, p: MetricRow -> bool)
    requires k < |incidents| && Protects(incidents[k]) && WithinSpan(p, incidents[k])
    requires s.HighCycle? || s.LowCycle? ==> s.now >= incidents[k].reboot
    requires s.Prune? ==> s.listed && |incidents| - k <= PROTECTED_INCIDENTS
    ensures WindowKept(rows, RowsAfter(rows, incidents, s, t), p, incidents[k].reboot)
  {
    hide Survives, ProtectedSpans, WithinSpan, WindowKept, Protects, Filter, Added;
    if s.HighCycle? || s.LowCycle? {
      WindowAfterInsert(rows, Added(s.snapshot, t, s.now, s.sessionId), p, incidents[k].reboot);
    } else if s.Prune? && s.hours > 0.0 && t !in s.failed {
      WindowAfterPrune(rows, incidents, k, s.now - s.hours * 3600.0, p);
    } else {
      WindowUntouched(rows, p, incidents[k].reboot);
    }
  }

  lemma WindowUntouched(rows: seq<MetricRow>, p: MetricRow -> bool, reboot: Time)
    ensures WindowKept(rows, rows, p, reboot)
  {
  }

  lemma WindowStep(cfg: Config, w: World, s: Step, k: nat, t: Table, p: MetricRow -> bool)
    requires k < |w.store.incidents| && Protects(w.store.incidents[k]) && GuardedStep(w, s, k)
    requires WithinSpan(p, w.store.incidents[k])
    ensures WindowKept(Rows(w.store.metrics, t), Rows(Apply(cfg, w, s).store.metrics, t), p, w.store.incidents[k].reboot)
  {
    MetricsOfStep(cfg, w, s, t);
    WindowOfTable(Rows(w.store.metrics, t), w.store.incidents, s, k, t, p);
  }

  /* ---- whole runs ---- */

  lemma {:induction false} WindowOverRuns(cfg: Config, w: World, steps: seq<Step>, k: nat, t: Table, p: MetricRow -> bool)
    requires k < |w.store.incidents| && Protects(w.store.incidents[k]) && GuardedRun(cfg, w, steps, k)
    requires WithinSpan(p, w.store.incidents[k])
    ensures k < |Run(cfg, w, steps).store.incidents|
         && Run(cfg, w, steps).store.incidents[k] == w.store.incidents[k]
    ensures WindowKept(Rows(w.store.metrics, t), Rows(Run(cfg, w, steps).store.metrics, t), p,
                       w.store.incidents[k].reboot)
  {
    if steps != [] {
      var w' := Run(cfg, w, steps[..|steps| - 1]);
      WindowOverRuns(cfg, w, steps[..|steps| - 1], k, t, p);
      IncidentStays(cfg, w', steps[|steps| - 1], k);
      WindowStep(cfg, w', steps[|steps| - 1], k, t, p);
    }
  }

  /** The rows from `beforeMinutes` before the boot to `afterMinutes` after it. */
  function InWindow(boot: Time, cfg: Config): MetricRow -> bool {
    (row: MetricRow) => boot - 60.0 * cfg.beforeMinutes <= row.timestamp <= boot + 60.0 * cfg.afterMinutes
  }

  function UpTo(boot: Time, cfg: Config, end: Time): MetricRow -> bool {
    (row: MetricRow) => boot - 60.0 * cfg.beforeMinutes <= row.timestamp <= end
  }

  /** No metric row of an incident's evidence window is ever lost: with windows of at most 60 minutes before and 10 after
      the reboot, the rows of the window stay in every table, in order, with only later rows behind them; and nothing at
      all changes before the reboot. */
  lemma EvidenceWindowSurvives(cfg: Config, w: World, steps: seq<Step>, k: nat, t: Table)
    requires k < |w.store.incidents| && Protects(w.store.incidents[k]) && GuardedRun(cfg, w, steps, k)
    requires w.store.incidents[k].lastMetric.value < w.store.incidents[k].reboot
    requires cfg.beforeMinutes <= 60.0 && cfg.afterMinutes <= 10.0
    ensures
      var boot := w.store.incidents[k].reboot;
      var window := InWindow(boot, cfg);
      Filter(Rows(w.store.metrics, t), window) <= Filter(Rows(Run(cfg, w, steps).store.metrics, t), window)
    ensures
      var boot := w.store.incidents[k].reboot;
      forall end :: end < boot ==>
        Filter(Rows(w.store.metrics, t), UpTo(boot, cfg, end))
          == Filter(Rows(Run(cfg, w, steps).store.metrics, t), UpTo(boot, cfg, end))
  {
    hide Run, Filter, Rows;
    var boot := w.store.incidents[k].reboot;
    WindowOverRuns(cfg, w, steps, k, t, InWindow(boot, cfg));
    forall end | end < boot
      ensures Filter(Rows(w.store.metrics, t), UpTo(boot, cfg, end))
           == Filter(Rows(Run(cfg, w, steps).store.metrics, t), UpTo(boot, cfg, end))
    {
      WindowOverRuns(cfg, w, steps, k, t, UpTo(boot, cfg, end));
    }
  }

  /* ---- the last activity can be recomputed ---- */

  /** The recorded last activity is the newest activity row before the reboot, and the heartbeat adds nothing to it. */
  ghost predicate Reproducible(st: Store, reboot: Time, last: Time) {
    IsLastRow(st.metrics, reboot, last)
    && (st.heartbeat.Some? ==> st.heartbeat.value <= last || st.heartbeat.value >= reboot)
  }

  lemma ReproducibleMeansSame(st: Store, reboot: Time, last: Time)
    requires Reproducible(st, reboot, last)
    ensures LastActivity(st, reboot) == Some(last)
  {
    LastRowUnique(st.metrics, reboot, last);
  }

  lemma ReproducibleStep(cfg: Config, w: World, s: Step, k: nat)
    requires k < |w.store.incidents| && Protects(w.store.incidents[k]) && GuardedStep(w, s, k)
    requires Reproducible(w.store, w.store.incidents[k].reboot, w.store.incidents[k].lastMetric.value)
    ensures Reproducible(Apply(cfg, w, s).store, w.store.incidents[k].reboot, w.store.incidents[k].lastMetric.value)
  {
    hide Apply, Survives, ProtectedSpans, Filter, Added;
    var reboot := w.store.incidents[k].reboot;
    var last := w.store.incidents[k].lastMetric.value;
    var m := Apply(cfg, w, s).store.metrics;
    HeartbeatOfStep(cfg, w, s);
    var t :| t in ACTIVITY_TABLES && RowAt(w.store.metrics, t, last);
    var row :| row in Rows(w.store.metrics, t) && row.timestamp == last;
    MetricsOfStep(cfg, w, s, t);
    if s.Prune? && s.hours > 0.0 && t !in s.failed {
      ProtectedSurvives(w.store.incidents, k, s.now - s.hours * 3600.0, row);
    }
    assert row in Rows(m, t);
    assert RowAt(m, t, last);
    forall u, r | u in ACTIVITY_TABLES && r in Rows(m, u) && r.timestamp < reboot ensures r.timestamp <= last {
      MetricsOfStep(cfg, w, s, u);
      assert r in Rows(w.store.metrics, u);
    }
  }

  lemma {:induction false} ReproducibleOverRuns(cfg: Config, w: World, steps: seq<Step>, k: nat)
    requires k < |w.store.incidents| && Protects(w.store.incidents[k]) && GuardedRun(cfg, w, steps, k)
    requires Reproducible(w.store, w.store.incidents[k].reboot, w.store.incidents[k].lastMetric.value)
    ensures k < |Run(cfg, w, steps).store.incidents|
         && Run(cfg, w, steps).store.incidents[k] == w.store.incidents[k]
    ensures Reproducible(Run(cfg, w, steps).store, w.store.incidents[k].reboot, w.store.incidents[k].lastMetric.value)
  {
    if steps != [] {
      var w' := Run(cfg, w, steps[..|steps| - 1]);
      ReproducibleOverRuns(cfg, w, steps[..|steps| - 1], k);
      IncidentStays(cfg, w', steps[|steps| - 1], k);
      ReproducibleStep(cfg, w', steps[|steps| - 1], k);
    }
  }

  /* ---- where reproducible incidents come from ---- */

  /** The cycle that wrote the heartbeat also stored an activity row, and it is still there. */
  ghost predicate BeatWitnessed(st: Store) {
    st.heartbeat.Some? ==> exists t :: t in ACTIVITY_TABLES && RowAt(st.metrics, t, st.heartbeat.value)
  }

  /** Every cycle that writes the heartbeat stores an activity row, and no prune reaches the last one. */
  ghost predicate WitnessingStep(w: World, s: Step) {
    && (s.HighCycle? && s.beat ==> exists t :: t in ACTIVITY_TABLES && Added(s.snapshot, t, s.now, s.sessionId) != [])
    && (s.Prune? && w.store.heartbeat.Some? ==> s.now - s.hours * 3600.0 <= w.store.heartbeat.value)
  }

  lemma WitnessStep(cfg: Config, w: World, s: Step)
    requires BeatWitnessed(w.store) && WitnessingStep(w, s)
    ensures BeatWitnessed(Apply(cfg, w, s).store)
  {
    hide Apply, ProtectedSpans, Filter, Added;
    HeartbeatOfStep(cfg, w, s);
    var m := Apply(cfg, w, s).store.metrics;
    if s.HighCycle? && s.beat {
      var t :| t in ACTIVITY_TABLES && Added(s.snapshot, t, s.now, s.sessionId) != [];
      MetricsOfStep(cfg, w, s, t);
      var row := Added(s.snapshot, t, s.now, s.sessionId)[0];
      assert row in Added(s.snapshot, t, s.now, s.sessionId);
      assert row in Rows(m, t) && RowAt(m, t, s.now);
    } else if w.store.heartbeat.Some? {
      var t :| t in ACTIVITY_TABLES && RowAt(w.store.metrics, t, w.store.heartbeat.value);
      var row :| row in Rows(w.store.metrics, t) && row.timestamp == w.store.heartbeat.value;
      MetricsOfStep(cfg, w, s, t);
      assert row in Rows(m, t) && RowAt(m, t, w.store.heartbeat.value);
    }
  }

  ghost predicate WitnessingRun(cfg: Config, w: World, steps: seq<Step>) {
    steps == []
    || (WitnessingRun(cfg, w, steps[..|steps| - 1])
        && WitnessingStep(Run(cfg, w, steps[..|steps| - 1]), steps[|steps| - 1]))
  }

  lemma {:induction false} WitnessOverRuns(cfg: Config, w: World, steps: seq<Step>)
    requires BeatWitnessed(w.store) && WitnessingRun(cfg, w, steps)
    ensures BeatWitnessed(Run(cfg, w, steps).store)
  {
    if steps != [] {
      WitnessOverRuns(cfg, w, steps[..|steps| - 1]);
      WitnessStep(cfg, Run(cfg, w, steps[..|steps| - 1]), steps[|steps| - 1]);
    }
  }

  /** With a witnessed heartbeat, the last activity is a stored row. */
  lemma WitnessedIsReproducible(st: Store, reboot: Time)
    requires BeatWitnessed(st) && LastActivity(st, reboot).Some?
    ensures Reproducible(st, reboot, LastActivity(st, reboot).value)
  {
    LatestInIsMax(st.metrics, ACTIVITY_TABLES, reboot);
    if st.heartbeat.Some? && st.heartbeat.value < reboot {
      var t :| t in ACTIVITY_TABLES && RowAt(st.metrics, t, st.heartbeat.value);
      var row :| row in Rows(st.metrics, t) && row.timestamp == st.heartbeat.value;
    }
    var last := LatestIn(st.metrics, ACTIVITY_TABLES, reboot);
    LastRowUnique(st.metrics, reboot, last.value);
  }

  /** Neither detection nor tailing changes what the last activity is computed from. */
  lemma TailedActivity(w: World, s: Step)
    requires s.Startup?
    ensures LastActivity(AfterTailing(w.store, w.log, s), s.boot) == LastActivity(w.store, s.boot)
  {
    var tailed := AfterTailing(w.store, w.log, s);
    assert tailed.metrics == w.store.metrics && tailed.heartbeat == w.store.heartbeat;
  }

  lemma NewIncidentFields(cfg: Config, w: World, s: Step)
    requires Records(cfg, w, s)
    ensures NewIncident(cfg, w, s).lastMetric == LastActivity(w.store, s.boot)
    ensures NewIncident(cfg, w, s).duration == InferenceOf(AfterTailing(w.store, w.log, s), BootOf(w, s), cfg).gap
  {
    hide LastActivity, InferenceOf, Signals, FindingsOf, IncidentSummary, Aggregated, IncidentOf;
    var tailed := AfterTailing(w.store, w.log, s);
    IncidentFields(tailed, BootOf(w, s), cfg);
    TailedActivity(w, s);
  }

  /** The incident a startup records, as it stands in the table afterwards. */
  lemma RecordedIncident(cfg: Config, w: World, s: Step)
    requires Records(cfg, w, s)
    ensures
      var k := |w.store.incidents|;
      var w' := Apply(cfg, w, s);
      && k < |w'.store.incidents| && w'.store.incidents[k].reboot == s.boot
      && w'.store.incidents[k].lastMetric == LastActivity(w.store, s.boot)
      && w'.store.incidents[k].duration == InferenceOf(AfterTailing(w.store, w.log, s), BootOf(w, s), cfg).gap
      && w'.store.metrics == w.store.metrics && w'.store.heartbeat == w.store.heartbeat
  {
    hide Started, Records, NewIncident, LastActivity, InferenceOf, AfterTailing;
    IncidentsOfStep(cfg, w, s);
    StartupMetrics(cfg, w, s);
    NewIncidentFields(cfg, w, s);
  }
}
