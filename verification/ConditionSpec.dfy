/** What the findings about the machine's condition mean: which rows and events around the reboot raise them. */
module ConditionSpec {
  import opened Prelude
  import opened Storage
  import opened EventAnalyzer
  import opened Termination
  import opened Configuration
  import opened Diagnosis
  import opened EngineSpec

  /* ---- aggregates ---- */

  /** A value, where there is one, at or above the threshold. */
  predicate HasReached(x: Option<real>, threshold: real) {
    match x
    case None => false
    case Some(value) => threshold <= value
  }

  ghost predicate Reaches(rows: seq<MetricRow>, threshold: real) {
    exists row :: row in rows && HasReached(row.value, threshold)
  }

  /** A maximum reaches a threshold if and only if some value does; NULLs never count. */
  lemma {:induction false} MaximumReaches(rows: seq<MetricRow>, threshold: real)
    ensures HasReached(MaxValue(rows), threshold) <==> Reaches(rows, threshold)
  {
    if rows != [] {
      var rest, last := rows[..|rows| - 1], rows[|rows| - 1];
      assert rows == rest + [last];
      MaximumReaches(rest, threshold);
      if Reaches(rest, threshold) {
        var row :| row in rest && HasReached(row.value, threshold);
        assert row in rows;
      }
      if Reaches(rows, threshold) && !HasReached(last.value, threshold) {
        var row :| row in rows && HasReached(row.value, threshold);
        assert row in rest;
      }
    }
  }

  /** Some row of the table, from `beforeMinutes` before the boot to `afterMinutes` after it, has a value at or above the
      threshold. */
  ghost predicate ReachedIn(m: Metrics, t: Table, boot: Time, cfg: Config, threshold: real) {
    exists row :: row in Rows(m, t)
               && boot - 60.0 * cfg.beforeMinutes <= row.timestamp <= boot + 60.0 * cfg.afterMinutes
               && HasReached(row.value, threshold)
  }

  lemma AggregateReaches(m: Metrics, t: Table, boot: Time, cfg: Config, threshold: real)
    ensures HasReached(MaxOver(m, t, WindowStart(boot, cfg), WindowEnd(boot, cfg)), threshold)
       <==> ReachedIn(m, t, boot, cfg, threshold)
  {
    var kept := Filter(Rows(m, t), InSpan(WindowStart(boot, cfg), WindowEnd(boot, cfg)));
    MaximumReaches(kept, threshold);
    if ReachedIn(m, t, boot, cfg, threshold) {
      var row :| row in Rows(m, t)
              && boot - 60.0 * cfg.beforeMinutes <= row.timestamp <= boot + 60.0 * cfg.afterMinutes
              && HasReached(row.value, threshold);
      assert row in kept;
    }
  }

  /** The incident window's events of one category, in order. */
  function InWindow(events: seq<EventRow>, boot: Time, cfg: Config, c: Category): seq<EventRow> {
    Filter(events, (e: EventRow) =>
      boot - 60.0 * cfg.beforeMinutes <= e.timestamp <= boot + 60.0 * cfg.afterMinutes && Classify(e) == c)
  }

  lemma {:induction false} WindowOfCategory(events: seq<EventRow>, boot: Time, cfg: Config, c: Category)
    ensures OfCategory(EventsBetween(events, WindowStart(boot, cfg), WindowEnd(boot, cfg)), c)
         == InWindow(events, boot, cfg, c)
  {
    hide Classify;
    if events != [] {
      var rest, last := events[..|events| - 1], events[|events| - 1];
      var between := Between(WindowStart(boot, cfg), WindowEnd(boot, cfg));
      WindowOfCategory(rest, boot, cfg, c);
      if between(last) {
        FilterSnoc(Filter(rest, between), last, InCategory(c));
      }
    }
  }

  /** What a verdict reports about the incident window, incident or not: each category's events and their number, and each
      column's maximum, over exactly the events and rows of the window. */
  lemma VerdictIsOfWindow(st: Store, b: BootFacts, cfg: Config)
    ensures
      var v := Diagnosed(st, b, cfg);
      && (forall c :: v.summary.Entry(c, InWindow(st.events, b.bootTime, cfg, c)))
      && (forall x :: HasReached(v.aggregates.maxCpu, x) <==> ReachedIn(st.metrics, Cpu, b.bootTime, cfg, x))
      && (forall x :: HasReached(v.aggregates.maxMemory, x) <==> ReachedIn(st.metrics, Memory, b.bootTime, cfg, x))
      && (forall x :: HasReached(v.aggregates.maxTemperature, x) <==> ReachedIn(st.metrics, Temperature, b.bootTime, cfg, x))
      && (forall x :: HasReached(v.aggregates.maxDisk, x) <==> ReachedIn(st.metrics, Disk, b.bootTime, cfg, x))
  {
    hide MaxOver, ReachedIn, InWindow, Summarized, IncidentOf, FindingsOf, InferenceOf, Signals;
    var window := EventsBetween(st.events, WindowStart(b.bootTime, cfg), WindowEnd(b.bootTime, cfg));
    SummarizedSummarizes(window);
    forall c ensures OfCategory(window, c) == InWindow(st.events, b.bootTime, cfg, c) {
      WindowOfCategory(st.events, b.bootTime, cfg, c);
    }
    forall t, x
      ensures HasReached(MaxOver(st.metrics, t, WindowStart(b.bootTime, cfg), WindowEnd(b.bootTime, cfg)), x)
         <==> ReachedIn(st.metrics, t, b.bootTime, cfg, x)
    {
      AggregateReaches(st.metrics, t, b.bootTime, cfg, x);
    }
  }

  /* ---- findings ---- */

  lemma SortingKeepsMembers(fs: seq<Finding>, f: Finding)
    ensures f in BySeverity(fs) <==> f in fs
  {
    match f.severity {
      case High => assert f in Filter(fs, OfSeverity(High)) <==> f in fs;
      case Medium => assert f in Filter(fs, OfSeverity(Medium)) <==> f in fs;
      case Low => assert f in Filter(fs, OfSeverity(Low)) <==> f in fs;
    }
  }

  predicate AboutCondition(kind: FindingKind) {
    kind in {HardwareError, DiskProblem, GpuProblem, ThermalProblem, MemoryPressure, CpuPressure}
  }

  /** The evidence behind each finding, in terms of stored rows and events around the reboot. */
  ghost predicate Evident(st: Store, boot: Time, cfg: Config, kind: FindingKind) {
    match kind
    case HardwareError => InWindow(st.events, boot, cfg, Whea) != []
    case DiskProblem => InWindow(st.events, boot, cfg, DiskError) != []
    case GpuProblem => InWindow(st.events, boot, cfg, Display) != []
    case ThermalProblem => ReachedIn(st.metrics, Temperature, boot, cfg, cfg.temperatureCritical)
    case MemoryPressure => ReachedIn(st.metrics, Memory, boot, cfg, cfg.memoryWarning)
    case CpuPressure => ReachedIn(st.metrics, Cpu, boot, cfg, cfg.cpuWarning)
    case _ => false
  }

  /** How serious and how certain each finding is; hardware errors are both from the third one on. */
  function Weighed(kind: FindingKind, hardwareErrors: nat): Finding
    requires AboutCondition(kind)
  {
    match kind
    case HardwareError =>
      if hardwareErrors >= 3 then Finding(HardwareError, High, High) else Finding(HardwareError, Medium, Medium)
    case DiskProblem => Finding(DiskProblem, Medium, Medium)
    case GpuProblem => Finding(GpuProblem, Medium, Medium)
    case ThermalProblem => Finding(ThermalProblem, High, Medium)
    case MemoryPressure => Finding(MemoryPressure, Medium, Low)
    case CpuPressure => Finding(CpuPressure, Low, Low)
  }

  /** The reason for which the rules raise a finding of this kind. */
  predicate Reason(s: Summary, a: Aggregates, cfg: Config, kind: FindingKind) {
    match kind
    case HardwareError => s.Count(Whea) > 0
    case DiskProblem => s.Count(DiskError) > 0
    case GpuProblem => s.Count(Display) > 0
    case ThermalProblem => HasReached(a.maxTemperature, cfg.temperatureCritical)
    case MemoryPressure => HasReached(a.maxMemory, cfg.memoryWarning)
    case CpuPressure => HasReached(a.maxCpu, cfg.cpuWarning)
    case _ => false
  }

  lemma RaiseMember(fs: seq<Finding>, raised: bool, g: Finding, f: Finding)
    ensures f in Raise(fs, raised, g) <==> f in fs || (raised && f == g)
  {
  }

  lemma ConditionMembers(s: Summary, a: Aggregates, cfg: Config, f: Finding)
    ensures f in ConditionFindings(s, a, cfg) <==>
              AboutCondition(f.kind) && Reason(s, a, cfg, f.kind) && f == Weighed(f.kind, s.Count(Whea))
  {
    hide Raise;
    var serious := if s.Count(Whea) >= 3 then High else Medium;
    var hardware := Raise([], s.Count(Whea) > 0, Finding(HardwareError, serious, serious));
    var disk := Raise(hardware, s.Count(DiskError) > 0, Finding(DiskProblem, Medium, Medium));
    var display := Raise(disk, s.Count(Display) > 0, Finding(GpuProblem, Medium, Medium));
    var thermal := Raise(display, AtLeast(a.maxTemperature, cfg.temperatureCritical), Finding(ThermalProblem, High, Medium));
    var memory := Raise(thermal, AtLeast(a.maxMemory, cfg.memoryWarning), Finding(MemoryPressure, Medium, Low));
    RaiseMember([], s.Count(Whea) > 0, Finding(HardwareError, serious, serious), f);
    RaiseMember(hardware, s.Count(DiskError) > 0, Finding(DiskProblem, Medium, Medium), f);
    RaiseMember(disk, s.Count(Display) > 0, Finding(GpuProblem, Medium, Medium), f);
    RaiseMember(display, AtLeast(a.maxTemperature, cfg.temperatureCritical), Finding(ThermalProblem, High, Medium), f);
    RaiseMember(thermal, AtLeast(a.maxMemory, cfg.memoryWarning), Finding(MemoryPressure, Medium, Low), f);
    RaiseMember(memory, AtLeast(a.maxCpu, cfg.cpuWarning), Finding(CpuPressure, Low, Low), f);
  }

  lemma RaisedConditions(s: Summary, a: Aggregates, i: Inference, cfg: Config, f: Finding)
    requires AboutCondition(f.kind)
    ensures f in Raised(s, a, i, cfg) <==> Reason(s, a, cfg, f.kind) && f == Weighed(f.kind, s.Count(Whea))
  {
    hide ConditionFindings, Reason;
    ConditionMembers(s, a, cfg, f);
  }

  lemma ReasonIsEvidence(st: Store, b: BootFacts, cfg: Config, kind: FindingKind)
    ensures
      var v := Diagnosed(st, b, cfg);
      Reason(v.summary, v.aggregates, cfg, kind) <==> Evident(st, b.bootTime, cfg, kind)
    ensures Diagnosed(st, b, cfg).summary.Count(Whea) == |InWindow(st.events, b.bootTime, cfg, Whea)|
  {
    hide ReachedIn, InWindow, Diagnosed;
    VerdictIsOfWindow(st, b, cfg);
    var s := Diagnosed(st, b, cfg).summary;
    assert s.Entry(Whea, InWindow(st.events, b.bootTime, cfg, Whea));
    assert s.Entry(DiskError, InWindow(st.events, b.bootTime, cfg, DiskError));
    assert s.Entry(Display, InWindow(st.events, b.bootTime, cfg, Display));
  }

  /** The findings of a verdict, in terms of what it reports. */
  lemma FindingsOfVerdict(st: Store, b: BootFacts, cfg: Config)
    requires Diagnosed(st, b, cfg).incident.Some?
    ensures
      var v := Diagnosed(st, b, cfg);
      v.findings == BySeverity(Raised(v.summary, v.aggregates, InferenceOf(st, b, cfg), cfg))
  {
    hide Signals, InferenceOf, IncidentSummary, Aggregated, Raised, BySeverity, IncidentOf;
  }

  /** An incident reports a hardware, disk, display, thermal, memory or CPU problem if and only if a stored event or row of
      its window shows it, and then with the stated severity and confidence. */
  lemma FindingsIff(st: Store, b: BootFacts, cfg: Config, f: Finding)
    requires AboutCondition(f.kind) && Diagnosed(st, b, cfg).incident.Some?
    ensures f in Diagnosed(st, b, cfg).findings <==>
              Evident(st, b.bootTime, cfg, f.kind)
              && f == Weighed(f.kind, |InWindow(st.events, b.bootTime, cfg, Whea)|)
  {
    hide Diagnosed, Evident, Reason, Raised, BySeverity, InferenceOf, InWindow;
    var v := Diagnosed(st, b, cfg);
    FindingsOfVerdict(st, b, cfg);
    ReasonIsEvidence(st, b, cfg, f.kind);
    RaisedConditions(v.summary, v.aggregates, InferenceOf(st, b, cfg), cfg, f);
    SortingKeepsMembers(Raised(v.summary, v.aggregates, InferenceOf(st, b, cfg), cfg), f);
  }

  ghost predicate NothingFound(s: Summary, a: Aggregates, i: Inference, cfg: Config) {
    (forall kind :: !Reason(s, a, cfg, kind)) && TerminationFindings(i) == []
  }

  lemma NoConditions(s: Summary, a: Aggregates, cfg: Config)
    ensures ConditionFindings(s, a, cfg) == [] <==> forall kind :: !Reason(s, a, cfg, kind)
  {
    hide ConditionFindings;
    forall kind | Reason(s, a, cfg, kind) ensures ConditionFindings(s, a, cfg) != [] {
      ConditionMembers(s, a, cfg, Weighed(kind, s.Count(Whea)));
    }
    if ConditionFindings(s, a, cfg) != [] {
      ConditionMembers(s, a, cfg, ConditionFindings(s, a, cfg)[0]);
    }
  }

  /** The rules fall back on insufficient evidence exactly if they found nothing at all. */
  lemma FallbackIff(s: Summary, a: Aggregates, i: Inference, cfg: Config)
    ensures Finding(InsufficientEvidence, Low, Low) in BySeverity(Raised(s, a, i, cfg)) <==> NothingFound(s, a, i, cfg)
    ensures NothingFound(s, a, i, cfg) ==> BySeverity(Raised(s, a, i, cfg)) == [Finding(InsufficientEvidence, Low, Low)]
  {
    hide ConditionFindings, Reason;
    var fallback := Finding(InsufficientEvidence, Low, Low);
    NoConditions(s, a, cfg);
    ConditionMembers(s, a, cfg, fallback);
    SortingKeepsMembers(Raised(s, a, i, cfg), fallback);
    if NothingFound(s, a, i, cfg) {
      assert Raised(s, a, i, cfg) == [fallback];
      assert BySeverity([fallback]) == [fallback];
    }
  }
}
