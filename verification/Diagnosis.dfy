/** diagnostics/diagnosis.py: the rule engine that turns stored rows into an incident. */
module Diagnosis {
  import opened Prelude
  import opened Storage
  import opened EventAnalyzer
  import opened Termination
  import opened Configuration
  import BootDetector

  /* ---- last sign of life ---- */

  const ACTIVITY_TABLES: seq<Table> := [Cpu, Memory, Uptime, Process]

  function EarlierThan(before: Time): MetricRow -> bool {
    (row: MetricRow) => row.timestamp < before
  }

  /** SELECT MAX(timestamp) */
  function Latest(rows: seq<MetricRow>): Option<Time> {
    if rows == [] then None
    else MaxOption(Latest(rows[..|rows| - 1]), Some(rows[|rows| - 1].timestamp))
  }

  function LatestIn(m: Metrics, tables: seq<Table>, before: Time): Option<Time> {
    if tables == [] then None
    else MaxOption(LatestIn(m, tables[..|tables| - 1], before),
                   Latest(Filter(Rows(m, tables[|tables| - 1]), EarlierThan(before))))
  }

  function LastActivity(st: Store, before: Time): Option<Time> {
    var fromRows := LatestIn(st.metrics, ACTIVITY_TABLES, before);
    if st.heartbeat.Some? && st.heartbeat.value < before then MaxOption(fromRows, st.heartbeat) else fromRows
  }

  method LastMetricTimestamp(db: Database, before: Time) returns (latest: Option<Time>)
    ensures latest == LastActivity(db.View(), before)
  {
    latest := None;
    for i := 0 to |ACTIVITY_TABLES|
      invariant latest == LatestIn(db.metrics, ACTIVITY_TABLES[..i], before)
    {
      assert ACTIVITY_TABLES[..i + 1][..i] == ACTIVITY_TABLES[..i];
      var m := Latest(Filter(Rows(db.metrics, ACTIVITY_TABLES[i]), EarlierThan(before)));
      if m.Some? {
        latest := if latest.None? then m else Some(Max(latest.value, m.value));
      }
    }
    assert ACTIVITY_TABLES[..|ACTIVITY_TABLES|] == ACTIVITY_TABLES;
    var heartbeat := db.heartbeat;
    if heartbeat.Some? && heartbeat.value < before {
      latest := if latest.None? then heartbeat else Some(Max(latest.value, heartbeat.value));
    }
  }

  /* ---- aggregates ---- */

  function InSpan(start: Time, end: Time): MetricRow -> bool {
    (row: MetricRow) => start <= row.timestamp <= end
  }

  /** SELECT MAX(column): NULLs never win. */
  function MaxValue(rows: seq<MetricRow>): Option<real> {
    if rows == [] then None
    else MaxOption(MaxValue(rows[..|rows| - 1]), rows[|rows| - 1].value)
  }

  datatype Aggregates = Aggregates(maxCpu: Option<real>, maxMemory: Option<real>,
                                   maxTemperature: Option<real>, maxDisk: Option<real>)

  function MaxOver(m: Metrics, t: Table, start: Time, end: Time): Option<real> {
    MaxValue(Filter(Rows(m, t), InSpan(start, end)))
  }

  function Aggregated(m: Metrics, start: Time, end: Time): Aggregates {
    Aggregates(MaxOver(m, Cpu, start, end), MaxOver(m, Memory, start, end),
               MaxOver(m, Temperature, start, end), MaxOver(m, Disk, start, end))
  }

  /* ---- findings ---- */

  predicate AtLeast(x: Option<real>, threshold: real) {
    x.Some? && x.value >= threshold
  }

  function Raise(fs: seq<Finding>, raised: bool, f: Finding): seq<Finding> {
    if raised then fs + [f] else fs
  }

  /** Findings about the machine's condition, in the order the rules are tried. */
  function ConditionFindings(s: Summary, a: Aggregates, cfg: Config): seq<Finding> {
    var serious := if s.Count(Whea) >= 3 then High else Medium;
    var hardware := Raise([], s.Count(Whea) > 0, Finding(HardwareError, serious, serious));
    var disk := Raise(hardware, s.Count(DiskError) > 0, Finding(DiskProblem, Medium, Medium));
    var display := Raise(disk, s.Count(Display) > 0, Finding(GpuProblem, Medium, Medium));
    var thermal := Raise(display, AtLeast(a.maxTemperature, cfg.temperatureCritical), Finding(ThermalProblem, High, Medium));
    var memory := Raise(thermal, AtLeast(a.maxMemory, cfg.memoryWarning), Finding(MemoryPressure, Medium, Low));
    Raise(memory, AtLeast(a.maxCpu, cfg.cpuWarning), Finding(CpuPressure, Low, Low))
  }

  /** At most one finding about how the session ended. */
  function TerminationFindings(i: Inference): seq<Finding> {
    if i.hardHang then [Finding(PossibleHardHang, High, i.confidence)]
    else if i.powerLoss then [Finding(PossiblePowerLoss, High, i.confidence)]
    else if i.crash then [Finding(PossibleCrash, High, High)]
    else []
  }

  function Raised(s: Summary, a: Aggregates, i: Inference, cfg: Config): seq<Finding> {
    var found := ConditionFindings(s, a, cfg) + TerminationFindings(i);
    if found == [] then [Finding(InsufficientEvidence, Low, Low)] else found
  }

  function OfSeverity(l: Level): Finding -> bool {
    (f: Finding) => f.severity == l
  }

  /** Most severe first; findings of one severity keep their order. */
  function BySeverity(fs: seq<Finding>): seq<Finding> {
    Filter(fs, OfSeverity(High)) + Filter(fs, OfSeverity(Medium)) + Filter(fs, OfSeverity(Low))
  }

  /** The rules about the machine's condition: each appends its finding. */
  method ConditionRules(s: Summary, a: Aggregates, cfg: Config) returns (findings: seq<Finding>)
    ensures findings == ConditionFindings(s, a, cfg)
  {
    findings := [];
    if s.Count(Whea) > 0 {
      var severity := if s.Count(Whea) >= 3 then High else Medium;
      var confidence := if s.Count(Whea) >= 3 then High else Medium;
      findings := findings + [Finding(HardwareError, severity, confidence)];
    }
    if s.Count(DiskError) > 0 {
      findings := findings + [Finding(DiskProblem, Medium, Medium)];
    }
    if s.Count(Display) > 0 {
      findings := findings + [Finding(GpuProblem, Medium, Medium)];
    }
    if a.maxTemperature.Some? && a.maxTemperature.value >= cfg.temperatureCritical {
      findings := findings + [Finding(ThermalProblem, High, Medium)];
    }
    if a.maxMemory.Some? && a.maxMemory.value >= cfg.memoryWarning {
      findings := findings + [Finding(MemoryPressure, Medium, Low)];
    }
    if a.maxCpu.Some? && a.maxCpu.value >= cfg.cpuWarning {
      findings := findings + [Finding(CpuPressure, Low, Low)];
    }
  }

  method BuildFindings(s: Summary, a: Aggregates, i: Inference, cfg: Config) returns (findings: seq<Finding>)
    ensures findings == BySeverity(Raised(s, a, i, cfg))
  {
    findings := ConditionRules(s, a, cfg);
    if i.hardHang {
      findings := findings + [Finding(PossibleHardHang, High, i.confidence)];
    } else if i.powerLoss {
      findings := findings + [Finding(PossiblePowerLoss, High, i.confidence)];
    } else if i.crash {
      findings := findings + [Finding(PossibleCrash, High, High)];
    }
    assert findings == ConditionFindings(s, a, cfg) + TerminationFindings(i);
    if findings == [] {
      findings := findings + [Finding(InsufficientEvidence, Low, Low)];
    }
    findings := BySeverity(findings);
  }

  /* ---- the incident ---- */

  function IncidentTypeOf(i: Inference, crash: CrashSignals): IncidentType {
    if crash.bugcheck then Bsod
    else if i.hardHang then HardHang
    else if i.powerLoss then PowerLoss
    else if crash.unexpectedShutdown then UnexpectedReboot
    else UnknownType
  }

  function Rank(l: Level): nat {
    match l
    case High => 3
    case Medium => 2
    case Low => 1
  }

  function BestConfidence(fs: seq<Finding>): Level {
    if fs == [] then Low
    else
      var best := BestConfidence(fs[..|fs| - 1]);
      var last := fs[|fs| - 1].confidence;
      if Rank(last) > Rank(best) then last else best
  }

  function IncidentConfidence(i: Inference, crash: CrashSignals, fs: seq<Finding>): Level {
    if crash.bugcheck then High
    else if i.hardHang || i.powerLoss then i.confidence
    else BestConfidence(fs)
  }

  /** The parts of a boot result the engine reads. */
  datatype BootFacts = BootFacts(bootTime: Time, previousBootTime: Option<Time>,
                                 previousSessionId: Option<int>, previousSessionClean: Option<bool>)

  function FactsOf(b: BootDetector.BootResult): BootFacts {
    BootFacts(b.bootTime, b.previousBootTime, b.previousSessionId, b.previousSessionClean)
  }

  /** `inference` is reported only together with an incident; an unstored incident has id 0. */
  datatype Verdict = Verdict(incident: Option<Incident>, findings: seq<Finding>, summary: Summary,
                             aggregates: Aggregates, inference: Option<Inference>)

  function TransitionStart(b: BootFacts, cfg: Config): Time {
    if b.previousBootTime.Some? then b.previousBootTime.value else b.bootTime - cfg.retentionHours * 3600.0
  }

  function TransitionEvents(events: seq<EventRow>, b: BootFacts, cfg: Config): seq<EventRow> {
    EventsBetween(events, TransitionStart(b, cfg), b.bootTime + BootDetector.BOOT_MARGIN_SECONDS)
  }

  function WindowStart(boot: Time, cfg: Config): Time {
    boot - cfg.beforeMinutes * 60.0
  }

  function WindowEnd(boot: Time, cfg: Config): Time {
    boot + cfg.afterMinutes * 60.0
  }

  function IncidentSummary(st: Store, boot: Time, cfg: Config): Summary {
    Summarized(EventsBetween(st.events, WindowStart(boot, cfg), WindowEnd(boot, cfg)))
  }

  function Signals(st: Store, b: BootFacts, cfg: Config): CrashSignals {
    DetectCrash(Summarized(TransitionEvents(st.events, b, cfg)), b.previousSessionClean)
  }

  function InferenceOf(st: Store, b: BootFacts, cfg: Config): Inference {
    Inferred(Signals(st, b, cfg), LastActivity(st, b.bootTime), b.bootTime, cfg.interval)
  }

  function FindingsOf(st: Store, b: BootFacts, cfg: Config): seq<Finding> {
    BySeverity(Raised(IncidentSummary(st, b.bootTime, cfg),
                      Aggregated(st.metrics, WindowStart(b.bootTime, cfg), WindowEnd(b.bootTime, cfg)),
                      InferenceOf(st, b, cfg), cfg))
  }

  predicate Warranted(crash: CrashSignals) {
    crash.unexpectedShutdown || crash.bugcheck
  }

  function IncidentOf(st: Store, b: BootFacts, cfg: Config): Incident {
    var crash := Signals(st, b, cfg);
    var inference := InferenceOf(st, b, cfg);
    var findings := FindingsOf(st, b, cfg);
    Incident(0, b.bootTime, IncidentTypeOf(inference, crash), IncidentConfidence(inference, crash, findings),
             b.previousSessionId, LastActivity(st, b.bootTime), b.bootTime, inference.gap, findings)
  }

  /** What the engine concludes from a store; nothing in it depends on stored incidents or sessions. */
  function Diagnosed(st: Store, b: BootFacts, cfg: Config): Verdict {
    var summary := IncidentSummary(st, b.bootTime, cfg);
    var aggregates := Aggregated(st.metrics, WindowStart(b.bootTime, cfg), WindowEnd(b.bootTime, cfg));
    if Warranted(Signals(st, b, cfg)) then
      Verdict(Some(IncidentOf(st, b, cfg)), FindingsOf(st, b, cfg), summary, aggregates, Some(InferenceOf(st, b, cfg)))
    else
      Verdict(None, [], summary, aggregates, None)
  }

  const DEDUPLICATION_SECONDS := 5.0

  predicate IncidentExists(incidents: seq<Incident>, reboot: Time) {
    exists i :: 0 <= i < |incidents|
             && reboot - DEDUPLICATION_SECONDS <= incidents[i].reboot <= reboot + DEDUPLICATION_SECONDS
  }

  /** The store after the verdict was persisted, unless one is stored for this reboot already. */
  function Recorded(st: Store, v: Verdict): Store {
    if v.incident.None? || IncidentExists(st.incidents, v.incident.value.reboot) then st
    else st.(incidents := st.incidents + [v.incident.value.(incidentId := NextIncidentId(st.incidents))])
  }

  function AfterDiagnosis(st: Store, b: BootFacts, cfg: Config): Store {
    Recorded(st, Diagnosed(st, b, cfg))
  }

  /** The verdict as returned: a newly stored incident carries its id. */
  function Announced(st: Store, v: Verdict): Verdict {
    if v.incident.None? || IncidentExists(st.incidents, v.incident.value.reboot) then v
    else v.(incident := Some(v.incident.value.(incidentId := NextIncidentId(st.incidents))))
  }

  method RunDiagnosis(db: Database, b: BootFacts, cfg: Config, persist: bool) returns (v: Verdict)
    requires cfg.interval > 0.0
    modifies db`incidents
    ensures db.View() == if persist then AfterDiagnosis(old(db.View()), b, cfg) else old(db.View())
    ensures
      var verdict := Diagnosed(old(db.View()), b, cfg);
      v == if persist then Announced(old(db.View()), verdict) else verdict
  {
    var boot := b.bootTime;
    var transition := Summarize(TransitionEvents(db.events, b, cfg));
    var summary := Summarize(EventsBetween(db.events, WindowStart(boot, cfg), WindowEnd(boot, cfg)));
    var crash := DetectCrash(transition, b.previousSessionClean);
    var lastActivity := LastMetricTimestamp(db, boot);
    var aggregates := Aggregated(db.metrics, WindowStart(boot, cfg), WindowEnd(boot, cfg));
    var inference := InferTermination(crash, lastActivity, boot, cfg.interval);
    var findings := BuildFindings(summary, aggregates, inference, cfg);

    if !(crash.unexpectedShutdown || crash.bugcheck) {
      v := Verdict(None, [], summary, aggregates, None);
      return;
    }
    var incident := Incident(0, boot, IncidentTypeOf(inference, crash), IncidentConfidence(inference, crash, findings),
                             b.previousSessionId, lastActivity, boot, inference.gap, findings);
    if persist && !IncidentExists(db.incidents, boot) {
      var id := db.CreateIncident(incident);
      incident := incident.(incidentId := id);
    }
    v := Verdict(Some(incident), findings, summary, aggregates, Some(inference));
  }

  /* ---- on demand ---- */

  /** The boot facts rebuilt from the latest two session rows. */
  function LatestFacts(sessions: seq<Session>, latest: Session): BootFacts {
    var prev := Highest(sessions, Some(latest.sessionId));
    BootFacts(latest.bootTime,
              if latest.previousBootTime.Some? && latest.previousBootTime.value != 0.0 then latest.previousBootTime
              else if prev.Some? then Some(prev.value.bootTime) else None,
              BootDetector.IdOf(prev),
              if prev.Some? then prev.value.previousSessionClean else None)
  }

  const NO_SESSION_VERDICT: Verdict :=
    Verdict(None, [], Summary(map[], map[]), Aggregates(None, None, None, None), None)

  function LatestVerdict(st: Store, cfg: Config): Verdict {
    var latest := Highest(st.sessions, None);
    if latest.None? then NO_SESSION_VERDICT else Diagnosed(st, LatestFacts(st.sessions, latest.value), cfg)
  }

  method DiagnoseLatest(db: Database, cfg: Config) returns (v: Verdict)
    requires cfg.interval > 0.0
    modifies db`incidents
    ensures db.View() == old(db.View())
    ensures v == LatestVerdict(old(db.View()), cfg)
  {
    var latest := Highest(db.sessions, None);
    if latest.None? {
      return NO_SESSION_VERDICT;
    }
    v := RunDiagnosis(db, LatestFacts(db.sessions, latest.value), cfg, false);
  }
}
