/** The synthetic incidents against the engine: seeding, detecting and diagnosing gives the expected verdict for every
    start, boot, last activity, load and positive collection interval. */
module ScenarioOutcomes {
  import opened Prelude
  import opened Storage
  import opened Configuration
  import opened EventAnalyzer
  import opened Termination
  import opened BootDetector
  import opened Diagnosis
  import opened EngineSpec
  import opened ProviderText
  import opened Scenarios

  /* ---- the transition ---- */

  /** The new boot is a different boot; the seeded session is its predecessor. */
  predicate Separate(sc: Scenario) {
    sc.prevBoot > 0.0 && sc.boot - sc.prevBoot >= SAME_BOOT_SECONDS
  }

  function Transition(sc: Scenario): seq<EventRow> {
    EventsBetween(Stamped(sc.events, 1), sc.prevBoot, sc.boot + BOOT_MARGIN_SECONDS)
  }

  /** A boot after the only session: that session is finalised and the new row points back to it. */
  lemma SecondBoot(st: Store, first: Session, now: Time, boot: Time)
    requires st.sessions == [first] && first.bootTime > 0.0 && boot - first.bootTime >= SAME_BOOT_SECONDS
    ensures
      var clean := Saw(EventsBetween(st.events, first.bootTime, boot + BOOT_MARGIN_SECONDS), ShutdownClean);
      FactsOf(DetectedResult(st, boot)) == BootFacts(boot, Some(first.bootTime), Some(first.sessionId), Some(clean))
    ensures
      var after := Detected(st, now, boot);
      after.events == st.events && after.metrics == st.metrics && after.heartbeat == st.heartbeat
  {
    assert Highest([first], None) == Some(first);
    DetectedMeansSaw(EventsBetween(st.events, first.bootTime, boot + BOOT_MARGIN_SECONDS), ShutdownClean);
  }

  /** What seeding leaves for detection to find. */
  lemma SeededStore(sc: Scenario) returns (st: Store, first: Session)
    ensures st == Seeded(sc) && st.sessions == [first] && first.bootTime == sc.prevBoot && first.sessionId == 1
    ensures st.events == Stamped(sc.events, 1) && st.metrics == SeededMetrics(sc.snapshots)
  {
    st, first := Seeded(sc), NewSession(1, sc.prevBoot, sc.prevBoot);
  }

  lemma SeededBoot(sc: Scenario)
    requires Separate(sc)
    ensures
      var clean := Saw(Transition(sc), ShutdownClean);
      BootOf(sc) == BootFacts(sc.boot, Some(sc.prevBoot), Some(1), Some(clean))
  {
    var st, first := SeededStore(sc);
    SecondBoot(st, first, sc.boot, sc.boot);
  }

  lemma SeededEvidence(sc: Scenario)
    requires Separate(sc)
    ensures StoreAtDiagnosis(sc).events == Stamped(sc.events, 1)
    ensures StoreAtDiagnosis(sc).metrics == SeededMetrics(sc.snapshots)
    ensures StoreAtDiagnosis(sc).heartbeat == Seeded(sc).heartbeat
  {
    var st, first := SeededStore(sc);
    SecondBoot(st, first, sc.boot, sc.boot);
  }

  /** The scenario has an event of this category inside the transition. */
  ghost predicate Holds(sc: Scenario, c: Category) {
    exists i :: 0 <= i < |sc.events|
             && sc.prevBoot <= sc.events[i].timestamp <= sc.boot + BOOT_MARGIN_SECONDS
             && Classify(sc.events[i]) == c
  }

  lemma SessionIsNoEvidence(e: EventRow, sessionId: int)
    ensures Classify(e.(sessionId := sessionId)) == Classify(e)
  {
  }

  lemma SawMeansHolds(sc: Scenario, c: Category)
    ensures Saw(Transition(sc), c) <==> Holds(sc, c)
  {
    var rows := Stamped(sc.events, 1);
    if Saw(Transition(sc), c) {
      var e :| e in Transition(sc) && Classify(e) == c;
      assert e in rows;
      var i :| 0 <= i < |rows| && rows[i] == e;
      SessionIsNoEvidence(sc.events[i], 1);
    }
    if Holds(sc, c) {
      var i :| 0 <= i < |sc.events|
            && sc.prevBoot <= sc.events[i].timestamp <= sc.boot + BOOT_MARGIN_SECONDS
            && Classify(sc.events[i]) == c;
      SessionIsNoEvidence(sc.events[i], 1);
      assert rows[i] in Transition(sc);
    }
  }

  /** What the engine is told about the transition is what the scenario's events hold. */
  lemma EvidenceOfScenario(sc: Scenario, cfg: Config)
    requires Separate(sc)
    ensures forall c :: SawIn(StoreAtDiagnosis(sc), BootOf(sc), cfg, c) == Holds(sc, c)
    ensures BootOf(sc).previousSessionClean == Some(Holds(sc, ShutdownClean))
  {
    SeededBoot(sc);
    SeededEvidence(sc);
    forall c ensures SawIn(StoreAtDiagnosis(sc), BootOf(sc), cfg, c) == Holds(sc, c) {
      SawMeansHolds(sc, c);
    }
    SawMeansHolds(sc, ShutdownClean);
  }

  /* ---- last activity ---- */

  lemma {:induction false} SeededRowsAreStamped(snapshots: seq<(Time, Snapshot)>, last: Time, t: Table)
    requires forall i :: 0 <= i < |snapshots| ==> snapshots[i].0 <= last
    ensures forall row :: row in Rows(SeededMetrics(snapshots), t) ==> row.timestamp <= last
  {
    if snapshots != [] {
      var rest := snapshots[..|snapshots| - 1];
      var newest := snapshots[|snapshots| - 1];
      SeededRowsAreStamped(rest, last, t);
      InsertOnlyAppends(SeededMetrics(rest), newest.1, newest.0, 1, t);
    }
  }

  /** The newest sample of a stream. */
  function LastStamp(start: Time, end: Time): Time
    requires start <= end
  {
    StreamReachesEnd(start, end);
    Stamps(start, end)[|Stamps(start, end)| - 1]
  }

  /** A heartbeat at the newest row of all is the last activity. */
  lemma HeartbeatIsLast(st: Store, before: Time, last: Time)
    requires st.heartbeat == Some(last) && last < before
    requires forall t, row :: row in Rows(st.metrics, t) ==> row.timestamp <= last
    ensures LastActivity(st, before) == Some(last)
  {
    LatestInIsMax(st.metrics, ACTIVITY_TABLES, before);
    var fromRows := LatestIn(st.metrics, ACTIVITY_TABLES, before);
    if fromRows.Some? {
      var t :| t in ACTIVITY_TABLES && RowAt(st.metrics, t, fromRows.value);
    }
  }

  /** The engine's last activity is the newest sample. */
  lemma ActivityOfScenario(sc: Scenario, levels: Levels)
    requires Separate(sc) && sc.prevBoot <= sc.lastActivity < sc.boot
    requires sc == Timeline(sc.prevBoot, sc.boot, sc.lastActivity, levels, sc.events)
    ensures LastActivity(StoreAtDiagnosis(sc), sc.boot).Some?
    ensures LastActivity(StoreAtDiagnosis(sc), sc.boot).value == LastStamp(sc.prevBoot, sc.lastActivity)
  {
    StreamReachesEnd(sc.prevBoot, sc.lastActivity);
    SeededBoot(sc);
    SeededEvidence(sc);
    var last := LastStamp(sc.prevBoot, sc.lastActivity);
    forall t, row | row in Rows(SeededMetrics(sc.snapshots), t) ensures row.timestamp <= last {
      SeededRowsAreStamped(sc.snapshots, last, t);
    }
    HeartbeatIsLast(StoreAtDiagnosis(sc), sc.boot, last);
  }

  /* ---- evidence of each scenario ---- */

  lemma CrashKinds(prevBoot: Time, boot: Time, kernelPower: bool, bugcheck: bool, i: nat)
    requires i < |CrashEvents(prevBoot, boot, kernelPower, bugcheck)|
    ensures
      var e := CrashEvents(prevBoot, boot, kernelPower, bugcheck)[i];
      var kind := Classify(e);
      && (kind == Other || (kernelPower && kind == KernelPower) || (bugcheck && kind == BugCheck))
      && (i == 3 && kernelPower ==> e.timestamp == boot && kind == KernelPower)
      && (i == 3 && !kernelPower && bugcheck ==> e.timestamp == boot && kind == BugCheck)
  {
    var e := CrashEvents(prevBoot, boot, kernelPower, bugcheck)[i];
    if e.provider == Some("EventLog") {
      EventLogKind(e);
    } else if e.provider == Some("BugCheck") {
      BugCheckKind(e);
    } else {
      KernelPowerKind(e);
    }
  }

  lemma CrashHolds(sc: Scenario, kernelPower: bool, bugcheck: bool)
    requires Separate(sc) && sc.events == CrashEvents(sc.prevBoot, sc.boot, kernelPower, bugcheck)
    requires kernelPower != bugcheck
    ensures Holds(sc, KernelPower) == kernelPower && Holds(sc, BugCheck) == bugcheck
    ensures !Holds(sc, ShutdownClean) && !Holds(sc, ShutdownUnexpected)
  {
    forall i | 0 <= i < |sc.events|
      ensures Classify(sc.events[i]) == Other || (kernelPower && Classify(sc.events[i]) == KernelPower)
           || (bugcheck && Classify(sc.events[i]) == BugCheck)
    {
      CrashKinds(sc.prevBoot, sc.boot, kernelPower, bugcheck, i);
    }
    CrashKinds(sc.prevBoot, sc.boot, kernelPower, bugcheck, 3);
    assert Classify(sc.events[3]) == if kernelPower then KernelPower else BugCheck;
  }

  lemma RestartKinds(prevBoot: Time, boot: Time, i: nat)
    requires i < |RestartEvents(prevBoot, boot)|
    ensures
      var kind := Classify(RestartEvents(prevBoot, boot)[i]);
      kind == if i == 1 || i == 2 then ShutdownClean else Other
  {
    var e := RestartEvents(prevBoot, boot)[i];
    if e.provider == Some("EventLog") {
      EventLogKind(e);
    } else if e.provider == Some("User32") {
      User32Kind(e);
    } else {
      KernelPowerKind(e);
    }
  }

  lemma RestartHolds(sc: Scenario)
    requires Separate(sc) && sc.events == RestartEvents(sc.prevBoot, sc.boot)
    ensures Holds(sc, ShutdownClean)
    ensures !Holds(sc, KernelPower) && !Holds(sc, BugCheck) && !Holds(sc, ShutdownUnexpected)
  {
    forall i | 0 <= i < |sc.events| ensures Classify(sc.events[i]) == Other || Classify(sc.events[i]) == ShutdownClean {
      RestartKinds(sc.prevBoot, sc.boot, i);
    }
    RestartKinds(sc.prevBoot, sc.boot, 1);
    assert Classify(sc.events[1]) == ShutdownClean;
  }

  /* ---- outcomes ---- */

  /** A boot after a previous boot, with recorded activity in between. */
  predicate Proper(prevBoot: Time, boot: Time, last: Time) {
    prevBoot > 0.0 && boot - prevBoot >= SAME_BOOT_SECONDS && prevBoot <= last < boot
  }

  /** The silence the engine measures: from the newest sample to the boot. */
  function Silence(prevBoot: Time, boot: Time, last: Time): (gap: real)
    requires Proper(prevBoot, boot, last)
    ensures boot - last <= gap < boot - last + COLLECTION_INTERVAL
  {
    StreamReachesEnd(prevBoot, last);
    boot - LastStamp(prevBoot, last)
  }

  /** An incident as the silence alone determines it. */
  predicate BySilence(incident: Option<Incident>, gap: real, interval: real) {
    && incident.Some?
    && incident.value.incidentType == (if gap < 2.0 * interval then PowerLoss else HardHang)
    && incident.value.confidence == (if gap >= 5.0 * interval then High else if gap >= 2.0 * interval then Medium else Low)
    && incident.value.duration == Some(gap)
  }

  /** Kernel-Power evidence and no other. */
  ghost predicate PowerOnly(st: Store, b: BootFacts, cfg: Config) {
    b.previousSessionClean == Some(false) && SawIn(st, b, cfg, KernelPower) && !SawIn(st, b, cfg, BugCheck)
  }

  lemma PowerUnexplained(st: Store, b: BootFacts, cfg: Config)
    requires PowerOnly(st, b, cfg)
    ensures Unexplained(Signals(st, b, cfg))
  {
    SignalsMeanEvents(st, b, cfg);
    PowerIsUnexplained(Summarized(TransitionEvents(st.events, b, cfg)), b.previousSessionClean);
  }

  lemma UnexplainedDuration(st: Store, b: BootFacts, cfg: Config)
    requires Unexplained(Signals(st, b, cfg)) && LastActivity(st, b.bootTime).Some?
    ensures IncidentOf(st, b, cfg).duration == Some(b.bootTime - LastActivity(st, b.bootTime).value)
  {
    DurationIsSilence(st, b, cfg);
  }

  lemma PowerIsUnexplained(summary: Summary, flag: Option<bool>)
    requires flag == Some(false) && summary.Detected(KernelPower) && !summary.Detected(BugCheck)
    ensures Unexplained(DetectCrash(summary, flag))
  {
  }

  lemma PowerIncident(st: Store, b: BootFacts, cfg: Config) returns (incident: Incident)
    requires PowerOnly(st, b, cfg)
    ensures Diagnosed(st, b, cfg).incident == Some(incident) && incident == IncidentOf(st, b, cfg)
  {
    IncidentIff(st, b, cfg);
    incident := IncidentOf(st, b, cfg);
  }

  lemma PowerKind(st: Store, b: BootFacts, cfg: Config) returns (incident: Incident)
    requires cfg.interval > 0.0 && PowerOnly(st, b, cfg) && LastActivity(st, b.bootTime).Some?
    ensures Diagnosed(st, b, cfg).incident == Some(incident) && incident == IncidentOf(st, b, cfg)
    ensures
      var gap := b.bootTime - LastActivity(st, b.bootTime).value;
      BySilence(Some(incident.(duration := Some(gap))), gap, cfg.interval)
  {
    incident := PowerIncident(st, b, cfg);
    ClassificationTable(st, b, cfg);
    var gap := b.bootTime - LastActivity(st, b.bootTime).value;
    assert AbruptCut(st, b, cfg) <==> gap < 2.0 * cfg.interval;
    assert SilentFor(st, b, cfg, 2.0) <==> gap >= 2.0 * cfg.interval;
    assert SilentFor(st, b, cfg, 5.0) <==> gap >= 5.0 * cfg.interval;
  }

  lemma PowerVerdict(st: Store, b: BootFacts, cfg: Config)
    requires cfg.interval > 0.0 && PowerOnly(st, b, cfg) && LastActivity(st, b.bootTime).Some?
    ensures BySilence(Diagnosed(st, b, cfg).incident, b.bootTime - LastActivity(st, b.bootTime).value, cfg.interval)
  {
    var incident := PowerKind(st, b, cfg);
    PowerUnexplained(st, b, cfg);
    UnexplainedDuration(st, b, cfg);
    assert incident.(duration := Some(b.bootTime - LastActivity(st, b.bootTime).value)) == incident;
  }

  lemma PowerEvidence(sc: Scenario, cfg: Config)
    requires Separate(sc) && sc.events == CrashEvents(sc.prevBoot, sc.boot, true, false)
    ensures PowerOnly(StoreAtDiagnosis(sc), BootOf(sc), cfg) && BootOf(sc).bootTime == sc.boot
  {
    EvidenceOfScenario(sc, cfg);
    CrashHolds(sc, true, false);
    SeededBoot(sc);
  }

  /** Kernel-Power 41 after a silence: exactly which verdict comes out. */
  lemma PowerOutcome(prevBoot: Time, boot: Time, last: Time, levels: Levels, cfg: Config)
    requires Proper(prevBoot, boot, last) && cfg.interval > 0.0
    ensures
      var v := Simulated(PowerScenario(prevBoot, boot, last, levels), cfg);
      BySilence(v.incident, Silence(prevBoot, boot, last), cfg.interval)
  {
    hide PowerOnly, Diagnosed, LastActivity, BySilence, StoreAtDiagnosis, BootOf;
    var sc := PowerScenario(prevBoot, boot, last, levels);
    PowerEvidence(sc, cfg);
    ActivityOfScenario(sc, levels);
    PowerVerdict(StoreAtDiagnosis(sc), BootOf(sc), cfg);
  }

  /** A long stop is a hard hang with high confidence; a stop at the boot is a power loss with low confidence. */
  lemma HangOrPowerLoss(prevBoot: Time, boot: Time, last: Time, levels: Levels, cfg: Config)
    requires Proper(prevBoot, boot, last) && cfg.interval > 0.0
    ensures
      var incident := Simulated(PowerScenario(prevBoot, boot, last, levels), cfg).incident;
      && incident.Some?
      && (boot - last >= 5.0 * cfg.interval ==>
            incident.value.incidentType == HardHang && incident.value.confidence == High)
      && (boot - last <= 2.0 * cfg.interval - COLLECTION_INTERVAL ==>
            incident.value.incidentType == PowerLoss && incident.value.confidence == Low)
  {
    PowerOutcome(prevBoot, boot, last, levels, cfg);
  }

  /** A blue screen is one whatever the silence. */
  lemma BsodOutcome(prevBoot: Time, boot: Time, last: Time, levels: Levels, cfg: Config)
    requires Proper(prevBoot, boot, last) && cfg.interval > 0.0
    ensures
      var incident := Simulated(BsodScenario(prevBoot, boot, last, levels), cfg).incident;
      incident.Some? && incident.value.incidentType == Bsod && incident.value.confidence == High
      && incident.value.duration == None
  {
    var sc := BsodScenario(prevBoot, boot, last, levels);
    EvidenceOfScenario(sc, cfg);
    CrashHolds(sc, false, true);
    IncidentIff(StoreAtDiagnosis(sc), BootOf(sc), cfg);
    ClassificationTable(StoreAtDiagnosis(sc), BootOf(sc), cfg);
    SignalsMeanEvents(StoreAtDiagnosis(sc), BootOf(sc), cfg);
    DurationIsSilence(StoreAtDiagnosis(sc), BootOf(sc), cfg);
  }

  /** A requested restart is no incident. */
  lemma RestartOutcome(prevBoot: Time, boot: Time, last: Time, levels: Levels, cfg: Config)
    requires Proper(prevBoot, boot, last)
    ensures Simulated(RestartScenario(prevBoot, boot, last, levels), cfg).incident.None?
  {
    var sc := RestartScenario(prevBoot, boot, last, levels);
    EvidenceOfScenario(sc, cfg);
    RestartHolds(sc);
    IncidentIff(StoreAtDiagnosis(sc), BootOf(sc), cfg);
  }

  /* ---- the shipped timelines ---- */

  /** The newest sample is the last multiple of the sampling interval. */
  lemma LastSampleAt(start: Time, end: Time, k: nat)
    requires COLLECTION_INTERVAL * k as real <= end - start < COLLECTION_INTERVAL * (k as real + 1.0)
    ensures start <= end && LastStamp(start, end) == start + COLLECTION_INTERVAL * k as real
  {
    StreamReachesEnd(start, end);
    var j := |Stamps(start, end)| - 1;
    assert LastStamp(start, end) == start + COLLECTION_INTERVAL * j as real;
    OnlyMultiple(j, k, end - start);
  }

  lemma OnlyMultiple(j: int, k: int, length: real)
    requires COLLECTION_INTERVAL * k as real <= length < COLLECTION_INTERVAL * (k as real + 1.0)
    requires COLLECTION_INTERVAL * j as real <= length < COLLECTION_INTERVAL * (j as real + 1.0)
    ensures j == k
  {
    assert (j as real) < k as real + 1.0 && (k as real) < j as real + 1.0;
  }

  /** The shipped hard hang (26 minutes, the last sample 5 minutes before the boot) comes out as expected exactly for
      intervals up to 60 seconds; the shipped power loss (21 minutes, cut 5 seconds before the boot) exactly for
      intervals above 15 seconds: the last sample lies 30 seconds before that boot, so under the allowed interval of
      10 seconds the engine sees three silent intervals and calls it a hard hang. */
  lemma ShippedTimelines(start: Time, levels: Levels, cfg: Config)
    requires start > 0.0 && cfg.interval > 0.0
    ensures
      var hang := Simulated(PowerScenario(start, start + 1560.0, start + 1260.0, levels), cfg).incident;
      var cut := Simulated(PowerScenario(start, start + 1260.0, start + 1255.0, levels), cfg).incident;
      && hang.Some? && cut.Some?
      && (hang.value.incidentType == HardHang && hang.value.confidence == High <==> cfg.interval <= 60.0)
      && (cut.value.incidentType == PowerLoss && cut.value.confidence == Low <==> cfg.interval > 15.0)
      && (cfg.interval == 10.0 ==> cut.value.incidentType == HardHang && cut.value.confidence == Medium)
  {
    PowerOutcome(start, start + 1560.0, start + 1260.0, levels, cfg);
    PowerOutcome(start, start + 1260.0, start + 1255.0, levels, cfg);
    LastSampleAt(start, start + 1260.0, 42);
    LastSampleAt(start, start + 1255.0, 41);
  }
}
