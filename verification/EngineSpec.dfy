/** What the rule engine as a whole promises, for all events, flags, gaps and positive intervals. */
module EngineSpec {
  import opened Prelude
  import opened Storage
  import opened EventAnalyzer
  import opened Termination
  import opened Configuration
  import opened Diagnosis

  ghost predicate Saw(events: seq<EventRow>, c: Category) {
    exists e :: e in events && Classify(e) == c
  }

  lemma DetectedMeansSaw(events: seq<EventRow>, c: Category)
    ensures Summarized(events).Detected(c) <==> Saw(events, c)
  {
    SummarizedSummarizes(events);
    var found := OfCategory(events, c);
    if found != [] {
      assert found[0] in events && Classify(found[0]) == c;
    }
  }

  /** Some stored event of the category is stamped in [start, end]. */
  ghost predicate SawWithin(events: seq<EventRow>, start: Time, end: Time, c: Category) {
    exists e :: e in events && start <= e.timestamp <= end && Classify(e) == c
  }

  lemma SawBetween(events: seq<EventRow>, start: Time, end: Time, c: Category)
    ensures Saw(EventsBetween(events, start, end), c) <==> SawWithin(events, start, end, c)
  {
    hide Classify;
    if SawWithin(events, start, end, c) {
      var e :| e in events && start <= e.timestamp <= end && Classify(e) == c;
      assert e in EventsBetween(events, start, end);
    }
  }

  /** The evidence of a transition: an event between the previous boot (or as far back as metrics are kept) and 120
      seconds after this one. */
  ghost predicate SawIn(st: Store, b: BootFacts, cfg: Config, c: Category) {
    var start := if b.previousBootTime.Some? then b.previousBootTime.value else b.bootTime - 3600.0 * cfg.retentionHours;
    SawWithin(st.events, start, b.bootTime + 120.0, c)
  }

  lemma SawInTransition(st: Store, b: BootFacts, cfg: Config, c: Category)
    ensures SawIn(st, b, cfg, c) <==> Saw(TransitionEvents(st.events, b, cfg), c)
  {
    hide Saw, SawWithin;
    SawBetween(st.events, TransitionStart(b, cfg), b.bootTime + 120.0, c);
  }

  lemma SignalsMeanEvents(st: Store, b: BootFacts, cfg: Config)
    ensures
      var crash := Signals(st, b, cfg);
      && crash.bugcheck == SawIn(st, b, cfg, BugCheck)
      && crash.kernelPower == SawIn(st, b, cfg, KernelPower)
      && crash.unexpectedEvent == SawIn(st, b, cfg, ShutdownUnexpected)
      && crash.clean == Clean(b.previousSessionClean)
  {
    hide Saw, SawIn, Summarized, TransitionEvents;
    DetectedMeansSaw(TransitionEvents(st.events, b, cfg), BugCheck);
    DetectedMeansSaw(TransitionEvents(st.events, b, cfg), KernelPower);
    DetectedMeansSaw(TransitionEvents(st.events, b, cfg), ShutdownUnexpected);
    SawInTransition(st, b, cfg, BugCheck);
    SawInTransition(st, b, cfg, KernelPower);
    SawInTransition(st, b, cfg, ShutdownUnexpected);
  }

  /** An incident is declared exactly for a blue screen, or for an unclean session with power or 6008 evidence. */
  lemma IncidentIff(st: Store, b: BootFacts, cfg: Config)
    ensures Diagnosed(st, b, cfg).incident.Some? <==>
              || SawIn(st, b, cfg, BugCheck)
              || (b.previousSessionClean != Some(true)
                  && (SawIn(st, b, cfg, KernelPower) || SawIn(st, b, cfg, ShutdownUnexpected)))
  {
    SignalsMeanEvents(st, b, cfg);
  }

  /* ---- last activity ---- */

  ghost predicate RowAt(m: Metrics, t: Table, time: Time) {
    exists row :: row in Rows(m, t) && row.timestamp == time
  }

  /** `last` is the newest activity row before `before`. */
  ghost predicate IsLastRow(m: Metrics, before: Time, last: Time) {
    && last < before
    && (exists t :: t in ACTIVITY_TABLES && RowAt(m, t, last))
    && (forall t, row :: t in ACTIVITY_TABLES && row in Rows(m, t) && row.timestamp < before ==> row.timestamp <= last)
  }

  lemma {:induction false} LatestIsMax(rows: seq<MetricRow>)
    ensures rows == [] <==> Latest(rows).None?
    ensures Latest(rows).Some? ==> exists row :: row in rows && row.timestamp == Latest(rows).value
    ensures forall row :: row in rows ==> Latest(rows).Some? && row.timestamp <= Latest(rows).value
  {
    if rows != [] {
      var last := rows[|rows| - 1];
      assert rows == rows[..|rows| - 1] + [last];
      LatestIsMax(rows[..|rows| - 1]);
      assert last in rows;
    }
  }

  lemma {:induction false} LatestInIsMax(m: Metrics, tables: seq<Table>, before: Time)
    ensures
      var latest := LatestIn(m, tables, before);
      && (latest.Some? ==> latest.value < before && exists t :: t in tables && RowAt(m, t, latest.value))
      && (forall t, row :: t in tables && row in Rows(m, t) && row.timestamp < before ==>
            latest.Some? && row.timestamp <= latest.value)
  {
    if tables != [] {
      var t := tables[|tables| - 1];
      assert tables == tables[..|tables| - 1] + [t];
      LatestInIsMax(m, tables[..|tables| - 1], before);
      LatestIsMax(Filter(Rows(m, t), EarlierThan(before)));
      var latest := LatestIn(m, tables, before);
      var own := Latest(Filter(Rows(m, t), EarlierThan(before)));
      if latest.Some? && own == latest {
        assert t in tables && RowAt(m, t, latest.value);
      }
    }
  }

  /** Over the metric tables, the last activity is the newest row before the reboot, and nothing else is. */
  lemma LastRowUnique(m: Metrics, before: Time, last: Time)
    ensures LatestIn(m, ACTIVITY_TABLES, before) == Some(last) <==> IsLastRow(m, before, last)
  {
    hide LatestIn;
    LatestInIsMax(m, ACTIVITY_TABLES, before);
    var latest := LatestIn(m, ACTIVITY_TABLES, before);
    if IsLastRow(m, before, last) {
      var t :| t in ACTIVITY_TABLES && RowAt(m, t, last);
      var row :| row in Rows(m, t) && row.timestamp == last;
      assert latest.Some? && last <= latest.value;
      var t' :| t' in ACTIVITY_TABLES && RowAt(m, t', latest.value);
      var row' :| row' in Rows(m, t') && row'.timestamp == latest.value;
      assert latest.value <= last;
    }
  }

  /** The last activity precedes the reboot, and no activity row lies strictly between the two. */
  lemma NothingAfterLastActivity(st: Store, before: Time)
    ensures
      var last := LastActivity(st, before);
      && (last.Some? ==> last.value < before)
      && (forall t, row :: t in ACTIVITY_TABLES && row in Rows(st.metrics, t) && row.timestamp < before ==>
            last.Some? && row.timestamp <= last.value)
  {
    LatestInIsMax(st.metrics, ACTIVITY_TABLES, before);
  }

  predicate IsActivity(t: Table) {
    t == Cpu || t == Memory || t == Uptime || t == Process
  }

  lemma ActivityTablesAre(t: Table)
    ensures t in ACTIVITY_TABLES <==> IsActivity(t)
  {
    match t {
      case Cpu => assert ACTIVITY_TABLES[0] == t;
      case Memory => assert ACTIVITY_TABLES[1] == t;
      case Uptime => assert ACTIVITY_TABLES[2] == t;
      case Process => assert ACTIVITY_TABLES[3] == t;
      case _ =>
    }
  }

  /** A sign of life at `time`: a CPU, memory, uptime or process row, or the heartbeat. */
  ghost predicate SignAt(st: Store, time: Time) {
    st.heartbeat == Some(time) || exists t :: IsActivity(t) && RowAt(st.metrics, t, time)
  }

  /** The last activity is the newest sign of life before the reboot, and there is none exactly if there is no such sign. */
  lemma LastActivityIff(st: Store, before: Time, last: Option<Time>)
    ensures LastActivity(st, before) == last <==>
              && (last.Some? ==> last.value < before && SignAt(st, last.value))
              && (forall time :: SignAt(st, time) && time < before ==> last.Some? && time <= last.value)
  {
    hide LatestIn;
    LatestInIsMax(st.metrics, ACTIVITY_TABLES, before);
    forall t: Table ensures t in ACTIVITY_TABLES <==> IsActivity(t) {
      ActivityTablesAre(t);
    }
    var found := LastActivity(st, before);
    if found.Some? {
      assert SignAt(st, found.value);
    }
    forall time | SignAt(st, time) && time < before ensures found.Some? && time <= found.value {
      if st.heartbeat != Some(time) {
        var t :| IsActivity(t) && RowAt(st.metrics, t, time);
        var row :| row in Rows(st.metrics, t) && row.timestamp == time;
      }
    }
  }

  lemma LastActivityIsEarlier(st: Store, before: Time)
    ensures LastActivity(st, before).Some? ==> LastActivity(st, before).value < before
  {
    NothingAfterLastActivity(st, before);
  }

  /* ---- the verdict table ---- */

  /** Kernel-Power 41 right at the end of recorded activity. */
  ghost predicate AbruptCut(st: Store, b: BootFacts, cfg: Config) {
    && SawIn(st, b, cfg, KernelPower)
    && LastActivity(st, b.bootTime).Some?
    && b.bootTime - LastActivity(st, b.bootTime).value < 2.0 * cfg.interval
  }

  /** Kernel-Power 41 after at least n silent intervals. */
  ghost predicate SilentFor(st: Store, b: BootFacts, cfg: Config, n: real) {
    && SawIn(st, b, cfg, KernelPower)
    && LastActivity(st, b.bootTime).Some?
    && b.bootTime - LastActivity(st, b.bootTime).value >= n * cfg.interval
  }

  /** Kernel-Power 41 with a measured silence. */
  predicate Measured(crash: CrashSignals, gap: Option<real>) {
    crash.kernelPower && gap.Some?
  }

  /** The inference for every combination of signals, whether or not it comes to an incident. */
  lemma InferenceTable(crash: CrashSignals, last: Option<Time>, reboot: Time, interval: real)
    requires interval > 0.0
    ensures
      var i := Inferred(crash, last, reboot, interval);
      var unexplained := crash.unexpectedShutdown && !crash.clean && !crash.bugcheck;
      var silence := if last.Some? && last.value < reboot then reboot - last.value else 0.0;
      var measured := unexplained && crash.kernelPower && last.Some?;
      && i.normalShutdown == crash.clean && i.crash == (crash.bugcheck && !crash.clean)
      && (i.hardHang || i.powerLoss <==> unexplained) && !(i.hardHang && i.powerLoss)
      && (i.powerLoss <==> measured && silence < 2.0 * interval)
      && (i.confidence == High <==> crash.clean || crash.bugcheck || (measured && silence >= 5.0 * interval))
      && (i.confidence == Medium <==> measured && 2.0 * interval <= silence < 5.0 * interval)
      && i.gap == (if unexplained && last.Some? then Some(silence) else None)
  {
  }

  /** The verdict as a table over signals and silence, with no branch of the code in it. */
  lemma VerdictTable(summary: Summary, flag: Option<bool>, last: Option<Time>, reboot: Time, interval: real,
                     fs: seq<Finding>)
    requires interval > 0.0 && Warranted(DetectCrash(summary, flag))
    requires last.Some? ==> last.value < reboot
    ensures
      var crash := DetectCrash(summary, flag);
      var i := Inferred(crash, last, reboot, interval);
      var gap := if last.Some? then Some(reboot - last.value) else None;
      var cut := Measured(crash, gap) && gap.value < 2.0 * interval;
      && IncidentTypeOf(i, crash) == (if crash.bugcheck then Bsod else if cut then PowerLoss else HardHang)
      && (IncidentConfidence(i, crash, fs) == High <==>
            crash.bugcheck || (Measured(crash, gap) && gap.value >= 5.0 * interval))
      && (IncidentConfidence(i, crash, fs) == Medium <==>
            !crash.bugcheck && Measured(crash, gap) && 2.0 * interval <= gap.value < 5.0 * interval)
      && i.gap == (if crash.clean || crash.bugcheck then None else gap)
      && i.normalShutdown == crash.clean && i.crash == (!crash.clean && crash.bugcheck)
      && i.powerLoss == (!crash.clean && !crash.bugcheck && cut)
      && i.hardHang == (!crash.clean && !crash.bugcheck && !cut)
  {
  }

  /** The complete classification of incidents; two of the five types are unreachable. */
  lemma ClassificationTable(st: Store, b: BootFacts, cfg: Config)
    requires cfg.interval > 0.0
    requires Diagnosed(st, b, cfg).incident.Some?
    ensures
      var incident := Diagnosed(st, b, cfg).incident.value;
      && (incident.incidentType == Bsod <==> SawIn(st, b, cfg, BugCheck))
      && (incident.incidentType == PowerLoss <==> !SawIn(st, b, cfg, BugCheck) && AbruptCut(st, b, cfg))
      && (incident.incidentType == HardHang <==> !SawIn(st, b, cfg, BugCheck) && !AbruptCut(st, b, cfg))
      && incident.incidentType != UnexpectedReboot && incident.incidentType != UnknownType
      && (incident.confidence == High <==> SawIn(st, b, cfg, BugCheck) || SilentFor(st, b, cfg, 5.0))
      && (incident.confidence == Medium <==>
            !SawIn(st, b, cfg, BugCheck) && SilentFor(st, b, cfg, 2.0) && !SilentFor(st, b, cfg, 5.0))
  {
    SignalsMeanEvents(st, b, cfg);
    LastActivityIsEarlier(st, b.bootTime);
    VerdictTable(Summarized(TransitionEvents(st.events, b, cfg)), b.previousSessionClean,
                 LastActivity(st, b.bootTime), b.bootTime, cfg.interval, FindingsOf(st, b, cfg));
  }

  /** Silence is what lies between the last activity and the reboot. */
  lemma SilenceIsPositive(crash: CrashSignals, last: Option<Time>, reboot: Time, interval: real)
    requires last.Some? ==> last.value < reboot
    ensures Inferred(crash, last, reboot, interval).gap
         == if !Unexplained(crash) || last.None? then None else Some(reboot - last.value)
  {
  }

  lemma IncidentFields(st: Store, b: BootFacts, cfg: Config)
    ensures IncidentOf(st, b, cfg).reboot == b.bootTime && IncidentOf(st, b, cfg).detectedAt == b.bootTime
    ensures IncidentOf(st, b, cfg).lastMetric == LastActivity(st, b.bootTime)
    ensures IncidentOf(st, b, cfg).duration == InferenceOf(st, b, cfg).gap
    ensures IncidentOf(st, b, cfg).previousSessionId == b.previousSessionId
  {
  }

  /** The reported duration is the silence before the reboot, unless a shutdown or a blue screen explains the end. */
  lemma DurationIsSilence(st: Store, b: BootFacts, cfg: Config)
    ensures
      var last := LastActivity(st, b.bootTime);
      IncidentOf(st, b, cfg).duration
        == if !Unexplained(Signals(st, b, cfg)) || last.None? then None else Some(b.bootTime - last.value)
  {
    hide Signals, LastActivity, Unexplained, Inferred, IncidentOf;
    LastActivityIsEarlier(st, b.bootTime);
    SilenceIsPositive(Signals(st, b, cfg), LastActivity(st, b.bootTime), b.bootTime, cfg.interval);
    IncidentFields(st, b, cfg);
  }

  /** For one set of crash signals, more silence never lowers the confidence. */
  lemma ConfidenceGrowsWithSilence(summary: Summary, flag: Option<bool>, earlier: Time, later: Time, reboot: Time,
                                   interval: real, fs: seq<Finding>, gs: seq<Finding>)
    requires interval > 0.0 && earlier <= later < reboot && Warranted(DetectCrash(summary, flag))
    ensures
      var crash := DetectCrash(summary, flag);
      var long := Inferred(crash, Some(earlier), reboot, interval);
      var short := Inferred(crash, Some(later), reboot, interval);
      Rank(IncidentConfidence(long, crash, fs)) >= Rank(IncidentConfidence(short, crash, gs))
  {
    VerdictTable(summary, flag, Some(earlier), reboot, interval, fs);
    VerdictTable(summary, flag, Some(later), reboot, interval, gs);
  }

  /** What is returned: nothing but the window's summary and aggregates without an incident; a newly recorded incident as
      stored. */
  lemma ReturnedVerdict(st: Store, b: BootFacts, cfg: Config)
    ensures
      var v := Announced(st, Diagnosed(st, b, cfg));
      var after := AfterDiagnosis(st, b, cfg).incidents;
      && (v.incident.None? ==> v.findings == [] && v.inference == None && after == st.incidents)
      && (v.incident.Some? ==> v.findings == v.incident.value.findings && v.inference == Some(InferenceOf(st, b, cfg)))
      && (after != st.incidents ==> v.incident == Some(after[|after| - 1]) && after == st.incidents + [after[|after| - 1]])
  {
    hide FindingsOf, InferenceOf, Signals, LastActivity;
  }

  /** A diagnosis stores an incident exactly if it comes to one and no stored incident's reboot lies within five seconds of
      this boot; and it stores nothing else. */
  lemma StoredIff(st: Store, b: BootFacts, cfg: Config)
    ensures
      var after := AfterDiagnosis(st, b, cfg);
      && after == st.(incidents := after.incidents)
      && (after.incidents != st.incidents <==>
            && Diagnosed(st, b, cfg).incident.Some?
            && forall i :: 0 <= i < |st.incidents| ==>
                 st.incidents[i].reboot < b.bootTime - 5.0 || b.bootTime + 5.0 < st.incidents[i].reboot)
  {
    hide FindingsOf, InferenceOf, Signals, LastActivity;
  }

  lemma {:induction false} BestConfidenceIsBest(fs: seq<Finding>)
    ensures forall f :: f in fs ==> Rank(f.confidence) <= Rank(BestConfidence(fs))
    ensures BestConfidence(fs) == Low || exists f :: f in fs && f.confidence == BestConfidence(fs)
  {
    if fs != [] {
      var rest, last := fs[..|fs| - 1], fs[|fs| - 1];
      assert fs == rest + [last];
      BestConfidenceIsBest(rest);
      assert last in fs;
    }
  }

  /* ---- findings ---- */

  predicate AboutTermination(f: Finding) {
    f.kind == PossibleHardHang || f.kind == PossiblePowerLoss || f.kind == PossibleCrash
  }

  function TerminationOnly(): Finding -> bool {
    (f: Finding) => AboutTermination(f)
  }

  /** Most severe first. */
  lemma FindingsAreSorted(fs: seq<Finding>)
    ensures forall i, j :: 0 <= i < j < |BySeverity(fs)| ==>
              Rank(BySeverity(fs)[i].severity) >= Rank(BySeverity(fs)[j].severity)
  {
    var high, medium, low := Filter(fs, OfSeverity(High)), Filter(fs, OfSeverity(Medium)), Filter(fs, OfSeverity(Low));
    var sorted := BySeverity(fs);
    forall i | 0 <= i < |sorted|
      ensures i < |high| ==> sorted[i].severity == High
      ensures |high| <= i < |high| + |medium| ==> sorted[i].severity == Medium
      ensures |high| + |medium| <= i ==> sorted[i].severity == Low
    {
      if i < |high| {
        assert sorted[i] == high[i] && high[i] in high;
      } else if i < |high| + |medium| {
        assert sorted[i] == medium[i - |high|] && medium[i - |high|] in medium;
      } else {
        assert sorted[i] == low[i - |high| - |medium|] && low[i - |high| - |medium|] in low;
      }
    }
  }

  /** Sorting loses, adds and reorders nothing within one severity. */
  lemma {:induction false} SortingIsStable(fs: seq<Finding>, l: Level)
    ensures Filter(BySeverity(fs), OfSeverity(l)) == Filter(fs, OfSeverity(l))
  {
    hide Filter;
    var high, medium, low := Filter(fs, OfSeverity(High)), Filter(fs, OfSeverity(Medium)), Filter(fs, OfSeverity(Low));
    FilterConcat(high + medium, low, OfSeverity(l));
    FilterConcat(high, medium, OfSeverity(l));
    ReselectSeverity(fs, High, l);
    ReselectSeverity(fs, Medium, l);
    ReselectSeverity(fs, Low, l);
  }

  lemma ReselectSeverity(fs: seq<Finding>, k: Level, l: Level)
    ensures Filter(Filter(fs, OfSeverity(k)), OfSeverity(l)) == if k == l then Filter(fs, OfSeverity(l)) else []
  {
    if k == l {
      FilterAbsorbs(fs, OfSeverity(k), OfSeverity(l));
    } else {
      FilterNone(Filter(fs, OfSeverity(k)), OfSeverity(l));
    }
  }

  lemma {:induction false} SortingPermutes(fs: seq<Finding>)
    ensures multiset(BySeverity(fs)) == multiset(fs)
  {
    if fs != [] {
      assert fs == fs[..|fs| - 1] + [fs[|fs| - 1]];
      SortingPermutes(fs[..|fs| - 1]);
    }
  }

  lemma ConditionFindingsAreNotAboutTermination(s: Summary, a: Aggregates, cfg: Config)
    ensures forall f :: f in ConditionFindings(s, a, cfg) ==> !AboutTermination(f)
  {
  }

  /** Sorting keeps the termination findings, which all have the highest severity. */
  lemma SortingKeepsTermination(fs: seq<Finding>)
    requires forall f :: f in fs && AboutTermination(f) ==> f.severity == High
    ensures Filter(BySeverity(fs), TerminationOnly()) == Filter(fs, TerminationOnly())
  {
    var high, medium, low := Filter(fs, OfSeverity(High)), Filter(fs, OfSeverity(Medium)), Filter(fs, OfSeverity(Low));
    var p := TerminationOnly();
    FilterConcat(high + medium, low, p);
    FilterConcat(high, medium, p);
    FilterNone(medium, p);
    FilterNone(low, p);
    FilterAbsorbs(fs, OfSeverity(High), p);
  }

  lemma RaisedTermination(s: Summary, a: Aggregates, i: Inference, cfg: Config)
    ensures Filter(Raised(s, a, i, cfg), TerminationOnly()) == TerminationFindings(i)
  {
    var condition := ConditionFindings(s, a, cfg);
    ConditionFindingsAreNotAboutTermination(s, a, cfg);
    FilterNone(condition, TerminationOnly());
    FilterConcat(condition, TerminationFindings(i), TerminationOnly());
    assert Filter(TerminationFindings(i), TerminationOnly()) == TerminationFindings(i);
  }

  /** Of all findings of a verdict, those about the termination are exactly the inference's. */
  lemma TerminationFindingsSurvive(s: Summary, a: Aggregates, i: Inference, cfg: Config)
    ensures Filter(BySeverity(Raised(s, a, i, cfg)), TerminationOnly()) == TerminationFindings(i)
  {
    ConditionFindingsAreNotAboutTermination(s, a, cfg);
    SortingKeepsTermination(Raised(s, a, i, cfg));
    RaisedTermination(s, a, i, cfg);
  }

  /** An incident comes with one termination finding that agrees with its type and confidence,
      unless a session marked clean ended in a blue screen: then there is none. */
  lemma FindingMatchesIncident(st: Store, b: BootFacts, cfg: Config)
    requires cfg.interval > 0.0
    requires Diagnosed(st, b, cfg).incident.Some?
    ensures
      var v := Diagnosed(st, b, cfg);
      var incident := v.incident.value;
      var kind := match incident.incidentType
                    case Bsod => PossibleCrash
                    case PowerLoss => PossiblePowerLoss
                    case _ => PossibleHardHang;
      Filter(v.findings, TerminationOnly())
        == if Clean(b.previousSessionClean) then [] else [Finding(kind, High, incident.confidence)]
  {
    ClassificationTable(st, b, cfg);
    TerminationFindingsSurvive(IncidentSummary(st, b.bootTime, cfg),
                               Aggregated(st.metrics, WindowStart(b.bootTime, cfg), WindowEnd(b.bootTime, cfg)),
                               InferenceOf(st, b, cfg), cfg);
  }
}
