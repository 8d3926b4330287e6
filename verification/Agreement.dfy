/** On-demand diagnosis against the diagnosis made at startup, and what a startup knows when it decides. */
module Agreement {
  import opened Prelude
  import opened Storage
  import opened EventAnalyzer
  import opened Configuration
  import opened Termination
  import opened BootDetector
  import opened EventTail
  import opened Diagnosis
  import opened Machine
  import opened SessionChain
  import opened EngineSpec
  import IncidentRuns

  /** A verdict reads events, metrics and heartbeat, and nothing else of the store. */
  lemma VerdictFrame(a: Store, b: Store, facts: BootFacts, cfg: Config)
    requires a.events == b.events && a.metrics == b.metrics && a.heartbeat == b.heartbeat
    ensures Diagnosed(a, facts, cfg) == Diagnosed(b, facts, cfg)
  {
    assert LastActivity(a, facts.bootTime) == LastActivity(b, facts.bootTime);
    assert Signals(a, facts, cfg) == Signals(b, facts, cfg);
  }

  predicate Usable(t: Option<Time>) {
    t.Some? && t.value != 0.0
  }

  /** On demand, the facts come from the two latest rows: the latest row's boot, its link to the previous boot or, without a
      usable one, the boot of the row before; and that row's id and clean flag. */
  lemma FactsOfLatestRows(sessions: seq<Session>)
    requires NumberedSessions(sessions) && sessions != []
    ensures
      var n := |sessions|;
      var row := sessions[n - 1];
      var facts := LatestFacts(sessions, row);
      && Highest(sessions, None) == Some(row) && facts.bootTime == row.bootTime
      && (Usable(row.previousBootTime) ==> facts.previousBootTime == row.previousBootTime)
      && (n == 1 ==> facts.previousSessionId == None && facts.previousSessionClean == None
                     && (!Usable(row.previousBootTime) ==> facts.previousBootTime == None))
      && (n > 1 ==> facts.previousSessionId == Some(n - 1)
                    && facts.previousSessionClean == sessions[n - 2].previousSessionClean
                    && (!Usable(row.previousBootTime) ==> facts.previousBootTime == Some(sessions[n - 2].bootTime)))
  {
    HighestIsLast(sessions);
    HighestBelowIsPredecessor(sessions, |sessions|);
  }

  /** After a startup that opened a session, the two latest rows hold exactly the facts detection returned. */
  lemma RebuiltFacts(st: Store, now: Time, boot: Time)
    requires Chain(st.sessions) && boot > 0.0 && !SameBoot(Highest(st.sessions, None), boot)
    ensures
      var after := Detected(st, now, boot).sessions;
      var latest := Highest(after, None);
      latest.Some? && LatestFacts(after, latest.value) == FactsOf(DetectedResult(st, boot))
  {
    DetectionKeepsChain(st, now, boot);
    var after := Detected(st, now, boot).sessions;
    HighestIsLast(st.sessions);
    HighestIsLast(after);
    HighestBelowIsPredecessor(after, |after|);
    if st.sessions == [] {
      OpenedFirst(st, now, boot);
    } else {
      OpenedNext(st, now, boot);
      var last := st.sessions[|st.sessions| - 1];
      assert after[|after| - 2] == Closed(last, st.events, boot);
    }
  }

  /** The store a startup leaves differs from the one it diagnosed in stored incidents only. */
  lemma StartedFrame(cfg: Config, w: World, s: Step)
    requires s.Startup?
    ensures
      var tailed := AfterTailing(w.store, w.log, s);
      var after := Apply(cfg, w, s).store;
      && after.events == tailed.events && after.metrics == tailed.metrics && after.heartbeat == tailed.heartbeat
      && after.sessions == Detected(w.store, s.now, s.boot).sessions
  {
    hide AfterTailing, Detected, Diagnosed, DetectedResult, IncidentExists;
    SessionsOfStep(cfg, w, s);
  }

  /** Right after a startup that opened a session, on-demand diagnosis repeats the startup's verdict. */
  lemma OnDemandAgreesAfterBoot(cfg: Config, w: World, s: Step)
    requires Chain(w.store.sessions) && s.Startup? && s.boot > 0.0
    requires !SameBoot(Highest(w.store.sessions, None), s.boot)
    ensures LatestVerdict(Apply(cfg, w, s).store, cfg) == IncidentRuns.VerdictOf(cfg, w, s)
  {
    var after := Apply(cfg, w, s).store;
    StartedFrame(cfg, w, s);
    RebuiltFacts(w.store, s.now, s.boot);
    VerdictFrame(after, AfterTailing(w.store, w.log, s), IncidentRuns.BootOf(w, s), cfg);
  }

  /* ---- service restarts ---- */

  /** The row before the latest one is marked as cleanly ended. */
  predicate PredecessorClean(sessions: seq<Session>) {
    |sessions| >= 2 && sessions[|sessions| - 2].previousSessionClean == Some(true)
  }

  /** A restart rebuilds the same facts, except that it has no clean flag: the flag it copies is of the open row. */
  lemma RestartFacts(st: Store, boot: Time)
    requires Chain(st.sessions) && SameBoot(Highest(st.sessions, None), boot)
    ensures
      var latest := st.sessions[|st.sessions| - 1];
      var rebuilt := LatestFacts(st.sessions, latest);
      && Highest(st.sessions, None) == Some(latest)
      && FactsOf(DetectedResult(st, boot)) == rebuilt.(bootTime := boot, previousSessionClean := None)
      && rebuilt.bootTime == latest.bootTime
      && (Clean(rebuilt.previousSessionClean) <==> PredecessorClean(st.sessions))
  {
    var n := |st.sessions|;
    HighestIsLast(st.sessions);
    HighestBelowIsPredecessor(st.sessions, n);
    if n >= 2 {
      assert Linked(st.sessions[n - 2], st.sessions[n - 1]);
    }
  }

  /** What the engine reads of the boot facts: the clean flag matters only as clean or not. */
  ghost predicate SameFacts(a: BootFacts, b: BootFacts) {
    && a.bootTime == b.bootTime && a.previousBootTime == b.previousBootTime
    && a.previousSessionId == b.previousSessionId
    && Clean(a.previousSessionClean) == Clean(b.previousSessionClean)
  }

  lemma SameFactsSameVerdict(st: Store, a: BootFacts, b: BootFacts, cfg: Config)
    requires SameFacts(a, b)
    ensures Diagnosed(st, a, cfg) == Diagnosed(st, b, cfg)
  {
    hide Summarized, EventsBetween, LastActivity, Inferred, BySeverity, Raised, Aggregated, IncidentSummary, IncidentTypeOf,
         IncidentConfidence;
    assert TransitionEvents(st.events, a, cfg) == TransitionEvents(st.events, b, cfg);
    assert Signals(st, a, cfg) == Signals(st, b, cfg);
    assert InferenceOf(st, a, cfg) == InferenceOf(st, b, cfg);
    assert FindingsOf(st, a, cfg) == FindingsOf(st, b, cfg);
    assert IncidentOf(st, a, cfg) == IncidentOf(st, b, cfg);
  }

  /** On a restart the two diagnoses start from the same facts if and only if the boot time is unchanged and the row
      before the latest is not marked clean. */
  lemma RestartAgreesIff(st: Store, boot: Time)
    requires Chain(st.sessions) && SameBoot(Highest(st.sessions, None), boot)
    ensures
      var latest := st.sessions[|st.sessions| - 1];
      var same := SameFacts(FactsOf(DetectedResult(st, boot)), LatestFacts(st.sessions, latest));
      same <==> boot == latest.bootTime && !PredecessorClean(st.sessions)
  {
    RestartFacts(st, boot);
  }

  /** With the boot time unchanged, a restart declares an incident that on-demand diagnosis denies exactly when the
      previous session is marked clean, there is no blue screen, and there is power or 6008 evidence; otherwise the two
      agree on whether there is one. */
  lemma RestartContradictsIff(st: Store, cfg: Config)
    requires Chain(st.sessions) && st.sessions != []
    ensures
      var boot := st.sessions[|st.sessions| - 1].bootTime;
      var facts := FactsOf(DetectedResult(st, boot));
      var onRestart := Diagnosed(st, facts, cfg).incident.Some?;
      var onDemand := LatestVerdict(st, cfg).incident.Some?;
      var evidence := SawIn(st, facts, cfg, KernelPower) || SawIn(st, facts, cfg, ShutdownUnexpected);
      onRestart != onDemand <==> PredecessorClean(st.sessions) && !SawIn(st, facts, cfg, BugCheck) && evidence
  {
    var latest := st.sessions[|st.sessions| - 1];
    HighestIsLast(st.sessions);
    RestartFacts(st, latest.bootTime);
    var facts := FactsOf(DetectedResult(st, latest.bootTime));
    var rebuilt := LatestFacts(st.sessions, latest);
    IncidentIff(st, facts, cfg);
    IncidentIff(st, rebuilt, cfg);
    assert TransitionEvents(st.events, facts, cfg) == TransitionEvents(st.events, rebuilt, cfg);
  }

  /* ---- detection before collection ---- */

  function PreviousBoot(w: World): Time
    requires w.store.sessions != []
  {
    w.store.sessions[|w.store.sessions| - 1].bootTime
  }

  /** A clean shutdown among `events`, in the transition into the boot that startup s reports. */
  ghost predicate CleanIn(w: World, s: Step, events: seq<EventRow>)
    requires w.store.sessions != [] && s.Startup?
  {
    Saw(EventsBetween(events, PreviousBoot(w), s.boot + BOOT_MARGIN_SECONDS), ShutdownClean)
  }

  /** The events this startup's own collection adds. */
  function NewlyCollected(w: World, s: Step): seq<EventRow>
    requires s.Startup?
  {
    var records := Fetched(w.log, s.sizes, CursorOf(w.store));
    if s.commits >= 1 then Stamped(RowsOf(records), DetectedResult(w.store, s.boot).sessionId) else []
  }

  lemma TailingAppends(w: World, s: Step)
    requires s.Startup?
    ensures AfterTailing(w.store, w.log, s).events == w.store.events + NewlyCollected(w, s)
  {
  }

  lemma MarkedOnStoredEvidence(w: World, s: Step)
    requires Chain(w.store.sessions) && w.store.sessions != [] && s.Startup?
    requires !SameBoot(Highest(w.store.sessions, None), s.boot)
    ensures DetectedResult(w.store, s.boot).previousSessionClean == Some(CleanIn(w, s, w.store.events))
  {
    hide Saw, Summarized;
    HighestIsLast(w.store.sessions);
    DetectedMeansSaw(EventsBetween(w.store.events, PreviousBoot(w), s.boot + BOOT_MARGIN_SECONDS), ShutdownClean);
  }

  /** The previous session is marked clean only on evidence stored before this startup's own event collection: it is
      left marked unclean although the store then shows a clean shutdown if and only if that evidence arrives with this
      collection. */
  lemma CleanShutdownSeenTooLate(w: World, s: Step)
    requires Chain(w.store.sessions) && w.store.sessions != [] && s.Startup?
    requires !SameBoot(Highest(w.store.sessions, None), s.boot)
    ensures
      var marked := DetectedResult(w.store, s.boot).previousSessionClean;
      var shown := CleanIn(w, s, AfterTailing(w.store, w.log, s).events);
      marked != Some(shown) <==> !CleanIn(w, s, w.store.events) && CleanIn(w, s, NewlyCollected(w, s))
  {
    MarkedOnStoredEvidence(w, s);
    TailingAppends(w, s);
    SawConcat(w.store.events, NewlyCollected(w, s), PreviousBoot(w), s.boot + BOOT_MARGIN_SECONDS, ShutdownClean);
  }

  lemma SawConcat(a: seq<EventRow>, b: seq<EventRow>, start: Time, end: Time, c: Category)
    ensures Saw(EventsBetween(a + b, start, end), c)
         <==> Saw(EventsBetween(a, start, end), c) || Saw(EventsBetween(b, start, end), c)
  {
    FilterConcat(a, b, Between(start, end));
    var both := EventsBetween(a, start, end) + EventsBetween(b, start, end);
    if Saw(EventsBetween(a, start, end), c) {
      var e :| e in EventsBetween(a, start, end) && Classify(e) == c;
      assert e in both;
    }
    if Saw(EventsBetween(b, start, end), c) {
      var e :| e in EventsBetween(b, start, end) && Classify(e) == c;
      assert e in both;
    }
  }
}
