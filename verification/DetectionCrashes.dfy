/** detect_boot dying between its commits: what becomes of the session table, of the next startup, and of its diagnosis. */
module DetectionCrashes {
  import opened Prelude
  import opened Storage
  import opened EventAnalyzer
  import opened Configuration
  import opened BootDetector
  import opened Diagnosis
  import opened EngineSpec
  import opened SessionChain
  import opened Agreement

  /* ---- the session table ---- */

  /** Rows that were there keep what identifies them; in particular a missing link is never repaired. */
  ghost predicate SameRows(before: seq<Session>, after: seq<Session>) {
    && |before| <= |after|
    && forall i :: 0 <= i < |before| ==> SameRow(before[i], after[i])
  }

  predicate SameRow(s: Session, t: Session) {
    && t.sessionId == s.sessionId && t.bootTime == s.bootTime && t.previousBootTime == s.previousBootTime
    && t.createdAt == s.createdAt
  }

  /** Opening with any number of commits, spelled out for a table that has rows. */
  lemma OpenedStages(st: Store, now: Time, boot: Time, stages: nat)
    requires NumberedSessions(st.sessions) && st.sessions != []
    requires st.sessions[|st.sessions| - 1].bootTime > 0.0
    ensures
      var n := |st.sessions|;
      var last := st.sessions[n - 1];
      var finalised := st.sessions[..n - 1] + [Closed(last, st.events, boot)];
      var row := NewSession(n + 1, boot, now);
      OpenedUpTo(st, now, boot, stages)
        == if stages == 0 then st.sessions
           else if stages == 1 then finalised
           else if stages == 2 then finalised + [row]
           else finalised + [row.(previousBootTime := Some(last.bootTime))]
  {
    hide TransitionSummary;
    var n := |st.sessions|;
    var last := st.sessions[n - 1];
    HighestIsLast(st.sessions);
    PatchLast(st.sessions, Outcome(TransitionSummary(st.events, last.bootTime, boot), last.bootTime, boot));
    HighestIsLast(Finalised(st, boot));
    OpenedNext(st, now, boot);
  }

  lemma LooseChainGrows(sessions: seq<Session>, closed: Session, next: Session)
    requires LooseChain(sessions) && sessions != [] && SameRow(sessions[|sessions| - 1], closed)
    requires LooselyLinked(closed, next) && next.bootTime > 0.0 && next.sessionId == |sessions| + 1
    ensures LooseChain(sessions[..|sessions| - 1] + [closed] + [next])
    ensures SameRows(sessions, sessions[..|sessions| - 1] + [closed] + [next])
  {
    var n := |sessions|;
    var grown := sessions[..n - 1] + [closed] + [next];
    forall i | 0 < i < |grown| ensures LooselyLinked(grown[i - 1], grown[i]) {
      if i < n {
        assert LooselyLinked(sessions[i - 1], sessions[i]);
      }
    }
  }

  lemma LooseChainCloses(sessions: seq<Session>, closed: Session)
    requires LooseChain(sessions) && sessions != [] && SameRow(sessions[|sessions| - 1], closed)
    ensures LooseChain(sessions[..|sessions| - 1] + [closed])
    ensures SameRows(sessions, sessions[..|sessions| - 1] + [closed])
  {
    var n := |sessions|;
    var after := sessions[..n - 1] + [closed];
    forall i | 0 < i < |after| ensures LooselyLinked(after[i - 1], after[i]) {
      assert LooselyLinked(sessions[i - 1], sessions[i]);
    }
  }

  lemma ClosedKeepsRow(s: Session, events: seq<EventRow>, boot: Time)
    ensures SameRow(s, Closed(s, events, boot))
    ensures IsFinal(Closed(s, events, boot)) && Closed(s, events, boot).uptimeBeforeBoot == Some(boot - s.bootTime)
  {
    hide TransitionSummary;
  }

  lemma FirstStages(st: Store, now: Time, boot: Time, stages: nat)
    requires st.sessions == [] && boot > 0.0
    ensures LooseChain(OpenedUpTo(st, now, boot, stages)) && SameRows([], OpenedUpTo(st, now, boot, stages))
  {
    assert OpenedUpTo(st, now, boot, stages) == if stages <= 1 then [] else [NewSession(1, boot, now)];
  }

  lemma NextStages(st: Store, now: Time, boot: Time, stages: nat)
    requires LooseChain(st.sessions) && st.sessions != [] && boot > 0.0
    requires Abs(st.sessions[|st.sessions| - 1].bootTime - boot) >= SAME_BOOT_SECONDS
    ensures LooseChain(OpenedUpTo(st, now, boot, stages)) && SameRows(st.sessions, OpenedUpTo(st, now, boot, stages))
  {
    hide TransitionSummary, Closed, OpenedUpTo;
    var n := |st.sessions|;
    var last := st.sessions[n - 1];
    var closed, row := Closed(last, st.events, boot), NewSession(n + 1, boot, now);
    OpenedStages(st, now, boot, stages);
    ClosedKeepsRow(last, st.events, boot);
    if stages == 1 {
      LooseChainCloses(st.sessions, closed);
    } else if stages == 2 {
      LooseChainGrows(st.sessions, closed, row);
    } else if stages >= 3 {
      LooseChainGrows(st.sessions, closed, row.(previousBootTime := Some(last.bootTime)));
    }
  }

  /** However many of its commits take effect, a detection keeps the loose chain and what identifies every row. */
  lemma DyingDetectionKeepsLooseChain(st: Store, now: Time, boot: Time, stages: nat)
    requires LooseChain(st.sessions) && boot > 0.0
    ensures LooseChain(DetectedUpTo(st, now, boot, stages).sessions)
    ensures SameRows(st.sessions, DetectedUpTo(st, now, boot, stages).sessions)
  {
    hide OpenedUpTo, Highest;
    HighestIsLast(st.sessions);
    if st.sessions == [] {
      FirstStages(st, now, boot, stages);
    } else if !SameBoot(Highest(st.sessions, None), boot) {
      NextStages(st, now, boot, stages);
    }
  }

  /** One attempt to start: what the events table holds by then, the clock, the reported boot, and how far it gets. */
  datatype Attempt = Attempt(events: seq<EventRow>, now: Time, boot: Time, stages: nat)

  function AfterAttempts(st: Store, attempts: seq<Attempt>): Store {
    if attempts == [] then st
    else
      var a := attempts[|attempts| - 1];
      DetectedUpTo(AfterAttempts(st, attempts[..|attempts| - 1]).(events := a.events), a.now, a.boot, a.stages)
  }

  /** Over every sequence of startups, each dying wherever it may: ids count up, neighbouring boots are a minute apart,
      every row but the last is finalised, links that exist are right, rows keep their identity, and the uptimes of all
      finalised transitions add up to last boot minus first boot. */
  lemma {:induction false} SessionTableSurvivesCrashes(st: Store, attempts: seq<Attempt>)
    requires LooseChain(st.sessions) && forall i :: 0 <= i < |attempts| ==> attempts[i].boot > 0.0
    ensures
      var sessions := AfterAttempts(st, attempts).sessions;
      && LooseChain(sessions) && SameRows(st.sessions, sessions)
      && (sessions != [] ==>
            TotalUptime(sessions[..|sessions| - 1]) == sessions[|sessions| - 1].bootTime - sessions[0].bootTime)
  {
    hide TransitionSummary, DetectedUpTo;
    if attempts != [] {
      var a := attempts[|attempts| - 1];
      var before := AfterAttempts(st, attempts[..|attempts| - 1]);
      SessionTableSurvivesCrashes(st, attempts[..|attempts| - 1]);
      DyingDetectionKeepsLooseChain(before.(events := a.events), a.now, a.boot, a.stages);
    }
    var sessions := AfterAttempts(st, attempts).sessions;
    if sessions != [] {
      UptimesTelescope(sessions, |sessions| - 1);
    }
  }

  /* ---- dead after finalising ---- */

  lemma ClosedAgain(s: Session, events: seq<EventRow>, boot: Time, again: Time)
    ensures Closed(Closed(s, events, boot), events, again) == Closed(s, events, again)
  {
    hide TransitionSummary;
  }

  /** The table a detection leaves that died after finalising: the last row is closed, and that is all. */
  lemma DeadAfterFinalising(st: Store, now: Time, boot: Time) returns (closed: Session)
    requires Chain(st.sessions) && st.sessions != [] && !SameBoot(Highest(st.sessions, None), boot)
    ensures
      var n := |st.sessions|;
      var last := st.sessions[n - 1];
      var crashed := DetectedUpTo(st, now, boot, 1);
      && closed == Closed(last, st.events, boot) && SameRow(last, closed) && IsFinal(closed) && IsOpen(last)
      && crashed == st.(sessions := st.sessions[..n - 1] + [closed])
      && Highest(st.sessions, None) == Some(last) && Highest(crashed.sessions, None) == Some(closed)
      && NumberedSessions(crashed.sessions)
  {
    hide TransitionSummary, Closed;
    var n := |st.sessions|;
    var last := st.sessions[n - 1];
    closed := Closed(last, st.events, boot);
    HighestIsLast(st.sessions);
    ChainIsLoose(st.sessions);
    OpenedStages(st, now, boot, 1);
    ClosedKeepsRow(last, st.events, boot);
    LooseChainCloses(st.sessions, closed);
    HighestIsLast(DetectedUpTo(st, now, boot, 1).sessions);
  }

  /** A detection that died after finalising is made good by the next one, exactly unless the next one is taken for the
      previous boot: then the reused row stays finalised. */
  lemma FinalisingIsRedoneIff(st: Store, now: Time, boot: Time, again: Time, nextBoot: Time)
    requires Chain(st.sessions) && st.sessions != [] && !SameBoot(Highest(st.sessions, None), boot)
    ensures
      var crashed := DetectedUpTo(st, now, boot, 1);
      var redone := Detected(crashed, again, nextBoot) == Detected(st, again, nextBoot);
      redone <==> !SameBoot(Highest(st.sessions, None), nextBoot)
  {
    hide TransitionSummary, Closed, Highest, Opened, DetectedUpTo;
    var n := |st.sessions|;
    var crashed := DetectedUpTo(st, now, boot, 1);
    var closed := DeadAfterFinalising(st, now, boot);
    assert crashed.sessions[n - 1] == closed;
    if !SameBoot(Highest(st.sessions, None), nextBoot) {
      OpenedNext(st, again, nextBoot);
      OpenedNext(crashed, again, nextBoot);
      ClosedAgain(st.sessions[n - 1], st.events, boot, nextBoot);
      assert crashed.sessions[..n - 1] == st.sessions[..n - 1];
    }
  }

  /* ---- dead after creating ---- */

  /** A detection that died before linking leaves a row that every restart of that boot reuses as it is.  The restart
      neither knows the previous boot nor the clean flag; on-demand diagnosis rebuilds both, just as the uninterrupted
      detection would have returned them. */
  lemma UnlinkedRow(st: Store, now: Time, boot: Time, again: Time)
    requires Chain(st.sessions) && st.sessions != [] && !SameBoot(Highest(st.sessions, None), boot)
    ensures
      var n := |st.sessions|;
      var crashed := DetectedUpTo(st, now, boot, 2);
      && |crashed.sessions| == n + 1 && Highest(crashed.sessions, None) == Some(crashed.sessions[n])
      && Detected(crashed, again, boot) == crashed
      && FactsOf(DetectedResult(crashed, boot)) == BootFacts(boot, None, Some(n), None)
      && LatestFacts(crashed.sessions, crashed.sessions[n]) == FactsOf(DetectedResult(st, boot))
  {
    hide TransitionSummary;
    var n := |st.sessions|;
    var last := st.sessions[n - 1];
    var crashed := DetectedUpTo(st, now, boot, 2);
    HighestIsLast(st.sessions);
    OpenedStages(st, now, boot, 2);
    ClosedKeepsRow(last, st.events, boot);
    assert NumberedSessions(crashed.sessions);
    HighestIsLast(crashed.sessions);
    HighestBelowIsPredecessor(crashed.sessions, n + 1);
    assert crashed.sessions[n - 1] == Closed(last, st.events, boot);
    HighestIsLast(Finalised(st, boot));
  }

  /** Power or 6008 evidence, or a blue screen, in a stretch of time. */
  ghost predicate Suspicious(events: seq<EventRow>, start: Time, end: Time, clean: bool) {
    || SawWithin(events, start, end, BugCheck)
    || (!clean && (SawWithin(events, start, end, KernelPower) || SawWithin(events, start, end, ShutdownUnexpected)))
  }

  /** The diagnosis after such a restart looks back over the retention time and knows of no clean shutdown, so it declares
      an incident exactly on any evidence in that stretch; on-demand diagnosis repeats the verdict the uninterrupted
      startup would have reached, on the evidence since the previous boot. */
  lemma UnlinkedVerdicts(st: Store, now: Time, boot: Time, cfg: Config)
    requires Chain(st.sessions) && st.sessions != [] && !SameBoot(Highest(st.sessions, None), boot)
    ensures
      var last := st.sessions[|st.sessions| - 1];
      var facts := FactsOf(DetectedResult(st, boot));
      var crashed := DetectedUpTo(st, now, boot, 2);
      var end := boot + 120.0;
      && Diagnosed(crashed, FactsOf(DetectedResult(crashed, boot)), cfg).incident.Some?
           == Suspicious(st.events, boot - cfg.retentionHours * 3600.0, end, false)
      && LatestVerdict(crashed, cfg) == Diagnosed(st, facts, cfg)
      && Diagnosed(st, facts, cfg).incident.Some?
           == Suspicious(st.events, last.bootTime, end, facts.previousSessionClean == Some(true))
  {
    hide Diagnosed, SawWithin, Summarized, Opened, Finalised, LatestFacts;
    var crashed := DetectedUpTo(st, now, boot, 2);
    var facts := FactsOf(DetectedResult(st, boot));
    UnlinkedRow(st, now, boot, now);
    OpenedFacts(st, boot);
    IncidentIff(crashed, FactsOf(DetectedResult(crashed, boot)), cfg);
    IncidentIff(st, facts, cfg);
    VerdictFrame(crashed, st, facts, cfg);
  }

  lemma OpenedFacts(st: Store, boot: Time)
    requires Chain(st.sessions) && st.sessions != [] && !SameBoot(Highest(st.sessions, None), boot)
    ensures
      var facts := FactsOf(DetectedResult(st, boot));
      facts.bootTime == boot && facts.previousBootTime == Some(st.sessions[|st.sessions| - 1].bootTime)
  {
    hide TransitionSummary, Finalised;
    HighestIsLast(st.sessions);
  }
}
