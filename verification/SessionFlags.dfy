/** What a finalised session row says about how its boot ended, in terms of the events stored when the next boot was seen. */
module SessionFlags {
  import opened Prelude
  import opened Storage
  import opened EventAnalyzer
  import opened Configuration
  import opened BootDetector
  import opened EventTail
  import opened Diagnosis
  import opened Machine
  import opened EngineSpec
  import opened SessionChain
  import TailRuns

  /** An event of the category lies between the boot and 120 seconds after the next one. */
  ghost predicate Seen(events: seq<EventRow>, boot: Time, next: Time, c: Category) {
    SawWithin(events, boot, next + 120.0, c)
  }

  /** Power or 6008 evidence without a clean shutdown. */
  ghost predicate SeenUnexpected(events: seq<EventRow>, boot: Time, next: Time) {
    && !Seen(events, boot, next, ShutdownClean)
    && (Seen(events, boot, next, KernelPower) || Seen(events, boot, next, ShutdownUnexpected))
  }

  /** The row records what these events say about its transition. */
  ghost predicate Records(s: Session, events: seq<EventRow>, next: Time) {
    && s.previousSessionClean == Some(Seen(events, s.bootTime, next, ShutdownClean))
    && s.unexpectedShutdown == Some(SeenUnexpected(events, s.bootTime, next))
    && s.kernelPowerDetected == Some(Seen(events, s.bootTime, next, KernelPower))
    && s.bugcheckDetected == Some(Seen(events, s.bootTime, next, BugCheck))
    && s.uptimeBeforeBoot == Some(next - s.bootTime)
  }

  lemma SummaryMeansSeen(events: seq<EventRow>, boot: Time, next: Time, c: Category)
    ensures TransitionSummary(events, boot, next).Detected(c) == Seen(events, boot, next, c)
  {
    hide Saw, SawWithin, Summarized;
    DetectedMeansSaw(EventsBetween(events, boot, next + 120.0), c);
    SawBetween(events, boot, next + 120.0, c);
  }

  lemma ClosedRecords(s: Session, events: seq<EventRow>, next: Time)
    ensures Records(Closed(s, events, next), events, next) && Closed(s, events, next).bootTime == s.bootTime
  {
    hide TransitionSummary, Seen;
    SummaryMeansSeen(events, s.bootTime, next, ShutdownClean);
    SummaryMeansSeen(events, s.bootTime, next, ShutdownUnexpected);
    SummaryMeansSeen(events, s.bootTime, next, KernelPower);
    SummaryMeansSeen(events, s.bootTime, next, BugCheck);
  }

  /** A detection that opens a session records in the closed row, and returns, exactly what the stored events say about the
      transition; the new row carries the reported boot and the clock reading. */
  lemma DetectionRecordsEvidence(st: Store, now: Time, boot: Time)
    requires Chain(st.sessions) && st.sessions != [] && !SameBoot(Highest(st.sessions, None), boot)
    ensures
      var n := |st.sessions|;
      var last := st.sessions[n - 1];
      var after := Detected(st, now, boot).sessions;
      var r := DetectedResult(st, boot);
      && |after| == n + 1 && Records(after[n - 1], st.events, boot) && after[n - 1].bootTime == last.bootTime
      && after[n].bootTime == boot && after[n].createdAt == now
      && r.previousSessionClean == after[n - 1].previousSessionClean
      && r.unexpectedShutdown == SeenUnexpected(st.events, last.bootTime, boot)
      && r.kernelPowerDetected == Seen(st.events, last.bootTime, boot, KernelPower)
      && r.bugcheckDetected == Seen(st.events, last.bootTime, boot, BugCheck)
      && r.uptimeBeforeBoot == Some(boot - last.bootTime) && r.sessionId == after[n].sessionId == n + 1
  {
    hide TransitionSummary, Seen;
    var last := st.sessions[|st.sessions| - 1];
    HighestIsLast(st.sessions);
    OpenedNext(st, now, boot);
    ClosedRecords(last, st.events, boot);
    HighestIsLast(Finalised(st, boot));
    SummaryMeansSeen(st.events, last.bootTime, boot, ShutdownClean);
    SummaryMeansSeen(st.events, last.bootTime, boot, ShutdownUnexpected);
    SummaryMeansSeen(st.events, last.bootTime, boot, KernelPower);
    SummaryMeansSeen(st.events, last.bootTime, boot, BugCheck);
  }

  /** The very first boot has no transition: nothing is known of what came before. */
  lemma FirstBootKnowsNothing(st: Store, now: Time, boot: Time)
    requires st.sessions == []
    ensures DetectedResult(st, boot) == BootResult(boot, None, None, None, false, false, false, None, 1)
    ensures Detected(st, now, boot).sessions == [Session(1, boot, None, None, None, None, None, None, now)]
  {
    OpenedFirst(st, now, boot);
  }

  /** A latest row with boot time zero is not finalised: its outcome stays unknown, and only its boot and id are reported. */
  lemma ZeroBootIsNotFinalised(st: Store, now: Time, boot: Time)
    requires NumberedSessions(st.sessions) && st.sessions != [] && st.sessions[|st.sessions| - 1].bootTime == 0.0
    requires !SameBoot(Highest(st.sessions, None), boot)
    ensures
      var n := |st.sessions|;
      && DetectedResult(st, boot) == BootResult(boot, Some(0.0), Some(n), None, false, false, false, None, n + 1)
      && Detected(st, now, boot).sessions
           == st.sessions + [Session(n + 1, boot, Some(0.0), None, None, None, None, None, now)]
  {
    HighestIsLast(st.sessions);
    assert Finalised(st, boot) == st.sessions;
    var created := st.sessions + [NewSession(|st.sessions| + 1, boot, now)];
    var linked := Patched(created, |st.sessions| + 1, NO_PATCH.(previousBootTime := Some(0.0)));
    assert forall i :: 0 <= i < |st.sessions| ==> linked[i] == st.sessions[i];
  }

  predicate Holds(flag: Option<bool>) {
    flag.Some? && flag.value
  }

  /** A restart within the same boot reports the latest row's own columns, and the row before it as the previous session. */
  lemma ReuseReportsRow(st: Store, now: Time, boot: Time)
    requires NumberedSessions(st.sessions) && st.sessions != [] && SameBoot(Highest(st.sessions, None), boot)
    ensures
      var row := st.sessions[|st.sessions| - 1];
      var r := DetectedResult(st, boot);
      && Detected(st, now, boot) == st
      && r.bootTime == boot && r.sessionId == row.sessionId && r.previousBootTime == row.previousBootTime
      && r.previousSessionId == (if |st.sessions| == 1 then None else Some(row.sessionId - 1))
      && r.previousSessionClean == row.previousSessionClean && r.uptimeBeforeBoot == row.uptimeBeforeBoot
      && r.unexpectedShutdown == Holds(row.unexpectedShutdown)
      && r.kernelPowerDetected == Holds(row.kernelPowerDetected) && r.bugcheckDetected == Holds(row.bugcheckDetected)
  {
    HighestIsLast(st.sessions);
    HighestBelowIsPredecessor(st.sessions, |st.sessions|);
  }

  /* ---- over runs ---- */

  /** Each finalised row records what the events stored when the next boot was seen, a prefix of today's, say. */
  ghost predicate AllRecorded(sessions: seq<Session>, events: seq<EventRow>) {
    forall k :: 0 <= k < |sessions| - 1 ==> RecordedOn(sessions[k], events, sessions[k + 1].bootTime)
  }

  ghost predicate RecordedOn(s: Session, events: seq<EventRow>, next: Time) {
    exists m :: 0 <= m <= |events| && Records(s, events[..m], next)
  }

  lemma StillRecorded(s: Session, before: seq<EventRow>, after: seq<EventRow>, next: Time)
    requires RecordedOn(s, before, next) && before <= after
    ensures RecordedOn(s, after, next)
  {
    hide Records;
    var m :| 0 <= m <= |before| && Records(s, before[..m], next);
    assert after[..m] == before[..m];
  }

  /** Stored events are never deleted or changed. */
  lemma EventsOnlyGrow(cfg: Config, w: World, s: Step)
    ensures w.store.events <= Apply(cfg, w, s).store.events
  {
    hide Apply;
    TailRuns.TailOfStep(cfg, w, s);
  }

  lemma CollectedAreStamped(st: Store, log: seq<LogRecord>, sizes: seq<BatchSize>, sessionId: int, commits: nat, i: nat)
    requires |st.events| <= i < |Collected(st, log, sizes, sessionId, commits).events|
    ensures Collected(st, log, sizes, sessionId, commits).events[i].sessionId == sessionId
  {
    hide Fetched, MaxId, MaxTime;
  }

  /** Events are stored under a session: those a startup collects under the session it found or opened, which is the latest
      one then, and those of a low cycle under the session the cycle was given. */
  lemma EventsAreOfTheirSession(cfg: Config, w: World, s: Step, i: nat)
    requires Chain(w.store.sessions) && |w.store.events| <= i < |Apply(cfg, w, s).store.events|
    ensures s.Startup? || s.LowCycle?
    ensures Apply(cfg, w, s).store.events[i].sessionId
         == if s.Startup? then |Apply(cfg, w, s).store.sessions| else s.sessionId
  {
    hide Apply, Collected, Detected, DetectedResult;
    TailRuns.TailOfStep(cfg, w, s);
    CollectedAreStamped(w.store, w.log, TailRuns.SizesOf(s), TailRuns.StampOf(w, s), TailRuns.CommitsOf(s), i);
    SessionsOfStep(cfg, w, s);
    if s.Startup? {
      DetectedId(w.store, s.now, s.boot);
    }
  }

  /** The session a detection reports is the latest one it leaves. */
  lemma DetectedId(st: Store, now: Time, boot: Time)
    requires Chain(st.sessions)
    ensures DetectedResult(st, boot).sessionId == |Detected(st, now, boot).sessions| > 0
  {
    hide Seen;
    HighestIsLast(st.sessions);
    if st.sessions == [] {
      FirstBootKnowsNothing(st, now, boot);
    } else if SameBoot(Highest(st.sessions, None), boot) {
      ReuseReportsRow(st, now, boot);
    } else {
      DetectionRecordsEvidence(st, now, boot);
    }
  }

  lemma DetectionKeepsRecords(st: Store, now: Time, boot: Time)
    requires Chain(st.sessions) && AllRecorded(st.sessions, st.events)
    ensures AllRecorded(Detected(st, now, boot).sessions, st.events)
  {
    hide Records, Seen;
    HighestIsLast(st.sessions);
    if st.sessions == [] {
      FirstBootKnowsNothing(st, now, boot);
    } else if !SameBoot(Highest(st.sessions, None), boot) {
      var n := |st.sessions|;
      var after := Detected(st, now, boot).sessions;
      OpenedNext(st, now, boot);
      DetectionRecordsEvidence(st, now, boot);
      forall k | 0 <= k < |after| - 1 ensures RecordedOn(after[k], st.events, after[k + 1].bootTime) {
        if k < n - 1 {
          assert RecordedOn(st.sessions[k], st.events, st.sessions[k + 1].bootTime);
        } else {
          assert st.events[..|st.events|] == st.events;
        }
      }
    }
  }

  /** Over every run: each finalised row's flags are what the events stored at its finalisation say: clean if and only if a
      clean shutdown, power and blue screen if and only if such an event, unexpected if and only if power or 6008 evidence
      without a clean shutdown, between its boot and 120 seconds after the next. */
  lemma {:induction false} FlagsOverRuns(cfg: Config, steps: seq<Step>)
    requires PositiveBoots(steps)
    ensures AllRecorded(Run(cfg, BEGINNING, steps).store.sessions, Run(cfg, BEGINNING, steps).store.events)
  {
    hide Apply, Detected, RecordedOn;
    if steps != [] {
      var before, s := steps[..|steps| - 1], steps[|steps| - 1];
      var w := Run(cfg, BEGINNING, before);
      var after := Apply(cfg, w, s).store;
      FlagsOverRuns(cfg, before);
      ChainOverRuns(cfg, BEGINNING, before);
      SessionsOfStep(cfg, w, s);
      EventsOnlyGrow(cfg, w, s);
      if s.Startup? {
        DetectionKeepsRecords(w.store, s.now, s.boot);
      }
      forall k | 0 <= k < |after.sessions| - 1
        ensures RecordedOn(after.sessions[k], after.events, after.sessions[k + 1].bootTime)
      {
        StillRecorded(after.sessions[k], w.store.events, after.events, after.sessions[k + 1].bootTime);
      }
    }
  }
}
