/** diagnostics/boot_detector.py: one session row per OS boot, finalised when the next boot is seen. */
module BootDetector {
  import opened Prelude
  import opened Storage
  import opened EventAnalyzer

  const SAME_BOOT_SECONDS := 60.0
  const BOOT_MARGIN_SECONDS := 120.0

  datatype BootResult = BootResult(bootTime: Time, previousBootTime: Option<Time>, previousSessionId: Option<int>,
                                   previousSessionClean: Option<bool>, unexpectedShutdown: bool,
                                   kernelPowerDetected: bool, bugcheckDetected: bool,
                                   uptimeBeforeBoot: Option<real>, sessionId: int)

  /** The latest session already stands for this boot: the service restarted, the machine did not. */
  predicate SameBoot(prev: Option<Session>, boot: Time) {
    prev.Some? && Abs(prev.value.bootTime - boot) < SAME_BOOT_SECONDS
  }

  function IdOf(s: Option<Session>): Option<int> {
    if s.Some? then Some(s.value.sessionId) else None
  }

  predicate Flag(b: Option<bool>) {
    b == Some(true)
  }

  /** Reuse: the latest row's own metadata, and the id of the row before it. */
  function ReusedResult(sessions: seq<Session>, s: Session, boot: Time): BootResult {
    BootResult(boot, s.previousBootTime, IdOf(Highest(sessions, Some(s.sessionId))), s.previousSessionClean,
               Flag(s.unexpectedShutdown), Flag(s.kernelPowerDetected), Flag(s.bugcheckDetected),
               s.uptimeBeforeBoot, s.sessionId)
  }

  /** The events of the transition into `boot`, margin included. */
  function TransitionSummary(events: seq<EventRow>, previousBoot: Time, boot: Time): Summary {
    Summarized(EventsBetween(events, previousBoot, boot + BOOT_MARGIN_SECONDS))
  }

  /** How the previous row is finalised. */
  function Outcome(summary: Summary, previousBoot: Time, boot: Time): SessionPatch {
    var clean := summary.Detected(ShutdownClean);
    SessionPatch(None, Some(boot - previousBoot), Some(clean),
                 Some(!clean && (summary.Detected(KernelPower) || summary.Detected(ShutdownUnexpected))),
                 Some(summary.Detected(KernelPower)), Some(summary.Detected(BugCheck)))
  }

  const NO_PATCH: SessionPatch := SessionPatch(None, None, None, None, None, None)

  /** Sessions after the predecessor of a new boot is finalised; a recorded boot time of zero counts as none. */
  function Finalised(st: Store, boot: Time): seq<Session> {
    var prev := Highest(st.sessions, None);
    if prev.Some? && prev.value.bootTime != 0.0 then
      Patched(st.sessions, prev.value.sessionId,
              Outcome(TransitionSummary(st.events, prev.value.bootTime, boot), prev.value.bootTime, boot))
    else st.sessions
  }

  /** Sessions after a boot no row stands for. */
  function Opened(st: Store, now: Time, boot: Time): seq<Session> {
    var prev := Highest(st.sessions, None);
    var finalised := Finalised(st, boot);
    var id := NextSessionId(finalised);
    var created := finalised + [NewSession(id, boot, now)];
    if prev.Some? then Patched(created, id, NO_PATCH.(previousBootTime := Some(prev.value.bootTime))) else created
  }

  function OpenedResult(st: Store, boot: Time): BootResult {
    var prev := Highest(st.sessions, None);
    var id := NextSessionId(Finalised(st, boot));
    if prev.None? then BootResult(boot, None, None, None, false, false, false, None, id)
    else if prev.value.bootTime == 0.0 then
      BootResult(boot, Some(0.0), Some(prev.value.sessionId), None, false, false, false, None, id)
    else
      var p := Outcome(TransitionSummary(st.events, prev.value.bootTime, boot), prev.value.bootTime, boot);
      BootResult(boot, Some(prev.value.bootTime), Some(prev.value.sessionId), p.previousSessionClean,
                 Flag(p.unexpectedShutdown), Flag(p.kernelPowerDetected), Flag(p.bugcheckDetected),
                 p.uptimeBeforeBoot, id)
  }

  function Detected(st: Store, now: Time, boot: Time): Store {
    if SameBoot(Highest(st.sessions, None), boot) then st else st.(sessions := Opened(st, now, boot))
  }

  /** Opening a session takes three commits: finalise the predecessor, create the row, link it.  This is what the first
      `stages` of them leave. */
  function OpenedUpTo(st: Store, now: Time, boot: Time, stages: nat): seq<Session> {
    if stages == 0 then st.sessions
    else if stages == 1 then Finalised(st, boot)
    else if stages == 2 then
      Finalised(st, boot) + [NewSession(NextSessionId(Finalised(st, boot)), boot, now)]
    else Opened(st, now, boot)
  }

  function DetectedUpTo(st: Store, now: Time, boot: Time, stages: nat): Store {
    if SameBoot(Highest(st.sessions, None), boot) then st
    else st.(sessions := OpenedUpTo(st, now, boot, stages))
  }

  function DetectedResult(st: Store, boot: Time): BootResult {
    var prev := Highest(st.sessions, None);
    if SameBoot(prev, boot) then ReusedResult(st.sessions, prev.value, boot) else OpenedResult(st, boot)
  }

  /** The finalising half of detect_boot: classify the transition, then one UPDATE of the previous row. */
  method FinalisePrevious(db: Database, prev: Session, boot: Time) returns (patch: SessionPatch)
    modifies db`sessions
    ensures patch == Outcome(TransitionSummary(db.events, prev.bootTime, boot), prev.bootTime, boot)
    ensures db.View() == old(db.View()).(sessions := Patched(old(db.sessions), prev.sessionId, patch))
  {
    var events := EventsBetween(db.events, prev.bootTime, boot + BOOT_MARGIN_SECONDS);
    var summary := Summarize(events);
    var clean := summary.Detected(ShutdownClean);
    var kernelPower := summary.Detected(KernelPower);
    var bugcheck := summary.Detected(BugCheck);
    var unexpected := summary.Detected(ShutdownUnexpected);
    patch := SessionPatch(None, Some(boot - prev.bootTime), Some(clean), Some(!clean && (kernelPower || unexpected)),
                          Some(kernelPower), Some(bugcheck));
    db.UpdateSession(prev.sessionId, patch);
  }

  /** detect_boot(), dying (or raising) after `stages` of its commits; it returns a result only if it lives. */
  method DetectBoot(db: Database, now: Time, boot: Time, stages: nat) returns (detected: Option<BootResult>)
    modifies db`sessions
    ensures db.View() == DetectedUpTo(old(db.View()), now, boot, stages)
    ensures
      var lives := stages >= 3 || SameBoot(Highest(old(db.sessions), None), boot);
      detected == if lives then Some(DetectedResult(old(db.View()), boot)) else None
    ensures stages >= 3 ==> db.View() == Detected(old(db.View()), now, boot)
  {
    detected := None;
    var prev := Highest(db.sessions, None);
    var previousBoot: Option<Time> := if prev.Some? then Some(prev.value.bootTime) else None;
    var result := BootResult(boot, previousBoot, IdOf(prev), None, false, false, false, None, 0);

    if prev.Some? && Abs(prev.value.bootTime - boot) < SAME_BOOT_SECONDS {
      var earlier := Highest(db.sessions, Some(prev.value.sessionId));
      result := result.(sessionId := prev.value.sessionId,
                        previousBootTime := prev.value.previousBootTime,
                        previousSessionId := IdOf(earlier),
                        previousSessionClean := prev.value.previousSessionClean,
                        unexpectedShutdown := Flag(prev.value.unexpectedShutdown),
                        kernelPowerDetected := Flag(prev.value.kernelPowerDetected),
                        bugcheckDetected := Flag(prev.value.bugcheckDetected),
                        uptimeBeforeBoot := prev.value.uptimeBeforeBoot);
      return Some(result);
    }

    if stages == 0 {
      return;
    }
    if prev.Some? && prev.value.bootTime != 0.0 {
      var patch := FinalisePrevious(db, prev.value, boot);
      result := result.(previousSessionClean := patch.previousSessionClean,
                        kernelPowerDetected := Flag(patch.kernelPowerDetected),
                        bugcheckDetected := Flag(patch.bugcheckDetected),
                        unexpectedShutdown := Flag(patch.unexpectedShutdown),
                        uptimeBeforeBoot := patch.uptimeBeforeBoot);
    }

    if stages == 1 {
      return;
    }
    var id := db.CreateSession(boot, now);
    if stages == 2 {
      return;
    }
    if previousBoot.Some? {
      db.UpdateSession(id, NO_PATCH.(previousBootTime := previousBoot));
    }
    result := result.(sessionId := id);
    detected := Some(result);
  }
}
