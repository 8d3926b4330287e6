/** The session table over every run: one row per boot, linked to its predecessor, finalised exactly once. */
module SessionChain {
  import opened Prelude
  import opened Storage
  import opened Configuration
  import opened BootDetector
  import opened EventTail
  import opened Diagnosis
  import opened Machine

  predicate IsFinal(s: Session) {
    && s.uptimeBeforeBoot.Some? && s.previousSessionClean.Some? && s.unexpectedShutdown.Some?
    && s.kernelPowerDetected.Some? && s.bugcheckDetected.Some?
  }

  predicate IsOpen(s: Session) {
    && s.uptimeBeforeBoot.None? && s.previousSessionClean.None? && s.unexpectedShutdown.None?
    && s.kernelPowerDetected.None? && s.bugcheckDetected.None?
  }

  /** Row `next` is the boot right after row `s`. */
  predicate Linked(s: Session, next: Session) {
    && next.previousBootTime == Some(s.bootTime)
    && Abs(s.bootTime - next.bootTime) >= SAME_BOOT_SECONDS
    && IsFinal(s) && s.uptimeBeforeBoot == Some(next.bootTime - s.bootTime)
  }

  ghost predicate Chain(sessions: seq<Session>) {
    && NumberedSessions(sessions)
    && (forall i :: 0 <= i < |sessions| ==> sessions[i].bootTime > 0.0)
    && (sessions != [] ==> sessions[0].previousBootTime.None? && IsOpen(sessions[|sessions| - 1]))
    && (forall i :: 0 < i < |sessions| ==> Linked(sessions[i - 1], sessions[i]))
  }

  /** What remains of the chain when detections may die between their commits: the last row may be finalised already, and
      a row's link to its predecessor may be missing. */
  ghost predicate LooseChain(sessions: seq<Session>) {
    && NumberedSessions(sessions)
    && (forall i :: 0 <= i < |sessions| ==> sessions[i].bootTime > 0.0)
    && (sessions != [] ==> sessions[0].previousBootTime.None?)
    && (forall i :: 0 < i < |sessions| ==> LooselyLinked(sessions[i - 1], sessions[i]))
  }

  predicate LooselyLinked(s: Session, next: Session) {
    && (next.previousBootTime.Some? ==> next.previousBootTime == Some(s.bootTime))
    && Abs(s.bootTime - next.bootTime) >= SAME_BOOT_SECONDS
    && IsFinal(s) && s.uptimeBeforeBoot == Some(next.bootTime - s.bootTime)
  }

  lemma ChainIsLoose(sessions: seq<Session>)
    requires Chain(sessions)
    ensures LooseChain(sessions)
  {
    forall i | 0 < i < |sessions| ensures LooselyLinked(sessions[i - 1], sessions[i]) {
      assert Linked(sessions[i - 1], sessions[i]);
    }
  }

  /** Rows of `before` that `after` must still have, untouched: all but the last, whose predecessor link it keeps. */
  ghost predicate Frozen(before: seq<Session>, after: seq<Session>) {
    && |before| <= |after|
    && (forall i :: 0 <= i < |before| - 1 ==> after[i] == before[i])
    && (before != [] ==>
          && after[|before| - 1].bootTime == before[|before| - 1].bootTime
          && after[|before| - 1].previousBootTime == before[|before| - 1].previousBootTime)
  }

  /** The last row finalised by a boot. */
  function Closed(s: Session, events: seq<EventRow>, boot: Time): Session {
    PatchedRow(s, Outcome(TransitionSummary(events, s.bootTime, boot), s.bootTime, boot))
  }

  /** Patching by the last id rewrites the last row and no other. */
  lemma PatchLast(sessions: seq<Session>, p: SessionPatch)
    requires NumberedSessions(sessions) && sessions != []
    ensures Patched(sessions, |sessions|, p) == sessions[..|sessions| - 1] + [PatchedRow(sessions[|sessions| - 1], p)]
  {
  }

  /** Opening a session, spelled out: the first row of all, or close the last row and append a linked one. */
  lemma OpenedFirst(st: Store, now: Time, boot: Time)
    requires st.sessions == []
    ensures Opened(st, now, boot) == [NewSession(1, boot, now)]
  {
  }

  lemma OpenedNext(st: Store, now: Time, boot: Time)
    requires NumberedSessions(st.sessions) && st.sessions != []
    requires st.sessions[|st.sessions| - 1].bootTime > 0.0
    ensures
      var n := |st.sessions|;
      var last := st.sessions[n - 1];
      Opened(st, now, boot)
        == st.sessions[..n - 1] + [Closed(last, st.events, boot)]
           + [NewSession(n + 1, boot, now).(previousBootTime := Some(last.bootTime))]
  {
    var n := |st.sessions|;
    var last := st.sessions[n - 1];
    var p := Outcome(TransitionSummary(st.events, last.bootTime, boot), last.bootTime, boot);
    HighestIsLast(st.sessions);
    PatchLast(st.sessions, p);
    var finalised := Finalised(st, boot);
    assert finalised == st.sessions[..n - 1] + [PatchedRow(last, p)];
    assert NumberedSessions(finalised);
    HighestIsLast(finalised);
    PatchLast(finalised + [NewSession(n + 1, boot, now)], NO_PATCH.(previousBootTime := Some(last.bootTime)));
  }

  /** Closing keeps what identifies a row, and records how long the boot lasted. */
  lemma ClosedRow(s: Session, events: seq<EventRow>, boot: Time)
    ensures
      var closed := Closed(s, events, boot);
      && closed.sessionId == s.sessionId && closed.bootTime == s.bootTime
      && closed.previousBootTime == s.previousBootTime
      && IsFinal(closed) && closed.uptimeBeforeBoot == Some(boot - s.bootTime)
  {
    hide TransitionSummary;
  }

  lemma ChainGrows(sessions: seq<Session>, closed: Session, next: Session)
    requires Chain(sessions) && sessions != []
    requires
      var last := sessions[|sessions| - 1];
      && closed.sessionId == last.sessionId && closed.bootTime == last.bootTime
      && closed.previousBootTime == last.previousBootTime
    requires Linked(closed, next) && IsOpen(next) && next.bootTime > 0.0 && next.sessionId == |sessions| + 1
    ensures Chain(sessions[..|sessions| - 1] + [closed] + [next])
    ensures Frozen(sessions, sessions[..|sessions| - 1] + [closed] + [next])
  {
    var n := |sessions|;
    var grown := sessions[..n - 1] + [closed] + [next];
    forall i | 0 < i < |grown| ensures Linked(grown[i - 1], grown[i]) {
      if i < n {
        assert Linked(sessions[i - 1], sessions[i]);
      }
    }
  }

  lemma DetectionKeepsChain(st: Store, now: Time, boot: Time)
    requires Chain(st.sessions) && boot > 0.0
    ensures Chain(Detected(st, now, boot).sessions)
    ensures Frozen(st.sessions, Detected(st, now, boot).sessions)
    ensures |Detected(st, now, boot).sessions|
         == |st.sessions| + if SameBoot(Highest(st.sessions, None), boot) then 0 else 1
  {
    HighestIsLast(st.sessions);
    if st.sessions == [] {
      OpenedFirst(st, now, boot);
    } else if !SameBoot(Highest(st.sessions, None), boot) {
      OpenedNext(st, now, boot);
      var last := st.sessions[|st.sessions| - 1];
      ClosedRow(last, st.events, boot);
      ChainGrows(st.sessions, Closed(last, st.events, boot),
                 NewSession(|st.sessions| + 1, boot, now).(previousBootTime := Some(last.bootTime)));
    }
  }

  /** Only a startup touches the session table, and only by detecting the boot. */
  lemma SessionsOfStep(cfg: Config, w: World, s: Step)
    ensures Apply(cfg, w, s).store.sessions
         == if s.Startup? then Detected(w.store, s.now, s.boot).sessions else w.store.sessions
  {
    if s.Startup? {
      assert AfterTailing(w.store, w.log, s).sessions == AfterDetection(w.store, s).sessions;
    }
  }

  predicate PositiveBoots(steps: seq<Step>) {
    forall i :: 0 <= i < |steps| && steps[i].Startup? ==> steps[i].boot > 0.0
  }

  lemma FrozenIsTransitive(a: seq<Session>, b: seq<Session>, c: seq<Session>)
    requires Frozen(a, b) && Frozen(b, c)
    ensures Frozen(a, c)
  {
  }

  /** The chain holds after every run of the agent, and a run never rewrites a finalised row. */
  lemma {:induction false} ChainOverRuns(cfg: Config, w: World, steps: seq<Step>)
    requires Chain(w.store.sessions) && PositiveBoots(steps)
    ensures Chain(Run(cfg, w, steps).store.sessions)
    ensures Frozen(w.store.sessions, Run(cfg, w, steps).store.sessions)
  {
    if steps != [] {
      var last := steps[|steps| - 1];
      var w' := Run(cfg, w, steps[..|steps| - 1]);
      ChainOverRuns(cfg, w, steps[..|steps| - 1]);
      SessionsOfStep(cfg, w', last);
      if last.Startup? {
        DetectionKeepsChain(w'.store, last.now, last.boot);
        FrozenIsTransitive(w.store.sessions, w'.store.sessions, Run(cfg, w, steps).store.sessions);
      }
    }
  }

  function TotalUptime(sessions: seq<Session>): real {
    if sessions == [] then 0.0
    else
      var last := sessions[|sessions| - 1].uptimeBeforeBoot;
      TotalUptime(sessions[..|sessions| - 1]) + if last.Some? then last.value else 0.0
  }

  /** The finalised uptimes telescope: together they span first boot to last boot. */
  lemma {:induction false} UptimesTelescope(sessions: seq<Session>, n: nat)
    requires LooseChain(sessions) && n < |sessions|
    ensures TotalUptime(sessions[..n]) == sessions[n].bootTime - sessions[0].bootTime
  {
    if n > 0 {
      UptimesTelescope(sessions, n - 1);
      assert sessions[..n][..n - 1] == sessions[..n - 1];
      assert LooselyLinked(sessions[n - 1], sessions[n]);
    }
  }

  /** From an empty database: ids count up, each row points at the boot before it, neighbours are at least a minute
      apart, every row but the last is finalised, and the uptimes add up. */
  lemma SessionTable(cfg: Config, steps: seq<Step>)
    requires PositiveBoots(steps)
    ensures
      var sessions := Run(cfg, BEGINNING, steps).store.sessions;
      && Chain(sessions)
      && (sessions != [] ==>
            TotalUptime(sessions) == sessions[|sessions| - 1].bootTime - sessions[0].bootTime)
  {
    ChainOverRuns(cfg, BEGINNING, steps);
    var sessions := Run(cfg, BEGINNING, steps).store.sessions;
    if sessions != [] {
      ChainIsLoose(sessions);
      UptimesTelescope(sessions, |sessions| - 1);
    }
  }
}
