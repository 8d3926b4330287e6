/** Incidents over every run: one per reboot, one per session, and none suppressed that a new boot warrants. */
module IncidentRuns {
  import opened Prelude
  import opened Storage
  import opened Configuration
  import opened BootDetector
  import opened EventTail
  import opened Diagnosis
  import opened Machine
  import opened SessionChain
  import EngineSpec

  /** Recorded reboot times are pairwise more than five seconds apart. */
  ghost predicate Spaced(incidents: seq<Incident>) {
    forall i, j :: 0 <= i < j < |incidents| ==>
      Abs(incidents[i].reboot - incidents[j].reboot) > DEDUPLICATION_SECONDS
  }

  /** The facts a startup's diagnosis starts from. */
  function BootOf(w: World, s: Step): BootFacts
    requires s.Startup?
  {
    FactsOf(DetectedResult(w.store, s.boot))
  }

  function VerdictOf(cfg: Config, w: World, s: Step): Verdict
    requires s.Startup?
  {
    Diagnosed(AfterTailing(w.store, w.log, s), BootOf(w, s), cfg)
  }

  /** The startup reaches its diagnosis and finds an incident there that is not stored yet. */
  predicate Records(cfg: Config, w: World, s: Step) {
    && s.Startup? && s.diagnosed && VerdictOf(cfg, w, s).incident.Some?
    && !IncidentExists(w.store.incidents, s.boot)
  }

  function NewIncident(cfg: Config, w: World, s: Step): Incident
    requires Records(cfg, w, s)
  {
    VerdictOf(cfg, w, s).incident.value.(incidentId := NextIncidentId(w.store.incidents))
  }

  lemma VerdictReboot(st: Store, b: BootFacts, cfg: Config)
    ensures Diagnosed(st, b, cfg).incident.Some? ==>
              && Diagnosed(st, b, cfg).incident.value.reboot == b.bootTime
              && Diagnosed(st, b, cfg).incident.value.previousSessionId == b.previousSessionId
  {
    EngineSpec.IncidentFields(st, b, cfg);
  }

  lemma TailingKeepsIncidents(w: World, s: Step)
    requires s.Startup?
    ensures AfterTailing(w.store, w.log, s).incidents == w.store.incidents
  {
  }

  lemma RecordedIncidents(st: Store, v: Verdict)
    ensures Recorded(st, v).incidents
         == if v.incident.None? || IncidentExists(st.incidents, v.incident.value.reboot) then st.incidents
            else st.incidents + [v.incident.value.(incidentId := NextIncidentId(st.incidents))]
  {
  }

  lemma StartupIncidents(cfg: Config, w: World, s: Step)
    requires s.Startup?
    ensures Started(cfg, w.store, w.log, s).incidents
         == if Records(cfg, w, s) then w.store.incidents + [NewIncident(cfg, w, s)] else w.store.incidents
    ensures Records(cfg, w, s) ==>
              && NewIncident(cfg, w, s).reboot == s.boot
              && NewIncident(cfg, w, s).previousSessionId == DetectedResult(w.store, s.boot).previousSessionId
  {
    var tailed := AfterTailing(w.store, w.log, s);
    TailingKeepsIncidents(w, s);
    VerdictReboot(tailed, BootOf(w, s), cfg);
    assert BootOf(w, s).bootTime == s.boot;
    RecordedIncidents(tailed, VerdictOf(cfg, w, s));
  }

  /** Only such a startup touches the incident table, and it appends the one incident of its own boot. */
  lemma IncidentsOfStep(cfg: Config, w: World, s: Step)
    ensures Apply(cfg, w, s).store.incidents
         == if Records(cfg, w, s) then w.store.incidents + [NewIncident(cfg, w, s)] else w.store.incidents
    ensures Records(cfg, w, s) ==>
              && NewIncident(cfg, w, s).reboot == s.boot
              && NewIncident(cfg, w, s).previousSessionId == DetectedResult(w.store, s.boot).previousSessionId
  {
    if s.Startup? {
      StartupIncidents(cfg, w, s);
    }
  }

  lemma SpacedAppend(incidents: seq<Incident>, inc: Incident)
    requires Spaced(incidents) && !IncidentExists(incidents, inc.reboot)
    ensures Spaced(incidents + [inc])
  {
  }

  lemma SpacedStep(cfg: Config, w: World, s: Step)
    requires Spaced(w.store.incidents)
    ensures Spaced(Apply(cfg, w, s).store.incidents)
  {
    IncidentsOfStep(cfg, w, s);
    if Records(cfg, w, s) {
      SpacedAppend(w.store.incidents, NewIncident(cfg, w, s));
    }
  }

  /** No two recorded incidents share a reboot, in any run whatsoever. */
  lemma {:induction false} SpacedOverRuns(cfg: Config, w: World, steps: seq<Step>)
    requires Spaced(w.store.incidents)
    ensures Spaced(Run(cfg, w, steps).store.incidents)
  {
    if steps != [] {
      SpacedOverRuns(cfg, w, steps[..|steps| - 1]);
      SpacedStep(cfg, Run(cfg, w, steps[..|steps| - 1]), steps[|steps| - 1]);
    }
  }

  /** Incident ids count up from 1, and a recorded incident is never changed or deleted. */
  lemma {:induction false} IncidentTable(cfg: Config, w: World, steps: seq<Step>)
    requires forall i :: 0 <= i < |w.store.incidents| ==> w.store.incidents[i].incidentId == i + 1
    ensures w.store.incidents <= Run(cfg, w, steps).store.incidents
    ensures forall i :: 0 <= i < |Run(cfg, w, steps).store.incidents| ==>
              Run(cfg, w, steps).store.incidents[i].incidentId == i + 1
  {
    hide Apply, Records, VerdictOf;
    if steps != [] {
      IncidentTable(cfg, w, steps[..|steps| - 1]);
      IncidentsOfStep(cfg, Run(cfg, w, steps[..|steps| - 1]), steps[|steps| - 1]);
    }
  }

  /* ---- one incident per session ---- */

  function LastBoot(sessions: seq<Session>): Time
    requires sessions != []
  {
    sessions[|sessions| - 1].bootTime
  }

  /** Restarts of one boot report it within five seconds of each other; a new boot is a minute later or more. */
  ghost predicate SteadyReport(w: World, s: Step) {
    s.Startup? ==>
      && s.boot > 0.0
      && (|| w.store.sessions == []
          || s.boot >= LastBoot(w.store.sessions) + SAME_BOOT_SECONDS
          || forall x :: x in w.reports ==> Abs(s.boot - x) <= DEDUPLICATION_SECONDS)
  }

  ghost predicate SteadyRun(cfg: Config, w: World, steps: seq<Step>) {
    steps == []
    || (SteadyRun(cfg, w, steps[..|steps| - 1])
        && SteadyReport(Run(cfg, w, steps[..|steps| - 1]), steps[|steps| - 1]))
  }

  /** The session an incident ended, with 0 for the time before the first one. */
  function EndedSession(inc: Incident): int {
    if inc.previousSessionId.Some? then inc.previousSessionId.value else 0
  }

  /** All reports since the latest row was opened agree with it. */
  ghost predicate ReportsAgree(w: World) {
    && (w.store.sessions == [] ==> w.reports == [])
    && (w.store.sessions != [] ==> LastBoot(w.store.sessions) in w.reports)
    && (forall x, y :: x in w.reports && y in w.reports ==> Abs(x - y) <= DEDUPLICATION_SECONDS)
  }

  /** An incident belongs to the latest boot and its reports, or to an earlier one at least 55 seconds back. */
  ghost predicate Placed(w: World, inc: Incident) {
    && 0 <= EndedSession(inc) < |w.store.sessions|
    && (if EndedSession(inc) == |w.store.sessions| - 1 then inc.reboot in w.reports
        else inc.reboot <= LastBoot(w.store.sessions) - SAME_BOOT_SECONDS + DEDUPLICATION_SECONDS)
  }

  ghost predicate OnePerSession(incidents: seq<Incident>) {
    forall i, j :: 0 <= i < j < |incidents| ==> EndedSession(incidents[i]) != EndedSession(incidents[j])
  }

  ghost predicate PlacedIncidents(w: World) {
    && Chain(w.store.sessions) && ReportsAgree(w)
    && (w.store.sessions == [] ==> w.store.incidents == [])
    && (forall i :: 0 <= i < |w.store.incidents| ==> Placed(w, w.store.incidents[i]))
    && OnePerSession(w.store.incidents)
  }

  /** What detection reports: the ended session is the one before the row this boot is filed under. */
  lemma EndedSessionOfBoot(st: Store, now: Time, boot: Time)
    requires Chain(st.sessions)
    ensures
      var prev := DetectedResult(st, boot).previousSessionId;
      (if prev.Some? then prev.value else 0) == |Detected(st, now, boot).sessions| - 1
  {
    HighestIsLast(st.sessions);
    if SameBoot(Highest(st.sessions, None), boot) {
      HighestBelowIsPredecessor(st.sessions, |st.sessions|);
    } else if st.sessions == [] {
      OpenedFirst(st, now, boot);
    } else {
      OpenedNext(st, now, boot);
    }
  }

  /** Sessions and reports after a startup's detection, for incidents recorded before it. */
  ghost predicate PlacedAnew(w: World, w': World, boot: Time) {
    && Chain(w'.store.sessions) && w'.store.sessions != [] && ReportsAgree(w') && boot in w'.reports
    && (forall i :: 0 <= i < |w.store.incidents| ==> Placed(w', w.store.incidents[i]))
  }

  /** Every incident recorded so far is of an earlier session and at least 55 seconds back. */
  ghost predicate AllEarlier(w: World, w': World, boot: Time) {
    forall i :: 0 <= i < |w.store.incidents| ==>
      && EndedSession(w.store.incidents[i]) < |w'.store.sessions| - 1
      && w.store.incidents[i].reboot <= boot - SAME_BOOT_SECONDS + DEDUPLICATION_SECONDS
  }

  lemma PlacedAfterFirst(w: World, w': World, now: Time, boot: Time)
    requires PlacedIncidents(w) && w.store.sessions == [] && boot > 0.0
    requires w'.store.sessions == [NewSession(1, boot, now)] && w'.reports == [boot]
    ensures PlacedAnew(w, w', boot) && AllEarlier(w, w', boot)
  {
  }

  lemma PlacedAfterNext(w: World, w': World, boot: Time)
    requires PlacedIncidents(w) && w.store.sessions != [] && boot >= LastBoot(w.store.sessions) + SAME_BOOT_SECONDS
    requires Chain(w'.store.sessions) && |w'.store.sessions| == |w.store.sessions| + 1
    requires LastBoot(w'.store.sessions) == boot && w'.reports == [boot]
    ensures PlacedAnew(w, w', boot) && AllEarlier(w, w', boot)
  {
    assert LastBoot(w.store.sessions) in w.reports;
    forall i | 0 <= i < |w.store.incidents|
      ensures Placed(w', w.store.incidents[i])
      ensures EndedSession(w.store.incidents[i]) < |w'.store.sessions| - 1
      ensures w.store.incidents[i].reboot <= boot - SAME_BOOT_SECONDS + DEDUPLICATION_SECONDS
    {
      assert Placed(w, w.store.incidents[i]);
    }
  }

  lemma PlacedAfterReuse(w: World, w': World, boot: Time)
    requires PlacedIncidents(w) && w.store.sessions != []
    requires forall x :: x in w.reports ==> Abs(boot - x) <= DEDUPLICATION_SECONDS
    requires w'.store.sessions == w.store.sessions && w'.reports == w.reports + [boot]
    ensures PlacedAnew(w, w', boot)
  {
    forall i | 0 <= i < |w.store.incidents| ensures Placed(w', w.store.incidents[i]) {
      assert Placed(w, w.store.incidents[i]);
    }
  }

  /** Where detection leaves sessions and reports. */
  lemma PlacedAfterDetection(cfg: Config, w: World, s: Step)
    requires PlacedIncidents(w) && SteadyReport(w, s) && s.Startup?
    ensures PlacedAnew(w, Apply(cfg, w, s), s.boot)
    ensures !SameBoot(Highest(w.store.sessions, None), s.boot) ==> AllEarlier(w, Apply(cfg, w, s), s.boot)
  {
    var ss := w.store.sessions;
    var w' := Apply(cfg, w, s);
    SessionsOfStep(cfg, w, s);
    DetectionKeepsChain(w.store, s.now, s.boot);
    HighestIsLast(ss);
    if ss == [] {
      OpenedFirst(w.store, s.now, s.boot);
      PlacedAfterFirst(w, w', s.now, s.boot);
    } else {
      assert LastBoot(ss) in w.reports;
      if s.boot >= LastBoot(ss) + SAME_BOOT_SECONDS {
        OpenedNext(w.store, s.now, s.boot);
        PlacedAfterNext(w, w', s.boot);
      } else {
        assert Abs(s.boot - LastBoot(ss)) <= DEDUPLICATION_SECONDS;
        PlacedAfterReuse(w, w', s.boot);
      }
    }
  }

  /** A new incident of the latest boot is the only one of its session: an older one would have suppressed it. */
  lemma PlacedAppend(w: World, incidents: seq<Incident>, inc: Incident)
    requires w.store.sessions != [] && ReportsAgree(w)
    requires forall i :: 0 <= i < |incidents| ==> Placed(w, incidents[i])
    requires OnePerSession(incidents) && !IncidentExists(incidents, inc.reboot)
    requires inc.reboot in w.reports && EndedSession(inc) == |w.store.sessions| - 1
    ensures Placed(w, inc) && OnePerSession(incidents + [inc])
  {
    forall i | 0 <= i < |incidents| ensures EndedSession(incidents[i]) != EndedSession(inc) {
      assert Placed(w, incidents[i]);
      if EndedSession(incidents[i]) == |w.store.sessions| - 1 {
        assert false;
      }
    }
  }

  lemma PlacedStartup(cfg: Config, w: World, s: Step)
    requires PlacedIncidents(w) && SteadyReport(w, s) && s.Startup?
    ensures PlacedIncidents(Apply(cfg, w, s))
  {
    hide Detected, DetectedResult, NewIncident, VerdictOf;
    var w' := Apply(cfg, w, s);
    PlacedAfterDetection(cfg, w, s);
    IncidentsOfStep(cfg, w, s);
    if Records(cfg, w, s) {
      var inc := NewIncident(cfg, w, s);
      SessionsOfStep(cfg, w, s);
      EndedSessionOfBoot(w.store, s.now, s.boot);
      PlacedAppend(w', w.store.incidents, inc);
    }
  }

  lemma PlacedStep(cfg: Config, w: World, s: Step)
    requires PlacedIncidents(w) && SteadyReport(w, s)
    ensures PlacedIncidents(Apply(cfg, w, s))
  {
    if s.Startup? {
      PlacedStartup(cfg, w, s);
    } else {
      IncidentsOfStep(cfg, w, s);
      SessionsOfStep(cfg, w, s);
      assert forall inc :: Placed(w, inc) ==> Placed(Apply(cfg, w, s), inc);
    }
  }

  lemma {:induction false} PlacedOverRuns(cfg: Config, w: World, steps: seq<Step>)
    requires PlacedIncidents(w) && SteadyRun(cfg, w, steps)
    ensures PlacedIncidents(Run(cfg, w, steps))
  {
    if steps != [] {
      PlacedOverRuns(cfg, w, steps[..|steps| - 1]);
      PlacedStep(cfg, Run(cfg, w, steps[..|steps| - 1]), steps[|steps| - 1]);
    }
  }

  /** With steady boot times, no session ever gets two incidents. */
  lemma OneIncidentPerSession(cfg: Config, steps: seq<Step>)
    requires SteadyRun(cfg, BEGINNING, steps)
    ensures OnePerSession(Run(cfg, BEGINNING, steps).store.incidents)
  {
    PlacedOverRuns(cfg, BEGINNING, steps);
  }

  /** With steady boot times, a new boot whose verdict is an incident always gets it recorded. */
  lemma NewBootIsNeverSuppressed(cfg: Config, steps: seq<Step>, s: Step)
    requires SteadyRun(cfg, BEGINNING, steps)
    requires SteadyReport(Run(cfg, BEGINNING, steps), s) && s.Startup? && s.diagnosed
    requires !SameBoot(Highest(Run(cfg, BEGINNING, steps).store.sessions, None), s.boot)
    requires VerdictOf(cfg, Run(cfg, BEGINNING, steps), s).incident.Some?
    ensures
      var w := Run(cfg, BEGINNING, steps);
      |Apply(cfg, w, s).store.incidents| == |w.store.incidents| + 1
  {
    var w := Run(cfg, BEGINNING, steps);
    PlacedOverRuns(cfg, BEGINNING, steps);
    PlacedAfterDetection(cfg, w, s);
    IncidentsOfStep(cfg, w, s);
  }
}
