/** When a recorded verdict can be recomputed from what is still stored: the exact condition, a run in which it fails, and
    why the scheduler's loop meets it. */
module Recomputation {
  import opened Prelude
  import opened Storage
  import opened Configuration
  import opened Termination
  import opened EventAnalyzer
  import opened BootDetector
  import opened EventTail
  import opened Diagnosis
  import opened Retention
  import opened Machine
  import opened Scheduling
  import opened EngineSpec
  import opened IncidentRuns
  import opened Evidence
  import opened ScenarioOutcomes

  /* ---- the recorded last activity ---- */

  /** Some cycle of the run writes the heartbeat. */
  ghost predicate BeatsIn(steps: seq<Step>) {
    exists i :: 0 <= i < |steps| && IsBeat(steps[i])
  }

  predicate IsBeat(s: Step) {
    s.HighCycle? && s.beat
  }

  /** The heartbeat adds nothing to a last activity that a stored row backs. */
  lemma BackedIsReproducible(st: Store, reboot: Time)
    requires LastActivity(st, reboot).Some?
    ensures Reproducible(st, reboot, LastActivity(st, reboot).value)
       <==> IsLastRow(st.metrics, reboot, LastActivity(st, reboot).value)
  {
    hide IsLastRow, LatestIn;
  }

  /** No stored row backs `last`: every activity row before the reboot is older, and the heartbeat alone stood for it, until
      a later beat overwrote it. */
  ghost predicate Unbacked(st: Store, reboot: Time, last: Time, overwritten: bool) {
    && last < reboot
    && (forall t, row :: t in ACTIVITY_TABLES && row in Rows(st.metrics, t) && row.timestamp < reboot ==>
          row.timestamp < last)
    && (if overwritten then st.heartbeat.Some? && st.heartbeat.value >= reboot else st.heartbeat == Some(last))
  }

  lemma UnbackedAtFirst(st: Store, reboot: Time)
    requires LastActivity(st, reboot).Some? && !IsLastRow(st.metrics, reboot, LastActivity(st, reboot).value)
    ensures Unbacked(st, reboot, LastActivity(st, reboot).value, false)
  {
    var last := LastActivity(st, reboot).value;
    NothingAfterLastActivity(st, reboot);
    LastRowUnique(st.metrics, reboot, last);
    forall t, row | t in ACTIVITY_TABLES && row in Rows(st.metrics, t) && row.timestamp < reboot
      ensures row.timestamp < last
    {
      if row.timestamp == last {
        assert RowAt(st.metrics, t, last);
        assert IsLastRow(st.metrics, reboot, last);
      }
    }
  }

  lemma UnbackedStep(cfg: Config, w: World, s: Step, k: nat, last: Time, overwritten: bool)
    requires k < |w.store.incidents| && GuardedStep(w, s, k)
    requires Unbacked(w.store, w.store.incidents[k].reboot, last, overwritten)
    ensures Unbacked(Apply(cfg, w, s).store, w.store.incidents[k].reboot, last, overwritten || IsBeat(s))
  {
    hide Apply, Survives, ProtectedSpans, Filter, Added;
    var reboot := w.store.incidents[k].reboot;
    var m := Apply(cfg, w, s).store.metrics;
    HeartbeatOfStep(cfg, w, s);
    forall t, row | t in ACTIVITY_TABLES && row in Rows(m, t) && row.timestamp < reboot ensures row.timestamp < last {
      MetricsOfStep(cfg, w, s, t);
      assert row in Rows(w.store.metrics, t);
    }
  }

  lemma {:induction false} UnbackedOverRuns(cfg: Config, w: World, steps: seq<Step>, k: nat, last: Time)
    requires k < |w.store.incidents| && GuardedRun(cfg, w, steps, k)
    requires Unbacked(w.store, w.store.incidents[k].reboot, last, false)
    ensures k < |Run(cfg, w, steps).store.incidents|
         && Run(cfg, w, steps).store.incidents[k] == w.store.incidents[k]
    ensures Unbacked(Run(cfg, w, steps).store, w.store.incidents[k].reboot, last, BeatsIn(steps))
  {
    hide Apply, Unbacked;
    if steps == [] {
    } else {
      var before, s := steps[..|steps| - 1], steps[|steps| - 1];
      var w' := Run(cfg, w, before);
      UnbackedOverRuns(cfg, w, before, k, last);
      IncidentStays(cfg, w', s, k);
      UnbackedStep(cfg, w', s, k, last, BeatsIn(before));
      OneMoreStep(before, s);
      assert steps == before + [s];
    }
  }

  lemma OneMoreStep(steps: seq<Step>, s: Step)
    ensures BeatsIn(steps + [s]) <==> BeatsIn(steps) || IsBeat(s)
  {
    if BeatsIn(steps) {
      var i :| 0 <= i < |steps| && IsBeat(steps[i]);
      assert (steps + [s])[i] == steps[i];
    }
    if IsBeat(s) {
      assert (steps + [s])[|steps|] == s;
    }
  }

  lemma UnbackedMeans(st: Store, reboot: Time, last: Time, overwritten: bool)
    requires Unbacked(st, reboot, last, overwritten)
    ensures LastActivity(st, reboot) == Some(last) <==> !overwritten
  {
    LatestInIsMax(st.metrics, ACTIVITY_TABLES, reboot);
    var latest := LatestIn(st.metrics, ACTIVITY_TABLES, reboot);
    if latest.Some? {
      var t :| t in ACTIVITY_TABLES && RowAt(st.metrics, t, latest.value);
    }
  }

  /** The exact condition: whatever follows, the recorded last activity comes out again if and only if a stored activity
      row backed it at recording time, or no later cycle wrote the heartbeat. */
  lemma LastActivityRecomputableIff(cfg: Config, w: World, rest: seq<Step>, k: nat)
    requires k < |w.store.incidents| && Protects(w.store.incidents[k]) && GuardedRun(cfg, w, rest, k)
    requires LastActivity(w.store, w.store.incidents[k].reboot) == w.store.incidents[k].lastMetric
    ensures
      var inc := w.store.incidents[k];
      LastActivity(Run(cfg, w, rest).store, inc.reboot) == inc.lastMetric <==>
        IsLastRow(w.store.metrics, inc.reboot, inc.lastMetric.value) || !BeatsIn(rest)
  {
    hide LastActivity, IsLastRow, Run, Reproducible, Unbacked;
    var inc := w.store.incidents[k];
    if IsLastRow(w.store.metrics, inc.reboot, inc.lastMetric.value) {
      BackedIsReproducible(w.store, inc.reboot);
      ReproducibleOverRuns(cfg, w, rest, k);
      ReproducibleMeansSame(Run(cfg, w, rest).store, inc.reboot, inc.lastMetric.value);
    } else {
      UnbackedAtFirst(w.store, inc.reboot);
      UnbackedOverRuns(cfg, w, rest, k, inc.lastMetric.value);
      UnbackedMeans(Run(cfg, w, rest).store, inc.reboot, inc.lastMetric.value, BeatsIn(rest));
    }
  }

  /* ---- the whole verdict ---- */

  /** Two last activities lead to one inference exactly when they are the same, or the end is explained anyway. */
  lemma SameInferenceIff(crash: CrashSignals, a: Option<Time>, b: Option<Time>, reboot: Time, interval: real)
    requires (a.Some? ==> a.value < reboot) && (b.Some? ==> b.value < reboot)
    ensures Inferred(crash, a, reboot, interval) == Inferred(crash, b, reboot, interval)
       <==> !Unexplained(crash) || a == b
  {
  }

  /** The inference as made at the startup, and as made again from a later store. */
  function InferredAt(cfg: Config, w: World, s: Step): Inference
    requires s.Startup?
  {
    InferenceOf(AfterTailing(w.store, w.log, s), BootOf(w, s), cfg)
  }

  function InferredAgain(cfg: Config, w: World, s: Step, later: Store): Inference
    requires s.Startup?
  {
    Inferred(SignalsAt(cfg, w, s), LastActivity(later, s.boot), s.boot, cfg.interval)
  }

  function SignalsAt(cfg: Config, w: World, s: Step): CrashSignals
    requires s.Startup?
  {
    Signals(AfterTailing(w.store, w.log, s), BootOf(w, s), cfg)
  }

  lemma SameVerdictIff(cfg: Config, w: World, s: Step, later: Store)
    requires s.Startup?
    ensures InferredAgain(cfg, w, s, later) == InferredAt(cfg, w, s)
       <==> !Unexplained(SignalsAt(cfg, w, s)) || LastActivity(later, s.boot) == LastActivity(w.store, s.boot)
  {
    hide LastActivity, Signals, Unexplained, Inferred, AfterTailing;
    TailedActivity(w, s);
    LastActivityIsEarlier(w.store, s.boot);
    LastActivityIsEarlier(later, s.boot);
    SameInferenceIff(SignalsAt(cfg, w, s), LastActivity(later, s.boot), LastActivity(w.store, s.boot), s.boot, cfg.interval);
  }

  /** A startup records an incident with a last activity. */
  ghost predicate RecordsActivity(cfg: Config, w: World, s: Step) {
    Records(cfg, w, s) && s.boot != 0.0 && Truthy(LastActivity(w.store, s.boot))
  }

  /** A stored activity row backs what a startup at this boot would record. */
  ghost predicate Backed(st: Store, boot: Time) {
    LastActivity(st, boot).Some? && IsLastRow(st.metrics, boot, LastActivity(st, boot).value)
  }

  lemma RecordingWorld(cfg: Config, w: World, s: Step)
    requires RecordsActivity(cfg, w, s)
    ensures
      var k := |w.store.incidents|;
      var w' := Apply(cfg, w, s);
      && k < |w'.store.incidents| && Protects(w'.store.incidents[k]) && w'.store.incidents[k].reboot == s.boot
      && w'.store.incidents[k].lastMetric == LastActivity(w.store, s.boot)
      && w'.store.incidents[k].lastMetric == LastActivity(w'.store, s.boot)
      && w'.store.incidents[k].duration == InferredAt(cfg, w, s).gap
      && w'.store.metrics == w.store.metrics
  {
    hide Apply, InferenceOf, AfterTailing, Records, LatestIn;
    RecordedIncident(cfg, w, s);
  }

  /** Whatever follows a recorded incident, while the clock of the cycles stays past the reboot and the incident among the
      newest 200, the incident keeps its values; recomputing the last activity gives the recorded one if and only if a row
      backed it or no later cycle wrote the heartbeat; and recomputing the inference from the same signals gives the one
      recorded if and only if, besides, the end was explained without any silence. */
  lemma VerdictRecomputableIff(cfg: Config, w: World, s: Step, rest: seq<Step>)
    requires RecordsActivity(cfg, w, s) && GuardedRun(cfg, Apply(cfg, w, s), rest, |w.store.incidents|)
    ensures
      var k := |w.store.incidents|;
      var final := Run(cfg, Apply(cfg, w, s), rest).store;
      var same := Backed(w.store, s.boot) || !BeatsIn(rest);
      && k < |final.incidents| && final.incidents[k].reboot == s.boot
      && final.incidents[k].duration == InferredAt(cfg, w, s).gap
      && (LastActivity(final, s.boot) == final.incidents[k].lastMetric <==> same)
      && (InferredAgain(cfg, w, s, final) == InferredAt(cfg, w, s) <==> !Unexplained(SignalsAt(cfg, w, s)) || same)
  {
    hide Apply, Run, LastActivity, IsLastRow, InferredAt, InferredAgain, SignalsAt, Unexplained;
    var k := |w.store.incidents|;
    var w' := Apply(cfg, w, s);
    RecordingWorld(cfg, w, s);
    IncidentOverRuns(cfg, w', rest, k);
    LastActivityRecomputableIff(cfg, w', rest, k);
    SameVerdictIff(cfg, w, s, Run(cfg, w', rest).store);
  }

  lemma {:induction false} IncidentOverRuns(cfg: Config, w: World, steps: seq<Step>, k: nat)
    requires k < |w.store.incidents|
    ensures k < |Run(cfg, w, steps).store.incidents|
         && Run(cfg, w, steps).store.incidents[k] == w.store.incidents[k]
  {
    hide Apply;
    if steps != [] {
      IncidentOverRuns(cfg, w, steps[..|steps| - 1], k);
      IncidentStays(cfg, Run(cfg, w, steps[..|steps| - 1]), steps[|steps| - 1], k);
    }
  }

  /** With a backed last activity, the verdict can be recomputed after every run. */
  lemma VerdictCanBeRecomputed(cfg: Config, w: World, s: Step, rest: seq<Step>)
    requires RecordsActivity(cfg, w, s) && GuardedRun(cfg, Apply(cfg, w, s), rest, |w.store.incidents|)
    requires Backed(w.store, s.boot)
    ensures
      var k := |w.store.incidents|;
      var final := Run(cfg, Apply(cfg, w, s), rest).store;
      && k < |final.incidents| && final.incidents[k].reboot == s.boot
      && final.incidents[k].lastMetric == LastActivity(final, s.boot)
      && InferredAgain(cfg, w, s, final) == InferredAt(cfg, w, s)
      && final.incidents[k].duration == InferredAgain(cfg, w, s, final).gap
  {
    hide *;
    VerdictRecomputableIff(cfg, w, s, rest);
  }

  /* ---- runs in which it fails ---- */

  /** A boot; a cycle whose collectors all failed but which wrote the heartbeat; a new record in the log. */
  function BareBeat(boot: Time, beat: Time, record: LogRecord): World {
    World(EMPTY.(sessions := [NewSession(1, boot, boot)], heartbeat := Some(beat)), [record], 1, [boot], Some(beat), 1)
  }

  function BareBeatSteps(boot: Time, beat: Time, record: LogRecord): seq<Step> {
    [Startup(boot, boot, [], 0, false)] + [HighCycle(beat, 1, [], true, true)] + [Append([record])]
  }

  lemma FirstBoot(cfg: Config, boot: Time, s: Step)
    requires s == Startup(boot, boot, [], 0, false)
    ensures Apply(cfg, BEGINNING, s)
         == World(EMPTY.(sessions := [NewSession(1, boot, boot)]), [], 0, [boot], None, 0)
  {
    assert Opened(EMPTY, boot, boot) == [NewSession(1, boot, boot)];
  }

  lemma BareBeatIsReached(cfg: Config, boot: Time, beat: Time, record: LogRecord)
    ensures Run(cfg, BEGINNING, BareBeatSteps(boot, beat, record)) == BareBeat(boot, beat, record)
  {
    var first, high, append := Startup(boot, boot, [], 0, false), HighCycle(beat, 1, [], true, true), Append([record]);
    FirstBoot(cfg, boot, first);
    var booted := Apply(cfg, BEGINNING, first);
    var beaten := Apply(cfg, booted, high);
    RunOne(cfg, BEGINNING, first);
    RunConcat(cfg, BEGINNING, [first], [high]);
    RunOne(cfg, booted, high);
    RunConcat(cfg, BEGINNING, [first] + [high], [append]);
    RunOne(cfg, beaten, append);
  }

  lemma OneFetched(record: LogRecord)
    requires record.recordNumber >= 1
    ensures Fetched([record], [1], Cursor(0, 0.0)) == [record]
  {
    assert FreshCount([record], Cursor(0, 0.0)) == 1 + FreshCount([record][..0], Cursor(0, 0.0));
    assert Reach(1, [1], 0) == Reach(1, [1][1..], 1);
  }

  lemma RebootFacts(boot: Time, beat: Time, reboot: Time, record: LogRecord, s: Step)
    requires 0.0 < boot && reboot - boot >= SAME_BOOT_SECONDS && s == Startup(reboot, reboot, [1], 3, true)
    ensures BootOf(BareBeat(boot, beat, record), s) == BootFacts(reboot, Some(boot), Some(1), Some(false))
    ensures AfterDetection(BareBeat(boot, beat, record).store, s).events == []
  {
    hide Saw, Summarized;
    var st := BareBeat(boot, beat, record).store;
    SecondBoot(st, NewSession(1, boot, boot), reboot, reboot);
    NothingSeen(boot, reboot + BOOT_MARGIN_SECONDS);
  }

  lemma NothingSeen(start: Time, end: Time)
    ensures !Saw(EventsBetween([], start, end), ShutdownClean)
  {
  }

  lemma RebootTail(boot: Time, beat: Time, reboot: Time, record: LogRecord, s: Step)
    requires 0.0 < boot && reboot - boot >= SAME_BOOT_SECONDS && s == Startup(reboot, reboot, [1], 3, true)
    requires record.recordNumber >= 1
    ensures
      var w := BareBeat(boot, beat, record);
      AfterTailing(w.store, w.log, s).events
        == [RowOf(record).(sessionId := DetectedResult(w.store, reboot).sessionId)]
  {
    hide DetectedResult, Fetched, Detected;
    var w := BareBeat(boot, beat, record);
    RebootFacts(boot, beat, reboot, record, s);
    DetectionKeepsCursor(w.store, s);
    OneFetched(record);
    assert RowsOf([record]) == [RowOf(record)];
  }

  lemma DetectionKeepsCursor(st: Store, s: Step)
    requires s.Startup?
    ensures CursorOf(AfterDetection(st, s)) == CursorOf(st)
  {
  }

  /** What the startup after the reboot sees: one unexpected shutdown, and a predecessor not marked clean. */
  lemma RebootEvidence(cfg: Config, boot: Time, beat: Time, reboot: Time, record: LogRecord, s: Step)
    requires 0.0 < boot && reboot - boot >= SAME_BOOT_SECONDS && s == Startup(reboot, reboot, [1], 3, true)
    requires record.recordNumber >= 1 && Classify(RowOf(record)) == ShutdownUnexpected
    requires boot <= record.timeGenerated <= reboot + BOOT_MARGIN_SECONDS
    ensures
      var w := BareBeat(boot, beat, record);
      var tailed := AfterTailing(w.store, w.log, s);
      && BootOf(w, s) == BootFacts(reboot, Some(boot), Some(1), Some(false))
      && SawIn(tailed, BootOf(w, s), cfg, ShutdownUnexpected) && !SawIn(tailed, BootOf(w, s), cfg, BugCheck)
  {
    hide Classify, AfterTailing, DetectedResult, BootOf, Saw, EventsBetween, BareBeat;
    var w := BareBeat(boot, beat, record);
    var row := RowOf(record).(sessionId := DetectedResult(w.store, reboot).sessionId);
    RebootFacts(boot, beat, reboot, record, s);
    RebootTail(boot, beat, reboot, record, s);
    SessionIsNoEvidence(RowOf(record), row.sessionId);
    OnlyEvent(AfterTailing(w.store, w.log, s).events, row, boot, reboot + BOOT_MARGIN_SECONDS);
  }

  lemma OnlyEvent(events: seq<EventRow>, row: EventRow, start: Time, end: Time)
    requires events == [row] && start <= row.timestamp <= end && Classify(row) == ShutdownUnexpected
    ensures Saw(EventsBetween(events, start, end), ShutdownUnexpected) && !Saw(EventsBetween(events, start, end), BugCheck)
  {
    hide Classify;
    assert row in EventsBetween(events, start, end);
  }

  lemma BareActivity(boot: Time, beat: Time, record: LogRecord, reboot: Time)
    requires beat < reboot
    ensures
      var st := BareBeat(boot, beat, record).store;
      LastActivity(st, reboot) == Some(beat) && !Backed(st, reboot)
  {
    var st := BareBeat(boot, beat, record).store;
    LatestInIsMax(st.metrics, ACTIVITY_TABLES, reboot);
    forall t, time ensures !RowAt(st.metrics, t, time) {
    }
  }

  lemma UnexpectedIsUnexplained(st: Store, b: BootFacts, cfg: Config)
    requires b.previousSessionClean == Some(false)
    requires SawIn(st, b, cfg, ShutdownUnexpected) && !SawIn(st, b, cfg, BugCheck)
    ensures Unexplained(Signals(st, b, cfg)) && Diagnosed(st, b, cfg).incident.Some?
  {
    hide SawIn, Summarized;
    SignalsMeanEvents(st, b, cfg);
    IncidentIff(st, b, cfg);
  }

  lemma LaterBeatIsGuarded(cfg: Config, w: World, k: nat, beat: Step)
    requires k < |w.store.incidents| && IsBeat(beat) && w.store.incidents[k].reboot <= beat.now
    ensures GuardedRun(cfg, w, [beat], k) && BeatsIn([beat])
  {
    hide Apply;
    assert [beat][..0] == [];
    assert Run(cfg, w, []) == w;
    assert IsBeat([beat][0]);
  }

  /** It does fail: a boot, a cycle that stores nothing but its heartbeat, an unexpected shutdown, and a startup that
      records the incident with that heartbeat as its last activity.  The next heartbeat overwrites the only witness:
      neither the last activity nor the inference comes out again. */
  lemma BareBeatIsLost(cfg: Config, boot: Time, beat: Time, reboot: Time, record: LogRecord, s: Step, next: Step)
    requires 0.0 < boot && reboot - boot >= SAME_BOOT_SECONDS && 0.0 < beat < reboot
    requires record.recordNumber >= 1 && Classify(RowOf(record)) == ShutdownUnexpected
    requires boot <= record.timeGenerated <= reboot + BOOT_MARGIN_SECONDS
    requires s == Startup(reboot, reboot, [1], 3, true) && IsBeat(next) && reboot <= next.now
    ensures
      var w := Run(cfg, BEGINNING, BareBeatSteps(boot, beat, record));
      var final := Run(cfg, Apply(cfg, w, s), [next]).store;
      && RecordsActivity(cfg, w, s) && GuardedRun(cfg, Apply(cfg, w, s), [next], |w.store.incidents|)
      && |w.store.incidents| < |final.incidents| && final.incidents[|w.store.incidents|].lastMetric == Some(beat)
      && LastActivity(final, reboot) != Some(beat)
      && InferredAgain(cfg, w, s, final) != InferredAt(cfg, w, s)
  {
    hide Run, Apply, LastActivity, InferredAgain, InferredAt, Backed, Unexplained, AfterTailing, SawIn, GuardedRun, BeatsIn,
         BareBeatSteps, Signals, Diagnosed, BootOf, Classify;
    var w := BareBeat(boot, beat, record);
    BareBeatIsReached(cfg, boot, beat, record);
    RebootEvidence(cfg, boot, beat, reboot, record, s);
    UnexpectedIsUnexplained(AfterTailing(w.store, w.log, s), BootOf(w, s), cfg);
    BareActivity(boot, beat, record, reboot);
    assert RecordsActivity(cfg, w, s);
    RecordingWorld(cfg, w, s);
    LaterBeatIsGuarded(cfg, Apply(cfg, w, s), 0, next);
    IncidentOverRuns(cfg, Apply(cfg, w, s), [next], 0);
    VerdictRecomputableIff(cfg, w, s, [next]);
  }

  /* ---- the scheduler's loop meets the condition ---- */

  lemma {:induction false} WitnessingConcat(cfg: Config, w: World, a: seq<Step>, b: seq<Step>)
    requires WitnessingRun(cfg, w, a) && WitnessingRun(cfg, Run(cfg, w, a), b)
    ensures WitnessingRun(cfg, w, a + b)
  {
    hide Apply, WitnessingStep;
    if b == [] {
      assert a + b == a;
    } else {
      assert (a + b)[..|a + b| - 1] == a + b[..|b| - 1];
      WitnessingConcat(cfg, w, a, b[..|b| - 1]);
      RunConcat(cfg, w, a, b[..|b| - 1]);
    }
  }

  lemma WitnessingOne(cfg: Config, w: World, s: Step)
    requires WitnessingStep(w, s)
    ensures WitnessingRun(cfg, w, [s])
  {
    hide Apply, WitnessingStep;
    assert [s][..0] == [];
    assert Run(cfg, w, []) == w;
  }

  /** A turn that succeeds in what is due: the high cycle stores an activity row and its heartbeat, and the prune's clock is
      read at most `lag` after the turn's. */
  ghost predicate VitalTick(cfg: Config, st: LoopState, t: Tick, lag: real) {
    && cfg.interval <= t.now && t.pruneClock <= t.now + lag
    && (HighDue(cfg, st, t.now) ==>
          t.highOk && exists table :: table in ACTIVITY_TABLES && Added(t.high, table, t.now, t.sessionId) != [])
  }

  ghost predicate Vital(cfg: Config, st: LoopState, ticks: seq<Tick>, lag: real) {
    ticks == []
    || (Vital(cfg, st, ticks[..|ticks| - 1], lag)
        && VitalTick(cfg, StateAfter(cfg, st, ticks[..|ticks| - 1]), ticks[|ticks| - 1], lag))
  }

  /** The stored heartbeat is that of the loop's last cycle; before the first one, the loop has never cycled. */
  predicate InBeat(w: World, st: LoopState) {
    if st.cycled then w.store.heartbeat == Some(st.lastHigh) else st.lastHigh == 0.0
  }

  lemma WitnessingHigh(cfg: Config, w: World, st: LoopState, t: Tick, lag: real)
    requires InBeat(w, st) && VitalTick(cfg, st, t, lag) && cfg.interval >= 0.0
    ensures
      var w' := Run(cfg, w, HighSteps(cfg, st, t));
      && WitnessingRun(cfg, w, HighSteps(cfg, st, t))
      && w'.store.heartbeat.Some? && t.now - cfg.interval <= w'.store.heartbeat.value
      && AfterTick(cfg, st, t).cycled && w'.store.heartbeat.value == AfterTick(cfg, st, t).lastHigh
  {
    hide Apply, WitnessingRun, Run;
    if HighDue(cfg, st, t.now) {
      var s := HighCycle(t.now, t.sessionId, t.high, !st.cycled, t.highOk);
      assert HighSteps(cfg, st, t) == [s];
      WitnessingOne(cfg, w, s);
      RunOne(cfg, w, s);
      HeartbeatOfStep(cfg, w, s);
    } else {
      NoSteps(cfg, w);
    }
  }

  lemma NoSteps(cfg: Config, w: World)
    ensures Run(cfg, w, []) == w && WitnessingRun(cfg, w, [])
  {
  }

  lemma WitnessingLow(cfg: Config, w: World, st: LoopState, t: Tick, lag: real)
    requires VitalTick(cfg, st, t, lag) && 0.0 <= cfg.interval <= cfg.retentionHours * 3600.0 - lag
    requires w.store.heartbeat.Some? && t.now - cfg.interval <= w.store.heartbeat.value
    ensures WitnessingRun(cfg, w, LowSteps(cfg, st, t))
    ensures Run(cfg, w, LowSteps(cfg, st, t)).store.heartbeat == w.store.heartbeat
  {
    hide Apply, WitnessingRun, Run, RetentionDue, HighDue;
    var low := LowCycle(t.now, t.sessionId, t.low, t.sizes, t.commits);
    var prune := Prune(t.pruneClock, cfg.retentionHours, t.listed, t.failed);
    var slow := Apply(cfg, w, low);
    NoSteps(cfg, w);
    NoSteps(cfg, slow);
    LowThenPrune(cfg, w, low, prune);
    HeartbeatOfStep(cfg, w, low);
    HeartbeatOfStep(cfg, slow, prune);
    WitnessingOne(cfg, w, low);
    WitnessingOne(cfg, slow, prune);
    WitnessingConcat(cfg, w, [low], [prune]);
    WitnessingConcat(cfg, w, [low], []);
  }

  lemma WitnessingTick(cfg: Config, w: World, st: LoopState, t: Tick, lag: real)
    requires InBeat(w, st) && VitalTick(cfg, st, t, lag) && 0.0 <= cfg.interval <= cfg.retentionHours * 3600.0 - lag
    ensures WitnessingRun(cfg, w, TickSteps(cfg, st, t))
    ensures InBeat(Run(cfg, w, TickSteps(cfg, st, t)), AfterTick(cfg, st, t))
  {
    hide Apply, WitnessingRun, Run, HighSteps, LowSteps, VitalTick, AfterTick;
    var append := Append(t.arrived);
    var arrived := Apply(cfg, w, append);
    var high, low := HighSteps(cfg, st, t), LowSteps(cfg, st, t);
    HeartbeatOfStep(cfg, w, append);
    WitnessingOne(cfg, w, append);
    RunOne(cfg, w, append);
    WitnessingHigh(cfg, arrived, st, t, lag);
    WitnessingConcat(cfg, w, [append], high);
    RunConcat(cfg, w, [append], high);
    WitnessingLow(cfg, Run(cfg, arrived, high), st, t, lag);
    WitnessingConcat(cfg, w, [append] + high, low);
    RunConcat(cfg, w, [append] + high, low);
  }

  /** A vital loop, whatever its clock does, only takes steps that keep its heartbeat backed by a row. */
  lemma {:induction false} WitnessingTicks(cfg: Config, w: World, st: LoopState, ticks: seq<Tick>, lag: real)
    requires InBeat(w, st) && Vital(cfg, st, ticks, lag) && 0.0 <= cfg.interval <= cfg.retentionHours * 3600.0 - lag
    ensures WitnessingRun(cfg, w, StepsOf(cfg, st, ticks))
    ensures InBeat(Run(cfg, w, StepsOf(cfg, st, ticks)), StateAfter(cfg, st, ticks))
  {
    hide Apply, TickSteps, VitalTick, InBeat, AfterTick;
    if ticks == [] {
      NoSteps(cfg, w);
    } else {
      var before, t := ticks[..|ticks| - 1], ticks[|ticks| - 1];
      var st' := StateAfter(cfg, st, before);
      WitnessingTicks(cfg, w, st, before, lag);
      WitnessingTick(cfg, Run(cfg, w, StepsOf(cfg, st, before)), st', t, lag);
      WitnessingConcat(cfg, w, StepsOf(cfg, st, before), TickSteps(cfg, st', t));
      RunConcat(cfg, w, StepsOf(cfg, st, before), TickSteps(cfg, st', t));
    }
  }

  /** One life of the agent: a startup, then a scheduler loop. */
  datatype Life = Life(startup: Step, lastRetention: Time, ticks: seq<Tick>)

  ghost predicate VitalLife(cfg: Config, life: Life, lag: real) {
    life.startup.Startup? && Vital(cfg, Fresh(life.lastRetention), life.ticks, lag)
  }

  function Lived(cfg: Config, w: World, life: Life): World {
    Run(cfg, Apply(cfg, w, life.startup), StepsOf(cfg, Fresh(life.lastRetention), life.ticks))
  }

  function AfterLives(cfg: Config, lives: seq<Life>): World {
    if lives == [] then BEGINNING else Lived(cfg, AfterLives(cfg, lives[..|lives| - 1]), lives[|lives| - 1])
  }

  lemma LifeKeepsWitness(cfg: Config, w: World, life: Life, lag: real)
    requires BeatWitnessed(w.store) && VitalLife(cfg, life, lag)
    requires 0.0 <= cfg.interval <= cfg.retentionHours * 3600.0 - lag
    ensures BeatWitnessed(Lived(cfg, w, life).store)
  {
    hide Apply, BeatWitnessed, Run, Vital;
    WitnessStep(cfg, w, life.startup);
    WitnessingTicks(cfg, Apply(cfg, w, life.startup), Fresh(life.lastRetention), life.ticks, lag);
    WitnessOverRuns(cfg, Apply(cfg, w, life.startup), StepsOf(cfg, Fresh(life.lastRetention), life.ticks));
  }

  /** After any number of vital lives, what the next startup records is backed by a stored row, if retention keeps at least
      one interval and the prune's lag; so its verdict can always be recomputed. */
  lemma {:induction false} LivesKeepEvidence(cfg: Config, lives: seq<Life>, lag: real)
    requires forall i :: 0 <= i < |lives| ==> VitalLife(cfg, lives[i], lag)
    requires 0.0 <= cfg.interval <= cfg.retentionHours * 3600.0 - lag
    ensures BeatWitnessed(AfterLives(cfg, lives).store)
    ensures forall boot :: LastActivity(AfterLives(cfg, lives).store, boot).Some? ==>
              Backed(AfterLives(cfg, lives).store, boot)
  {
    hide VitalLife, Lived, BeatWitnessed, LastActivity, Backed;
    if lives == [] {
      NoBeatIsWitnessed();
    } else {
      LivesKeepEvidence(cfg, lives[..|lives| - 1], lag);
      LifeKeepsWitness(cfg, AfterLives(cfg, lives[..|lives| - 1]), lives[|lives| - 1], lag);
    }
    forall boot | LastActivity(AfterLives(cfg, lives).store, boot).Some? ensures Backed(AfterLives(cfg, lives).store, boot) {
      WitnessedIsBacked(AfterLives(cfg, lives).store, boot);
    }
  }

  lemma NoBeatIsWitnessed()
    ensures BeatWitnessed(BEGINNING.store)
  {
  }

  lemma WitnessedIsBacked(st: Store, boot: Time)
    requires BeatWitnessed(st) && LastActivity(st, boot).Some?
    ensures Backed(st, boot)
  {
    hide BeatWitnessed, IsLastRow, LastActivity;
    WitnessedIsReproducible(st, boot);
  }
}
