/** simulation/scenarios.py and simulation/runner.py: the four synthetic incidents, with free parameters, against the
    real detection and diagnosis. */
module Scenarios {
  import opened Prelude
  import opened Intervals
  import opened Storage
  import opened Configuration
  import opened EventAnalyzer
  import opened Termination
  import opened BootDetector
  import opened Diagnosis
  import opened EngineSpec
  import opened ProviderText

  const COLLECTION_INTERVAL := 30.0

  /** CPU, memory, disk and temperature as functions of time. */
  datatype Levels = Levels(cpu: Time -> real, memory: Time -> real, disk: Time -> real, temperature: Time -> real)

  datatype Scenario = Scenario(prevBoot: Time, boot: Time, lastActivity: Time, events: seq<EventRow>,
                               snapshots: seq<(Time, Snapshot)>, heartbeats: seq<Time>)

  function SimEvent(time: Time, provider: string, id: int): EventRow {
    EventRow(time, 0, Some(provider), Some(id), 0, None, 0)
  }

  /* ---- streams ---- */

  function Sample(ts: Time, levels: Levels): Snapshot {
    [(Cpu, [Some(levels.cpu(ts))]), (Memory, [Some(levels.memory(ts))]), (Disk, [Some(levels.disk(ts))]),
     (Uptime, [None]), (Process, [None]), (Temperature, [Some(levels.temperature(ts))])]
  }

  /** Every 30 seconds from start, up to the end. */
  function Stamps(start: Time, end: Time): seq<Time> {
    seq(Slots(end - start, COLLECTION_INTERVAL), i requires i >= 0 => start + COLLECTION_INTERVAL * i as real)
  }

  function Samples(stamps: seq<Time>, levels: Levels): (r: seq<(Time, Snapshot)>)
    ensures |r| == |stamps|
  {
    seq(|stamps|, i requires 0 <= i < |stamps| => (stamps[i], Sample(stamps[i], levels)))
  }

  method HeartbeatStream(start: Time, end: Time) returns (values: seq<Time>)
    ensures values == Stamps(start, end)
  {
    values := [];
    var ts := start;
    while ts <= end
      invariant ts == start + COLLECTION_INTERVAL * |values| as real
      invariant |values| + Slots(end - ts, COLLECTION_INTERVAL) == Slots(end - start, COLLECTION_INTERVAL)
      invariant forall i :: 0 <= i < |values| ==> values[i] == start + COLLECTION_INTERVAL * i as real
      decreases Slots(end - ts, COLLECTION_INTERVAL)
    {
      values := values + [ts];
      assert end - ts - COLLECTION_INTERVAL == end - (ts + COLLECTION_INTERVAL);
      ts := ts + COLLECTION_INTERVAL;
    }
  }

  method MetricStream(start: Time, end: Time, levels: Levels) returns (snapshots: seq<(Time, Snapshot)>)
    ensures snapshots == Samples(Stamps(start, end), levels)
  {
    snapshots := [];
    var ts := start;
    while ts <= end
      invariant ts == start + COLLECTION_INTERVAL * |snapshots| as real
      invariant |snapshots| + Slots(end - ts, COLLECTION_INTERVAL) == Slots(end - start, COLLECTION_INTERVAL)
      invariant forall i :: 0 <= i < |snapshots| ==>
        snapshots[i] == (Stamps(start, end)[i], Sample(Stamps(start, end)[i], levels))
      decreases Slots(end - ts, COLLECTION_INTERVAL)
    {
      snapshots := snapshots + [(ts, Sample(ts, levels))];
      assert end - ts - COLLECTION_INTERVAL == end - (ts + COLLECTION_INTERVAL);
      ts := ts + COLLECTION_INTERVAL;
    }
  }

  /** A stream is never empty, starts at the start, has an instant every 30 seconds, and ends less than 30 seconds short of
      the requested end. */
  lemma StreamReachesEnd(start: Time, end: Time)
    requires start <= end
    ensures
      var stamps := Stamps(start, end);
      && stamps != [] && stamps[0] == start && end - 30.0 < stamps[|stamps| - 1] <= end
      && (forall i :: 0 <= i < |stamps| ==> stamps[i] == start + 30.0 * i as real)
      && forall i :: 0 <= i < |stamps| ==> start <= stamps[i] <= stamps[|stamps| - 1]
  {
    LastSlot(end - start);
  }

  lemma {:induction false} LastSlot(length: real)
    requires length >= 0.0
    ensures
      var n := Slots(length, COLLECTION_INTERVAL) as real;
      n >= 1.0 && COLLECTION_INTERVAL * (n - 1.0) <= length < COLLECTION_INTERVAL * n
    decreases Slots(length, COLLECTION_INTERVAL)
  {
    if length >= COLLECTION_INTERVAL {
      LastSlot(length - COLLECTION_INTERVAL);
    } else {
      assert Slots(length - COLLECTION_INTERVAL, COLLECTION_INTERVAL) == 0;
    }
  }

  /** A sample stores one row of each level in its own table, and rows without a level for uptime and process. */
  lemma SampleStores(ts: Time, levels: Levels, sessionId: int, t: Table, row: MetricRow)
    ensures row in Added(Sample(ts, levels), t, ts, sessionId) <==>
              && row.timestamp == ts && row.sessionId == sessionId
              && match t
                 case Cpu => row.value == Some(levels.cpu(ts))
                 case Memory => row.value == Some(levels.memory(ts))
                 case Disk => row.value == Some(levels.disk(ts))
                 case Temperature => row.value == Some(levels.temperature(ts))
                 case Uptime => row.value == None
                 case Process => row.value == None
                 case Gpu => false
  {
    var s := Sample(ts, levels);
    AddedMeans(s, t, ts, sessionId, row);
    assert |s| == 6;
    assert Carries(s, t, row.value) <==>
             || (s[0].0 == t && row.value in s[0].1) || (s[1].0 == t && row.value in s[1].1)
             || (s[2].0 == t && row.value in s[2].1) || (s[3].0 == t && row.value in s[3].1)
             || (s[4].0 == t && row.value in s[4].1) || (s[5].0 == t && row.value in s[5].1);
  }

  /* ---- events ---- */

  /** _boot_events without the user-initiated restart, which no scenario asks for. */
  function BootEvents(boot: Time, kernelPower: bool, bugcheck: bool): seq<EventRow> {
    [SimEvent(boot + 4.0, "EventLog", 6009), SimEvent(boot + 4.0, "EventLog", 6005),
     SimEvent(boot + 4.0, "EventLog", 6013)]
    + (if kernelPower then [SimEvent(boot, "Microsoft-Windows-Kernel-Power", 41)] else [])
    + (if bugcheck then [SimEvent(boot, "BugCheck", 1001)] else [])
    + [SimEvent(boot + 7.0, "Microsoft-Windows-Kernel-Power", 109)]
  }

  function CrashEvents(prevBoot: Time, boot: Time, kernelPower: bool, bugcheck: bool): seq<EventRow> {
    BootEvents(boot, kernelPower, bugcheck) + [SimEvent(prevBoot + 2.0, "EventLog", 6005)]
  }

  function RestartEvents(prevBoot: Time, boot: Time): seq<EventRow> {
    [SimEvent(prevBoot + 2.0, "EventLog", 6005),
     SimEvent(boot - 15.0, "User32", 1074), SimEvent(boot - 15.0, "EventLog", 6006),
     SimEvent(boot - 8.0, "Microsoft-Windows-Kernel-Power", 109),
     SimEvent(boot - 6.0, "Microsoft-Windows-Kernel-Power", 172),
     SimEvent(boot - 4.0, "Microsoft-Windows-Kernel-Power", 521),
     SimEvent(boot + 4.0, "EventLog", 6009), SimEvent(boot + 4.0, "EventLog", 6005),
     SimEvent(boot + 4.0, "EventLog", 6013),
     SimEvent(boot + 7.0, "Microsoft-Windows-Kernel-Power", 109)]
  }

  /* ---- scenarios and the run ---- */

  function Timeline(prevBoot: Time, boot: Time, last: Time, levels: Levels, events: seq<EventRow>): Scenario {
    Scenario(prevBoot, boot, last, events, Samples(Stamps(prevBoot, last), levels), Stamps(prevBoot, last))
  }

  /** Kernel-Power 41 after recorded activity: a hard hang or a power loss, by the length of the silence. */
  function PowerScenario(prevBoot: Time, boot: Time, last: Time, levels: Levels): Scenario {
    Timeline(prevBoot, boot, last, levels, CrashEvents(prevBoot, boot, true, false))
  }

  function BsodScenario(prevBoot: Time, boot: Time, last: Time, levels: Levels): Scenario {
    Timeline(prevBoot, boot, last, levels, CrashEvents(prevBoot, boot, false, true))
  }

  function RestartScenario(prevBoot: Time, boot: Time, last: Time, levels: Levels): Scenario {
    Timeline(prevBoot, boot, last, levels, RestartEvents(prevBoot, boot))
  }

  function SeededMetrics(snapshots: seq<(Time, Snapshot)>): Metrics {
    if snapshots == [] then map[]
    else
      var last := snapshots[|snapshots| - 1];
      Inserted(SeededMetrics(snapshots[..|snapshots| - 1]), last.1, last.0, 1)
  }

  function Seeded(sc: Scenario): Store {
    EMPTY.(sessions := [NewSession(1, sc.prevBoot, sc.prevBoot)],
           events := Stamped(sc.events, 1),
           metrics := SeededMetrics(sc.snapshots),
           heartbeat := if sc.heartbeats == [] then None else Some(sc.heartbeats[|sc.heartbeats| - 1]))
  }

  method Seed(db: Database, sc: Scenario)
    requires db.View() == EMPTY
    modifies db
    ensures db.View() == Seeded(sc)
  {
    var id := db.CreateSession(sc.prevBoot, sc.prevBoot);
    assert db.sessions == [NewSession(1, sc.prevBoot, sc.prevBoot)];
    var _ := db.InsertEvents(sc.events, id);
    for i := 0 to |sc.snapshots|
      invariant db.View() == EMPTY.(sessions := [NewSession(1, sc.prevBoot, sc.prevBoot)],
                                    events := Stamped(sc.events, 1), metrics := SeededMetrics(sc.snapshots[..i]))
    {
      assert sc.snapshots[..i + 1][..i] == sc.snapshots[..i];
      var _ := db.InsertSnapshot(sc.snapshots[i].1, sc.snapshots[i].0, id);
    }
    assert sc.snapshots[..|sc.snapshots|] == sc.snapshots;
    for i := 0 to |sc.heartbeats|
      invariant db.View() == Seeded(sc).(heartbeat := if i == 0 then None else Some(sc.heartbeats[i - 1]))
    {
      db.UpdateHeartbeat(sc.heartbeats[i]);
    }
  }

  function BootOf(sc: Scenario): BootFacts {
    FactsOf(DetectedResult(Seeded(sc), sc.boot))
  }

  function StoreAtDiagnosis(sc: Scenario): Store {
    Detected(Seeded(sc), sc.boot, sc.boot)
  }

  function Simulated(sc: Scenario, cfg: Config): Verdict {
    Diagnosed(StoreAtDiagnosis(sc), BootOf(sc), cfg)
  }

  method RunSimulation(sc: Scenario, cfg: Config) returns (v: Verdict, boot: BootResult)
    requires cfg.interval > 0.0
    ensures v == Announced(StoreAtDiagnosis(sc), Simulated(sc, cfg))
    ensures boot == DetectedResult(Seeded(sc), sc.boot)
  {
    var db := new Database();
    Seed(db, sc);
    var detected := DetectBoot(db, sc.boot, sc.boot, 3);
    boot := detected.value;
    v := RunDiagnosis(db, FactsOf(boot), cfg, true);
  }
}
