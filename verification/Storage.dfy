/** storage/database.py: the tables, the locked calls, and what each commit leaves behind. */
module Storage {
  import opened Prelude

  datatype Table = Cpu | Memory | Disk | Gpu | Temperature | Process | Uptime

  const METRIC_TABLES: seq<Table> := [Cpu, Memory, Disk, Gpu, Temperature, Process, Uptime]

  /** A metric row keeps the one column the engine aggregates (NULL when the table has none). */
  datatype MetricRow = MetricRow(timestamp: Time, sessionId: int, value: Option<real>)

  type Metrics = map<Table, seq<MetricRow>>

  /** What one collection cycle hands over: rows per table, in the order of the snapshot. */
  type Snapshot = seq<(Table, seq<Option<real>>)>

  /** `origin` is the identity of the log record the row was copied from; no code reads it. */
  datatype EventRow = EventRow(timestamp: Time, sessionId: int, provider: Option<string>,
                               eventId: Option<int>, recordId: int, message: Option<string>, origin: nat)

  datatype Session = Session(sessionId: int, bootTime: Time, previousBootTime: Option<Time>,
                             uptimeBeforeBoot: Option<real>, previousSessionClean: Option<bool>,
                             unexpectedShutdown: Option<bool>, kernelPowerDetected: Option<bool>,
                             bugcheckDetected: Option<bool>, createdAt: Time)

  /** The keyword arguments of update_session; None is "not passed". */
  datatype SessionPatch = SessionPatch(previousBootTime: Option<Time>, uptimeBeforeBoot: Option<real>,
                                       previousSessionClean: Option<bool>, unexpectedShutdown: Option<bool>,
                                       kernelPowerDetected: Option<bool>, bugcheckDetected: Option<bool>)

  datatype Level = Low | Medium | High

  datatype FindingKind =
    | HardwareError | DiskProblem | GpuProblem | ThermalProblem | MemoryPressure | CpuPressure
    | PossibleHardHang | PossiblePowerLoss | PossibleCrash | InsufficientEvidence

  datatype Finding = Finding(kind: FindingKind, severity: Level, confidence: Level)

  datatype IncidentType = HardHang | Bsod | UnexpectedReboot | PowerLoss | UnknownType

  datatype Incident = Incident(incidentId: int, detectedAt: Time, incidentType: IncidentType, confidence: Level,
                               previousSessionId: Option<int>, lastMetric: Option<Time>, reboot: Time,
                               duration: Option<real>, findings: seq<Finding>)

  /** The whole database as one value. */
  datatype Store = Store(sessions: seq<Session>, events: seq<EventRow>,
                         lastRecordId: Option<int>, lastEventTime: Option<Time>,
                         metrics: Metrics, heartbeat: Option<Time>, incidents: seq<Incident>)

  const EMPTY: Store := Store([], [], None, None, map[], None, [])

  /* ---- metric rows ---- */

  function Rows(m: Metrics, t: Table): seq<MetricRow> {
    if t in m then m[t] else []
  }

  function NewRows(values: seq<Option<real>>, timestamp: Time, sessionId: int): (r: seq<MetricRow>)
    ensures |r| == |values|
    ensures forall row :: row in r ==> row.timestamp == timestamp && row.sessionId == sessionId
  {
    seq(|values|, i requires 0 <= i < |values| => MetricRow(timestamp, sessionId, values[i]))
  }

  function Appended(m: Metrics, t: Table, values: seq<Option<real>>, timestamp: Time, sessionId: int): Metrics {
    if values == [] then m
    else m[t := Rows(m, t) + NewRows(values, timestamp, sessionId)]
  }

  /** Rows go in one statement at a time. */
  lemma AppendedOneMore(m: Metrics, t: Table, values: seq<Option<real>>, v: Option<real>, timestamp: Time, sessionId: int)
    ensures
      var m' := Appended(m, t, values, timestamp, sessionId);
      var row := MetricRow(timestamp, sessionId, v);
      Appended(m, t, values + [v], timestamp, sessionId) == m'[t := Rows(m', t) + [row]]
  {
    assert NewRows(values + [v], timestamp, sessionId)
        == NewRows(values, timestamp, sessionId) + [MetricRow(timestamp, sessionId, v)];
    if values == [] {
      assert NewRows(values + [v], timestamp, sessionId) == [MetricRow(timestamp, sessionId, v)];
    } else {
      assert Rows(m, t) + (NewRows(values, timestamp, sessionId) + [MetricRow(timestamp, sessionId, v)])
          == (Rows(m, t) + NewRows(values, timestamp, sessionId)) + [MetricRow(timestamp, sessionId, v)];
    }
  }

  function Inserted(m: Metrics, snapshot: Snapshot, timestamp: Time, sessionId: int): Metrics {
    if snapshot == [] then m
    else
      var last := snapshot[|snapshot| - 1];
      Appended(Inserted(m, snapshot[..|snapshot| - 1], timestamp, sessionId), last.0, last.1, timestamp, sessionId)
  }

  /** The rows a snapshot adds to one table. */
  function Added(snapshot: Snapshot, t: Table, timestamp: Time, sessionId: int): (r: seq<MetricRow>)
    ensures forall row :: row in r ==> row.timestamp == timestamp && row.sessionId == sessionId
  {
    if snapshot == [] then []
    else
      var last := snapshot[|snapshot| - 1];
      var rest := Added(snapshot[..|snapshot| - 1], t, timestamp, sessionId);
      if last.0 == t then rest + NewRows(last.1, timestamp, sessionId) else rest
  }

  /** Storing a snapshot only appends, and only rows stamped with the cycle's own clock reading. */
  lemma {:induction false} InsertOnlyAppends(m: Metrics, snapshot: Snapshot, timestamp: Time, sessionId: int, t: Table)
    ensures Rows(Inserted(m, snapshot, timestamp, sessionId), t)
         == Rows(m, t) + Added(snapshot, t, timestamp, sessionId)
  {
    if snapshot != [] {
      InsertOnlyAppends(m, snapshot[..|snapshot| - 1], timestamp, sessionId, t);
      assert NewRows([], timestamp, sessionId) == [];
    }
  }

  /** The snapshot has this value for this table. */
  ghost predicate Carries(snapshot: Snapshot, t: Table, value: Option<real>) {
    exists i :: 0 <= i < |snapshot| && snapshot[i].0 == t && value in snapshot[i].1
  }

  /** The rows a snapshot adds to a table are exactly its values for that table, stamped with the cycle. */
  lemma {:induction false} AddedMeans(snapshot: Snapshot, t: Table, timestamp: Time, sessionId: int, row: MetricRow)
    ensures row in Added(snapshot, t, timestamp, sessionId) <==>
              row.timestamp == timestamp && row.sessionId == sessionId && Carries(snapshot, t, row.value)
  {
    if snapshot != [] {
      var rest, last := snapshot[..|snapshot| - 1], snapshot[|snapshot| - 1];
      AddedMeans(rest, t, timestamp, sessionId, row);
      NewRowsMean(last.1, timestamp, sessionId, row);
      CarriesMore(rest, last, t, row.value);
      assert snapshot == rest + [last];
    }
  }

  lemma NewRowsMean(values: seq<Option<real>>, timestamp: Time, sessionId: int, row: MetricRow)
    ensures row in NewRows(values, timestamp, sessionId) <==>
              row.timestamp == timestamp && row.sessionId == sessionId && row.value in values
  {
    var rows := NewRows(values, timestamp, sessionId);
    if row.timestamp == timestamp && row.sessionId == sessionId && row.value in values {
      var i :| 0 <= i < |values| && values[i] == row.value;
      assert rows[i] == row;
    }
  }

  lemma CarriesMore(rest: Snapshot, last: (Table, seq<Option<real>>), t: Table, value: Option<real>)
    ensures Carries(rest + [last], t, value) <==> Carries(rest, t, value) || (last.0 == t && value in last.1)
  {
    var snapshot := rest + [last];
    if Carries(rest, t, value) {
      var i :| 0 <= i < |rest| && rest[i].0 == t && value in rest[i].1;
      assert snapshot[i] == rest[i];
    }
    if last.0 == t && value in last.1 {
      assert snapshot[|rest|] == last;
    }
  }

  function RowCount(snapshot: Snapshot): nat {
    if snapshot == [] then 0
    else RowCount(snapshot[..|snapshot| - 1]) + |snapshot[|snapshot| - 1].1|
  }

  /* ---- events ---- */

  function Stamped(rows: seq<EventRow>, sessionId: int): (r: seq<EventRow>)
    ensures |r| == |rows|
  {
    seq(|rows|, i requires 0 <= i < |rows| => rows[i].(sessionId := sessionId))
  }

  function Between(start: Time, end: Time): EventRow -> bool {
    (e: EventRow) => start <= e.timestamp <= end
  }

  function EventsBetween(events: seq<EventRow>, start: Time, end: Time): seq<EventRow> {
    Filter(events, Between(start, end))
  }

  /* ---- sessions ---- */

  /** ORDER BY session_id DESC LIMIT 1, over all rows or those with a smaller id. */
  function Highest(sessions: seq<Session>, below: Option<int>): Option<Session> {
    if sessions == [] then None
    else
      var last := sessions[|sessions| - 1];
      var rest := Highest(sessions[..|sessions| - 1], below);
      if (below.Some? ==> last.sessionId < below.value) && (rest.Some? ==> rest.value.sessionId < last.sessionId)
      then Some(last) else rest
  }

  function NextSessionId(sessions: seq<Session>): int {
    var latest := Highest(sessions, None);
    if latest.None? then 1 else latest.value.sessionId + 1
  }

  function NewSession(sessionId: int, bootTime: Time, createdAt: Time): Session {
    Session(sessionId, bootTime, None, None, None, None, None, None, createdAt)
  }

  function Patch<T>(old_: Option<T>, new_: Option<T>): Option<T> {
    if new_.Some? then new_ else old_
  }

  function PatchedRow(s: Session, p: SessionPatch): Session {
    s.(previousBootTime := Patch(s.previousBootTime, p.previousBootTime),
       uptimeBeforeBoot := Patch(s.uptimeBeforeBoot, p.uptimeBeforeBoot),
       previousSessionClean := Patch(s.previousSessionClean, p.previousSessionClean),
       unexpectedShutdown := Patch(s.unexpectedShutdown, p.unexpectedShutdown),
       kernelPowerDetected := Patch(s.kernelPowerDetected, p.kernelPowerDetected),
       bugcheckDetected := Patch(s.bugcheckDetected, p.bugcheckDetected))
  }

  function Patched(sessions: seq<Session>, sessionId: int, p: SessionPatch): (r: seq<Session>)
    ensures |r| == |sessions|
  {
    seq(|sessions|, i requires 0 <= i < |sessions| =>
      if sessions[i].sessionId == sessionId then PatchedRow(sessions[i], p) else sessions[i])
  }

  /** Ids are handed out 1, 2, 3, ... and rows are never deleted. */
  ghost predicate NumberedSessions(sessions: seq<Session>) {
    forall i :: 0 <= i < |sessions| ==> sessions[i].sessionId == i + 1
  }

  lemma {:induction false} HighestIsLast(sessions: seq<Session>)
    requires NumberedSessions(sessions)
    ensures Highest(sessions, None) == if sessions == [] then None else Some(sessions[|sessions| - 1])
    ensures NextSessionId(sessions) == |sessions| + 1
  {
    if |sessions| > 1 {
      HighestIsLast(sessions[..|sessions| - 1]);
    }
  }

  lemma {:induction false} HighestBelowIsPredecessor(sessions: seq<Session>, id: int)
    requires NumberedSessions(sessions) && 1 <= id <= |sessions| + 1
    ensures Highest(sessions, Some(id)) == if id == 1 then None else Some(sessions[id - 2])
  {
    if sessions != [] {
      var rest := sessions[..|sessions| - 1];
      if id <= |sessions| {
        HighestBelowIsPredecessor(rest, id);
      } else if |sessions| > 1 {
        HighestBelowIsPredecessor(rest, id - 1);
        assert Highest(rest, Some(id)) == Some(rest[|rest| - 1]) by {
          HighestBelowIsPredecessor(rest, |rest| + 1);
          HighestBoundIrrelevant(rest, |rest| + 1, id);
        }
      }
    }
  }

  /** Bounds past every id select alike. */
  lemma {:induction false} HighestBoundIrrelevant(sessions: seq<Session>, a: int, b: int)
    requires forall i :: 0 <= i < |sessions| ==> sessions[i].sessionId < a && sessions[i].sessionId < b
    ensures Highest(sessions, Some(a)) == Highest(sessions, Some(b))
  {
    if sessions != [] {
      HighestBoundIrrelevant(sessions[..|sessions| - 1], a, b);
    }
  }

  /* ---- incidents ---- */

  /** ORDER BY incident_id DESC LIMIT n: ids grow with the position of the row. */
  function Newest(incidents: seq<Incident>, limit: nat): seq<Incident> {
    Reversed(incidents[|incidents| - Min(limit, |incidents|)..])
  }

  function NextIncidentId(incidents: seq<Incident>): int {
    if incidents == [] then 1 else incidents[|incidents| - 1].incidentId + 1
  }

  /** One connection behind one lock: every method is one atomic, committed call. */
  class Database {
    var sessions: seq<Session>
    var events: seq<EventRow>
    var lastRecordId: Option<int>
    var lastEventTime: Option<Time>
    var metrics: Metrics
    var heartbeat: Option<Time>
    var incidents: seq<Incident>

    ghost function View(): Store
      reads this
    {
      Store(sessions, events, lastRecordId, lastEventTime, metrics, heartbeat, incidents)
    }

    constructor ()
      ensures View() == EMPTY
    {
      sessions, events, lastRecordId, lastEventTime := [], [], None, None;
      metrics, heartbeat, incidents := map[], None, [];
    }

    method InsertSnapshot(snapshot: Snapshot, timestamp: Time, sessionId: int) returns (count: nat)
      modifies this`metrics
      ensures View() == old(View()).(metrics := Inserted(old(metrics), snapshot, timestamp, sessionId))
      ensures count == RowCount(snapshot)
    {
      count := 0;
      for i := 0 to |snapshot|
        invariant metrics == Inserted(old(metrics), snapshot[..i], timestamp, sessionId)
        invariant count == RowCount(snapshot[..i])
      {
        var (table, values) := snapshot[i];
        assert snapshot[..i + 1][..i] == snapshot[..i];
        if values != [] {
          for j := 0 to |values|
            invariant metrics == Appended(Inserted(old(metrics), snapshot[..i], timestamp, sessionId),
                                          table, values[..j], timestamp, sessionId)
            invariant count == RowCount(snapshot[..i]) + j
          {
            var row := MetricRow(timestamp, sessionId, values[j]);
            assert values[..j + 1] == values[..j] + [values[j]];
            AppendedOneMore(Inserted(old(metrics), snapshot[..i], timestamp, sessionId), table, values[..j], values[j],
                            timestamp, sessionId);
            metrics := metrics[table := Rows(metrics, table) + [row]];
            count := count + 1;
          }
          assert values[..|values|] == values;
        }
      }
      assert snapshot[..|snapshot|] == snapshot;
    }

    method InsertEvents(rows: seq<EventRow>, sessionId: int) returns (count: nat)
      modifies this`events
      ensures View() == old(View()).(events := old(events) + Stamped(rows, sessionId))
      ensures forall i :: 0 <= i < |rows| ==>
                events[|old(events)| + i] == EventRow(rows[i].timestamp, sessionId, rows[i].provider, rows[i].eventId,
                                                      rows[i].recordId, rows[i].message, rows[i].origin)
      ensures count == |rows|
    {
      count := 0;
      for i := 0 to |rows|
        invariant count == i
        invariant events == old(events) + Stamped(rows[..i], sessionId)
      {
        events := events + [rows[i].(sessionId := sessionId)];
        assert Stamped(rows[..i + 1], sessionId) == Stamped(rows[..i], sessionId) + [rows[i].(sessionId := sessionId)];
        count := count + 1;
      }
      assert rows[..|rows|] == rows;
    }

    method CreateSession(bootTime: Time, createdAt: Time) returns (sessionId: int)
      modifies this`sessions
      ensures sessionId == NextSessionId(old(sessions))
      ensures View() == old(View()).(sessions := old(sessions) + [NewSession(sessionId, bootTime, createdAt)])
    {
      sessionId := NextSessionId(sessions);
      sessions := sessions + [NewSession(sessionId, bootTime, createdAt)];
    }

    method UpdateSession(sessionId: int, patch: SessionPatch)
      modifies this`sessions
      ensures View() == old(View()).(sessions := Patched(old(sessions), sessionId, patch))
    {
      sessions := Patched(sessions, sessionId, patch);
    }

    method CreateIncident(incident: Incident) returns (incidentId: int)
      modifies this`incidents
      ensures incidentId == NextIncidentId(old(incidents))
      ensures View() == old(View()).(incidents := old(incidents) + [incident.(incidentId := incidentId)])
    {
      incidentId := NextIncidentId(incidents);
      incidents := incidents + [incident.(incidentId := incidentId)];
    }

    method UpdateHeartbeat(timestamp: Time)
      modifies this`heartbeat
      ensures View() == old(View()).(heartbeat := Some(timestamp))
    {
      heartbeat := Some(timestamp);
    }
  }
}
