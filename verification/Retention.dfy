/** storage/retention.py: delete old metric rows, except inside protected incident windows. */
module Retention {
  import opened Prelude
  import opened Storage

  const PROTECTED_INCIDENTS: nat := 200
  const MARGIN_BEFORE := 3600.0
  const MARGIN_AFTER := 600.0

  datatype Span = Span(start: Time, end: Time)

  /** Python's truth value of an optional number. */
  predicate Truthy(t: Option<Time>) {
    t.Some? && t.value != 0.0
  }

  predicate Protects(inc: Incident) {
    Truthy(inc.lastMetric) && inc.reboot != 0.0
  }

  function SpanOf(inc: Incident): Span
    requires Protects(inc)
  {
    Span(inc.lastMetric.value - MARGIN_BEFORE, inc.reboot + MARGIN_AFTER)
  }

  function Spans(incidents: seq<Incident>): (spans: seq<Span>)
    ensures |spans| <= |incidents|
    ensures forall inc :: inc in incidents && Protects(inc) ==> SpanOf(inc) in spans
    ensures forall span :: span in spans ==> exists inc :: inc in incidents && Protects(inc) && span == SpanOf(inc)
  {
    if incidents == [] then []
    else
      var last := incidents[|incidents| - 1];
      assert incidents == incidents[..|incidents| - 1] + [last];
      var rest := Spans(incidents[..|incidents| - 1]);
      if Protects(last) then rest + [SpanOf(last)] else rest
  }

  predicate Inside(span: Span, t: Time) {
    span.start <= t <= span.end
  }

  predicate Covered(spans: seq<Span>, t: Time) {
    exists span :: span in spans && Inside(span, t)
  }

  function Survives(cutoff: Time, spans: seq<Span>): MetricRow -> bool {
    (row: MetricRow) => row.timestamp >= cutoff || Covered(spans, row.timestamp)
  }

  /** The spans a prune honours; none when the incidents could not be listed. */
  function ProtectedSpans(incidents: seq<Incident>, listed: bool): seq<Span> {
    if listed then Spans(Newest(incidents, PROTECTED_INCIDENTS)) else []
  }

  /** `failed` are the tables whose statement raised: they keep all rows. */
  function Pruned(m: Metrics, cutoff: Time, spans: seq<Span>, failed: set<Table>): Metrics {
    map t | t in m :: if t in failed then m[t] else Filter(m[t], Survives(cutoff, spans))
  }

  function PrunedStore(st: Store, clock: Time, hours: real, listed: bool, failed: set<Table>): Store {
    if hours <= 0.0 then st
    else st.(metrics := Pruned(st.metrics, clock - hours * 3600.0, ProtectedSpans(st.incidents, listed), failed))
  }

  function RowTotal(m: Metrics, tables: seq<Table>): nat {
    if tables == [] then 0
    else RowTotal(m, tables[..|tables| - 1]) + |Rows(m, tables[|tables| - 1])|
  }

  /** migrations.METRIC_TABLES lists every metric table once. */
  ghost predicate IsSchema(tables: seq<Table>) {
    && (forall t: Table :: t in tables)
    && (forall i, j :: 0 <= i < j < |tables| ==> tables[i] != tables[j])
  }

  /** Tables pruned so far. */
  ghost predicate PrunedUpTo(before: Metrics, after: Metrics, tables: seq<Table>, cutoff: Time, spans: seq<Span>,
                             failed: set<Table>) {
    && after.Keys == before.Keys
    && forall t :: t in before ==>
         after[t] == if t in tables && t !in failed then Filter(before[t], Survives(cutoff, spans)) else before[t]
  }

  lemma {:induction false} TotalsUnaffected(a: Metrics, b: Metrics, tables: seq<Table>)
    requires forall t :: t in tables ==> Rows(a, t) == Rows(b, t)
    ensures RowTotal(a, tables) == RowTotal(b, tables)
  {
    if tables != [] {
      assert tables[|tables| - 1] in tables;
      TotalsUnaffected(a, b, tables[..|tables| - 1]);
    }
  }

  lemma OneMoreSpan(incidents: seq<Incident>, i: nat)
    requires i < |incidents|
    ensures Spans(incidents[..i + 1])
         == Spans(incidents[..i]) + if Protects(incidents[i]) then [SpanOf(incidents[i])] else []
  {
    assert incidents[..i + 1][..i] == incidents[..i];
  }

  method CollectSpans(db: Database, listed: bool) returns (spans: seq<Span>)
    ensures spans == ProtectedSpans(db.incidents, listed)
  {
    hide Spans;
    spans := [];
    if listed {
      var incidents := Newest(db.incidents, PROTECTED_INCIDENTS);
      for i := 0 to |incidents|
        invariant spans == Spans(incidents[..i])
      {
        OneMoreSpan(incidents, i);
        if Truthy(incidents[i].lastMetric) && incidents[i].reboot != 0.0 {
          spans := spans + [Span(incidents[i].lastMetric.value - MARGIN_BEFORE, incidents[i].reboot + MARGIN_AFTER)];
        }
      }
      assert incidents[..|incidents|] == incidents;
    }
  }

  /** Count the doomed rows, then delete them if there are any. */
  method PruneTable(db: Database, table: Table, cutoff: Time, spans: seq<Span>) returns (doomed: nat)
    modifies db`metrics
    ensures db.metrics.Keys == old(db.metrics.Keys)
    ensures Rows(db.metrics, table) == Filter(Rows(old(db.metrics), table), Survives(cutoff, spans))
    ensures forall t :: t in old(db.metrics) && t != table ==> db.metrics[t] == old(db.metrics)[t]
    ensures doomed + |Rows(db.metrics, table)| == |Rows(old(db.metrics), table)|
  {
    var rows := Rows(db.metrics, table);
    var kept := Filter(rows, Survives(cutoff, spans));
    doomed := |rows| - |kept|;
    if doomed > 0 {
      db.metrics := db.metrics[table := kept];
    } else {
      NothingDoomed(rows, Survives(cutoff, spans));
    }
  }

  lemma PrunedOneMore(before: Metrics, middle: Metrics, after: Metrics, tables: seq<Table>, table: Table,
                      cutoff: Time, spans: seq<Span>, failed: set<Table>)
    requires PrunedUpTo(before, middle, tables, cutoff, spans, failed) && table !in tables
    requires after.Keys == middle.Keys
    requires forall t :: t in middle && t != table ==> after[t] == middle[t]
    requires Rows(after, table)
          == if table in failed then Rows(middle, table) else Filter(Rows(middle, table), Survives(cutoff, spans))
    ensures PrunedUpTo(before, after, tables + [table], cutoff, spans, failed)
    ensures RowTotal(after, tables) == RowTotal(middle, tables)
  {
    forall t | t in tables ensures Rows(after, t) == Rows(middle, t) {
    }
    TotalsUnaffected(after, middle, tables);
  }

  lemma NothingPruned(m: Metrics, cutoff: Time, spans: seq<Span>, failed: set<Table>)
    ensures PrunedUpTo(m, m, [], cutoff, spans, failed) && RowTotal(m, []) == 0
  {
  }

  lemma TotalOneMore(m: Metrics, tables: seq<Table>, table: Table)
    ensures RowTotal(m, tables + [table]) == RowTotal(m, tables) + |Rows(m, table)|
  {
    assert (tables + [table])[..|tables|] == tables;
  }

  method PruneTables(db: Database, tables: seq<Table>, cutoff: Time, spans: seq<Span>, failed: set<Table>)
    returns (deleted: nat)
    requires IsSchema(tables)
    modifies db`metrics
    ensures PrunedUpTo(old(db.metrics), db.metrics, tables, cutoff, spans, failed)
    ensures deleted + RowTotal(db.metrics, tables) == RowTotal(old(db.metrics), tables)
  {
    hide Survives, PrunedUpTo, RowTotal, Filter;
    deleted := 0;
    assert tables[..0] == [];
    NothingPruned(db.metrics, cutoff, spans, failed);
    for k := 0 to |tables|
      invariant PrunedUpTo(old(db.metrics), db.metrics, tables[..k], cutoff, spans, failed)
      invariant deleted + RowTotal(db.metrics, tables[..k]) == RowTotal(old(db.metrics), tables[..k])
    {
      ghost var before, done, table := db.metrics, tables[..k], tables[k];
      assert tables[..k + 1] == done + [table];
      if tables[k] !in failed {
        var doomed := PruneTable(db, tables[k], cutoff, spans);
        deleted := deleted + doomed;
      }
      PrunedOneMore(old(db.metrics), before, db.metrics, done, table, cutoff, spans, failed);
      UntouchedSoFar(old(db.metrics), before, done, table, cutoff, spans, failed);
      TotalOneMore(db.metrics, done, table);
      TotalOneMore(old(db.metrics), done, table);
    }
    assert tables[..|tables|] == tables;
  }

  lemma UntouchedSoFar(before: Metrics, middle: Metrics, tables: seq<Table>, table: Table, cutoff: Time,
                       spans: seq<Span>, failed: set<Table>)
    requires PrunedUpTo(before, middle, tables, cutoff, spans, failed) && table !in tables
    ensures Rows(middle, table) == Rows(before, table)
  {
  }

  lemma AllPruned(before: Metrics, after: Metrics, tables: seq<Table>, cutoff: Time, spans: seq<Span>, failed: set<Table>)
    requires IsSchema(tables) && PrunedUpTo(before, after, tables, cutoff, spans, failed)
    ensures after == Pruned(before, cutoff, spans, failed)
  {
  }

  /** The count returned is the number of rows gone. */
  method PruneMetrics(db: Database, tables: seq<Table>, clock: Time, hours: real, listed: bool, failed: set<Table>)
    returns (deleted: nat)
    requires IsSchema(tables)
    modifies db`metrics
    ensures db.View() == PrunedStore(old(db.View()), clock, hours, listed, failed)
    ensures deleted + RowTotal(db.metrics, tables) == RowTotal(old(db.metrics), tables)
  {
    hide IsSchema, PrunedUpTo, Pruned, ProtectedSpans;
    if hours <= 0.0 {
      return 0;
    }
    var cutoff := clock - hours * 3600.0;
    var spans := CollectSpans(db, listed);
    deleted := PruneTables(db, tables, cutoff, spans, failed);
    AllPruned(old(db.metrics), db.metrics, tables, cutoff, spans, failed);
  }

  lemma MetricTablesAreTheSchema()
    ensures IsSchema(METRIC_TABLES)
  {
    forall t: Table ensures t in METRIC_TABLES {
      match t {
        case Cpu => assert METRIC_TABLES[0] == t;
        case Memory => assert METRIC_TABLES[1] == t;
        case Disk => assert METRIC_TABLES[2] == t;
        case Gpu => assert METRIC_TABLES[3] == t;
        case Temperature => assert METRIC_TABLES[4] == t;
        case Process => assert METRIC_TABLES[5] == t;
        case Uptime => assert METRIC_TABLES[6] == t;
      }
    }
  }

  lemma {:induction false} AppendAddsToTotal(m: Metrics, tables: seq<Table>, t: Table, values: seq<Option<real>>,
                                             timestamp: Time, sessionId: int)
    requires forall i, j :: 0 <= i < j < |tables| ==> tables[i] != tables[j]
    ensures RowTotal(Appended(m, t, values, timestamp, sessionId), tables)
         == RowTotal(m, tables) + if t in tables then |values| else 0
  {
    if tables != [] {
      var rest, last := tables[..|tables| - 1], tables[|tables| - 1];
      assert tables == rest + [last];
      AppendAddsToTotal(m, rest, t, values, timestamp, sessionId);
    }
  }

  /** The count a cycle reports is the number of rows all tables together gain. */
  lemma {:induction false} CountIsRowsAdded(m: Metrics, tables: seq<Table>, snapshot: Snapshot, timestamp: Time,
                                            sessionId: int)
    requires IsSchema(tables)
    ensures RowTotal(Inserted(m, snapshot, timestamp, sessionId), tables) == RowTotal(m, tables) + RowCount(snapshot)
  {
    if snapshot != [] {
      var rest, last := snapshot[..|snapshot| - 1], snapshot[|snapshot| - 1];
      CountIsRowsAdded(m, tables, rest, timestamp, sessionId);
      AppendAddsToTotal(Inserted(m, rest, timestamp, sessionId), tables, last.0, last.1, timestamp, sessionId);
    }
  }

  lemma {:induction false} NothingDoomed(rows: seq<MetricRow>, p: MetricRow -> bool)
    requires |Filter(rows, p)| == |rows|
    ensures Filter(rows, p) == rows
  {
    if rows != [] {
      NothingDoomed(rows[..|rows| - 1], p);
    }
  }

  /* ---- what a prune means ---- */

  /** One of the newest 200 incidents protects this time: from an hour before its last activity to ten minutes after its
      reboot. */
  ghost predicate Guarded(incidents: seq<Incident>, time: Time) {
    exists k :: 0 <= k < |incidents| && |incidents| - k <= 200 && Guards(incidents[k], time)
  }

  predicate Guards(inc: Incident, time: Time) {
    && inc.lastMetric.Some? && inc.lastMetric.value != 0.0 && inc.reboot != 0.0
    && inc.lastMetric.value - 3600.0 <= time <= inc.reboot + 600.0
  }

  lemma NewestIff(incidents: seq<Incident>, inc: Incident)
    ensures inc in Newest(incidents, PROTECTED_INCIDENTS)
       <==> exists k :: 0 <= k < |incidents| && |incidents| - k <= 200 && incidents[k] == inc
  {
    hide Reversed;
    var first := |incidents| - Min(PROTECTED_INCIDENTS, |incidents|);
    var tail := incidents[first..];
    if inc in Newest(incidents, PROTECTED_INCIDENTS) {
      var i :| 0 <= i < |tail| && Newest(incidents, PROTECTED_INCIDENTS)[i] == inc;
      assert incidents[first + (|tail| - 1 - i)] == inc;
    }
    if k :| 0 <= k < |incidents| && |incidents| - k <= 200 && incidents[k] == inc {
      assert Newest(incidents, PROTECTED_INCIDENTS)[|tail| - 1 - (k - first)] == inc;
    }
  }

  lemma CoveredIff(incidents: seq<Incident>, listed: bool, time: Time)
    ensures Covered(ProtectedSpans(incidents, listed), time) <==> listed && Guarded(incidents, time)
  {
    hide Newest;
    var spans := ProtectedSpans(incidents, listed);
    if Covered(spans, time) {
      var span :| span in spans && Inside(span, time);
      var inc :| inc in Newest(incidents, PROTECTED_INCIDENTS) && Protects(inc) && span == SpanOf(inc);
      NewestIff(incidents, inc);
      var k :| 0 <= k < |incidents| && |incidents| - k <= 200 && incidents[k] == inc;
      assert Guards(incidents[k], time);
    }
    if listed && Guarded(incidents, time) {
      var k :| 0 <= k < |incidents| && |incidents| - k <= 200 && Guards(incidents[k], time);
      NewestIff(incidents, incidents[k]);
      assert SpanOf(incidents[k]) in spans && Inside(SpanOf(incidents[k]), time);
    }
  }

  /** The row outlives a prune: retention is off, its table's statement failed, it is recent, or a listed incident guards
      it. */
  ghost predicate Outlives(st: Store, clock: Time, hours: real, listed: bool, failed: set<Table>, t: Table,
                           row: MetricRow) {
    || hours <= 0.0 || t in failed || row.timestamp >= clock - 3600.0 * hours
    || (listed && Guarded(st.incidents, row.timestamp))
  }

  /** A prune keeps exactly the rows that outlive it, in order, in every table, and touches nothing but metric tables. */
  lemma PruneKeepsIff(st: Store, clock: Time, hours: real, listed: bool, failed: set<Table>, t: Table)
    ensures
      var after := PrunedStore(st, clock, hours, listed, failed);
      && after == st.(metrics := after.metrics) && after.metrics.Keys == st.metrics.Keys
      && (forall row :: row in Rows(after.metrics, t) <==>
            row in Rows(st.metrics, t) && Outlives(st, clock, hours, listed, failed, t, row))
      && (exists p :: Rows(after.metrics, t) == Filter(Rows(st.metrics, t), p))
  {
    hide Covered, Guarded, ProtectedSpans;
    var after := PrunedStore(st, clock, hours, listed, failed);
    var rows := Rows(st.metrics, t);
    forall row: MetricRow ensures Covered(ProtectedSpans(st.incidents, listed), row.timestamp)
                             <==> listed && Guarded(st.incidents, row.timestamp) {
      CoveredIff(st.incidents, listed, row.timestamp);
    }
    if hours <= 0.0 || t in failed {
      KeepAll(rows);
    }
    assert exists p :: Rows(after.metrics, t) == Filter(rows, p) by {
      if hours <= 0.0 || t in failed {
        assert Rows(after.metrics, t) == Filter(rows, All());
      } else {
        assert Rows(after.metrics, t)
            == Filter(rows, Survives(clock - hours * 3600.0, ProtectedSpans(st.incidents, listed)));
      }
    }
  }

  function All(): MetricRow -> bool {
    (row: MetricRow) => true
  }

  lemma {:induction false} KeepAll(rows: seq<MetricRow>)
    ensures Filter(rows, All()) == rows
  {
    if rows != [] {
      KeepAll(rows[..|rows| - 1]);
      assert rows == rows[..|rows| - 1] + [rows[|rows| - 1]];
    }
  }
}
