/** collectors/windows_events.py: the incremental, backwards, batched read of a Windows log. */
module EventTail {
  import opened Prelude
  import opened Storage
  import EventAnalyzer

  const MAX_EVENTS_PER_RUN: nat := 1000

  /** `origin` numbers the records in the order the channel ever wrote them, across clears. */
  datatype LogRecord = LogRecord(recordNumber: int, timeGenerated: Time, sourceName: Option<string>,
                                 eventId: Option<int>, message: Option<string>, origin: nat)

  /** One call of ReadEventLog hands over some records, never none before the end of the log. */
  type BatchSize = n: nat | n > 0 witness 1

  /** Where the last run stopped: the persisted record id and timestamp. */
  datatype Cursor = Cursor(id: int, time: Time)

  function CursorOf(st: Store): Cursor {
    Cursor(if st.lastRecordId.Some? then st.lastRecordId.value else 0,
           if st.lastEventTime.Some? then st.lastEventTime.value else 0.0)
  }

  /** The stop rule: at or below both parts of the cursor. */
  predicate Stale(r: LogRecord, c: Cursor) {
    r.recordNumber <= c.id && r.timeGenerated <= c.time
  }

  /** Length of the longest suffix of the log without a stale record. */
  function FreshCount(log: seq<LogRecord>, c: Cursor): (n: nat)
    ensures n <= |log|
  {
    if log == [] || Stale(log[|log| - 1], c) then 0
    else 1 + FreshCount(log[..|log| - 1], c)
  }

  /** A suffix is fresh exactly when it is no longer than FreshCount. */
  lemma {:induction false} FreshSuffix(log: seq<LogRecord>, c: Cursor, n: nat)
    requires n <= |log|
    ensures n <= FreshCount(log, c) <==> forall i :: |log| - n <= i < |log| ==> !Stale(log[i], c)
  {
    if n > 0 && !Stale(log[|log| - 1], c) {
      FreshSuffix(log[..|log| - 1], c, n - 1);
      var front := log[..|log| - 1];
      assert forall i :: |log| - n <= i < |log| - 1 ==> front[i] == log[i];
      if forall i :: |front| - (n - 1) <= i < |front| ==> !Stale(front[i], c) {
        assert forall i :: |log| - n <= i < |log| ==> !Stale(log[i], c);
      } else {
        var i :| |front| - (n - 1) <= i < |front| && Stale(front[i], c);
        assert Stale(log[i], c);
      }
    }
  }

  /** How many records the batches bring in before the cap, the end of the log, or a failing read. */
  function Reach(total: nat, sizes: seq<BatchSize>, got: nat): (n: nat)
    requires got <= total
    ensures got <= n <= total
    decreases |sizes|
  {
    if got >= MAX_EVENTS_PER_RUN || got == total || sizes == [] then got
    else Reach(total, sizes[1..], Min(total, got + sizes[0]))
  }

  /** What one run takes: the fresh suffix, cut to what the batches reached. */
  function Taken(log: seq<LogRecord>, sizes: seq<BatchSize>, c: Cursor): (n: nat)
    ensures n <= |log|
  {
    Min(FreshCount(log, c), Reach(|log|, sizes, 0))
  }

  function Fetched(log: seq<LogRecord>, sizes: seq<BatchSize>, c: Cursor): seq<LogRecord> {
    log[|log| - Taken(log, sizes, c)..]
  }

  /** The read neither met the cap nor failed before it had every fresh record. */
  predicate Complete(log: seq<LogRecord>, sizes: seq<BatchSize>, c: Cursor) {
    FreshCount(log, c) <= Reach(|log|, sizes, 0)
  }

  /** A batch as the API returns it: the `size` records before `pos`, newest first. */
  function Batch(log: seq<LogRecord>, pos: nat, size: nat): seq<LogRecord>
    requires pos <= |log|
  {
    Reversed(log[pos - Min(pos, size)..pos])
  }

  /** The last k records, newest first: what the reader has collected after k records. */
  function NewestFirst(log: seq<LogRecord>, k: nat): (r: seq<LogRecord>)
    requires k <= |log|
    ensures |r| == k
    ensures forall i :: 0 <= i < k ==> r[i] == log[|log| - 1 - i]
  {
    if k == 0 then [] else NewestFirst(log, k - 1) + [log[|log| - k]]
  }

  lemma ReadOneMore(log: seq<LogRecord>, c: Cursor, k: nat)
    requires k < |log| && k <= FreshCount(log, c)
    ensures Stale(log[|log| - k - 1], c) ==> FreshCount(log, c) == k
    ensures !Stale(log[|log| - k - 1], c) ==> k + 1 <= FreshCount(log, c)
  {
    FreshSuffix(log, c, k);
    FreshSuffix(log, c, k + 1);
  }

  lemma OldestFirst(log: seq<LogRecord>, k: nat)
    requires k <= |log|
    ensures Reversed(NewestFirst(log, k)) == log[|log| - k..]
  {
  }

  /** `sizes` are the batches the reader will get; a read past them raises and ends the run. */
  method ReadNew(log: seq<LogRecord>, sizes: seq<BatchSize>, c: Cursor) returns (records: seq<LogRecord>)
    ensures records == Fetched(log, sizes, c)
  {
    hide FreshCount, Stale, NewestFirst, Reversed;
    records := [];
    var pos := |log|;
    var i := 0;
    var stop := false;
    while |records| < MAX_EVENTS_PER_RUN && !stop
      invariant 0 <= i <= |sizes| && 0 <= pos <= |log|
      invariant |records| <= FreshCount(log, c) && records == NewestFirst(log, |records|)
      invariant !stop ==> pos == |log| - |records| && Reach(|log|, sizes[i..], |records|) == Reach(|log|, sizes, 0)
      invariant stop ==> |records| == Taken(log, sizes, c)
      decreases |sizes| - i, !stop
    {
      if i == |sizes| {
        break;
      }
      var batch := Batch(log, pos, sizes[i]);
      if |batch| == 0 {
        break;
      }
      ghost var before := |records|;
      assert sizes[i..][1..] == sizes[i + 1..];
      var j := 0;
      while j < |batch| && !stop
        invariant 0 <= j <= |batch| && |records| == before + j
        invariant |records| <= FreshCount(log, c) && records == NewestFirst(log, |records|)
        invariant stop ==> |records| == FreshCount(log, c) && j < |batch|
        decreases |batch| - j, !stop
      {
        ReadOneMore(log, c, |records|);
        if Stale(batch[j], c) {
          stop := true;
        } else {
          records := records + [batch[j]];
          j := j + 1;
        }
      }
      pos := pos - |batch|;
      i := i + 1;
    }
    OldestFirst(log, |records|);
    records := Reversed(records);
  }

  /* ---- one run ---- */

  function RowOf(r: LogRecord): EventRow {
    EventRow(r.timeGenerated, 0, r.sourceName, EventAnalyzer.EventId(r.eventId), r.recordNumber, r.message, r.origin)
  }

  function RowsOf(records: seq<LogRecord>): (rows: seq<EventRow>)
    ensures |rows| == |records|
  {
    seq(|records|, i requires 0 <= i < |records| => RowOf(records[i]))
  }

  function MaxId(records: seq<LogRecord>, from: int): (m: int)
    ensures from <= m
    ensures forall r :: r in records ==> r.recordNumber <= m
    ensures m == from || exists r :: r in records && r.recordNumber == m
  {
    if records == [] then from
    else
      var last := records[|records| - 1];
      assert records == records[..|records| - 1] + [last];
      var m := MaxId(records[..|records| - 1], from);
      if m < last.recordNumber then last.recordNumber else m
  }

  function MaxTime(records: seq<LogRecord>, from: Time): (m: Time)
    ensures from <= m
    ensures forall r :: r in records ==> r.timeGenerated <= m
    ensures m == from || exists r :: r in records && r.timeGenerated == m
  {
    if records == [] then from
    else
      assert records == records[..|records| - 1] + [records[|records| - 1]];
      Max(MaxTime(records[..|records| - 1], from), records[|records| - 1].timeGenerated)
  }

  /** The store after a run of which the first `commits` of the three commits took effect. */
  function Collected(st: Store, log: seq<LogRecord>, sizes: seq<BatchSize>, sessionId: int, commits: nat): Store {
    var c := CursorOf(st);
    var records := Fetched(log, sizes, c);
    if records == [] then st
    else
      st.(events := if commits >= 1 then st.events + Stamped(RowsOf(records), sessionId) else st.events,
          lastRecordId := if commits >= 2 then Some(MaxId(records, c.id)) else st.lastRecordId,
          lastEventTime := if commits >= 3 then Some(MaxTime(records, c.time)) else st.lastEventTime)
  }

  /** The loop over the fetched records: rows to insert, and both maxima for the next cursor. */
  method Prepare(records: seq<LogRecord>, c: Cursor) returns (rows: seq<EventRow>, maxId: int, maxTime: Time)
    ensures rows == RowsOf(records) && maxId == MaxId(records, c.id) && maxTime == MaxTime(records, c.time)
  {
    rows, maxId, maxTime := [], c.id, c.time;
    for i := 0 to |records|
      invariant rows == RowsOf(records[..i])
      invariant maxId == MaxId(records[..i], c.id)
      invariant maxTime == MaxTime(records[..i], c.time)
    {
      assert records[..i + 1][..i] == records[..i];
      rows := rows + [RowOf(records[i])];
      maxId := if maxId < records[i].recordNumber then records[i].recordNumber else maxId;
      maxTime := Max(maxTime, records[i].timeGenerated);
    }
    assert records[..|records|] == records;
  }

  /** collect(), dying (or raising) after `commits` of its three commits. */
  method Collect(db: Database, log: seq<LogRecord>, sizes: seq<BatchSize>, sessionId: int, commits: nat)
    modifies db`events, db`lastRecordId, db`lastEventTime
    ensures db.View() == Collected(old(db.View()), log, sizes, sessionId, commits)
  {
    var c := Cursor(if db.lastRecordId.Some? then db.lastRecordId.value else 0,
                    if db.lastEventTime.Some? then db.lastEventTime.value else 0.0);
    var records := ReadNew(log, sizes, c);
    if records == [] {
      return;
    }
    var rows, maxId, maxTime := Prepare(records, c);
    if commits == 0 {
      return;
    }
    var _ := db.InsertEvents(rows, sessionId);
    if commits == 1 {
      return;
    }
    db.lastRecordId := Some(maxId);
    if commits == 2 {
      return;
    }
    db.lastEventTime := Some(maxTime);
  }

  /* ---- how far a run reads ---- */

  function Sum(sizes: seq<BatchSize>): nat {
    if sizes == [] then 0 else sizes[0] + Sum(sizes[1..])
  }

  /** The first k batches bring n records, and the k-th was still asked for: fewer than 1000 had come before it. */
  ghost predicate BroughtBy(sizes: seq<BatchSize>, got: nat, n: nat, k: int) {
    0 < k <= |sizes| && got + Sum(sizes[..k]) >= n && got + Sum(sizes[..k - 1]) < 1000
  }

  /** A run reads n more records exactly if there are that many and some batch brings the n-th before 1000 had come. */
  lemma {:induction false} ReachIff(total: nat, sizes: seq<BatchSize>, got: nat, n: nat)
    requires got < n <= total
    ensures Reach(total, sizes, got) >= n <==> exists k :: BroughtBy(sizes, got, n, k)
    decreases |sizes|
  {
    if got >= MAX_EVENTS_PER_RUN {
      forall k ensures !BroughtBy(sizes, got, n, k) {
      }
    } else if sizes == [] {
      assert forall k :: !BroughtBy(sizes, got, n, k);
    } else {
      var rest, next := sizes[1..], got + sizes[0];
      if next >= n {
        assert sizes[..1] == [sizes[0]] && sizes[..0] == [];
        assert Sum([sizes[0]]) == sizes[0];
        assert BroughtBy(sizes, got, n, 1);
      } else {
        ReachIff(total, rest, next, n);
        if k :| BroughtBy(rest, next, n, k) {
          SumOfFirst(sizes, k + 1);
          SumOfFirst(sizes, k);
          assert BroughtBy(sizes, got, n, k + 1);
        }
        if k :| BroughtBy(sizes, got, n, k) {
          SumOfFirst(sizes, k);
          if k > 1 {
            SumOfFirst(sizes, k - 1);
            assert BroughtBy(rest, next, n, k - 1);
          } else {
            assert false;
          }
        }
      }
    }
  }

  lemma SumOfFirst(sizes: seq<BatchSize>, k: int)
    requires 0 < k <= |sizes|
    ensures Sum(sizes[..k]) == sizes[0] + Sum(sizes[1..][..k - 1])
  {
    assert sizes[..k][1..] == sizes[1..][..k - 1];
  }

  lemma {:induction false} UncutReach(total: nat, sizes: seq<BatchSize>, got: nat)
    requires got <= total && total <= got + Sum(sizes)
    ensures Reach(total, sizes, got) == total || Reach(total, sizes, got) >= 1000
    decreases |sizes|
  {
    if got < MAX_EVENTS_PER_RUN && got < total && sizes != [] {
      UncutReach(total, sizes[1..], Min(total, got + sizes[0]));
    }
  }

  /** A read that never fails has every fresh record, if there are at most 1000 of them. */
  lemma SmallBacklogIsComplete(log: seq<LogRecord>, sizes: seq<BatchSize>, c: Cursor)
    requires |log| <= Sum(sizes) && FreshCount(log, c) <= 1000
    ensures Complete(log, sizes, c)
  {
    UncutReach(|log|, sizes, 0);
  }

  /* ---- what one run takes ---- */

  /** A run never takes more than 999 records and one batch. */
  lemma {:induction false} RunIsBounded(total: nat, sizes: seq<BatchSize>, got: nat, widest: nat)
    requires got <= total
    requires got <= MAX_EVENTS_PER_RUN - 1 + widest
    requires forall i :: 0 <= i < |sizes| ==> sizes[i] <= widest
    ensures Reach(total, sizes, got) <= MAX_EVENTS_PER_RUN - 1 + widest
    decreases |sizes|
  {
    if got < MAX_EVENTS_PER_RUN && got < total && sizes != [] {
      RunIsBounded(total, sizes[1..], Min(total, got + sizes[0]), widest);
    }
  }

  lemma TakesAtMost(log: seq<LogRecord>, sizes: seq<BatchSize>, c: Cursor, widest: nat)
    requires forall i :: 0 <= i < |sizes| ==> sizes[i] <= widest
    ensures |Fetched(log, sizes, c)| <= 999 + widest
  {
    RunIsBounded(|log|, sizes, 0, widest);
  }

  /** A complete run takes a record if and only if neither it nor any later record is stale. */
  lemma CompleteRunTakes(log: seq<LogRecord>, sizes: seq<BatchSize>, c: Cursor, i: nat)
    requires i < |log| && Complete(log, sizes, c)
    ensures i >= |log| - Taken(log, sizes, c) <==> forall j :: i <= j < |log| ==> !Stale(log[j], c)
  {
    FreshSuffix(log, c, |log| - i);
  }

  /** With timestamps that never fall along the log, a complete run stores every record newer than the cursor's
      timestamp, whatever the record ids are (so also after a clear). */
  lemma NewerThanCursorIsTaken(log: seq<LogRecord>, sizes: seq<BatchSize>, c: Cursor, i: nat)
    requires i < |log| && Complete(log, sizes, c)
    requires forall j, k :: 0 <= j < k < |log| ==> log[j].timeGenerated <= log[k].timeGenerated
    requires log[i].timeGenerated > c.time
    ensures log[i] in Fetched(log, sizes, c)
  {
    CompleteRunTakes(log, sizes, c, i);
    var first := |log| - Taken(log, sizes, c);
    assert Fetched(log, sizes, c)[i - first] == log[i];
  }
}
