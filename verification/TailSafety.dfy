/** The event tail when the log is cleared, reads are cut short, or the clock jumps. */
module TailSafety {
  import opened Prelude
  import opened Storage
  import opened Configuration
  import opened EventTail
  import opened Machine
  import opened TailRuns

  /* ---- at most once ---- */

  /** Records are new to the channel: numbered in the order they are written, never reused. */
  ghost predicate FreshRecords(w: World, records: seq<LogRecord>) {
    forall i :: 0 <= i < |records| ==> records[i].origin == w.written + i
  }

  /** Anything but a crash between commits: clears, id resets, capped or failing reads and clock jumps included. */
  ghost predicate UncrashedStep(w: World, s: Step) {
    && (s.Append? ==> FreshRecords(w, s.records))
    && (Tails(s) ==> CommitsOf(s) == 0 || CommitsOf(s) >= 3)
  }

  ghost predicate UncrashedRun(cfg: Config, w: World, steps: seq<Step>) {
    steps == []
    || (UncrashedRun(cfg, w, steps[..|steps| - 1])
        && UncrashedStep(Run(cfg, w, steps[..|steps| - 1]), steps[|steps| - 1]))
  }

  ghost predicate OriginsAscend(log: seq<LogRecord>, written: nat) {
    && (forall i :: 0 <= i < |log| ==> log[i].origin < written)
    && (forall i, j :: 0 <= i < j < |log| ==> log[i].origin < log[j].origin)
  }

  ghost predicate StoredOnce(events: seq<EventRow>) {
    forall i, j :: 0 <= i < j < |events| ==> events[i].origin != events[j].origin
  }

  /** Every stored row is at or below both parts of the cursor. */
  ghost predicate BelowCursor(st: Store) {
    forall i :: 0 <= i < |st.events| ==>
      st.events[i].recordId <= CursorOf(st).id && st.events[i].timestamp <= CursorOf(st).time
  }

  /** Rows and records of one origin carry the same id and timestamp. */
  ghost predicate SameRecords(events: seq<EventRow>, log: seq<LogRecord>) {
    forall i, j :: 0 <= i < |events| && 0 <= j < |log| && events[i].origin == log[j].origin ==>
      events[i].recordId == log[j].recordNumber && events[i].timestamp == log[j].timeGenerated
  }

  ghost predicate OnceInvariant(w: World) {
    && OriginsAscend(w.log, w.written)
    && (forall i :: 0 <= i < |w.store.events| ==> w.store.events[i].origin < w.written)
    && StoredOnce(w.store.events) && BelowCursor(w.store) && SameRecords(w.store.events, w.log)
  }

  predicate Identified(e: EventRow, r: LogRecord) {
    e.origin == r.origin && e.recordId == r.recordNumber && e.timestamp == r.timeGenerated
  }

  /** `after` is `before` plus one row for each record of the log from `first` on. */
  ghost predicate Extends(before: seq<EventRow>, after: seq<EventRow>, log: seq<LogRecord>, first: nat) {
    && first <= |log| && |after| == |before| + (|log| - first)
    && (forall i :: 0 <= i < |before| ==> after[i] == before[i])
    && (forall i :: |before| <= i < |after| ==> Identified(after[i], log[first + (i - |before|)]))
  }

  /** A run that got to its row commit extends the table by the fresh records it took. */
  lemma CollectionExtends(st: Store, log: seq<LogRecord>, sizes: seq<BatchSize>, sessionId: int, commits: nat)
    requires commits >= 1
    ensures
      var first := |log| - Taken(log, sizes, CursorOf(st));
      && Extends(st.events, Collected(st, log, sizes, sessionId, commits).events, log, first)
      && (forall i :: first <= i < |log| ==> !Stale(log[i], CursorOf(st)))
  {
    var records := Fetched(log, sizes, CursorOf(st));
    FreshSuffix(log, CursorOf(st), |records|);
  }

  lemma ExtensionStoresOnce(w: World, after: seq<EventRow>, first: nat)
    requires OnceInvariant(w) && Extends(w.store.events, after, w.log, first)
    requires forall i :: first <= i < |w.log| ==> !Stale(w.log[i], CursorOf(w.store))
    ensures StoredOnce(after) && forall i :: 0 <= i < |after| ==> after[i].origin < w.written
  {
    var n := |w.store.events|;
    forall i, j | 0 <= i < j < |after| ensures after[i].origin != after[j].origin {
      if j >= n {
        assert Identified(after[j], w.log[first + (j - n)]);
        if i >= n {
          assert Identified(after[i], w.log[first + (i - n)]);
        } else {
          assert !Stale(w.log[first + (j - n)], CursorOf(w.store));
        }
      }
    }
  }

  lemma ExtensionIdentifies(w: World, after: seq<EventRow>, first: nat)
    requires OnceInvariant(w) && Extends(w.store.events, after, w.log, first)
    ensures SameRecords(after, w.log)
  {
    var n := |w.store.events|;
    forall i, j | 0 <= i < |after| && 0 <= j < |w.log| && after[i].origin == w.log[j].origin
      ensures after[i].recordId == w.log[j].recordNumber && after[i].timestamp == w.log[j].timeGenerated
    {
      if i >= n {
        OriginsIdentify(w.log, w.written, first + (i - n), j);
      }
    }
  }

  /** After all three commits the new rows are below the new cursor, and the old ones stay there. */
  lemma CollectionBelowCursor(st: Store, log: seq<LogRecord>, sizes: seq<BatchSize>, sessionId: int, commits: nat)
    requires BelowCursor(st) && commits >= 3
    ensures BelowCursor(Collected(st, log, sizes, sessionId, commits))
  {
    hide Collected, Taken, BelowCursor, Extends, MaxId, MaxTime;
    CollectionExtends(st, log, sizes, sessionId, commits);
    CollectedCursor(st, log, sizes, sessionId, commits);
    ExtensionBelowCursor(st, Collected(st, log, sizes, sessionId, commits), log, |log| - Taken(log, sizes, CursorOf(st)));
  }

  lemma ExtensionBelowCursor(st: Store, after: Store, log: seq<LogRecord>, first: nat)
    requires BelowCursor(st) && Extends(st.events, after.events, log, first)
    requires
      var records := log[first..];
      CursorOf(after) == if records == [] then CursorOf(st)
                         else Cursor(MaxId(records, CursorOf(st).id), MaxTime(records, CursorOf(st).time))
    ensures BelowCursor(after)
  {
    var n := |st.events|;
    MaximaCover(log[first..], CursorOf(st));
    forall i | 0 <= i < |after.events|
      ensures after.events[i].recordId <= CursorOf(after).id && after.events[i].timestamp <= CursorOf(after).time
    {
      if i >= n {
        assert log[first..][i - n] == log[first + (i - n)];
      } else {
        assert after.events[i] == st.events[i];
      }
    }
  }

  lemma MaximaCover(records: seq<LogRecord>, c: Cursor)
    ensures forall k :: 0 <= k < |records| ==>
              records[k].recordNumber <= MaxId(records, c.id) && records[k].timeGenerated <= MaxTime(records, c.time)
  {
    forall k | 0 <= k < |records|
      ensures records[k].recordNumber <= MaxId(records, c.id) && records[k].timeGenerated <= MaxTime(records, c.time)
    {
      assert records[k] in records;
    }
  }

  /** One finished run: rows, then cursor. */
  lemma CollectionStoresOnce(w: World, sizes: seq<BatchSize>, sessionId: int, commits: nat)
    requires OnceInvariant(w) && (commits == 0 || commits >= 3)
    ensures OnceInvariant(w.(store := Collected(w.store, w.log, sizes, sessionId, commits)))
  {
    if commits >= 3 {
      var after := Collected(w.store, w.log, sizes, sessionId, commits);
      var first := |w.log| - Taken(w.log, sizes, CursorOf(w.store));
      CollectionExtends(w.store, w.log, sizes, sessionId, commits);
      ExtensionStoresOnce(w, after.events, first);
      ExtensionIdentifies(w, after.events, first);
      CollectionBelowCursor(w.store, w.log, sizes, sessionId, commits);
    }
  }

  lemma OriginsIdentify(log: seq<LogRecord>, written: nat, i: nat, j: nat)
    requires OriginsAscend(log, written) && i < |log| && j < |log| && log[i].origin == log[j].origin
    ensures i == j
  {
  }

  lemma OnceStep(cfg: Config, w: World, s: Step)
    requires OnceInvariant(w) && UncrashedStep(w, s)
    ensures OnceInvariant(Apply(cfg, w, s))
  {
    hide Collected, Started, Inserted;
    TailOfStep(cfg, w, s);
    var w' := Apply(cfg, w, s);
    if Tails(s) {
      CollectionStoresOnce(w, SizesOf(s), StampOf(w, s), CommitsOf(s));
      assert SameTail(w'.store, Tailed(w, s));
    } else if s.Append? {
      assert w'.log == w.log + s.records;
    }
  }

  lemma {:induction false} OnceRun(cfg: Config, w: World, steps: seq<Step>)
    requires OnceInvariant(w) && UncrashedRun(cfg, w, steps)
    ensures OnceInvariant(Run(cfg, w, steps))
  {
    if steps != [] {
      OnceRun(cfg, w, steps[..|steps| - 1]);
      OnceStep(cfg, Run(cfg, w, steps[..|steps| - 1]), steps[|steps| - 1]);
    }
  }

  /** At-most-once: in any run without a crash between commits, no record is stored twice. */
  lemma AtMostOnce(cfg: Config, steps: seq<Step>)
    requires UncrashedRun(cfg, BEGINNING, steps)
    ensures StoredOnce(Run(cfg, BEGINNING, steps).store.events)
  {
    OnceRun(cfg, BEGINNING, steps);
  }

  /** The newest record is in every non-empty fetch, and so in the last row of what it stores. */
  lemma NewestIsFetched(st: Store, log: seq<LogRecord>, sizes: seq<BatchSize>, sessionId: int, commits: nat)
    requires Fetched(log, sizes, CursorOf(st)) != [] && commits >= 1
    ensures
      var after := Collected(st, log, sizes, sessionId, commits).events;
      |after| > |st.events| && log != [] && after[..|st.events|] == st.events
      && after[|after| - 1].origin == log[|log| - 1].origin
  {
    var records := Fetched(log, sizes, CursorOf(st));
    assert records[|records| - 1] == log[|log| - 1];
  }

  /** Whether the newest record of the log a crashed run read is fresh again to the next run. */
  lemma CrashedCursor(st: Store, log: seq<LogRecord>, sizes: seq<BatchSize>, sessionId: int, commits: nat)
    requires Fetched(log, sizes, CursorOf(st)) != [] && (commits == 1 || commits == 2)
    ensures
      var c := CursorOf(Collected(st, log, sizes, sessionId, commits));
      var last := log[|log| - 1];
      !Stale(last, c) <==> commits == 1 || last.timeGenerated > CursorOf(st).time
  {
    var records := Fetched(log, sizes, CursorOf(st));
    CollectedCursor(st, log, sizes, sessionId, commits);
    MaximaCover(records, CursorOf(st));
    assert records[|records| - 1] == log[|log| - 1];
    FreshSuffix(log, CursorOf(st), |records|);
  }

  /** Everything from the newest old record on is fresh exactly if that record and all new ones are. */
  lemma FreshBackIff(log: seq<LogRecord>, more: seq<LogRecord>, c: Cursor)
    requires log != []
    ensures FreshCount(log + more, c) > |more| <==>
              (forall i :: 0 <= i < |more| ==> !Stale(more[i], c)) && !Stale(log[|log| - 1], c)
  {
    var grown := log + more;
    FreshSuffix(grown, c, |more| + 1);
    if forall i :: |grown| - (|more| + 1) <= i < |grown| ==> !Stale(grown[i], c) {
      forall i | 0 <= i < |more| ensures !Stale(more[i], c) {
        assert grown[|log| + i] == more[i];
      }
      assert !Stale(grown[|log| - 1], c);
    } else {
      var i :| |grown| - (|more| + 1) <= i < |grown| && Stale(grown[i], c);
      if i >= |log| {
        assert more[i - |log|] == grown[i];
      }
    }
  }

  /** The rows a finished run appends are those of the records it took. */
  lemma TakenRows(st: Store, log: seq<LogRecord>, sizes: seq<BatchSize>, sessionId: int) returns (rows: seq<EventRow>)
    ensures |rows| == Taken(log, sizes, CursorOf(st))
    ensures Collected(st, log, sizes, sessionId, 3).events == st.events + rows
    ensures forall i :: 0 <= i < |rows| ==> rows[i].origin == log[|log| - |rows| + i].origin
  {
    rows := Stamped(RowsOf(Fetched(log, sizes, CursorOf(st))), sessionId);
  }

  /** The run after a crash duplicates a row exactly when it reaches back to the newest record the crashed run stored. */
  lemma RecoveryDuplicatesIff(events: seq<EventRow>, rows: seq<EventRow>, log: seq<LogRecord>, more: seq<LogRecord>,
                              written: nat)
    requires StoredOnce(events) && events != [] && log != [] && |rows| <= |log + more|
    requires forall i :: 0 <= i < |events| ==> events[i].origin < written
    requires OriginsAscend(log + more, written + |more|)
    requires forall i :: |log| <= i < |log + more| ==> (log + more)[i].origin >= written
    requires events[|events| - 1].origin == log[|log| - 1].origin
    requires forall i :: 0 <= i < |rows| ==> rows[i].origin == (log + more)[|log + more| - |rows| + i].origin
    ensures !StoredOnce(events + rows) <==> |rows| > |more|
  {
    var after := events + rows;
    if |rows| > |more| {
      var j := |rows| - |more| - 1;
      assert rows[j].origin == log[|log| - 1].origin;
      assert after[|events| - 1].origin == after[|events| + j].origin;
    } else {
      forall i, j | 0 <= i < j < |after| ensures after[i].origin != after[j].origin {
        if j >= |events| {
          assert after[j] == rows[j - |events|];
          if i >= |events| {
            assert after[i] == rows[i - |events|];
          }
        }
      }
    }
  }

  lemma GrownOrigins(log: seq<LogRecord>, written: nat, more: seq<LogRecord>)
    requires OriginsAscend(log, written) && forall i :: 0 <= i < |more| ==> more[i].origin == written + i
    ensures OriginsAscend(log + more, written + |more|)
    ensures forall i :: |log| <= i < |log + more| ==> (log + more)[i].origin >= written
  {
    var grown := log + more;
    forall i | 0 <= i < |grown| ensures grown[i].origin == if i < |log| then log[i].origin else written + (i - |log|) {
      if i >= |log| {
        assert grown[i] == more[i - |log|];
      }
    }
  }

  /** At-most-once fails on a crash between commits, and exactly then.  A run dies after its row commit; the log grows by
      any new records; the next run, of any batches, stores some record twice if and only if it reads past the new
      records, none of them is stale to it, and either the id was not committed or the newest old record is newer than
      the timestamp that was not committed. */
  lemma CrashStoresTwiceIff(w: World, sizes: seq<BatchSize>, more: seq<LogRecord>, next: seq<BatchSize>, sessionId: int,
                            commits: nat)
    requires OnceInvariant(w) && FreshRecords(w, more) && (commits == 1 || commits == 2)
    requires Fetched(w.log, sizes, CursorOf(w.store)) != []
    ensures
      var crashed := Collected(w.store, w.log, sizes, sessionId, commits);
      var recovered := Collected(crashed, w.log + more, next, sessionId, 3);
      var last := w.log[|w.log| - 1];
      !StoredOnce(recovered.events) <==>
        && Reach(|w.log + more|, next, 0) > |more|
        && (forall i :: 0 <= i < |more| ==> !Stale(more[i], CursorOf(crashed)))
        && (commits == 1 || last.timeGenerated > CursorOf(w.store).time)
  {
    hide StoredOnce, OriginsAscend, Collected, Fetched, FreshCount, Stale, CursorOf;
    var crashed := Collected(w.store, w.log, sizes, sessionId, commits);
    CrashedTable(w, sizes, sessionId, commits);
    GrownOrigins(w.log, w.written, more);
    var rows := TakenRows(crashed, w.log + more, next, sessionId);
    RecoveryDuplicatesIff(crashed.events, rows, w.log, more, w.written);
    FreshBackIff(w.log, more, CursorOf(crashed));
    CrashedCursor(w.store, w.log, sizes, sessionId, commits);
  }

  /** What a crash after the row commit leaves: every record once so far, the newest one last. */
  lemma CrashedTable(w: World, sizes: seq<BatchSize>, sessionId: int, commits: nat)
    requires OnceInvariant(w) && Fetched(w.log, sizes, CursorOf(w.store)) != [] && commits >= 1
    ensures
      var events := Collected(w.store, w.log, sizes, sessionId, commits).events;
      && StoredOnce(events) && events != [] && w.log != []
      && (forall i :: 0 <= i < |events| ==> events[i].origin < w.written)
      && events[|events| - 1].origin == w.log[|w.log| - 1].origin
  {
    var crashed := Collected(w.store, w.log, sizes, sessionId, commits);
    NewestIsFetched(w.store, w.log, sizes, sessionId, commits);
    CollectionExtends(w.store, w.log, sizes, sessionId, commits);
    ExtensionStoresOnce(w, crashed.events, |w.log| - Taken(w.log, sizes, CursorOf(w.store)));
  }

  /** After a reboot: the log grew by fresh records and the recovery reads all that is fresh.  Then the uncommitted part
      of the cursor alone decides. */
  lemma CompleteRecoveryStoresTwiceIff(w: World, sizes: seq<BatchSize>, more: seq<LogRecord>, next: seq<BatchSize>,
                                       sessionId: int, commits: nat)
    requires OnceInvariant(w) && FreshRecords(w, more) && (commits == 1 || commits == 2)
    requires Fetched(w.log, sizes, CursorOf(w.store)) != []
    requires
      var c := CursorOf(Collected(w.store, w.log, sizes, sessionId, commits));
      && (forall i :: 0 <= i < |more| ==> !Stale(more[i], c))
      && Complete(w.log + more, next, c)
    ensures
      var crashed := Collected(w.store, w.log, sizes, sessionId, commits);
      var recovered := Collected(crashed, w.log + more, next, sessionId, 3);
      !StoredOnce(recovered.events) <==>
        commits == 1 || w.log[|w.log| - 1].timeGenerated > CursorOf(w.store).time
  {
    hide StoredOnce, Collected;
    CrashStoresTwiceIff(w, sizes, more, next, sessionId, commits);
    CrashedCursor(w.store, w.log, sizes, sessionId, commits);
    FreshBackIff(w.log, more, CursorOf(Collected(w.store, w.log, sizes, sessionId, commits)));
  }

  /** A recovery that is cut short of the old records, or stopped by a stale new one, duplicates nothing. */
  lemma CutRecoveryStoresOnce(w: World, sizes: seq<BatchSize>, more: seq<LogRecord>, next: seq<BatchSize>,
                              sessionId: int, commits: nat)
    requires OnceInvariant(w) && FreshRecords(w, more) && (commits == 1 || commits == 2)
    requires Fetched(w.log, sizes, CursorOf(w.store)) != []
    requires
      var c := CursorOf(Collected(w.store, w.log, sizes, sessionId, commits));
      || Reach(|w.log + more|, next, 0) <= |more|
      || exists i :: 0 <= i < |more| && Stale(more[i], c)
    ensures
      var crashed := Collected(w.store, w.log, sizes, sessionId, commits);
      StoredOnce(Collected(crashed, w.log + more, next, sessionId, 3).events)
  {
    hide StoredOnce, Collected;
    CrashStoresTwiceIff(w, sizes, more, next, sessionId, commits);
  }

  /** Nor does a recovery that finds the log cleared and refilled. */
  lemma ClearedRecoveryStoresOnce(w: World, sizes: seq<BatchSize>, refill: seq<LogRecord>, next: seq<BatchSize>,
                                  sessionId: int, commits: nat)
    requires OnceInvariant(w) && FreshRecords(w, refill) && commits >= 1
    requires Fetched(w.log, sizes, CursorOf(w.store)) != []
    ensures
      var crashed := Collected(w.store, w.log, sizes, sessionId, commits);
      StoredOnce(Collected(crashed, refill, next, sessionId, 3).events)
  {
    hide OnceInvariant, OriginsAscend, Fetched, CursorOf;
    var crashed := Collected(w.store, w.log, sizes, sessionId, commits);
    CrashedTable(w, sizes, sessionId, commits);
    var rows := TakenRows(crashed, refill, next, sessionId);
    var after := crashed.events + rows;
    forall i, j | 0 <= i < j < |after| ensures after[i].origin != after[j].origin {
      if j >= |crashed.events| {
        assert after[j] == rows[j - |crashed.events|];
        if i >= |crashed.events| {
          assert after[i] == rows[i - |crashed.events|];
        }
      }
    }
  }

  /* ---- after a clear ---- */

  /** With timestamps that never fall along the log, an uncapped successful run stores every record strictly newer than
      the cursor's timestamp, even if a clear has reset the record ids below the cursor. */
  lemma NewerRecordsAreStored(st: Store, log: seq<LogRecord>, sizes: seq<BatchSize>, sessionId: int, commits: nat)
    requires commits >= 1 && Complete(log, sizes, CursorOf(st))
    requires forall j, k :: 0 <= j < k < |log| ==> log[j].timeGenerated <= log[k].timeGenerated
    ensures forall i :: 0 <= i < |log| && log[i].timeGenerated > CursorOf(st).time ==>
              StoredIn(Collected(st, log, sizes, sessionId, commits).events, log[i])
  {
    var records := Fetched(log, sizes, CursorOf(st));
    var after := Collected(st, log, sizes, sessionId, commits).events;
    forall i | 0 <= i < |log| && log[i].timeGenerated > CursorOf(st).time ensures StoredIn(after, log[i]) {
      NewerThanCursorIsTaken(log, sizes, CursorOf(st), i);
      var k :| 0 <= k < |records| && records[k] == log[i];
      assert Copies(after[|st.events| + k], log[i]);
    }
  }

  /* ---- what a cut read costs ---- */

  /** Fresh records the batches did not reach, while newer ones were taken. */
  predicate Skipped(log: seq<LogRecord>, sizes: seq<BatchSize>, c: Cursor, i: nat) {
    && Taken(log, sizes, c) > 0
    && |log| - FreshCount(log, c) <= i < |log| - Taken(log, sizes, c)
  }

  /** Not stored, and in the log, if at all, only under a stale record. */
  ghost predicate Buried(w: World, origin: nat) {
    && origin < w.written
    && (forall i :: 0 <= i < |w.store.events| ==> w.store.events[i].origin != origin)
    && (forall i :: 0 <= i < |w.log| && w.log[i].origin == origin ==>
          exists j :: i <= j < |w.log| && Stale(w.log[j], CursorOf(w.store)))
  }

  lemma CursorOnlyRises(st: Store, log: seq<LogRecord>, sizes: seq<BatchSize>, sessionId: int, commits: nat)
    ensures
      var before := CursorOf(st);
      var after := CursorOf(Collected(st, log, sizes, sessionId, commits));
      before.id <= after.id && before.time <= after.time
  {
    CollectedCursor(st, log, sizes, sessionId, commits);
  }

  lemma BuriedCollection(w: World, origin: nat, sizes: seq<BatchSize>, sessionId: int, commits: nat)
    requires Buried(w, origin)
    ensures Buried(w.(store := Collected(w.store, w.log, sizes, sessionId, commits)), origin)
  {
    var c := CursorOf(w.store);
    var records := Fetched(w.log, sizes, c);
    var after := Collected(w.store, w.log, sizes, sessionId, commits);
    CursorOnlyRises(w.store, w.log, sizes, sessionId, commits);
    forall i | 0 <= i < |w.log| && w.log[i].origin == origin
      ensures exists j :: i <= j < |w.log| && Stale(w.log[j], CursorOf(after))
    {
      var j :| i <= j < |w.log| && Stale(w.log[j], c);
      assert Stale(w.log[j], CursorOf(after));
    }
    FreshSuffix(w.log, c, |records|);
    forall k | 0 <= k < |records| ensures records[k].origin != origin {
      assert records[k] == w.log[|w.log| - |records| + k];
    }
  }

  lemma BuriedStep(cfg: Config, w: World, s: Step, origin: nat)
    requires Buried(w, origin) && (s.Append? ==> FreshRecords(w, s.records))
    ensures Buried(Apply(cfg, w, s), origin)
  {
    TailOfStep(cfg, w, s);
    var w' := Apply(cfg, w, s);
    if Tails(s) {
      BuriedCollection(w, origin, SizesOf(s), StampOf(w, s), CommitsOf(s));
      assert SameTail(w'.store, Tailed(w, s));
    } else if s.Append? {
      forall i | 0 <= i < |w'.log| && w'.log[i].origin == origin
        ensures exists j :: i <= j < |w'.log| && Stale(w'.log[j], CursorOf(w'.store))
      {
        assert i < |w.log|;
        var j :| i <= j < |w.log| && Stale(w.log[j], CursorOf(w.store));
        assert w'.log[j] == w.log[j];
      }
    }
  }

  ghost predicate HonestRun(cfg: Config, w: World, steps: seq<Step>) {
    steps == []
    || (HonestRun(cfg, w, steps[..|steps| - 1])
        && (steps[|steps| - 1].Append? ==>
              FreshRecords(Run(cfg, w, steps[..|steps| - 1]), steps[|steps| - 1].records)))
  }

  lemma {:induction false} BuriedRun(cfg: Config, w: World, steps: seq<Step>, origin: nat)
    requires Buried(w, origin) && HonestRun(cfg, w, steps)
    ensures Buried(Run(cfg, w, steps), origin)
  {
    if steps != [] {
      BuriedRun(cfg, w, steps[..|steps| - 1], origin);
      BuriedStep(cfg, Run(cfg, w, steps[..|steps| - 1]), steps[|steps| - 1], origin);
    }
  }

  /** A finished run buries what it skipped. */
  lemma SkippingBuries(w: World, sizes: seq<BatchSize>, sessionId: int, commits: nat, i: nat)
    requires OriginsAscend(w.log, w.written) && i < |w.log| && commits >= 3
    requires forall k :: 0 <= k < |w.store.events| ==> w.store.events[k].origin != w.log[i].origin
    requires Skipped(w.log, sizes, CursorOf(w.store), i)
    ensures Buried(w.(store := Collected(w.store, w.log, sizes, sessionId, commits)), w.log[i].origin)
  {
    var c := CursorOf(w.store);
    var records := Fetched(w.log, sizes, c);
    var after := Collected(w.store, w.log, sizes, sessionId, commits);
    CollectionExtends(w.store, w.log, sizes, sessionId, commits);
    CollectedCursor(w.store, w.log, sizes, sessionId, commits);
    MaximaCover(records, c);
    assert records[|records| - 1] == w.log[|w.log| - 1];
    assert Stale(w.log[|w.log| - 1], CursorOf(after));
  }

  /** A capped or failing read advances the cursor past what it did not read: every fresh record it skipped is lost
      for good, whatever runs, crashes and clears come after. */
  lemma SkippedIsLost(cfg: Config, w: World, s: Step, rest: seq<Step>, i: nat)
    requires OriginsAscend(w.log, w.written) && i < |w.log|
    requires forall k :: 0 <= k < |w.store.events| ==> w.store.events[k].origin != w.log[i].origin
    requires Tails(s) && CommitsOf(s) >= 3 && Skipped(w.log, SizesOf(s), CursorOf(w.store), i)
    requires HonestRun(cfg, Apply(cfg, w, s), rest)
    ensures forall k :: 0 <= k < |Run(cfg, Apply(cfg, w, s), rest).store.events| ==>
              Run(cfg, Apply(cfg, w, s), rest).store.events[k].origin != w.log[i].origin
  {
    hide Apply, OriginsAscend, Skipped;
    var w' := Apply(cfg, w, s);
    TailOfStep(cfg, w, s);
    SkippingBuries(w, SizesOf(s), StampOf(w, s), CommitsOf(s), i);
    assert Buried(w', w.log[i].origin);
    BuriedRun(cfg, w', rest, w.log[i].origin);
  }
}
