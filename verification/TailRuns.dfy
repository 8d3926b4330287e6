/** The event tail over whole runs: what the stored events have to do with the log itself. */
module TailRuns {
  import opened Prelude
  import opened Storage
  import opened Configuration
  import opened BootDetector
  import opened EventTail
  import opened Diagnosis
  import opened Machine

  /** Row e carries what record r says: when, from which source, the low 16 bits of its id, under which number, and what. */
  predicate Copies(e: EventRow, r: LogRecord) {
    && e.timestamp == r.timeGenerated && e.provider == r.sourceName
    && e.eventId == (if r.eventId.Some? then Some(r.eventId.value % 0x1_0000) else None)
    && e.recordId == r.recordNumber && e.message == r.message && e.origin == r.origin
  }

  lemma RowIsCopy(r: LogRecord, sessionId: int)
    ensures Copies(RowOf(r).(sessionId := sessionId), r)
  {
  }

  ghost predicate StoredIn(events: seq<EventRow>, r: LogRecord) {
    exists i :: 0 <= i < |events| && Copies(events[i], r)
  }

  /** The stored events are exactly the log's records, in log order, once each. */
  predicate Mirrors(events: seq<EventRow>, log: seq<LogRecord>) {
    |events| == |log| && forall i :: 0 <= i < |log| ==> Copies(events[i], log[i])
  }

  /** Record ids count up from 1 as long as the log is not cleared; timestamps are arbitrary. */
  ghost predicate LogOrdered(log: seq<LogRecord>) {
    && (forall i :: 0 <= i < |log| ==> log[i].recordNumber >= 1)
    && (forall i, j :: 0 <= i < j < |log| ==> log[i].recordNumber < log[j].recordNumber)
  }

  predicate Tails(s: Step) {
    s.Startup? || s.LowCycle?
  }

  function SizesOf(s: Step): seq<BatchSize>
    requires Tails(s)
  {
    match s
    case Startup(_, _, sizes, _, _) => sizes
    case LowCycle(_, _, _, sizes, _) => sizes
  }

  function CommitsOf(s: Step): nat
    requires Tails(s)
  {
    match s
    case Startup(_, _, _, commits, _) => commits
    case LowCycle(_, _, _, _, commits) => commits
  }

  /** The event columns and the cursor of a store. */
  predicate SameTail(a: Store, b: Store) {
    a.events == b.events && a.lastRecordId == b.lastRecordId && a.lastEventTime == b.lastEventTime
  }

  /** The session the collected rows are stamped with. */
  function StampOf(w: World, s: Step): int
    requires Tails(s)
  {
    if s.Startup? then DetectedResult(w.store, s.boot).sessionId else s.sessionId
  }

  /** One collection by step s. */
  function Tailed(w: World, s: Step): Store
    requires Tails(s)
  {
    Collected(w.store, w.log, SizesOf(s), StampOf(w, s), CommitsOf(s))
  }

  /** Every step leaves the tail as it was, except a collection, which does exactly one run. */
  lemma TailOfStep(cfg: Config, w: World, s: Step)
    ensures !Tails(s) ==> SameTail(Apply(cfg, w, s).store, w.store)
    ensures Tails(s) ==> Apply(cfg, w, s).log == w.log && Apply(cfg, w, s).written == w.written
    ensures Tails(s) ==> SameTail(Apply(cfg, w, s).store, Tailed(w, s))
  {
    if s.Startup? {
      StartupTail(cfg, w, s);
    }
  }

  lemma StartupTail(cfg: Config, w: World, s: Step)
    requires s.Startup?
    ensures SameTail(Started(cfg, w.store, w.log, s), Tailed(w, s))
  {
    assert SameTail(AfterTailing(w.store, w.log, s), Tailed(w, s));
  }

  /* ---- the tail refines a full rescan ---- */

  /** The first n log records are stored, and the cursor stands on the n-th. */
  predicate Synced(st: Store, log: seq<LogRecord>) {
    var n := |st.events|;
    var c := CursorOf(st);
    && n <= |log| && Mirrors(st.events, log[..n])
    && (n == 0 ==> c.id == 0)
    && (n > 0 ==> c.id == log[n - 1].recordNumber && forall i :: 0 <= i < n ==> log[i].timeGenerated <= c.time)
  }

  /** In step with the log, exactly what is not stored is fresh, whatever the timestamps say. */
  lemma {:induction false} SyncedFresh(st: Store, log: seq<LogRecord>)
    requires LogOrdered(log) && Synced(st, log)
    ensures FreshCount(log, CursorOf(st)) == |log| - |st.events|
  {
    var n := |st.events|;
    var c := CursorOf(st);
    FreshSuffix(log, c, |log| - n);
    assert forall i :: n <= i < |log| ==> !Stale(log[i], c);
    if n > 0 {
      FreshSuffix(log, c, |log| - n + 1);
      assert Stale(log[n - 1], c);
    }
  }

  lemma MaxIdIsLast(records: seq<LogRecord>, from: int)
    requires records != [] && forall i :: 0 <= i < |records| ==> from < records[i].recordNumber
    requires forall i, j :: 0 <= i < j < |records| ==> records[i].recordNumber < records[j].recordNumber
    ensures MaxId(records, from) == records[|records| - 1].recordNumber
  {
    var m := MaxId(records, from);
    var last := records[|records| - 1];
    assert last in records;
    var r :| r in records && r.recordNumber == m;
  }

  /** Appending copies of the missing records completes the mirror. */
  lemma MirrorCompleted(events: seq<EventRow>, log: seq<LogRecord>, sessionId: int)
    requires |events| <= |log| && Mirrors(events, log[..|events|])
    ensures Mirrors(events + Stamped(RowsOf(log[|events|..]), sessionId), log)
  {
    var after := events + Stamped(RowsOf(log[|events|..]), sessionId);
    forall i | 0 <= i < |log| ensures Copies(after[i], log[i]) {
      if i < |events| {
        assert log[..|events|][i] == log[i];
      } else {
        assert log[|events|..][i - |events|] == log[i];
      }
    }
  }

  /** From a store in step with the log, a finished run stores the whole log if and only if it was complete. */
  lemma CatchesUpIff(st: Store, log: seq<LogRecord>, sizes: seq<BatchSize>, sessionId: int, commits: nat)
    requires LogOrdered(log) && Synced(st, log) && commits >= 1
    ensures Mirrors(Collected(st, log, sizes, sessionId, commits).events, log) <==> Complete(log, sizes, CursorOf(st))
  {
    SyncedFresh(st, log);
    var records := Fetched(log, sizes, CursorOf(st));
    if Complete(log, sizes, CursorOf(st)) {
      assert records == log[|st.events|..];
      MirrorCompleted(st.events, log, sessionId);
      if records == [] {
        assert log[..|st.events|] == log;
      }
    }
  }

  /** Past the first n records, the maxima over the rest stand on the last record and above every timestamp. */
  lemma MaximaOfRest(log: seq<LogRecord>, n: nat, c: Cursor)
    requires LogOrdered(log) && n < |log|
    requires forall i :: n <= i < |log| ==> c.id < log[i].recordNumber
    requires forall i :: 0 <= i < n ==> log[i].timeGenerated <= c.time
    ensures MaxId(log[n..], c.id) == log[|log| - 1].recordNumber
    ensures forall i :: 0 <= i < |log| ==> log[i].timeGenerated <= MaxTime(log[n..], c.time)
  {
    MaxIdIsLast(log[n..], c.id);
    forall i | 0 <= i < |log| ensures log[i].timeGenerated <= MaxTime(log[n..], c.time) {
      if i >= n {
        assert log[n..][i - n] == log[i];
        assert log[i] in log[n..];
      }
    }
  }

  lemma CollectedCursor(st: Store, log: seq<LogRecord>, sizes: seq<BatchSize>, sessionId: int, commits: nat)
    ensures
      var c := CursorOf(st);
      var records := Fetched(log, sizes, c);
      CursorOf(Collected(st, log, sizes, sessionId, commits))
        == Cursor(if records != [] && commits >= 2 then MaxId(records, c.id) else c.id,
                  if records != [] && commits >= 3 then MaxTime(records, c.time) else c.time)
  {
  }

  /** A store that mirrors the log, with its cursor on the last record, is in step. */
  lemma MirrorInStep(st: Store, log: seq<LogRecord>)
    requires Mirrors(st.events, log)
    requires CursorOf(st).id == if log == [] then 0 else log[|log| - 1].recordNumber
    requires forall i :: 0 <= i < |log| ==> log[i].timeGenerated <= CursorOf(st).time
    ensures Synced(st, log)
  {
    assert log[..|log|] == log;
  }

  /** The cursor after a run that took the rest of the log stands on its end. */
  lemma CursorReachesEnd(st: Store, log: seq<LogRecord>, c: Cursor)
    requires LogOrdered(log) && Synced(st, log)
    requires
      var rest := log[|st.events|..];
      var from := CursorOf(st);
      c == if rest == [] then from else Cursor(MaxId(rest, from.id), MaxTime(rest, from.time))
    ensures c.id == if log == [] then 0 else log[|log| - 1].recordNumber
    ensures forall i :: 0 <= i < |log| ==> log[i].timeGenerated <= c.time
  {
    var n := |st.events|;
    if n < |log| {
      MaximaOfRest(log, n, CursorOf(st));
    }
  }

  lemma CompleteFetch(st: Store, log: seq<LogRecord>, sizes: seq<BatchSize>)
    requires LogOrdered(log) && Synced(st, log) && Complete(log, sizes, CursorOf(st))
    ensures |st.events| <= |log| && Fetched(log, sizes, CursorOf(st)) == log[|st.events|..]
  {
    SyncedFresh(st, log);
  }

  /** After all three commits of a complete run the store is in step again. */
  lemma CompleteRunSyncs(st: Store, log: seq<LogRecord>, sizes: seq<BatchSize>, sessionId: int, commits: nat)
    requires LogOrdered(log) && Synced(st, log) && commits >= 3 && Complete(log, sizes, CursorOf(st))
    ensures Synced(Collected(st, log, sizes, sessionId, commits), log)
  {
    hide *;
    var after := Collected(st, log, sizes, sessionId, commits);
    CatchesUpIff(st, log, sizes, sessionId, commits);
    CompleteFetch(st, log, sizes);
    CollectedCursor(st, log, sizes, sessionId, commits);
    CursorReachesEnd(st, log, CursorOf(after));
    MirrorInStep(after, log);
  }

  /** A step with no clear, crash, failed read or capped read. */
  ghost predicate QuietStep(cfg: Config, w: World, s: Step) {
    && !s.ClearLog?
    && (s.Append? ==> LogOrdered(w.log + s.records))
    && (Tails(s) ==> CommitsOf(s) >= 3 && Complete(w.log, SizesOf(s), CursorOf(w.store)))
  }

  ghost predicate QuietRun(cfg: Config, w: World, steps: seq<Step>) {
    steps == []
    || (QuietRun(cfg, w, steps[..|steps| - 1])
        && QuietStep(cfg, Run(cfg, w, steps[..|steps| - 1]), steps[|steps| - 1]))
  }

  lemma QuietStepKeepsSync(cfg: Config, w: World, s: Step)
    requires LogOrdered(w.log) && Synced(w.store, w.log) && QuietStep(cfg, w, s)
    ensures
      var w' := Apply(cfg, w, s);
      && LogOrdered(w'.log) && Synced(w'.store, w'.log)
      && (Tails(s) ==> Mirrors(w'.store.events, w'.log))
  {
    TailOfStep(cfg, w, s);
    if Tails(s) {
      CatchesUpIff(w.store, w.log, SizesOf(s), StampOf(w, s), CommitsOf(s));
      CompleteRunSyncs(w.store, w.log, SizesOf(s), StampOf(w, s), CommitsOf(s));
    } else if s.Append? {
      assert (w.log + s.records)[..|w.store.events|] == w.log[..|w.store.events|];
    }
  }

  lemma {:induction false} QuietRunKeepsSync(cfg: Config, w: World, steps: seq<Step>)
    requires LogOrdered(w.log) && Synced(w.store, w.log) && QuietRun(cfg, w, steps)
    ensures LogOrdered(Run(cfg, w, steps).log) && Synced(Run(cfg, w, steps).store, Run(cfg, w, steps).log)
  {
    if steps != [] {
      QuietRunKeepsSync(cfg, w, steps[..|steps| - 1]);
      QuietStepKeepsSync(cfg, Run(cfg, w, steps[..|steps| - 1]), steps[|steps| - 1]);
    }
  }

  /** The incremental tail refines a full rescan: in every quiet run from an empty database, for any batch sizes and
      any clock, each collection leaves exactly the log's records stored, in log order, once each. */
  lemma TailRefinesRescan(cfg: Config, steps: seq<Step>)
    requires QuietRun(cfg, BEGINNING, steps)
    requires steps != [] && Tails(steps[|steps| - 1])
    ensures Mirrors(Run(cfg, BEGINNING, steps).store.events, Run(cfg, BEGINNING, steps).log)
  {
    QuietRunKeepsSync(cfg, BEGINNING, steps[..|steps| - 1]);
    QuietStepKeepsSync(cfg, Run(cfg, BEGINNING, steps[..|steps| - 1]), steps[|steps| - 1]);
  }

  /* ---- crashes between commits: at least once ---- */

  /** A step that may die after any of its commits, but meets no clear, failed or capped read. */
  ghost predicate CrashStep(cfg: Config, w: World, s: Step) {
    && !s.ClearLog?
    && (s.Append? ==> LogOrdered(w.log + s.records))
    && (Tails(s) ==> Complete(w.log, SizesOf(s), CursorOf(w.store)))
  }

  ghost predicate CrashRun(cfg: Config, w: World, steps: seq<Step>) {
    steps == []
    || (CrashRun(cfg, w, steps[..|steps| - 1])
        && CrashStep(cfg, Run(cfg, w, steps[..|steps| - 1]), steps[|steps| - 1]))
  }

  ghost predicate AllStored(events: seq<EventRow>, log: seq<LogRecord>) {
    forall i :: 0 <= i < |log| ==> StoredIn(events, log[i])
  }

  /** Nothing at or below the persisted id is missing. */
  ghost predicate NothingMissed(st: Store, log: seq<LogRecord>) {
    && LogOrdered(log)
    && (forall i :: 0 <= i < |log| && log[i].recordNumber <= CursorOf(st).id ==> StoredIn(st.events, log[i]))
  }

  lemma StoredStays(events: seq<EventRow>, more: seq<EventRow>, r: LogRecord)
    requires StoredIn(events, r)
    ensures StoredIn(events + more, r)
  {
    var i :| 0 <= i < |events| && Copies(events[i], r);
    assert (events + more)[i] == events[i];
  }

  /** What a complete run leaves untaken is at or below the persisted id, so stored. */
  lemma UntakenIsStored(st: Store, log: seq<LogRecord>, sizes: seq<BatchSize>, i: nat)
    requires NothingMissed(st, log) && Complete(log, sizes, CursorOf(st))
    requires i < |log| - Taken(log, sizes, CursorOf(st))
    ensures StoredIn(st.events, log[i])
  {
    hide Copies, FreshCount, Reach;
    var c := CursorOf(st);
    var n := Taken(log, sizes, c);
    FreshSuffix(log, c, n + 1);
    FreshSuffix(log, c, n);
    assert Stale(log[|log| - n - 1], c);
  }

  /** What a run takes is stored with its row commit. */
  lemma TakenIsStored(st: Store, log: seq<LogRecord>, sizes: seq<BatchSize>, sessionId: int, commits: nat, i: nat)
    requires commits >= 1 && |log| - Taken(log, sizes, CursorOf(st)) <= i < |log|
    ensures StoredIn(Collected(st, log, sizes, sessionId, commits).events, log[i])
  {
    hide Copies, Taken, MaxId, MaxTime;
    var records := Fetched(log, sizes, CursorOf(st));
    var k := i - (|log| - |records|);
    assert records[k] == log[i];
    RowIsCopy(log[i], sessionId);
    assert Collected(st, log, sizes, sessionId, commits).events[|st.events| + k] == RowOf(log[i]).(sessionId := sessionId);
  }

  /** However many of its commits take effect, a complete run keeps the promise, and its row commit alone is enough
      to store the whole log. */
  lemma CrashKeepsPromise(st: Store, log: seq<LogRecord>, sizes: seq<BatchSize>, sessionId: int, commits: nat)
    requires NothingMissed(st, log) && Complete(log, sizes, CursorOf(st))
    ensures NothingMissed(Collected(st, log, sizes, sessionId, commits), log)
    ensures commits >= 1 ==> AllStored(Collected(st, log, sizes, sessionId, commits).events, log)
  {
    hide StoredIn, Taken, MaxId, MaxTime, Complete;
    var records := Fetched(log, sizes, CursorOf(st));
    var after := Collected(st, log, sizes, sessionId, commits);
    if commits >= 1 || records == [] {
      forall i | 0 <= i < |log| ensures StoredIn(after.events, log[i]) {
        if i < |log| - |records| {
          UntakenIsStored(st, log, sizes, i);
          StoredStays(st.events, Stamped(RowsOf(records), sessionId), log[i]);
        } else {
          TakenIsStored(st, log, sizes, sessionId, commits, i);
        }
      }
    }
  }

  lemma CrashStepKeepsPromise(cfg: Config, w: World, s: Step)
    requires NothingMissed(w.store, w.log) && CrashStep(cfg, w, s)
    requires s.Append? ==> CursorOf(w.store).id < (if w.log == [] then 1 else w.log[|w.log| - 1].recordNumber + 1)
    ensures NothingMissed(Apply(cfg, w, s).store, Apply(cfg, w, s).log)
    ensures Tails(s) && CommitsOf(s) >= 1 ==> AllStored(Apply(cfg, w, s).store.events, Apply(cfg, w, s).log)
  {
    TailOfStep(cfg, w, s);
    if Tails(s) {
      CrashKeepsPromise(w.store, w.log, SizesOf(s), StampOf(w, s), CommitsOf(s));
    } else if s.Append? {
      var log := w.log + s.records;
      assert |w.log| > 0 ==> log[|w.log| - 1] == w.log[|w.log| - 1];
    }
  }

  /** Without clears the cursor never runs ahead of the log. */
  ghost predicate CursorInLog(w: World) {
    CursorOf(w.store).id <= if w.log == [] then 0 else w.log[|w.log| - 1].recordNumber
  }

  lemma {:induction false} MaxIdBounded(records: seq<LogRecord>, from: int, bound: int)
    requires from <= bound && forall i :: 0 <= i < |records| ==> records[i].recordNumber <= bound
    ensures MaxId(records, from) <= bound
  {
    if records != [] {
      MaxIdBounded(records[..|records| - 1], from, bound);
    }
  }

  lemma CollectionStaysInLog(st: Store, log: seq<LogRecord>, sizes: seq<BatchSize>, sessionId: int, commits: nat)
    requires LogOrdered(log) && CursorOf(st).id <= if log == [] then 0 else log[|log| - 1].recordNumber
    ensures CursorOf(Collected(st, log, sizes, sessionId, commits)).id
         <= if log == [] then 0 else log[|log| - 1].recordNumber
  {
    var records := Fetched(log, sizes, CursorOf(st));
    CollectedCursor(st, log, sizes, sessionId, commits);
    if records != [] {
      MaxIdBounded(records, CursorOf(st).id, log[|log| - 1].recordNumber);
    }
  }

  lemma CursorStaysInLog(cfg: Config, w: World, s: Step)
    requires LogOrdered(w.log) && CursorInLog(w) && CrashStep(cfg, w, s)
    ensures CursorInLog(Apply(cfg, w, s))
  {
    hide Collected, Detected, DetectedResult, Complete;
    TailOfStep(cfg, w, s);
    if Tails(s) {
      CollectionStaysInLog(w.store, w.log, SizesOf(s), StampOf(w, s), CommitsOf(s));
    } else if s.Append? && s.records != [] {
      var log := w.log + s.records;
      assert log[|log| - 1] == s.records[|s.records| - 1];
      if w.log != [] {
        assert log[|w.log| - 1] == w.log[|w.log| - 1];
      }
    }
  }

  lemma {:induction false} CrashRunKeepsPromise(cfg: Config, w: World, steps: seq<Step>)
    requires NothingMissed(w.store, w.log) && CursorInLog(w) && CrashRun(cfg, w, steps)
    ensures NothingMissed(Run(cfg, w, steps).store, Run(cfg, w, steps).log) && CursorInLog(Run(cfg, w, steps))
  {
    if steps != [] {
      var w' := Run(cfg, w, steps[..|steps| - 1]);
      CrashRunKeepsPromise(cfg, w, steps[..|steps| - 1]);
      CursorStaysInLog(cfg, w', steps[|steps| - 1]);
      CrashStepKeepsPromise(cfg, w', steps[|steps| - 1]);
    }
  }

  /** Crash safety is at-least-once: after any run with crashes between commits, every record at or below the persisted
      id is stored, and a run that gets as far as its row commit has stored all the rest. */
  lemma AtLeastOnce(cfg: Config, steps: seq<Step>)
    requires CrashRun(cfg, BEGINNING, steps)
    ensures NothingMissed(Run(cfg, BEGINNING, steps).store, Run(cfg, BEGINNING, steps).log)
    ensures steps != [] && Tails(steps[|steps| - 1]) && CommitsOf(steps[|steps| - 1]) >= 1 ==>
              AllStored(Run(cfg, BEGINNING, steps).store.events, Run(cfg, BEGINNING, steps).log)
  {
    CrashRunKeepsPromise(cfg, BEGINNING, steps);
    if steps != [] {
      CrashRunKeepsPromise(cfg, BEGINNING, steps[..|steps| - 1]);
      CrashStepKeepsPromise(cfg, Run(cfg, BEGINNING, steps[..|steps| - 1]), steps[|steps| - 1]);
    }
  }
}
