/** collectors/processes.py: the busiest processes by CPU and by memory, merged by pid. */
module Processes {
  import opened Prelude

  const TOP_N: nat := 10

  datatype Proc = Proc(pid: int, name: string, cpu: real, memory: nat, exe: Option<string>)

  /** One process as the system lists it: it may vanish before it is read, and lack figures. */
  datatype Listed = Vanished | Listed(pid: int, name: string, cpu: Option<real>, rss: Option<nat>, exe: Option<string>)

  function Readable(listed: seq<Listed>): seq<Proc> {
    if listed == [] then []
    else
      var rest := Readable(listed[..|listed| - 1]);
      match listed[|listed| - 1]
      case Vanished => rest
      case Listed(pid, name, cpu, rss, exe) =>
        rest + [Proc(pid, name, if cpu.Some? then cpu.value else 0.0, if rss.Some? then rss.value else 0, exe)]
  }

  /* ---- sorting ---- */

  type Key = Proc -> real

  function ByCpu(): Key {
    (p: Proc) => p.cpu
  }

  function ByMemory(): Key {
    (p: Proc) => p.memory as real
  }

  /** Behind everything at least as large: ties keep their order. */
  function Insert(s: seq<Proc>, p: Proc, key: Key): seq<Proc> {
    if s == [] || key(s[|s| - 1]) >= key(p) then s + [p]
    else Insert(s[..|s| - 1], p, key) + [s[|s| - 1]]
  }

  /** sorted(..., reverse=True): stable, largest first. */
  function Sorted(s: seq<Proc>, key: Key): seq<Proc> {
    if s == [] then [] else Insert(Sorted(s[..|s| - 1], key), s[|s| - 1], key)
  }

  ghost predicate Descending(s: seq<Proc>, key: Key) {
    forall i, j :: 0 <= i < j < |s| ==> key(s[i]) >= key(s[j])
  }

  lemma {:induction false} InsertPermutes(s: seq<Proc>, p: Proc, key: Key)
    ensures multiset(Insert(s, p, key)) == multiset(s) + multiset{p}
  {
    if s != [] && key(s[|s| - 1]) < key(p) {
      assert s == s[..|s| - 1] + [s[|s| - 1]];
      InsertPermutes(s[..|s| - 1], p, key);
    }
  }

  lemma InsertedAreAbove(s: seq<Proc>, p: Proc, key: Key, bound: real)
    requires bound <= key(p) && forall i :: 0 <= i < |s| ==> bound <= key(s[i])
    ensures forall q :: q in Insert(s, p, key) ==> bound <= key(q)
  {
    hide Insert;
    InsertPermutes(s, p, key);
    forall q | q in Insert(s, p, key) ensures bound <= key(q) {
      assert q in multiset(Insert(s, p, key));
      assert q == p || q in multiset(s);
    }
  }

  lemma {:induction false} InsertKeepsOrder(s: seq<Proc>, p: Proc, key: Key)
    requires Descending(s, key)
    ensures Descending(Insert(s, p, key), key)
  {
    if s != [] && key(s[|s| - 1]) < key(p) {
      var rest, last := s[..|s| - 1], s[|s| - 1];
      assert s == rest + [last];
      InsertKeepsOrder(rest, p, key);
      InsertedAreAbove(rest, p, key, key(last));
      DescendingSnoc(Insert(rest, p, key), last, key);
    }
  }

  lemma DescendingSnoc(s: seq<Proc>, p: Proc, key: Key)
    requires Descending(s, key) && forall i :: 0 <= i < |s| ==> key(s[i]) >= key(p)
    ensures Descending(s + [p], key)
  {
  }

  lemma {:induction false} SortedSorts(s: seq<Proc>, key: Key)
    ensures Descending(Sorted(s, key), key) && multiset(Sorted(s, key)) == multiset(s)
  {
    if s != [] {
      assert s == s[..|s| - 1] + [s[|s| - 1]];
      SortedSorts(s[..|s| - 1], key);
      InsertKeepsOrder(Sorted(s[..|s| - 1], key), s[|s| - 1], key);
      InsertPermutes(Sorted(s[..|s| - 1], key), s[|s| - 1], key);
    }
  }

  function Top(s: seq<Proc>, key: Key): (r: seq<Proc>)
    ensures |r| <= TOP_N
  {
    var sorted := Sorted(s, key);
    sorted[..Min(TOP_N, |sorted|)]
  }

  /** The top list has its full length, holds processes of the input, and nothing left out exceeds anything in it. */
  lemma TopDominates(s: seq<Proc>, key: Key)
    ensures |Top(s, key)| == Min(10, |s|)
    ensures forall p :: p in Top(s, key) ==> p in s
    ensures forall p, q :: p in s && p !in Top(s, key) && q in Top(s, key) ==> key(p) <= key(q)
  {
    SortedSorts(s, key);
    var sorted := Sorted(s, key);
    assert |sorted| == |multiset(sorted)| == |multiset(s)| == |s|;
    var top := Top(s, key);
    forall p | p in top ensures p in s {
      assert p in multiset(sorted);
      assert p in multiset(s);
    }
    forall p, q | p in s && p !in top && q in top ensures key(p) <= key(q) {
      assert p in multiset(s);
      assert p in multiset(sorted);
      var i :| 0 <= i < |sorted| && sorted[i] == p;
      var j :| 0 <= j < |top| && top[j] == q;
      forall k | 0 <= k < |top| ensures sorted[k] in top {
        assert top[k] == sorted[k];
      }
      assert sorted[j] == q;
    }
  }

  /* ---- merging by pid ---- */

  ghost predicate DistinctPids(s: seq<Proc>) {
    forall i, j :: 0 <= i < j < |s| ==> s[i].pid != s[j].pid
  }

  /** A dictionary entry: a known pid keeps its place and takes the new value. */
  function Put(m: seq<Proc>, p: Proc): (r: seq<Proc>)
    ensures |m| <= |r| <= |m| + 1
  {
    if m == [] then [p]
    else if m[|m| - 1].pid == p.pid then m[|m| - 1 := p]
    else
      var front := m[..|m| - 1];
      var put := Put(front, p);
      if |put| == |front| then put + [m[|m| - 1]] else m + [p]
  }

  /** {p["pid"]: p for p in s}, values in insertion order. */
  function Merged(s: seq<Proc>): seq<Proc> {
    if s == [] then [] else Put(Merged(s[..|s| - 1]), s[|s| - 1])
  }

  /** One pid, one process. */
  ghost predicate PidsIdentify(s: seq<Proc>) {
    forall p, q :: p in s && q in s && p.pid == q.pid ==> p == q
  }

  lemma {:induction false} PutIdentified(m: seq<Proc>, p: Proc)
    requires DistinctPids(m) && forall q :: q in m && q.pid == p.pid ==> q == p
    ensures Put(m, p) == if p in m then m else m + [p]
  {
    if m != [] {
      var front, last := m[..|m| - 1], m[|m| - 1];
      assert m == front + [last];
      if last.pid == p.pid {
        assert last in m;
      } else {
        PutIdentified(front, p);
      }
    }
  }

  /** Merging keeps one row per pid and loses nobody. */
  lemma {:induction false} MergedIsUnion(s: seq<Proc>)
    requires PidsIdentify(s)
    ensures DistinctPids(Merged(s)) && |Merged(s)| <= |s|
    ensures forall p :: p in Merged(s) <==> p in s
  {
    if s != [] {
      var front, last := s[..|s| - 1], s[|s| - 1];
      assert s == front + [last];
      MergedIsUnion(front);
      assert last in s;
      PutIdentified(Merged(front), last);
    }
  }

  lemma MergedOneMore(s: seq<Proc>, p: Proc)
    requires PidsIdentify(s + [p])
    ensures Merged(s) <= Merged(s + [p])
  {
    assert (s + [p])[..|s|] == s;
    assert forall q :: q in s ==> q in s + [p];
    assert p in s + [p];
    MergedIsUnion(s);
    PutIdentified(Merged(s), p);
  }

  /** Rows already distinct are only added to. */
  lemma {:induction false} MergedOfDistinct(a: seq<Proc>, b: seq<Proc>)
    requires PidsIdentify(a + b) && DistinctPids(a)
    ensures a <= Merged(a + b)
  {
    if b == [] {
      assert a + b == a;
      MergedFixed(a);
    } else {
      var front, last := b[..|b| - 1], b[|b| - 1];
      assert a + b == (a + front) + [last];
      assert forall q :: q in a + front ==> q in a + b;
      MergedOfDistinct(a, front);
      MergedOneMore(a + front, last);
    }
  }

  lemma {:induction false} MergedFixed(a: seq<Proc>)
    requires DistinctPids(a)
    ensures Merged(a) == a
  {
    if a != [] {
      var front, last := a[..|a| - 1], a[|a| - 1];
      assert a == front + [last];
      MergedFixed(front);
      PutNew(front, last);
    }
  }

  lemma {:induction false} PutNew(m: seq<Proc>, p: Proc)
    requires forall i :: 0 <= i < |m| ==> m[i].pid != p.pid
    ensures Put(m, p) == m + [p]
  {
    if m != [] {
      PutNew(m[..|m| - 1], p);
    }
  }

  function Selected(procs: seq<Proc>): seq<Proc> {
    Merged(Top(procs, ByCpu()) + Top(procs, ByMemory()))
  }

  /** `raises` says that listing the processes failed part-way: then nothing is reported. */
  method CollectProcesses(listed: seq<Listed>, raises: bool) returns (rows: seq<Proc>)
    ensures rows == if raises then [] else Selected(Readable(listed))
  {
    var procs: seq<Proc> := [];
    for i := 0 to |listed|
      invariant procs == Readable(listed[..i])
    {
      assert listed[..i + 1][..i] == listed[..i];
      match listed[i] {
        case Vanished =>
        case Listed(pid, name, cpu, rss, exe) =>
          procs := procs + [Proc(pid, name, if cpu.Some? then cpu.value else 0.0,
                                 if rss.Some? then rss.value else 0, exe)];
      }
    }
    assert listed[..|listed|] == listed;
    if raises {
      return [];
    }
    var topCpu := Top(procs, ByCpu());
    var topMemory := Top(procs, ByMemory());
    rows := Merged(topCpu + topMemory);
  }

  lemma {:induction false} TopIsDistinct(procs: seq<Proc>, key: Key)
    requires DistinctPids(procs)
    ensures DistinctPids(Top(procs, key))
  {
    SortedSorts(procs, key);
    var sorted := Sorted(procs, key);
    forall i, j | 0 <= i < j < |sorted| ensures sorted[i].pid != sorted[j].pid {
      SamePidSameProcess(procs);
      if sorted[i].pid == sorted[j].pid {
        assert sorted[i] in multiset(sorted) && sorted[j] in multiset(sorted);
        assert sorted[i] in procs && sorted[j] in procs;
        assert sorted[i] == sorted[j];
        TwiceInSequence(sorted, i, j);
        OnceInDistinct(procs, sorted[i]);
      }
    }
  }

  lemma SamePidSameProcess(procs: seq<Proc>)
    requires DistinctPids(procs)
    ensures PidsIdentify(procs)
  {
  }

  lemma {:induction false} TwiceInSequence(s: seq<Proc>, i: nat, j: nat)
    requires i < j < |s| && s[i] == s[j]
    ensures multiset(s)[s[i]] >= 2
  {
    assert s == s[..j] + s[j..];
    assert s[i] in s[..j] && s[j] in s[j..];
    assert s[..j][i] == s[i] && s[j..][0] == s[j];
    assert multiset(s) == multiset(s[..j]) + multiset(s[j..]);
  }

  lemma {:induction false} OnceInDistinct(s: seq<Proc>, p: Proc)
    requires DistinctPids(s)
    ensures multiset(s)[p] <= 1
  {
    if s != [] {
      var front, last := s[..|s| - 1], s[|s| - 1];
      assert s == front + [last];
      OnceInDistinct(front, p);
      forall i | 0 <= i < |front| ensures front[i] != last {
        assert front[i] == s[i];
      }
    }
  }

  /** Process selection dominates: for distinct pids the rows have distinct pids, number between min(10, n) and 20, hold
      both top lists, and every process left out is no larger than any top CPU row in CPU and any top memory row in
      memory. */
  lemma SelectionDominates(procs: seq<Proc>)
    requires DistinctPids(procs)
    ensures
      var rows := Selected(procs);
      && DistinctPids(rows) && Min(10, |procs|) <= |rows| <= 20
      && (forall p :: p in rows <==> p in Top(procs, ByCpu()) || p in Top(procs, ByMemory()))
      && (forall p, q :: p in procs && p !in rows && q in Top(procs, ByCpu()) ==> p.cpu <= q.cpu)
      && (forall p, q :: p in procs && p !in rows && q in Top(procs, ByMemory()) ==> p.memory <= q.memory)
  {
    var cpu, memory := Top(procs, ByCpu()), Top(procs, ByMemory());
    TopDominates(procs, ByCpu());
    TopDominates(procs, ByMemory());
    SamePidSameProcess(procs);
    assert forall p :: p in cpu + memory <==> p in cpu || p in memory;
    TopIsDistinct(procs, ByCpu());
    MergedIsUnion(cpu + memory);
    MergedOfDistinct(cpu, memory);
    forall p, q | p in procs && p !in memory && q in memory ensures p.memory <= q.memory {
      assert ByMemory()(p) <= ByMemory()(q);
    }
    forall p, q | p in procs && p !in cpu && q in cpu ensures p.cpu <= q.cpu {
      assert ByCpu()(p) <= ByCpu()(q);
    }
  }

  /* ---- what the rows say ---- */

  /** The process as it is reported: missing figures are zero. */
  predicate Reports(p: Proc, l: Listed) {
    && l.Listed? && p.pid == l.pid && p.name == l.name && p.exe == l.exe
    && p.cpu == (if l.cpu.Some? then l.cpu.value else 0.0)
    && p.memory == (if l.rss.Some? then l.rss.value else 0)
  }

  /** The k-th reported process is the k-th listed one that did not vanish. */
  lemma {:induction false} ReadableReports(listed: seq<Listed>) returns (at: seq<nat>)
    ensures |at| == |Readable(listed)|
    ensures forall k :: 0 <= k < |at| ==> at[k] < |listed| && Reports(Readable(listed)[k], listed[at[k]])
    ensures forall k, l :: 0 <= k < l < |at| ==> at[k] < at[l]
    ensures forall i: nat :: i < |listed| && listed[i].Listed? ==> i in at
  {
    if listed == [] {
      at := [];
    } else {
      var last := |listed| - 1;
      at := ReadableReports(listed[..last]);
      if listed[last].Listed? {
        at := at + [last];
      }
    }
  }

  lemma {:induction false} InsertIsStable(s: seq<Proc>, p: Proc, key: Key, x: real)
    requires Descending(s, key)
    ensures Filter(Insert(s, p, key), HasKey(key, x)) == Filter(s + [p], HasKey(key, x))
  {
    if s != [] && key(s[|s| - 1]) < key(p) {
      var rest, last := s[..|s| - 1], s[|s| - 1];
      assert s == rest + [last];
      InsertIsStable(rest, p, key, x);
      FilterSnoc(Insert(rest, p, key), last, HasKey(key, x));
      FilterSnoc(rest, p, HasKey(key, x));
      FilterSnoc(rest, last, HasKey(key, x));
      FilterSnoc(s, p, HasKey(key, x));
    }
  }

  function HasKey(key: Key, x: real): Proc -> bool {
    (p: Proc) => key(p) == x
  }

  /** Processes with the same figure keep the order in which they were listed. */
  lemma {:induction false} SortIsStable(s: seq<Proc>, key: Key, x: real)
    ensures Filter(Sorted(s, key), HasKey(key, x)) == Filter(s, HasKey(key, x))
  {
    if s != [] {
      var rest, last := s[..|s| - 1], s[|s| - 1];
      assert s == rest + [last];
      SortIsStable(rest, key, x);
      SortedSorts(rest, key);
      InsertIsStable(Sorted(rest, key), last, key, x);
      FilterSnoc(Sorted(rest, key), last, HasKey(key, x));
      FilterSnoc(rest, last, HasKey(key, x));
    }
  }

  lemma DistinctSnoc(s: seq<Proc>, p: Proc)
    requires DistinctPids(s) && forall q :: q in s ==> q.pid != p.pid
    ensures DistinctPids(s + [p])
  {
  }

  lemma {:induction false} PutMeans(m: seq<Proc>, p: Proc)
    requires DistinctPids(m)
    ensures DistinctPids(Put(m, p))
    ensures forall q :: q in Put(m, p) <==> q == p || (q in m && q.pid != p.pid)
    ensures |Put(m, p)| > |m| ==> forall q :: q in m ==> q.pid != p.pid
  {
    if m != [] {
      var front, last := m[..|m| - 1], m[|m| - 1];
      assert m == front + [last];
      assert forall q :: q in front ==> q.pid != last.pid;
      if last.pid == p.pid {
        assert m[|m| - 1 := p] == front + [p];
        DistinctSnoc(front, p);
      } else {
        PutMeans(front, p);
        if |Put(front, p)| == |front| {
          DistinctSnoc(Put(front, p), last);
        } else {
          DistinctSnoc(m, p);
        }
      }
    }
  }

  /** The process is the last one with its pid. */
  ghost predicate LastOfPid(s: seq<Proc>, p: Proc) {
    exists i :: 0 <= i < |s| && s[i] == p && forall j :: i < j < |s| ==> s[j].pid != p.pid
  }

  /** Merging keeps, for each pid, its last process. */
  lemma {:induction false} MergedKeepsLast(s: seq<Proc>)
    ensures DistinctPids(Merged(s))
    ensures forall p :: p in Merged(s) <==> LastOfPid(s, p)
  {
    if s != [] {
      var rest, last := s[..|s| - 1], s[|s| - 1];
      MergedKeepsLast(rest);
      PutMeans(Merged(rest), last);
      forall p ensures LastOfPid(s, p) <==> p == last || (LastOfPid(rest, p) && p.pid != last.pid) {
        LastOfMore(rest, last, p);
        assert s == rest + [last];
      }
    }
  }

  lemma LastOfMore(rest: seq<Proc>, last: Proc, p: Proc)
    ensures LastOfPid(rest + [last], p) <==> p == last || (LastOfPid(rest, p) && p.pid != last.pid)
  {
    var s := rest + [last];
    if LastOfPid(s, p) {
      var i :| 0 <= i < |s| && s[i] == p && forall j :: i < j < |s| ==> s[j].pid != p.pid;
      if i < |rest| {
        assert s[|rest|].pid != p.pid;
        assert forall j :: i < j < |rest| ==> rest[j] == s[j];
        assert LastOfPid(rest, p);
      }
    }
    if p == last {
      assert s[|rest|] == p;
    }
    if LastOfPid(rest, p) && p.pid != last.pid {
      var i :| 0 <= i < |rest| && rest[i] == p && forall j :: i < j < |rest| ==> rest[j].pid != p.pid;
      assert s[i] == p && forall j :: i < j < |s| ==> s[j].pid != p.pid;
    }
  }
}
