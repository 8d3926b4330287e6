/** Shared vocabulary: optional values, clock readings, and table selection. */
module Prelude {

  datatype Option<+T> = None | Some(value: T)

  /** Epoch seconds.  Exact numbers stand in for the program's floats. */
  type Time = real

  function Abs(x: real): real {
    if x < 0.0 then -x else x
  }

  function Max(x: real, y: real): real {
    if x < y then y else x
  }

  function Min(x: nat, y: nat): nat {
    if x < y then x else y
  }

  /** The larger of two optional values; an absent value never wins. */
  function MaxOption(x: Option<real>, y: Option<real>): Option<real> {
    if x.None? then y
    else if y.None? then x
    else Some(Max(x.value, y.value))
  }

  /** SELECT ... WHERE p: the rows that satisfy p, in table order. */
  function Filter<T(!new)>(s: seq<T>, p: T -> bool): (r: seq<T>)
    ensures |r| <= |s|
    ensures forall x :: x in r <==> x in s && p(x)
  {
    if s == [] then []
    else
      var last := s[|s| - 1];
      var rest := s[..|s| - 1];
      assert s == rest + [last];
      if p(last) then Filter(rest, p) + [last] else Filter(rest, p)
  }

  lemma FilterSnoc<T(!new)>(s: seq<T>, x: T, p: T -> bool)
    ensures Filter(s + [x], p) == if p(x) then Filter(s, p) + [x] else Filter(s, p)
  {
    assert (s + [x])[..|s|] == s;
  }

  lemma {:induction false} FilterConcat<T(!new)>(a: seq<T>, b: seq<T>, p: T -> bool)
    ensures Filter(a + b, p) == Filter(a, p) + Filter(b, p)
  {
    if b == [] {
      assert a + b == a;
    } else {
      var last := b[|b| - 1];
      var rest := b[..|b| - 1];
      assert (a + b)[..|a + b| - 1] == a + rest;
      FilterConcat(a, rest, p);
    }
  }

  /** Selecting by p first changes nothing for a selection that implies p. */
  lemma {:induction false} FilterAbsorbs<T(!new)>(s: seq<T>, p: T -> bool, q: T -> bool)
    requires forall x :: x in s && q(x) ==> p(x)
    ensures Filter(Filter(s, p), q) == Filter(s, q)
  {
    if s != [] {
      var last := s[|s| - 1];
      var rest := s[..|s| - 1];
      assert s == rest + [last];
      FilterAbsorbs(rest, p, q);
      if p(last) {
        FilterConcat(Filter(rest, p), [last], q);
        assert Filter([last], q) == if q(last) then [last] else [];
      }
    }
  }

  lemma {:induction false} FilterNone<T(!new)>(s: seq<T>, p: T -> bool)
    requires forall x :: x in s ==> !p(x)
    ensures Filter(s, p) == []
  {
    if s != [] {
      assert s == s[..|s| - 1] + [s[|s| - 1]];
      FilterNone(s[..|s| - 1], p);
    }
  }

  function Reversed<T>(s: seq<T>): (r: seq<T>)
    ensures |r| == |s|
    ensures forall i :: 0 <= i < |s| ==> r[i] == s[|s| - 1 - i]
  {
    if s == [] then [] else Reversed(s[1..]) + [s[0]]
  }
}
