/** Instants at a fixed distance inside a stretch of time. */
module Intervals {
  /** How many instants at least d apart fit into a stretch of time, both ends included. */
  function Slots(length: real, d: real): nat
    requires d > 0.0
    decreases if length < 0.0 then 0 else Quotient(length, d) + 1
  {
    if length < 0.0 then 0
    else
      QuotientDrops(length, d);
      1 + Slots(length - d, d)
  }

  function Quotient(length: real, d: real): int
    requires d > 0.0
  {
    (length / d).Floor
  }

  lemma QuotientDrops(length: real, d: real)
    requires d > 0.0 && length >= 0.0
    ensures Quotient(length, d) >= 0
    ensures Quotient(length - d, d) == Quotient(length, d) - 1
  {
    var q, r := length / d, (length - d) / d;
    assert q * d == length && r * d == length - d;
    assert (q - 1.0) * d == q * d - d;
    Cancel(r, q - 1.0, d);
    if q < 0.0 {
      ScaleUp(q, 0.0, d);
    }
  }

  lemma ScaleUp(x: real, y: real, d: real)
    requires x < y && d > 0.0
    ensures x * d < y * d
  {
  }

  lemma Cancel(x: real, y: real, d: real)
    requires x * d == y * d && d > 0.0
    ensures x == y
  {
    if x < y {
      ScaleUp(x, y, d);
    } else if y < x {
      ScaleUp(y, x, d);
    }
  }

  /** Slots is the quotient, plus one for the first instant. */
  lemma {:induction false} SlotsIsQuotient(length: real, d: real)
    requires d > 0.0 && length >= 0.0
    ensures Slots(length, d) == Quotient(length, d) + 1
    decreases Quotient(length, d)
  {
    QuotientDrops(length, d);
    if length >= d {
      QuotientDrops(length - d, d);
      SlotsIsQuotient(length - d, d);
    } else {
      SmallQuotient(length, d);
    }
  }

  lemma SmallQuotient(length: real, d: real)
    requires d > 0.0 && 0.0 <= length < d
    ensures Quotient(length, d) == 0
  {
    var q := length / d;
    assert q * d == length;
    if q < 0.0 {
      ScaleUp(q, 0.0, d);
    }
    if q > 1.0 {
      ScaleUp(1.0, q, d);
    }
  }

  lemma {:induction false} SlotsGrow(x: real, y: real, d: real)
    requires d > 0.0 && x <= y
    ensures Slots(x, d) <= Slots(y, d)
    decreases Slots(x, d)
  {
    if x >= 0.0 {
      SlotsGrow(x - d, y - d, d);
    }
  }
}
