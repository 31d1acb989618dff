/**
 Reference definitions of positional decimal notation, stated independently of
 the iterator: powers of ten, the i-th decimal digit of a number, and the value a
 least-significant-first digit sequence denotes.
 */
module Decimal {
  import opened Integers

  function Pow10(n: nat): (p: nat)
    ensures p >= 1
  {
    if n == 0 then 1 else 10 * Pow10(n - 1)
  }

  /** The digit of `v` in the 10^i position. */
  function DigitAt(v: nat, i: nat): (d: nat)
    ensures d <= 9
  {
    (v / Pow10(i)) % 10
  }

  /** True iff every element of `ds` is a decimal digit 0..9. */
  predicate AllDigits(ds: seq<U8>) {
    forall i :: 0 <= i < |ds| ==> ds[i] <= 9
  }

  /**
   True iff `ds` is the shortest least-significant-first spelling of a number:
   all decimal digits and no trailing (most significant) zero. The empty
   sequence spells zero.
   */
  predicate Canonical(ds: seq<U8>) {
    AllDigits(ds) && (|ds| > 0 ==> ds[|ds| - 1] != 0)
  }

  /** The number a least-significant-first digit sequence denotes: the sum of ds[i] * 10^i. */
  function Value(ds: seq<U8>): nat {
    if |ds| == 0 then 0 else ds[0] + 10 * Value(ds[1..])
  }

  /** Dropping the units digit of a canonical spelling leaves a canonical spelling. */
  lemma CanonicalTail(ds: seq<U8>)
    requires Canonical(ds) && |ds| > 0
    ensures Canonical(ds[1..])
  {
    var tail := ds[1..];
    assert forall i :: 0 <= i < |tail| ==> tail[i] == ds[i + 1];
    if |tail| > 0 {
      assert tail[|tail| - 1] == ds[|ds| - 1];
    }
  }

  /** The units digit of a spelling is the remainder by 10 of its value; the rest spells the quotient. */
  lemma ValueSplit(ds: seq<U8>)
    requires |ds| > 0 && ds[0] <= 9
    ensures Value(ds) % 10 == ds[0]
    ensures Value(ds) / 10 == Value(ds[1..])
  {
    var v := Value(ds);
    assert v == Value(ds[1..]) * 10 + ds[0];
    DivUnique(v, 10, Value(ds[1..]), ds[0]);
  }

  /** A non-empty canonical spelling denotes a positive number. */
  lemma CanonicalPositive(ds: seq<U8>)
    requires Canonical(ds) && |ds| > 0
    ensures Value(ds) > 0
  {
    ValueBounds(ds);
  }

  /** A canonical sequence of length k denotes a number with exactly k digits. */
  lemma {:induction false} ValueBounds(ds: seq<U8>)
    requires Canonical(ds)
    ensures Value(ds) < Pow10(|ds|)
    ensures |ds| > 0 ==> Pow10(|ds| - 1) <= Value(ds)
  {
    if |ds| > 0 {
      var tail := ds[1..];
      CanonicalTail(ds);
      ValueBounds(tail);
      if |tail| > 0 {
        assert tail[|tail| - 1] == ds[|ds| - 1];
      }
    }
  }

  /** The digit in the units position is the remainder by 10. */
  lemma DigitAtZero(v: nat)
    ensures DigitAt(v, 0) == v % 10
  {
    assert Pow10(0) == 1;
  }

  /** Dropping the last digit shifts every other digit down one position. */
  lemma DigitAtShift(v: nat, i: nat)
    requires i > 0
    ensures DigitAt(v, i) == DigitAt(v / 10, i - 1)
  {
    DivDiv10(v, i - 1);
  }

  /** (v / 10) / 10^k == v / 10^(k+1). */
  lemma DivDiv10(v: nat, k: nat)
    ensures (v / 10) / Pow10(k) == v / Pow10(k + 1)
  {
    DivTenThenBy(v, Pow10(k));
  }

  /** Dividing by 10 and then by p is dividing by 10 * p. */
  lemma DivTenThenBy(v: nat, p: nat)
    requires p > 0
    ensures (v / 10) / p == v / (10 * p)
  {
    var x := v / 10;
    var s := v % 10;
    var q := x / p;
    var r := x % p;
    assert v == 10 * x + s;
    assert x == q * p + r && r < p;
    assert v == q * (10 * p) + (10 * r + s) by {
      MulShift(q, p);
    }
    DivUnique(v, 10 * p, q, 10 * r + s);
  }

  lemma MulShift(q: int, p: int)
    ensures 10 * (q * p) == q * (10 * p)
  {
  }

  /** A quotient is determined by any division identity with an in-range remainder. */
  lemma DivUnique(v: nat, m: nat, q: nat, s: nat)
    requires m > 0 && s < m && v == q * m + s
    ensures v / m == q
  {
    var q' := v / m;
    var s' := v % m;
    assert v == q' * m + s';
    if q' < q {
      MulStep(q', q, m);
    } else if q' > q {
      MulStep(q, q', m);
    }
  }

  /** Multiplying by m keeps distinct naturals at least m apart. */
  lemma MulStep(a: nat, b: nat, m: nat)
    requires a < b
    ensures a * m + m <= b * m
  {
    var d: nat := b - a - 1;
    assert b == a + 1 + d;
    assert b * m == a * m + m + d * m;
    assert d * m >= 0;
  }
}
