/**
 `IntoDigits::digits`, the conversion that turns a primitive integer into a
 digit iterator: unsigned values are wrapped as they are, signed values are
 negated first.
 */
module IntoDigits {
  import opened Integers
  import opened Decimal
  import opened Digits

  /** The outcome of `digits()`: an iterator, or the panic of an overflowing negation. */
  datatype Conversion = Converted(iter: DigitIterator) | NegationPanic

  /**
   `digits()` on an unsigned type: the iterator over the value itself, which
   yields exactly the decimal spelling of the value, least significant first.
   */
  function UnsignedDigits(t: IntType, v: int): (it: DigitIterator)
    requires !t.signed && t.Contains(v)
    ensures t.Contains(it.state)
    ensures Drain(it) == Drain(DigitIterator(v))
    ensures Canonical(Drain(it)) && Value(Drain(it)) == v
  {
    DrainValue(v);
    DigitIterator(v)
  }

  /**
   `digits()` on a signed type: the iterator over `-v`. Negating the minimum
   overflows and panics. A negative `v` then yields the digits of its magnitude;
   a positive `v` leaves a negative state whose digits come out negated and
   wrapped to `u8` (1234i32 yields 252, 253, 254, 255).
   */
  function SignedDigits(t: IntType, v: int): (r: Conversion)
    requires t.signed && t.Contains(v)
    ensures r.NegationPanic? <==> v == t.Min()
    ensures r.Converted? ==> t.Contains(r.iter.state)
    ensures r.Converted? && v <= 0 ==>
      Canonical(Drain(r.iter)) && Value(Drain(r.iter)) == -v
    ensures r.Converted? && v > 0 ==>
      |Drain(r.iter)| == |Drain(DigitIterator(v))| &&
      forall i :: 0 <= i < |Drain(r.iter)| ==> Drain(r.iter)[i] == NegatedDigit(DigitAt(v, i))
  {
    match Negate(t, v)
    case NegationOverflow => NegationPanic
    case Negated(m) =>
      if v <= 0 then
        DrainValue(m);
        Converted(DigitIterator(m))
      else
        DrainOfNegative(v);
        DrainIsDecimalDigits(v);
        Converted(DigitIterator(m))
  }

  /**
   The unsigned type of the same width as `t`: it holds the magnitude of every
   value of `t`, the signed minimum included.
   */
  function UnsignedOf(t: IntType): (u: IntType)
    ensures !u.signed && u.width == t.width
    ensures forall x :: t.Contains(x) ==> u.Contains(Abs(x))
  {
    IntType(false, t.width)
  }

  /**
   For every non-positive signed value except the minimum, `digits()` yields
   the same digits as `digits()` on its magnitude taken as the unsigned type of
   the same width.
   */
  lemma SignedIsUnsignedMagnitude(t: IntType, v: int)
    requires t.signed && t.Contains(v) && t.Min() < v <= 0
    ensures UnsignedOf(t).Contains(-v)
    ensures SignedDigits(t, v).Converted?
    ensures Drain(SignedDigits(t, v).iter) == Drain(UnsignedDigits(UnsignedOf(t), -v))
  {
  }

  /** `let mut y = DigitIterator(30u32)`: next gives 0, then 3, then None. */
  lemma ThirtyYieldsZeroThenThree()
    ensures Run(DigitIterator(30), 3) == [Some(0), Some(3), None]
  {
    assert Next(DigitIterator(30)) == Step(Some(0), DigitIterator(3));
    assert Next(DigitIterator(3)) == Step(Some(3), DigitIterator(0));
  }

  /** `1234u32.digits()` gives 4, 3, 2, 1. */
  lemma UnsignedExample()
    ensures Drain(UnsignedDigits(IntType(false, W32), 1234)) == [4, 3, 2, 1]
  {
    var ds: seq<U8> := [4, 3, 2, 1];
    assert Canonical(ds);
    assert Value(ds) == 1234 by {
      assert ds[1..][1..][1..][1..] == [];
    }
    ValueDrain(ds);
  }

  /** `(-1234i32).digits()` gives 4, 3, 2, 1. */
  lemma NegativeSignedExample()
    ensures SignedDigits(IntType(true, W32), -1234).Converted?
    ensures Drain(SignedDigits(IntType(true, W32), -1234).iter) == [4, 3, 2, 1]
  {
    var t := IntType(true, W32);
    assert t.Contains(-1234);
    SignedIsUnsignedMagnitude(t, -1234);
    UnsignedExample();
  }

  /** `1234i32.digits()` gives 252, 253, 254, 255: the digits negated and wrapped to u8. */
  lemma PositiveSignedExample()
    ensures SignedDigits(IntType(true, W32), 1234).Converted?
    ensures Drain(SignedDigits(IntType(true, W32), 1234).iter) == [252, 253, 254, 255]
  {
    var t := IntType(true, W32);
    assert t.Contains(1234);
    assert SignedDigits(t, 1234) == Converted(DigitIterator(-1234));
    UnsignedExample();
    DrainOfNegative(1234);
    assert NegatedDigits([4, 3, 2, 1]) == [252, 253, 254, 255];
  }

  /** `i8::MIN.digits()` panics: 128 is not an i8. */
  lemma MinimumPanics()
    ensures SignedDigits(IntType(true, W8), -128) == NegationPanic
  {
  }

  /**
   `digits()` on a signed type as evidently intended: the iterator over the
   magnitude of `v`, held in the unsigned type of the same width (Rust's
   `unsigned_abs`), which cannot overflow.
   */
  function SignedDigitsByMagnitude(t: IntType, v: int): (it: DigitIterator)
    requires t.signed && t.Contains(v)
    ensures UnsignedOf(t).Contains(it.state)
    ensures Canonical(Drain(it)) && Value(Drain(it)) == Abs(v)
  {
    DrainValue(Abs(v));
    DigitIterator(Abs(v))
  }

  /** Wherever the code as written yields digits at all correctly (v <= 0 above the minimum), the corrected conversion agrees. */
  lemma MagnitudeAgreesOnNonPositive(t: IntType, v: int)
    requires t.signed && t.Contains(v) && t.Min() < v <= 0
    ensures SignedDigits(t, v).Converted?
    ensures Drain(SignedDigits(t, v).iter) == Drain(SignedDigitsByMagnitude(t, v))
  {
    assert SignedDigits(t, v) == Converted(DigitIterator(-v));
    assert SignedDigitsByMagnitude(t, v) == DigitIterator(-v);
  }

  /** The corrected conversion gives `1234i32` the digits 4, 3, 2, 1. */
  lemma MagnitudePositiveExample()
    ensures Drain(SignedDigitsByMagnitude(IntType(true, W32), 1234)) == [4, 3, 2, 1]
  {
    UnsignedExample();
  }

  /** The corrected conversion gives `i8::MIN` the digits of 128: 8, 2, 1. */
  lemma MagnitudeMinimumExample()
    ensures Drain(SignedDigitsByMagnitude(IntType(true, W8), -128)) == [8, 2, 1]
  {
    var ds: seq<U8> := [8, 2, 1];
    assert Canonical(ds);
    assert Value(ds) == 128 by {
      assert ds[1..][1..][1..] == [];
    }
    ValueDrain(ds);
  }
}
