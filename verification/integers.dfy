/**
 The fixed-width integer types the digit iterator is instantiated at (u8 .. u128
 and i8 .. i128) and the parts of Rust's integer semantics it relies on:
 division and remainder that truncate toward zero, the wrapping `as u8` cast, and
 negation that overflows at the signed minimum.
 */
module Integers {

  /** The five bit widths the iterator is implemented for. */
  datatype Width = W8 | W16 | W32 | W64 | W128 {

    /** 2^(bits - 1): the magnitude of the signed minimum, and half the unsigned range. */
    function Half(): (h: nat)
      ensures h >= 0x80
    {
      match this
      case W8 => 0x80
      case W16 => 0x8000
      case W32 => 0x8000_0000
      case W64 => 0x8000_0000_0000_0000
      case W128 => 0x8000_0000_0000_0000_0000_0000_0000_0000
    }
  }

  /** One of the ten primitive integer types: a width and a signedness. */
  datatype IntType = IntType(signed: bool, width: Width) {

    /** The least value of the type: 0, or -2^(bits-1) for a signed type. */
    function Min(): int {
      if signed then -(width.Half() as int) else 0
    }

    /** The greatest value of the type: 2^bits - 1, or 2^(bits-1) - 1 for a signed type. */
    function Max(): int {
      if signed then width.Half() - 1 else 2 * width.Half() - 1
    }

    /** True iff `x` is a value of this type. */
    predicate Contains(x: int) {
      Min() <= x <= Max()
    }
  }

  /** The item type of the iterator, Rust's `u8`. */
  type U8 = b: int | 0 <= b < 0x100

  function Abs(x: int): nat {
    if x < 0 then -x else x
  }

  /** Rust's `x / 10` on integers: the quotient rounded toward zero. */
  function TruncDiv10(a: int): (q: int)
    ensures Abs(q) * 10 <= Abs(a) < Abs(q) * 10 + 10
    ensures a >= 0 ==> q >= 0
    ensures a <= 0 ==> q <= 0
  {
    if a >= 0 then a / 10 else -((-a) / 10)
  }

  /** Rust's `x % 10` on integers: the remainder that goes with `TruncDiv10`; it takes the sign of `a`. */
  function TruncRem10(a: int): (r: int)
    ensures a == TruncDiv10(a) * 10 + r
    ensures -10 < r < 10
    ensures a >= 0 ==> r >= 0
    ensures a <= 0 ==> r <= 0
  {
    a - TruncDiv10(a) * 10
  }

  /** Rust's `as u8` from any integer type: keep the low eight bits of the two's complement form. */
  function CastU8(x: int): (b: U8)
    ensures 0 <= x < 0x100 ==> b == x
    ensures (x - b) % 0x100 == 0
  {
    x % 0x100
  }

  /**
   Rust's unary `-` on a signed type: the negation, unless it does not fit, which
   only happens at the minimum (a panic in a debug build).
   */
  datatype Negation = Negated(value: int) | NegationOverflow

  function Negate(t: IntType, x: int): (r: Negation)
    requires t.signed && t.Contains(x)
    ensures r.NegationOverflow? <==> x == t.Min()
    ensures r.Negated? ==> r.value == -x && t.Contains(r.value)
  {
    if t.Contains(-x) then Negated(-x) else NegationOverflow
  }

  /** On non-negative operands Rust's `/` and `%` agree with Euclidean division. */
  lemma TruncAgreesOnNonNegative(a: int)
    requires a >= 0
    ensures TruncDiv10(a) == a / 10
    ensures TruncRem10(a) == a % 10
  {
  }

  /** Truncating division commutes with negation; so does the remainder. */
  lemma TruncOfNegation(a: int)
    ensures TruncDiv10(-a) == -TruncDiv10(a)
    ensures TruncRem10(-a) == -TruncRem10(a)
  {
  }
}
