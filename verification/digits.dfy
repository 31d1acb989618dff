/**
 The digit iterator: a wrapper over one integer whose `next` yields that
 integer's decimal digits, least significant first, and then nothing.

 The same `next` body is expanded for every unsigned and every signed width; it
 is modelled once over an unbounded `int` state with Rust's truncating `/` and
 `%` and the wrapping `as u8` cast, and the width enters only as the range
 (`IntType.Contains`) the state must stay in.
 */
module Digits {
  import opened Integers
  import opened Decimal

  datatype Option<+T> = None | Some(value: T)

  /** `DigitIterator<T>(pub T)`: the integer whose digits are still to come. */
  datatype DigitIterator = DigitIterator(state: int)

  /** What one call of `next` returns, together with the iterator it leaves behind. */
  datatype Step = Step(item: Option<U8>, after: DigitIterator)

  /**
   `Iterator::next`. A non-zero state yields its last digit and drops it; a zero
   state yields nothing and is left as it was.
   */
  function Next(it: DigitIterator): (r: Step)
    ensures r.item.None? <==> it.state == 0
    ensures r.item.None? ==> r.after == it
    ensures r.item.Some? ==> Abs(r.after.state) < Abs(it.state)
    ensures it.state > 0 ==> r.item == Some(it.state % 10) && r.after.state == it.state / 10
    ensures it.state < 0 ==> r.after.state <= 0
  {
    if it.state != 0 then
      Step(Some(CastU8(TruncRem10(it.state))), DigitIterator(TruncDiv10(it.state)))
    else
      Step(None, it)
  }

  /**
   Everything the iterator yields when pulled until it returns `None`. Each call
   of `next` brings the state closer to zero, so this is always finite.
   */
  function Drain(it: DigitIterator): (ds: seq<U8>)
    ensures |ds| == 0 <==> it.state == 0
    ensures it.state >= 0 ==> Canonical(ds)
    decreases Abs(it.state)
  {
    var step := Next(it);
    match step.item
    case None => []
    case Some(d) => [d] + Drain(step.after)
  }

  /** The items of `n` successive calls of `next`. */
  function Run(it: DigitIterator, n: nat): (items: seq<Option<U8>>)
    ensures |items| == n
    decreases n
  {
    if n == 0 then [] else
      var step := Next(it);
      [step.item] + Run(step.after, n - 1)
  }

  /** The iterator after `n` successive calls of `next`. */
  function Advance(it: DigitIterator, n: nat): DigitIterator
    decreases n
  {
    if n == 0 then it else Advance(Next(it).after, n - 1)
  }

  /**
   Pulling `n` times observes the drained digits in order and `None` ever after:
   exhaustion is sticky and nothing follows it.
   */
  lemma {:induction false} RunObservesDrain(it: DigitIterator, n: nat)
    ensures forall i :: 0 <= i < n ==>
      Run(it, n)[i] == (if i < |Drain(it)| then Some(Drain(it)[i]) else None)
    decreases n
  {
    if n > 0 {
      var step := Next(it);
      RunObservesDrain(step.after, n - 1);
      if step.item.None? {
        assert step.after == it;
        assert Drain(it) == [];
        forall i | 0 <= i < n
          ensures Run(it, n)[i] == None
        {
          if i > 0 {
            assert Run(it, n)[i] == Run(step.after, n - 1)[i - 1];
          }
        }
      } else {
        assert Drain(it) == [step.item.value] + Drain(step.after);
        forall i | 0 <= i < n
          ensures Run(it, n)[i] == (if i < |Drain(it)| then Some(Drain(it)[i]) else None)
        {
          if i > 0 {
            assert Run(it, n)[i] == Run(step.after, n - 1)[i - 1];
          }
        }
      }
    }
  }

  /** The n-th item of a run is what `next` returns on the iterator advanced n times. */
  lemma {:induction false} RunAdvance(it: DigitIterator, n: nat)
    ensures Run(it, n + 1)[n] == Next(Advance(it, n)).item
    decreases n
  {
    if n > 0 {
      var after := Next(it).after;
      RunAdvance(after, n - 1);
      assert Run(it, n + 1)[n] == Run(after, n)[n - 1];
    }
  }

  /** Once as many items as there are digits have been pulled, the state is zero for good. */
  lemma {:induction false} AdvancePastDrainIsExhausted(it: DigitIterator, n: nat)
    requires n >= |Drain(it)|
    ensures Advance(it, n).state == 0
    ensures Next(Advance(it, n)) == Step(None, Advance(it, n))
    decreases n
  {
    if n > 0 {
      var step := Next(it);
      if step.item.None? {
        assert step.after == it;
        AdvancePastDrainIsExhausted(it, n - 1);
        assert Advance(it, n) == Advance(it, n - 1) by {
          AdvanceZero(it, n - 1);
          AdvanceZero(it, n);
        }
      } else {
        AdvancePastDrainIsExhausted(step.after, n - 1);
      }
    }
  }

  /** A zero iterator stays zero however often it is pulled. */
  lemma {:induction false} AdvanceZero(it: DigitIterator, n: nat)
    requires it.state == 0
    ensures Advance(it, n) == it
  {
    if n > 0 {
      AdvanceZero(Next(it).after, n - 1);
    }
  }

  /**
   The state never moves away from zero and never changes sign, so it stays
   within the range of whatever integer type it started in.
   */
  lemma {:induction false} AdvanceStaysInType(t: IntType, it: DigitIterator, n: nat)
    requires t.Contains(it.state)
    ensures Abs(Advance(it, n).state) <= Abs(it.state)
    ensures t.Contains(Advance(it, n).state)
    decreases n
  {
    if n > 0 {
      var after := Next(it).after;
      assert t.Contains(after.state);
      AdvanceStaysInType(t, after, n - 1);
    }
  }

  /** The i-th item of the drain of a non-negative state is the digit in the 10^i position. */
  lemma DrainIsDecimalDigits(v: nat)
    ensures forall i :: 0 <= i < |Drain(DigitIterator(v))| ==> Drain(DigitIterator(v))[i] == DigitAt(v, i)
  {
    forall i | 0 <= i < |Drain(DigitIterator(v))|
      ensures Drain(DigitIterator(v))[i] == DigitAt(v, i)
    {
      DrainItem(v, i);
    }
  }

  lemma {:induction false} DrainItem(v: nat, i: nat)
    requires i < |Drain(DigitIterator(v))|
    ensures Drain(DigitIterator(v))[i] == DigitAt(v, i)
  {
    DrainStep(v);
    if i == 0 {
      DigitAtZero(v);
    } else {
      DrainItem(v / 10, i - 1);
      DigitAtShift(v, i);
    }
  }

  /** Draining a positive value yields its units digit followed by the drain of the rest. */
  lemma DrainStep(v: nat)
    requires v > 0
    ensures Drain(DigitIterator(v)) == [v % 10] + Drain(DigitIterator(v / 10))
  {
    var step := Next(DigitIterator(v));
    assert step.item == Some(v % 10) && step.after == DigitIterator(v / 10);
  }

  /** Round trip: reassembling the drained digits gives back the starting value. */
  lemma {:induction false} DrainValue(v: nat)
    ensures Value(Drain(DigitIterator(v))) == v
  {
    if v > 0 {
      var ds := Drain(DigitIterator(v));
      DrainStep(v);
      assert ds[1..] == Drain(DigitIterator(v / 10));
      DrainValue(v / 10);
    }
  }

  /**
   The converse round trip: a canonical digit sequence is exactly what the
   iterator yields for the number it denotes.
   */
  lemma {:induction false} ValueDrain(ds: seq<U8>)
    requires Canonical(ds)
    ensures Drain(DigitIterator(Value(ds))) == ds
  {
    if |ds| > 0 {
      var tail := ds[1..];
      CanonicalTail(ds);
      ValueDrain(tail);
      var v := Value(ds);
      CanonicalPositive(ds);
      ValueSplit(ds);
      DrainStep(v);
    }
  }

  /**
   A positive value yields exactly as many digits as it has in decimal: k digits
   with 10^(k-1) <= v < 10^k.
   */
  lemma DrainLength(v: nat)
    requires v > 0
    ensures Pow10(|Drain(DigitIterator(v))| - 1) <= v < Pow10(|Drain(DigitIterator(v))|)
  {
    var ds := Drain(DigitIterator(v));
    DrainValue(v);
    ValueBounds(ds);
  }

  /** The wrapped `as u8` image of a negated digit: 0 stays 0, d becomes 256 - d. */
  function NegatedDigit(d: U8): (b: U8)
    ensures CastU8(-(d as int)) == b
  {
    if d == 0 then 0 else 0x100 - d
  }

  /** Each digit of `ds` negated and wrapped to `u8`, position by position. */
  function NegatedDigits(ds: seq<U8>): (ns: seq<U8>)
    ensures |ns| == |ds|
    ensures forall i :: 0 <= i < |ds| ==> ns[i] == NegatedDigit(ds[i])
  {
    if |ds| == 0 then [] else [NegatedDigit(ds[0])] + NegatedDigits(ds[1..])
  }

  /**
   A negative state -v yields the digits of v, each negated by Rust's truncating
   `%` and then wrapped by `as u8`.
   */
  lemma {:induction false} DrainOfNegative(v: int)
    requires v >= 0
    ensures Drain(DigitIterator(-v)) == NegatedDigits(Drain(DigitIterator(v)))
  {
    if v > 0 {
      var pos := Drain(DigitIterator(v));
      var rest := Drain(DigitIterator(v / 10));
      DrainStep(v);
      assert pos[0] == v % 10 && pos[1..] == rest;
      assert NegatedDigits(pos) == [NegatedDigit(v % 10)] + NegatedDigits(rest);
      DrainOfNegative(v / 10);
      DrainStepOfNegative(v);
    }
  }

  /** Draining -v yields the wrapped negation of v's units digit followed by the drain of -(v / 10). */
  lemma DrainStepOfNegative(v: int)
    requires v > 0
    ensures Drain(DigitIterator(-v)) == [NegatedDigit(v % 10)] + Drain(DigitIterator(-(v / 10)))
  {
    NextOfNegation(v);
  }

  /** One step from -v mirrors one step from v: the item is negated and wrapped, the state negated. */
  lemma NextOfNegation(v: int)
    requires v > 0
    ensures Next(DigitIterator(-v)) == Step(Some(NegatedDigit(v % 10)), DigitIterator(-(v / 10)))
  {
    TruncOfNegation(v);
    TruncAgreesOnNonNegative(v);
  }
}
