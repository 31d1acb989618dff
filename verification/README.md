# integer-iterator in Dafny

A model of the `integer-iterator` Rust crate. `DigitIterator<T>` wraps one
primitive integer. Its `Iterator::next` yields that integer's decimal digits as
`u8`, least significant first, and then `None` for good. `IntoDigits::digits`
builds the iterator. For the unsigned types (u8..u128) it wraps the value as it
is. For the signed types (i8..i128) it wraps `-self`.

The crate expands `next` once per width with a macro. The model has one `next`
over an unbounded `int` state and writes out the Rust semantics that matter:

- `%` and `/` truncate toward zero (`Integers.TruncRem10`, `Integers.TruncDiv10`);
- `as u8` keeps the low eight bits (`Integers.CastU8`);
- signed negation panics at the type's minimum (`Integers.Negate`).

The width appears only as the range of values a state may take
(`Integers.IntType.Contains`). The model then proves that the state stays in
that range.

Files:

- `integers.dfy` (module `Integers`): the ten integer types and Rust's
  truncating division, remainder, `as u8` cast and negation that overflows at
  the signed minimum.
- `decimal.dfy` (module `Decimal`): reference definitions that do not mention
  the iterator. They cover powers of ten, the digit in the 10^i position, the
  value of a least-significant-first digit sequence, and canonical (no leading
  zero) spellings.
- `digits.dfy` (module `Digits`): the iterator, its `next`, draining it, pulling
  it `n` times, and the lemmas that relate these to the decimal definitions.
- `into_digits.dfy` (module `IntoDigits`): `digits()` for unsigned and signed
  types, plus the crate's doctest and unit-test cases as lemmas.

Zero yields no digits at all, because the `self.0 != 0` test fails at once. The
model does the same. It has no "pending zero" flag that would make zero yield a
single `0`.

A positive signed value is negated by `digits()`, so the iterator starts from a
negative state. Rust's `%` then gives remainders in -9..0, and `as u8` wraps
them, so `1234i32.digits()` yields 252, 253, 254, 255. The model states this
exactly (`Digits.DrainOfNegative`, `IntoDigits.SignedDigits`). It does not claim
that positive signed values give their digits.

Other revisions of this utility keep a "pending zero" flag so that zero yields
one `0`. The model follows the code in `src/lib.rs`, which yields nothing for
zero. The two signed cases that look unintended are listed under Findings,
together with a corrected conversion.

## Model

| member | source | states |
|---|---|---|
| Integers.TruncDiv10 | src/lib.rs:38 | Rust's `/` by 10: the magnitude of the quotient is the magnitude of the dividend divided by 10, rounded down, and it has the dividend's sign or is zero |
| Integers.TruncRem10 | src/lib.rs:37 | Rust's `%` by 10: dividend = quotient * 10 + remainder, with \|remainder\| < 10 and the remainder carrying the dividend's sign |
| Integers.CastU8 | src/lib.rs:61 | `as u8` leaves values in 0..255 unchanged and otherwise yields the value congruent to the input modulo 256 |
| Integers.Negate | src/lib.rs:52 | signed `-self` overflows (the debug-build panic) exactly at the type's minimum, and everywhere else gives -x, which is again a value of the type. |
| Digits.Next | src/lib.rs:35-43 | `next` (both macro copies, also src/lib.rs:59-67) yields `None` exactly when the state is zero and then leaves the iterator unchanged; otherwise the state's magnitude strictly shrinks; a positive state yields `state % 10` and becomes `state / 10`; a negative state never turns positive (its exact step is `Digits.NextOfNegation`) |
| Digits.Drain | src/lib.rs:36-42 | pulling until `None` always terminates; it yields nothing exactly when the state is zero; from a non-negative state every item is a digit 0..9 and the last one is not 0 |
| Digits.RunObservesDrain | src/lib.rs:40-42 | the i-th of any number of calls to `next` returns the i-th drained digit while digits remain and `None` at every later call, so exhaustion is sticky |
| Digits.RunAdvance | src/lib.rs:35-43 | the n-th of n + 1 successive calls of `next` returns what `next` returns on the iterator left by the first n calls, so the item view and the state view of repeated calls agree |
| Digits.AdvancePastDrainIsExhausted | src/lib.rs:36-42 | after as many calls as there are digits, the state is zero and `next` returns `None` and changes nothing |
| Digits.AdvanceZero | src/lib.rs:40-42 | an iterator whose state is zero stays unchanged however often `next` is called |
| Digits.AdvanceStaysInType | src/lib.rs:38 | across any number of calls the state's magnitude never grows, and the state stays a value of whichever integer type it started in |
| Digits.DrainIsDecimalDigits | src/lib.rs:37-38 | the i-th drained item of a non-negative value v is the digit of v in the 10^i position (least significant first) |
| Digits.DrainValue | src/lib.rs:37-38 | round trip: the sum of d_i * 10^i over the drained digits equals the starting value |
| Digits.ValueDrain | src/lib.rs:36-39 | converse round trip: every digit sequence without a most-significant zero is exactly what `next` yields for the number it denotes |
| Digits.DrainLength | src/lib.rs:36-39 | a positive value yields exactly k digits where 10^(k-1) <= v < 10^k, so the number of steps is its decimal length |
| Digits.NextOfNegation | src/lib.rs:59-67 | on a negative state -v, `next` yields the `as u8`-wrapped negation of `v % 10` and leaves the state -(v / 10): one step from -v mirrors one step from v |
| Digits.NegatedDigit | src/lib.rs:61 | the `as u8` image of a negated digit d: 0 for 0, otherwise 256 - d |
| Digits.DrainOfNegative | src/lib.rs:59-67 | a state -v yields, position by position, the `as u8`-wrapped negation of each digit that v yields |
| IntoDigits.UnsignedDigits | src/lib.rs:27-28 | unsigned `digits()` yields the same sequence as `DigitIterator(v)`, namely the canonical decimal spelling of v, and its state is a value of the type |
| IntoDigits.SignedDigits | src/lib.rs:51-53 | signed `digits()` panics exactly at the type's minimum; otherwise the state is a value of the type; a non-positive v yields the canonical decimal spelling of -v; a positive v yields the wrapped negation of each of v's digits |
| IntoDigits.UnsignedOf | src/lib.rs:52 | the unsigned type of a signed type's width holds the magnitude of every value of that type, the minimum included |
| IntoDigits.SignedIsUnsignedMagnitude | src/lib.rs:52 | for every non-positive signed v above the minimum, `digits()` yields the same sequence as unsigned `digits()` of -v at the same width |
| IntoDigits.ThirtyYieldsZeroThenThree | src/lib.rs:9-12 | `DigitIterator(30u32)` gives `Some(0)`, `Some(3)`, `None` |
| IntoDigits.UnsignedExample | src/lib.rs:86-90 | `1234u32.digits()` yields 4, 3, 2, 1 |
| IntoDigits.NegativeSignedExample | src/lib.rs:92-96 | `(-1234i32).digits()` yields 4, 3, 2, 1 |
| IntoDigits.PositiveSignedExample | src/lib.rs:52 | `1234i32.digits()` yields 252, 253, 254, 255 |
| IntoDigits.MinimumPanics | src/lib.rs:52 | `i8::MIN.digits()` panics, because 128 is not an i8 |
| IntoDigits.SignedDigitsByMagnitude | src/lib.rs:52 | corrected signed `digits()`: for every value of the type, the minimum included, the state fits the unsigned type of the same width and the iterator yields the canonical decimal spelling of \|v\| |
| IntoDigits.MagnitudeAgreesOnNonPositive | src/lib.rs:52 | for every non-positive signed v above the minimum, the code as written and the corrected conversion yield the same digits |
| IntoDigits.MagnitudePositiveExample | src/lib.rs:52 | the corrected conversion gives `1234i32` the digits 4, 3, 2, 1 |
| IntoDigits.MagnitudeMinimumExample | src/lib.rs:52 | the corrected conversion gives `i8::MIN` the digits 8, 2, 1 |

## Findings

| source | as written | input that shows it | evidently intended | confidence | as-written member | corrected member |
|---|---|---|---|---|---|---|
| src/lib.rs:52 | signed `digits()` stores `-self` whatever the sign, so a positive value becomes a negative state; truncating `%` and the `as u8` cast then wrap each digit d to 256 - d | `1234i32.digits()` yields 252, 253, 254, 255 | the digits of the magnitude, 4, 3, 2, 1, as the negative case gives | high; not executed | IntoDigits.PositiveSignedExample | IntoDigits.SignedDigitsByMagnitude |
| src/lib.rs:52 | signed `digits()` negates the type's minimum, which overflows | `i8::MIN.digits()` panics in a debug build | the digits of 128: 8, 2, 1 | medium; not executed | IntoDigits.MinimumPanics | IntoDigits.SignedDigitsByMagnitude |

`IntoDigits.SignedDigits` stays the model of the code as written. The
corrected conversion takes the magnitude in the unsigned type of the same width.
`IntoDigits.MagnitudeAgreesOnNonPositive` proves that it changes nothing for the
inputs the crate's own test exercises.

## Left out

- The macro expansion over the ten concrete types (src/lib.rs:72-82) is modelled as one generic `next` plus an `IntType` range, not as ten copies.
- The `Iterator` trait's provided methods (`collect`, `sum`, adapters) are left out. Only `next` is defined in the crate, and draining (`Digits.Drain`) stands in for collecting.
- Mutation through `&mut self` is left out. `next` is a pure function that returns the item together with the updated iterator.
- Integers.Negate: release builds, where signed `-self` at the minimum wraps to the minimum instead of panicking, are not modelled; the contract states the debug-build behaviour (overflow at the minimum, `IntoDigits.NegationPanic`), the default build profile for the crate's unit tests.
