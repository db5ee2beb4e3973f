/** What `parse_go_duration` computes on every text: sums of exact floors, when the 18-digit cut costs a nanosecond, when 128 bits wrap. */
module DurationProofs {
  import opened Wrappers
  import opened Text
  import opened Arithmetic
  import opened Durations

  // ---------------------------------------------------------------- quotients

  /** Dividing twice is dividing once. */
  lemma DivTwice(a: nat, b: nat, c: nat)
    requires 0 < b && 0 < c
    ensures 0 < b * c && a / b >= 0 && a / b / c == a / (b * c)
  {
    var q, r := a / b, a % b;
    DivNonNegative(a, b);
    DivNonNegative(q, c);
    Nested2(a, b, c, q, r, q / c, q % c);
  }

  lemma Nested2(a: nat, b: nat, c: nat, q: nat, r: nat, p: nat, t: nat)
    requires 0 < b && 0 < c && a == q * b + r && r < b && q == p * c + t && t < c
    ensures 0 < b * c && a / (b * c) == p
  {
    MulMono(1, b, c);
    MulMono(t, c - 1, b);
    Distribute(c - 1, 1, b);
    Distribute(p * c, t, b);
    Associate(p, c, b);
    DivUnique(a, b * c, p, t * b + r);
  }

  /** A common factor cancels. */
  lemma DivCancel(a: nat, d: nat, s: nat)
    requires 0 < d && 0 < s
    ensures 0 < d * s && (a * s) / (d * s) == a / d
  {
    var q, r := a / d, a % d;
    MulMono(1, d, s);
    MulMono(r, d - 1, s);
    Distribute(d - 1, 1, s);
    Distribute(q * d, r, s);
    Associate(q, d, s);
    NonNegative(r, s);
    DivUnique(a * s, d * s, q, r * s);
  }

  // ---------------------------------------------------------------- digits

  lemma {:induction false} Pow10Sum(a: nat, b: nat)
    ensures Pow10(a + b) == Pow10(a) * Pow10(b)
  {
    if a > 0 {
      Pow10Sum(a - 1, b);
      Associate(10, Pow10(a - 1), Pow10(b));
    }
  }

  lemma {:induction false} NumberBound(s: string)
    requires AllDigits(s)
    ensures Number(s) < Pow10(|s|)
  {
    if s != [] {
      NumberBound(s[..|s| - 1]);
    }
  }

  lemma {:induction false} NumberConcat(a: string, b: string)
    requires AllDigits(a) && AllDigits(b)
    ensures AllDigits(a + b) && Number(a + b) == Number(a) * Pow10(|b|) + Number(b)
  {
    if b == [] {
      assert a + b == a;
    } else {
      var init := b[..|b| - 1];
      NumberConcat(a, init);
      assert (a + b)[..|a + b| - 1] == a + init;
      TenTimes(Number(a), Pow10(|init|));
    }
  }

  lemma TenTimes(n: nat, p: nat)
    ensures 10 * (n * p) == n * (10 * p)
  {
  }

  // ---------------------------------------------------------------- the 18-digit cut

  /** A component's exact value, rounded down to nanoseconds. */
  function Exact(c: Component, scale: nat): nat
    requires c.Shaped()
  {
    Number(c.whole) * scale + Fraction(c.frac, scale)
  }

  /** The number `whole.frac`, `f` counting `p`-ths, in units of `scale`. */
  function RealValue(w: nat, f: nat, p: nat, scale: nat): real
    requires 0 < p
  {
    (w as real + f as real / p as real) * scale as real
  }

  /** `Exact` is the floor of the real value `whole.frac × scale`. */
  lemma ExactIsFloor(c: Component, scale: nat)
    requires c.Shaped()
    ensures RealValue(Number(c.whole), Number(c.frac), Pow10(|c.frac|), scale).Floor == Exact(c, scale)
  {
    var w, f, p := Number(c.whole), Number(c.frac), Pow10(|c.frac|);
    assert Exact(c, scale) == w * scale + f * scale / p;
    hide *;
    FloorOfSum(w, f, p, scale);
  }

  lemma FloorOfSum(w: nat, f: nat, p: nat, scale: nat)
    requires 0 < p
    ensures RealValue(w, f, p, scale).Floor == w * scale + f * scale / p
  {
    var q, r := f * scale / p, f * scale % p;
    assert f * scale == q * p + r;
    ProductOfReals(f, scale, p, q, r);
    var x, y, e := f as real / p as real, w as real, r as real / p as real;
    SmallQuotient(r, p);
    assert (w * scale) as real == y * scale as real;
  }

  lemma SmallQuotient(r: nat, p: nat)
    requires 0 < p && r < p
    ensures 0.0 <= r as real / p as real < 1.0
  {
  }

  lemma ProductOfReals(f: nat, scale: nat, p: nat, q: nat, r: nat)
    requires 0 < p && f * scale == q * p + r
    ensures (f as real / p as real) * scale as real == q as real + r as real / p as real
  {
    var x := f as real / p as real;
    assert x * p as real == f as real;
    assert (f * scale) as real == f as real * scale as real == (q * p) as real + r as real;
    assert (q * p) as real == q as real * p as real;
  }

  /** The digits past the cut. */
  lemma CutParts(frac: string)
    requires AllDigits(frac) && |frac| > 18
    ensures
      var head, tail := Cut(frac), frac[18..];
      AllDigits(head) && AllDigits(tail) && |head| == 18 && Number(tail) < Pow10(|tail|) &&
      Number(frac) == Number(head) * Pow10(|tail|) + Number(tail) && Pow10(|frac|) == Pow10(18) * Pow10(|tail|)
  {
    var head, tail := frac[..18], frac[18..];
    assert frac == head + tail;
    NumberConcat(head, tail);
    NumberBound(tail);
    Pow10Sum(18, |tail|);
  }

  /** Where a unit divides 10^18 nanoseconds, digits past the 18th change nothing. */
  lemma CutIsExact(frac: string, scale: nat, k: nat)
    requires AllDigits(frac) && 0 < scale && 0 < k && k * scale == Pow10(18)
    ensures AllDigits(Cut(frac)) && Fraction(Cut(frac), scale) == Fraction(frac, scale)
  {
    if |frac| > 18 {
      CutParts(frac);
      var head, tail := Cut(frac), frac[18..];
      QuotientKept(Number(head), Number(tail), Pow10(|tail|), scale, k);
      assert Number(frac) * scale == (Number(head) * Pow10(|tail|) + Number(tail)) * scale;
    }
  }

  lemma QuotientKept(c: nat, r: nat, t: nat, s: nat, k: nat)
    requires r < t && 0 < s && 0 < k
    ensures 0 < k * s && 0 < k * s * t && (c * t + r) * s / (k * s * t) == c * s / (k * s)
  {
    var f := c * t + r;
    NonNegative(c, t);
    MulMono(1, k, t);
    DivUnique(f, t, c, r);
    assert k * s * t == (k * t) * s by { Associate(k, s, t); Associate(k, t, s); assert s * t == t * s; }
    DivCancel(f, k * t, s);
    DivTwice(f, t, k);
    assert t * k == k * t;
    DivCancel(c, k, s);
  }

  /** What the digits past the 18th add does not carry into the nanoseconds. */
  predicate CutHolds(frac: string, scale: nat)
    requires AllDigits(frac)
  {
    |frac| <= 18 || Remainder(frac[..18], scale) + Fraction(frac[18..], scale) < Pow10(18)
  }

  /** What rounding `0.head` units down to nanoseconds leaves, in 10^-18 nanoseconds. */
  function Remainder(head: string, scale: nat): nat
    requires AllDigits(head)
  {
    NonNegative(Number(head), scale);
    Number(head) * scale % Pow10(18)
  }

  /** In any unit up to an hour the cut costs nothing exactly when `CutHolds`, and one nanosecond otherwise. */
  lemma CutLosesOne(frac: string, scale: nat)
    requires AllDigits(frac) && 0 < scale <= HOUR
    ensures AllDigits(Cut(frac)) && Fraction(frac, scale) == Fraction(Cut(frac), scale) + if CutHolds(frac, scale) then 0 else 1
  {
    if |frac| > 18 {
      CutParts(frac);
      var head, tail := Cut(frac), frac[18..];
      assert Pow10(18) == 1_000_000_000_000_000_000 by { Pow10Sum(9, 9); assert Pow10(9) == 1_000_000_000; }
      QuotientNear(Number(head), Number(tail), Pow10(|tail|), scale, Pow10(18));
    }
  }

  lemma QuotientNear(c: nat, r: nat, t: nat, s: nat, p: nat)
    requires r < t && 0 < s <= p
    ensures 0 < p * t && (c * t + r) * s / (p * t) == c * s / p + if c * s % p + r * s / t < p then 0 else 1
  {
    NonNegative(c, s);
    NonNegative(r, s);
    var e := r * s / t;
    assert 0 <= e < s by { MulMono(r, t - 1, s); Distribute(t - 1, 1, s); DivBelow(r * s, t, s); }
    QuotientOfSum(c, r, t, s, p);
    DivNear(c * s, e, p);
  }

  lemma QuotientOfSum(c: nat, r: nat, t: nat, s: nat, p: nat)
    requires r < t && 0 < s && 0 < p
    ensures 0 < p * t && (c * t + r) * s / (p * t) == (c * s + r * s / t) / p
  {
    NonNegative(c, t);
    NonNegative(c, s);
    NonNegative(r, s);
    NonNegative(c * t + r, s);
    DivNonNegative(r * s, t);
    Scaled(c, r, t, s, r * s / t, r * s % t);
    DivUnique((c * t + r) * s, t, c * s + r * s / t, r * s % t);
    DivTwice((c * t + r) * s, t, p);
    assert t * p == p * t;
  }

  lemma Scaled(c: nat, r: nat, t: nat, s: nat, e: nat, m: nat)
    requires r * s == e * t + m
    ensures (c * t + r) * s == (c * s + e) * t + m
  {
    Distribute(c * t, r, s);
    Associate(c, t, s);
    Associate(c, s, t);
    Distribute(c * s, e, t);
  }

  lemma DivBelow(x: nat, t: nat, s: nat)
    requires 0 < t && x < t * s
    ensures 0 <= x / t < s
  {
    DivNonNegative(x, t);
    if x / t >= s {
      MulMono(s, x / t, t);
      assert false;
    }
  }

  lemma DivNear(x: nat, e: nat, p: nat)
    requires e < p
    ensures (x + e) / p == x / p + if x % p + e < p then 0 else 1
  {
    var q, r := x / p, x % p;
    Distribute(q, 1, p);
    if r + e < p {
      DivUnique(x + e, p, q, r + e);
    } else {
      DivUnique(x + e, p, q + 1, r + e - p);
    }
  }

  /** Where a unit divides 10^18 nanoseconds the cut always holds. */
  lemma CutHoldsBelowMinutes(c: Component)
    requires Known(c) && c.unit != "m" && c.unit != "h"
    ensures CutHolds(c.frac, Scale(c.unit).value)
  {
    hide Fraction, Number, CutHolds;
    var scale := Scale(c.unit).value;
    var k := Pow10(18) / scale;
    assert Pow10(18) == 1_000_000_000_000_000_000 by { Pow10Sum(9, 9); assert Pow10(9) == 1_000_000_000; }
    assert k * scale == Pow10(18);
    CutIsExact(c.frac, scale, k);
    CutLosesOne(c.frac, scale);
  }

  /**
   A component's nanoseconds as the code computes them, before they wrap, are its exact floor exactly when the cut holds, and
   one less otherwise; for nanoseconds to seconds, and for up to 18 digits, the cut always holds.
   */
  lemma ComponentValue(c: Component)
    requires Known(c)
    ensures
      var scale := Scale(c.unit).value;
      Exact(c, scale) == Nanos(c, scale) + (if CutHolds(c.frac, scale) then 0 else 1) &&
      ((c.unit != "m" && c.unit != "h") || |c.frac| <= 18 ==> CutHolds(c.frac, scale))
  {
    hide Fraction, Number;
    CutLosesOne(c.frac, Scale(c.unit).value);
    if c.unit != "m" && c.unit != "h" {
      CutHoldsBelowMinutes(c);
    }
  }

  // ---------------------------------------------------------------- the components of a text

  predicate Known(c: Component) { c.Shaped() && Scale(c.unit).Some? }

  predicate AllKnown(cs: seq<Component>) {
    cs == [] || (Known(cs[0]) && AllKnown(cs[1..]))
  }

  /** The components up to the first that has no digits or no known unit, and whether they are the whole text. */
  function Components(rest: string): (r: (seq<Component>, bool))
    ensures AllKnown(r.0)
    decreases |rest|
  {
    if rest == [] then ([], true)
    else
      var (c, next) := Split(rest);
      if |c.whole| + |c.frac| == 0 || Scale(c.unit).None? then ([], false)
      else
        var (cs, complete) := Components(next);
        ([c] + cs, complete)
  }

  function Units(c: Component): nat
    requires Known(c)
  {
    Scale(c.unit).value
  }

  function Sum(cs: seq<Component>): nat
    requires AllKnown(cs)
  {
    if cs == [] then 0 else Nanos(cs[0], Units(cs[0])) + Sum(cs[1..])
  }

  function ExactSum(cs: seq<Component>): nat
    requires AllKnown(cs)
  {
    if cs == [] then 0 else Exact(cs[0], Units(cs[0])) + ExactSum(cs[1..])
  }

  /** How many components the cut costs a nanosecond. */
  function Lost(cs: seq<Component>): nat
    requires AllKnown(cs)
  {
    if cs == [] then 0 else (if CutHolds(cs[0].frac, Units(cs[0])) then 0 else 1) + Lost(cs[1..])
  }

  /** How many components are minutes or hours with more than 18 digits after the point. */
  function LongHours(cs: seq<Component>): nat {
    if cs == [] then 0
    else (if (cs[0].unit == "m" || cs[0].unit == "h") && |cs[0].frac| > 18 then 1 else 0) + LongHours(cs[1..])
  }

  /** The sum of the exact floors is what the code adds up and a nanosecond for every component whose cut does not hold. */
  lemma {:induction false} SumNearExact(cs: seq<Component>)
    requires AllKnown(cs)
    ensures ExactSum(cs) == Sum(cs) + Lost(cs) && Lost(cs) <= LongHours(cs)
  {
    if cs != [] {
      hide Nanos, Exact, CutHolds;
      ComponentValue(cs[0]);
      SumNearExact(cs[1..]);
    }
  }

  // ---------------------------------------------------------------- the loop, on every text

  /** The number of units and their nanoseconds fit 128 bits. */
  predicate Readable(c: Component)
    requires Known(c)
  {
    Number(c.whole) < U128 && Number(c.whole) * Units(c) < U128
  }

  predicate AllReadable(cs: seq<Component>)
    requires AllKnown(cs)
  {
    cs == [] || (Readable(cs[0]) && AllReadable(cs[1..]))
  }

  /** Some component's nanoseconds, fraction included, exceed 128 bits. */
  predicate SomeWraps(cs: seq<Component>)
    requires AllKnown(cs)
  {
    cs != [] && (Nanos(cs[0], Units(cs[0])) >= U128 || SomeWraps(cs[1..]))
  }

  /** The sum with each component wrapped at 128 bits. */
  function WrappedSum(cs: seq<Component>): nat
    requires AllKnown(cs)
  {
    if cs == [] then 0 else Nanos(cs[0], Units(cs[0])) % U128 + WrappedSum(cs[1..])
  }

  /** Too large, else not a duration, else the sum. */
  function Verdict(tooLarge: bool, complete: bool, sum: nat): Result<nat, GoError> {
    if tooLarge then Failure(Overflow) else if !complete then Failure(Invalid) else Success(sum)
  }

  lemma KnownValue(c: Component)
    requires Known(c) && |c.whole| + |c.frac| > 0
    ensures ValueOf(c) == if Readable(c) then Success(Nanos(c, Units(c)) % U128) else Failure(Overflow)
  {
    hide Nanos;
  }

  lemma UnknownValue(c: Component)
    requires c.Shaped() && (|c.whole| + |c.frac| == 0 || Scale(c.unit).None?)
    ensures ValueOf(c) == Failure(Invalid)
  {
    hide Nanos;
  }

  lemma ComponentsStep(rest: string)
    requires rest != []
    ensures
      var (c, next) := Split(rest);
      if |c.whole| + |c.frac| == 0 || Scale(c.unit).None? then Components(rest) == ([], false)
      else |next| < |rest| && Known(c) && Components(rest).0 != [] && Components(rest).0[0] == c &&
           Components(rest).0[1..] == Components(next).0 && Components(rest).1 == Components(next).1
  {
    hide Scale, Split;
  }

  /**
   What the loop returns, whatever the text: too large when a component before the first bad one is not readable or their
   wrapped sum exceeds `u64::MAX`; else refused when there is a bad one; else the wrapped sum.
   */
  lemma {:induction false} TotalIs(rest: string, total: nat)
    requires total <= U64_MAX
    ensures
      var (cs, complete) := Components(rest);
      var sum := total + WrappedSum(cs);
      Total(rest, total) == Verdict(!AllReadable(cs) || sum > U64_MAX, complete, sum)
    decreases |rest|
  {
    hide Split, Nanos, Scale, ValueOf, Units, Readable, Known, Components;
    if rest == [] {
      NoText();
    } else {
      var (c, next) := Split(rest);
      ComponentsStep(rest);
      if |c.whole| + |c.frac| == 0 || Scale(c.unit).None? {
        UnknownValue(c);
      } else {
        KnownValue(c);
        if Readable(c) {
          var value := Nanos(c, Units(c)) % U128;
          TotalStep(rest, total, value);
          if total + value <= U64_MAX {
            TotalIs(next, total + value);
          }
        }
      }
    }
  }

  lemma NoText()
    ensures Components([]) == ([], true)
  {
  }

  // ---------------------------------------------------------------- the unchecked addition

  /** A component's value were the last addition checked. */
  function Unwrapped(c: Component): Result<nat, GoError>
    requires c.Shaped()
  {
    var value :- ValueOf(c);
    Success(if Scale(c.unit).Some? then Nanos(c, Scale(c.unit).value) else value)
  }

  /** The loop were the addition checked: what it is meant to compute. */
  function Intended(rest: string, total: nat): Result<nat, GoError>
    decreases |rest|
  {
    if rest == [] then Success(total)
    else
      var (c, next) := Split(rest);
      var value :- Unwrapped(c);
      if total + value > U64_MAX then Failure(Overflow) else Intended(next, total + value)
  }

  lemma KnownUnwrapped(c: Component)
    requires Known(c) && |c.whole| + |c.frac| > 0
    ensures Unwrapped(c) == if Readable(c) then Success(Nanos(c, Units(c))) else Failure(Overflow)
    ensures !Readable(c) ==> Nanos(c, Units(c)) >= U128
  {
    KnownValue(c);
    UnreadableIsLarge(Number(c.whole), Units(c), Fraction(Cut(c.frac), Units(c)));
    hide Fraction, ValueOf, Number;
  }

  lemma UnreadableIsLarge(n: nat, scale: nat, f: nat)
    requires 0 < scale
    ensures n >= U128 || n * scale >= U128 ==> n * scale + f >= U128
  {
    MulMono(1, scale, n);
  }

  lemma IntendedStep(rest: string, total: nat, value: nat)
    requires rest != [] && Unwrapped(Split(rest).0) == Success(value)
    ensures Intended(rest, total) == if total + value > U64_MAX then Failure(Overflow) else Intended(Split(rest).1, total + value)
  {
    hide Unwrapped, Split;
  }

  /** What it is meant to return: the same of the sum itself. */
  lemma {:induction false} IntendedIs(rest: string, total: nat)
    requires total <= U64_MAX
    ensures
      var (cs, complete) := Components(rest);
      var sum := total + Sum(cs);
      Intended(rest, total) == Verdict(sum > U64_MAX, complete, sum)
    decreases |rest|
  {
    hide Split, Nanos, Scale, ValueOf, Units, Readable, Known, Components, Unwrapped;
    if rest == [] {
      NoText();
    } else {
      var (c, next) := Split(rest);
      ComponentsStep(rest);
      if |c.whole| + |c.frac| == 0 || Scale(c.unit).None? {
        UnknownValue(c);
        UnknownUnwrapped(c);
      } else {
        KnownUnwrapped(c);
        if Readable(c) {
          var value := Nanos(c, Units(c));
          IntendedStep(rest, total, value);
          if total + value <= U64_MAX {
            IntendedIs(next, total + value);
          }
        }
      }
    }
  }

  lemma UnknownUnwrapped(c: Component)
    requires c.Shaped() && ValueOf(c).Failure?
    ensures Unwrapped(c) == Failure(ValueOf(c).error)
  {
    hide ValueOf, Nanos;
  }

  /** The sum and the wrapped sum. */
  lemma {:induction false} SumWraps(cs: seq<Component>)
    requires AllKnown(cs)
    ensures SomeWraps(cs) ==> Sum(cs) >= U128
    ensures !SomeWraps(cs) ==> WrappedSum(cs) == Sum(cs) && AllReadable(cs)
  {
    if cs != [] {
      UnreadableIsLarge(Number(cs[0].whole), Units(cs[0]), Fraction(Cut(cs[0].frac), Units(cs[0])));
      hide Fraction, Number, Units;
      SumWraps(cs[1..]);
    }
  }

  /**
   On every text: the code differs from what it is meant to compute exactly when, among the components before the first bad
   one, all are readable, some component's nanoseconds exceed 128 bits, and the wrapped sum is at most `u64::MAX`.
   */
  lemma UncheckedAddition(rest: string, total: nat)
    requires total <= U64_MAX
    ensures
      var cs := Components(rest).0;
      Total(rest, total) != Intended(rest, total) <==>
      AllReadable(cs) && SomeWraps(cs) && total + WrappedSum(cs) <= U64_MAX
  {
    hide Total, Intended, Components, AllReadable, SomeWraps, WrappedSum, Sum;
    TotalIs(rest, total);
    IntendedIs(rest, total);
    SumWraps(Components(rest).0);
  }

  predicate Small(cs: seq<Component>)
    requires AllKnown(cs)
  {
    cs == [] || (Number(cs[0].whole) <= U64_MAX && Small(cs[1..]))
  }

  /** No component wraps when every integer part is below 2^64. */
  lemma {:induction false} SmallNeverWraps(cs: seq<Component>)
    requires AllKnown(cs) && Small(cs)
    ensures !SomeWraps(cs)
  {
    if cs != [] {
      NanosBound(cs[0], Units(cs[0]));
      hide Nanos, Units;
      SmallNeverWraps(cs[1..]);
    }
  }

  lemma FractionBelow(frac: string, scale: nat)
    requires AllDigits(frac) && 0 < scale
    ensures Fraction(frac, scale) < scale
  {
    NumberBound(frac);
    var p := Pow10(|frac|);
    MulMono(Number(frac), p - 1, scale);
    Distribute(p - 1, 1, scale);
    DivBelow(Number(frac) * scale, p, scale);
  }

  lemma NanosBound(c: Component, scale: nat)
    requires c.Shaped() && 0 < scale <= HOUR && Number(c.whole) <= U64_MAX
    ensures Nanos(c, scale) < U128
  {
    FractionBelow(Cut(c.frac), scale);
    hide Fraction, Number;
    MulMono(Number(c.whole), U64_MAX, scale);
    MulMono(scale, HOUR, U64_MAX);
  }

  /**
   On every text in which no component wraps: the sum of the components before the first bad one is too large exactly when it
   exceeds `u64::MAX`; otherwise the text is refused when there is a bad one, and the result is the sum when there is none.
   The sum is that of the exact floors, less a nanosecond for every component whose cut does not hold.
   */
  lemma DurationIsSum(s: string)
    ensures Unsigned(s) == [] ==> GoDuration(s) == Failure(Invalid)
    ensures
      var (cs, complete) := Components(Unsigned(s));
      ExactSum(cs) == Sum(cs) + Lost(cs) &&
      (Unsigned(s) != [] && !SomeWraps(cs) ==>
         GoDuration(s) == if Sum(cs) > U64_MAX then Failure(Overflow)
                          else if !complete then Failure(Invalid)
                          else Success((Negative(s), Sum(cs))))
  {
    hide Components, Sum, ExactSum, Lost, SomeWraps, AllReadable, WrappedSum, Total, Unsigned;
    var cs := Components(Unsigned(s)).0;
    TotalIs(Unsigned(s), 0);
    SumWraps(cs);
    SumNearExact(cs);
  }
}
