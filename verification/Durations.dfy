/** Go durations as `parse_go_duration` reads them (crates/ollaya-api/src/keep_alive.rs). */
module Durations {
  import opened Wrappers
  import opened Text
  import opened Arithmetic

  const U64_MAX: nat := 0xffff_ffff_ffff_ffff
  /** One more than the largest u128. */
  const U128: nat := 0x1_0000_0000_0000_0000_0000_0000_0000_0000
  const SECOND: nat := 1_000_000_000
  const MINUTE: nat := 60_000_000_000
  const HOUR: nat := 3600_000_000_000

  datatype GoError = Invalid | Overflow

  /** One component of a duration: the digits before and after the point, and the unit. */
  datatype Component = Component(whole: string, frac: string, unit: string) {
    predicate Shaped() { AllDigits(whole) && AllDigits(frac) }
  }

  function Scale(unit: string): (r: Option<nat>)
    ensures r.Some? ==> 1 <= r.value <= HOUR
  {
    match unit
    case "ns" => Some(1)
    case "us" => Some(1000)
    case "\U{b5}s" => Some(1000)
    case "\U{3bc}s" => Some(1000)
    case "ms" => Some(1_000_000)
    case "s" => Some(SECOND)
    case "m" => Some(MINUTE)
    case "h" => Some(HOUR)
    case _ => None
  }

  function Pow10(n: nat): (p: nat)
    ensures p >= 1
  {
    if n == 0 then 1 else 10 * Pow10(n - 1)
  }

  // ---------------------------------------------------------------- the parser

  /** Where the digits that start at `i` end. */
  function DigitsEnd(s: string, i: nat): (e: nat)
    requires i <= |s|
    ensures i <= e <= |s| && forall k :: i <= k < e ==> IsDigit(s[k])
    ensures e < |s| ==> !IsDigit(s[e])
    decreases |s| - i
  {
    if i < |s| && IsDigit(s[i]) then DigitsEnd(s, i + 1) else i
  }

  predicate UnitChar(c: char) { !IsDigit(c) && c != '.' }

  /** Where the characters that start at `i` and are neither digits nor points end. */
  function UnitEnd(s: string, i: nat): (e: nat)
    requires i <= |s|
    ensures i <= e <= |s| && forall k :: i <= k < e ==> UnitChar(s[k])
    ensures e < |s| ==> !UnitChar(s[e])
    decreases |s| - i
  {
    if i < |s| && UnitChar(s[i]) then UnitEnd(s, i + 1) else i
  }

  /** The first component, and what follows it. */
  function Split(rest: string): (r: (Component, string))
    ensures r.0.Shaped() && |r.1| <= |rest| && (|r.0.whole| + |r.0.frac| > 0 ==> |r.1| < |rest|)
  {
    var a := DigitsEnd(rest, 0);
    var point := a < |rest| && rest[a] == '.';
    var from := if point then a + 1 else a;
    var b := if point then DigitsEnd(rest, from) else a;
    var u := UnitEnd(rest, b);
    (Component(rest[..a], rest[from..b], rest[b..u]), rest[u..])
  }

  /** The fractional digits that are read: 18 at most. */
  function Cut(frac: string): string {
    if |frac| <= 18 then frac else frac[..18]
  }

  function Nanos(c: Component, scale: nat): nat
    requires c.Shaped()
  {
    Number(c.whole) * scale + Fraction(Cut(c.frac), scale)
  }

  /** `0.frac` units of `scale` nanoseconds, rounded down. */
  function Fraction(frac: string, scale: nat): nat
    requires AllDigits(frac)
  {
    DivNonNegative(Number(frac) * scale, Pow10(|frac|));
    Number(frac) * scale / Pow10(|frac|)
  }

  /** One component's nanoseconds; the last addition is not checked, so it wraps at 128 bits. */
  function ValueOf(c: Component): Result<nat, GoError>
    requires c.Shaped()
  {
    if |c.whole| + |c.frac| == 0 then Failure(Invalid)
    else
      match Scale(c.unit)
      case None => Failure(Invalid)
      case Some(scale) =>
        if Number(c.whole) >= U128 || Number(c.whole) * scale >= U128 then Failure(Overflow)
        else Success(Nanos(c, scale) % U128)
  }

  /** The loop from `rest` and `total` on. */
  function Total(rest: string, total: nat): Result<nat, GoError>
    decreases |rest|
  {
    if rest == [] then Success(total)
    else
      var (c, next) := Split(rest);
      var value :- ValueOf(c);
      if total + value > U64_MAX then Failure(Overflow) else Total(next, total + value)
  }

  lemma HasDigits(c: Component)
    requires c.Shaped() && ValueOf(c).Success?
    ensures |c.whole| + |c.frac| > 0
  {
    hide Nanos, Scale;
  }

  lemma TotalStep(rest: string, total: nat, value: nat)
    requires rest != [] && ValueOf(Split(rest).0) == Success(value)
    ensures |Split(rest).1| < |rest|
    ensures Total(rest, total) == if total + value > U64_MAX then Failure(Overflow) else Total(Split(rest).1, total + value)
  {
    hide ValueOf, Split;
    HasDigits(Split(rest).0);
  }

  function Unsigned(s: string): string {
    if s != [] && (s[0] == '-' || s[0] == '+') then s[1..] else s
  }

  predicate Negative(s: string) { s != [] && s[0] == '-' }

  function GoDuration(s: string): Result<(bool, nat), GoError> {
    if Unsigned(s) == [] then Failure(Invalid)
    else
      var total :- Total(Unsigned(s), 0);
      Success((Negative(s), total))
  }

  /** One component's nanoseconds, in the order the code checks it. */
  method Evaluate(c: Component) returns (r: Result<nat, GoError>)
    requires c.Shaped()
    ensures r == ValueOf(c)
  {
    hide Fraction;
    if |c.whole| + |c.frac| == 0 { return Failure(Invalid); }
    var scale := Scale(c.unit);
    if scale.None? { return Failure(Invalid); }
    var units := if c.whole == [] then 0 else Number(c.whole);
    if units >= U128 { return Failure(Overflow); }
    var value := units * scale.value;
    if value >= U128 { return Failure(Overflow); }
    var digits := Cut(c.frac);
    if digits != [] {
      value := (value + Fraction(digits, scale.value)) % U128;
    } else {
      NoFraction(scale.value);
    }
    return Success(value);
  }

  method ParseGoDuration(s: string) returns (r: Result<(bool, nat), GoError>)
    ensures r == GoDuration(s)
  {
    hide ValueOf, Split;
    var negative, rest := Negative(s), Unsigned(s);
    if rest == [] { return Failure(Invalid); }
    var total: nat := 0;
    while rest != []
      invariant total <= U64_MAX && Total(rest, total) == Total(Unsigned(s), 0)
      decreases |rest|
    {
      var (c, next) := Split(rest);
      var value := Evaluate(c);
      if value.Failure? { return Failure(value.error); }
      TotalStep(rest, total, value.value);
      if total + value.value >= U128 { return Failure(Overflow); }
      total := total + value.value;
      if total > U64_MAX { return Failure(Overflow); }
      rest := next;
    }
    return Success((negative, total));
  }

  lemma NoFraction(scale: nat)
    ensures Fraction([], scale) == 0
  {
    assert Number([]) * scale == 0;
  }
}
