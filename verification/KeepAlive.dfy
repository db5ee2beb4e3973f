/** Printing a duration and reading it back, and `keep_alive` values (crates/ollaya-api/src/keep_alive.rs). */
module KeepAlive {
  import opened Wrappers
  import opened Text
  import opened Arithmetic
  import opened Collections
  import opened Durations
  import opened DurationProofs

  // ---------------------------------------------------------------- components as text

  /** A component as it is written. */
  function Shown(c: Component): string {
    c.whole + (if c.frac == [] then [] else "." + c.frac) + c.unit
  }

  function ShownAll(cs: seq<Component>): string {
    if cs == [] then [] else Shown(cs[0]) + ShownAll(cs[1..])
  }

  /** A component that starts with a digit and has a known unit. */
  predicate Plain(c: Component) {
    c.whole != [] && Known(c)
  }

  predicate AllPlain(cs: seq<Component>) {
    cs == [] || (Plain(cs[0]) && AllPlain(cs[1..]))
  }

  lemma UnitChars(unit: string)
    requires Scale(unit).Some?
    ensures unit != [] && forall i :: 0 <= i < |unit| ==> UnitChar(unit[i])
  {
  }

  /** Where the parts of a component lie in a text that starts with it. */
  predicate LaidOut(s: string, c: Component, rest: string, from: nat, b: nat, u: nat) {
    |c.whole| <= from <= b <= u <= |s| && s[..|c.whole|] == c.whole && s[from..b] == c.frac && s[b..u] == c.unit && s[u..] == rest
  }

  lemma LayOut(c: Component, rest: string)
    ensures
      var from := if c.frac != [] then |c.whole| + 1 else |c.whole|;
      var b := from + |c.frac|;
      var s := Shown(c) + rest;
      LaidOut(s, c, rest, from, b, b + |c.unit|) && (c.frac != [] ==> s[|c.whole|] == '.')
  {
    var s := Shown(c) + rest;
    if c.frac != [] {
      assert Shown(c) == c.whole + "." + c.frac + c.unit;
    } else {
      assert Shown(c) == c.whole + c.unit;
    }
  }

  /** The parser takes one component off, up to the next digit. */
  lemma SplitShown(c: Component, rest: string)
    requires Plain(c) && (rest != [] ==> IsDigit(rest[0]))
    ensures Split(Shown(c) + rest) == (c, rest)
  {
    hide Scale, Shown;
    var s := Shown(c) + rest;
    LayOut(c, rest);
    UnitChars(c.unit);
    var from := if c.frac != [] then |c.whole| + 1 else |c.whole|;
    var b := from + |c.frac|;
    SplitLaidOut(s, c, rest, from, b, b + |c.unit|);
  }

  lemma SplitLaidOut(s: string, c: Component, rest: string, from: nat, b: nat, u: nat)
    requires LaidOut(s, c, rest, from, b, u) && c.Shaped() && c.unit != [] && from == |c.whole| + (if c.frac != [] then 1 else 0)
    requires (forall i :: 0 <= i < |c.unit| ==> UnitChar(c.unit[i])) && (rest != [] ==> IsDigit(rest[0]))
    requires c.frac != [] ==> s[|c.whole|] == '.'
    ensures Split(s) == (c, rest)
  {
    hide DigitsEnd, UnitEnd, LaidOut;
    EndsLaidOut(s, c, rest, from, b, u);
    SlicesLaidOut(s, c, rest, from, b, u);
  }

  lemma SlicesLaidOut(s: string, c: Component, rest: string, from: nat, b: nat, u: nat)
    requires LaidOut(s, c, rest, from, b, u)
    ensures |c.whole| <= from <= b <= u <= |s| && |c.whole| + |c.frac| + |c.unit| <= |s|
    ensures Component(s[..|c.whole|], s[from..b], s[b..u]) == c && s[u..] == rest
  {
  }

  lemma EndsLaidOut(s: string, c: Component, rest: string, from: nat, b: nat, u: nat)
    requires LaidOut(s, c, rest, from, b, u) && c.Shaped() && c.unit != [] && from == |c.whole| + (if c.frac != [] then 1 else 0)
    requires (forall i :: 0 <= i < |c.unit| ==> UnitChar(c.unit[i])) && (rest != [] ==> IsDigit(rest[0]))
    requires c.frac != [] ==> s[|c.whole|] == '.'
    ensures DigitsEnd(s, 0) == |c.whole| && UnitEnd(s, b) == u
    ensures c.frac != [] ==> DigitsEnd(s, from) == b
    ensures c.frac == [] ==> from == b && s[b] != '.'
    ensures b < |s|
  {
    hide DigitsEnd, UnitEnd;
    var a := |c.whole|;
    assert forall k :: 0 <= k < a ==> s[k] == s[..a][k];
    assert forall k :: from <= k < b ==> s[k] == s[from..b][k - from];
    assert forall k :: b <= k < u ==> s[k] == s[b..u][k - b];
    assert u < |s| ==> s[u] == s[u..][0];
    assert UnitChar(s[b]) by { assert s[b] == c.unit[0]; }
    if c.frac != [] {
    }
  }

  /** What is written as components is read as those components. */
  lemma {:induction false} ComponentsShown(cs: seq<Component>)
    requires AllPlain(cs)
    ensures Components(ShownAll(cs)) == (cs, true)
    ensures cs != [] ==> ShownAll(cs) != [] && IsDigit(ShownAll(cs)[0])
  {
    hide Split, Scale;
    if cs != [] {
      var rest := ShownAll(cs[1..]);
      ComponentsShown(cs[1..]);
      if cs[1..] == [] { assert rest == []; }
      SplitShown(cs[0], rest);
      assert cs == [cs[0]] + cs[1..];
    }
  }

  // ---------------------------------------------------------------- printing

  function Zeros(n: nat): (s: string)
    ensures |s| == n && AllDigits(s)
  {
    seq(n, i => '0')
  }

  /** `{n:09}`. */
  function Padded(n: nat): string {
    var s := Decimal(n);
    if |s| < 9 then Zeros(9 - |s|) + s else s
  }

  /** `trim_end_matches('0')`. */
  function TrimZeros(s: string): string {
    if s != [] && s[|s| - 1] == '0' then TrimZeros(s[..|s| - 1]) else s
  }

  /** Seconds below a minute, in nanoseconds. */
  function SecondsPart(rest: nat): Component {
    var (secs, frac) := (rest / SECOND, rest % SECOND);
    Component(Decimal(secs), if frac == 0 then [] else TrimZeros(Padded(frac)), "s")
  }

  /** Less than a second, in the largest unit that divides it. */
  function SmallPart(n: nat): Component {
    if n == 0 then Component("0", [], "s")
    else if n % 1_000_000 == 0 then Component(Decimal(n / 1_000_000), [], "ms")
    else if n % 1000 == 0 then Component(Decimal(n / 1000), [], "us")
    else Component(Decimal(n), [], "ns")
  }

  function Bare(n: nat, unit: string): seq<Component> {
    if n > 0 then [Component(Decimal(n), [], unit)] else []
  }

  /** The components that `n` nanoseconds are written as. */
  function Parts(n: nat): seq<Component> {
    if n < SECOND then [SmallPart(n)]
    else
      var rest := n % HOUR % MINUTE;
      Bare(n / HOUR, "h") + Bare(n % HOUR / MINUTE, "m") + (if rest > 0 then [SecondsPart(rest)] else [])
  }

  lemma {:induction false} ShownConcat(a: seq<Component>, b: seq<Component>)
    ensures ShownAll(a + b) == ShownAll(a) + ShownAll(b)
  {
    hide Shown;
    if a == [] {
      assert a + b == b;
    } else {
      ShownConcat(a[1..], b);
      assert (a + b)[1..] == a[1..] + b;
      Associative(Shown(a[0]), ShownAll(a[1..]), ShownAll(b));
    }
  }

  lemma ShownOne(c: Component)
    ensures ShownAll([c]) == Shown(c) && (c.frac == [] ==> Shown(c) == c.whole + c.unit)
  {
    assert [c][1..] == [];
  }

  method FormatDuration(n: nat) returns (out: string)
    ensures out == ShownAll(Parts(n))
  {
    hide Shown, ShownAll, SecondsPart, Bare;
    if n < SECOND {
      ShownOne(SmallPart(n));
      if n == 0 { return "0s"; }
      if n % 1_000_000 == 0 {
        return Decimal(n / 1_000_000) + "ms";
      } else if n % 1000 == 0 {
        return Decimal(n / 1000) + "us";
      } else {
        return Decimal(n) + "ns";
      }
    }
    var (h, afterHours) := (n / HOUR, n % HOUR);
    var (m, rest) := (afterHours / MINUTE, afterHours % MINUTE);
    out := [];
    ShownBare(h, "h");
    ShownBare(m, "m");
    if h > 0 {
      out := out + (Decimal(h) + "h");
    }
    if m > 0 {
      out := out + (Decimal(m) + "m");
    }
    ShownConcat(Bare(h, "h"), Bare(m, "m"));
    assert out == ShownAll(Bare(h, "h") + Bare(m, "m"));
    if rest > 0 {
      var text := FormatSeconds(rest);
      ShownOne(SecondsPart(rest));
      ShownConcat(Bare(h, "h") + Bare(m, "m"), [SecondsPart(rest)]);
      out := out + text;
    } else {
      assert Parts(n) == Bare(h, "h") + Bare(m, "m");
    }
  }

  method FormatSeconds(rest: nat) returns (out: string)
    requires 0 < rest
    ensures out == Shown(SecondsPart(rest))
  {
    var (secs, frac) := (rest / SECOND, rest % SECOND);
    if frac == 0 {
      return Decimal(secs) + "s";
    }
    TrimmedNotEmpty(frac);
    return Decimal(secs) + "." + TrimZeros(Padded(frac)) + "s";
  }

  lemma ShownBare(n: nat, unit: string)
    ensures ShownAll(Bare(n, unit)) == if n > 0 then Decimal(n) + unit else []
  {
    if n > 0 {
      ShownOne(Component(Decimal(n), [], unit));
    }
  }

  lemma TrimmedNotEmpty(frac: nat)
    requires 0 < frac < SECOND
    ensures TrimZeros(Padded(frac)) != []
  {
    FractionPrinted(frac);
  }

  lemma FractionPrinted(frac: nat)
    requires 0 < frac < SECOND
    ensures
      var t := TrimZeros(Padded(frac));
      t != [] && |t| <= 9 && AllDigits(t) && Fraction(t, SECOND) == frac
  {
    PaddedNumber(frac);
    var s := Padded(frac);
    Trimmed(s);
    var t := TrimZeros(s);
    var z := 9 - |t|;
    NumberConcat(t, Zeros(z));
    ZerosNumber(z);
    assert Number([]) == 0;
    Pow10Sum(z, |t|);
    assert Pow10(9) == SECOND;
    Associate(Number(t), Pow10(z), Pow10(|t|));
    DivUnique(Number(t) * SECOND, Pow10(|t|), frac, 0);
  }

  lemma {:induction false} ZerosNumber(n: nat)
    ensures Number(Zeros(n)) == 0
  {
    if n > 0 {
      ZerosNumber(n - 1);
      assert Zeros(n)[..n - 1] == Zeros(n - 1);
    }
  }

  lemma {:induction false} Trimmed(s: string)
    requires AllDigits(s)
    ensures |TrimZeros(s)| <= |s| && s == TrimZeros(s) + Zeros(|s| - |TrimZeros(s)|) && AllDigits(TrimZeros(s))
  {
    if s != [] && s[|s| - 1] == '0' {
      Trimmed(s[..|s| - 1]);
    }
  }

  lemma {:induction false} DecimalLength(n: nat, k: nat)
    requires 0 < k && n < Pow10(k)
    ensures |Decimal(n)| <= k
  {
    if n >= 10 {
      DecimalLength(n / 10, k - 1);
    }
  }

  lemma PaddedNumber(n: nat)
    requires n < SECOND
    ensures |Padded(n)| == 9 && AllDigits(Padded(n)) && Number(Padded(n)) == n
  {
    DecimalNumber(n);
    assert Pow10(9) == SECOND;
    DecimalLength(n, 9);
    var s := Decimal(n);
    if |s| < 9 {
      NumberConcat(Zeros(9 - |s|), s);
      ZerosNumber(9 - |s|);
    }
  }

  // ---------------------------------------------------------------- the round trip

  lemma BareValue(n: nat, unit: string)
    requires Scale(unit).Some?
    ensures var c := Component(Decimal(n), [], unit); Plain(c) && Nanos(c, Scale(unit).value) == n * Scale(unit).value
  {
    DecimalNumber(n);
    NoFraction(Scale(unit).value);
  }

  lemma SecondsValue(rest: nat)
    ensures var c := SecondsPart(rest); Plain(c) && c.unit == "s" && Nanos(c, SECOND) == rest
  {
    var (secs, frac) := (rest / SECOND, rest % SECOND);
    DecimalNumber(secs);
    if frac == 0 {
      NoFraction(SECOND);
    } else {
      FractionPrinted(frac);
    }
  }

  lemma {:induction false} SumConcat(a: seq<Component>, b: seq<Component>)
    requires AllPlain(a) && AllPlain(b)
    ensures AllPlain(a + b) && AllKnown(a) && AllKnown(b) && AllKnown(a + b) && Sum(a + b) == Sum(a) + Sum(b)
  {
    hide Nanos, Scale;
    if a == [] {
      assert a + b == b;
      PlainKnown(b);
    } else {
      SumConcat(a[1..], b);
      assert (a + b)[1..] == a[1..] + b;
    }
  }

  lemma {:induction false} PlainKnown(a: seq<Component>)
    requires AllPlain(a)
    ensures AllKnown(a)
  {
    if a != [] { PlainKnown(a[1..]); }
  }

  lemma SumOne(c: Component)
    requires Plain(c)
    ensures AllPlain([c]) && AllKnown([c]) && Sum([c]) == Nanos(c, Scale(c.unit).value)
  {
    hide Nanos, Scale;
    assert [c][1..] == [];
  }

  lemma BareSum(n: nat, unit: string)
    requires Scale(unit).Some?
    ensures AllPlain(Bare(n, unit)) && AllKnown(Bare(n, unit)) && Sum(Bare(n, unit)) == n * Scale(unit).value
  {
    hide Nanos, Scale;
    if n > 0 {
      BareValue(n, unit);
      SumOne(Component(Decimal(n), [], unit));
    }
  }

  lemma SmallValue(n: nat)
    requires n < SECOND
    ensures var c := SmallPart(n); Plain(c) && c.frac == [] && Nanos(c, Scale(c.unit).value) == n
  {
    if n == 0 {
      assert Decimal(0) == "0";
      BareValue(0, "s");
    } else if n % 1_000_000 == 0 {
      BareValue(n / 1_000_000, "ms");
    } else if n % 1000 == 0 {
      BareValue(n / 1000, "us");
    } else {
      BareValue(n, "ns");
    }
  }

  lemma NotEmpty(cs: seq<Component>)
    requires AllKnown(cs) && Sum(cs) > 0
    ensures cs != []
  {
  }

  /** The components of `n` nanoseconds add up to `n`. */
  lemma PartsSum(n: nat)
    ensures AllPlain(Parts(n)) && AllKnown(Parts(n)) && Sum(Parts(n)) == n && Parts(n) != []
  {
    hide Nanos, SecondsPart, SmallPart, Bare, Sum;
    if n < SECOND {
      SmallValue(n);
      SumOne(SmallPart(n));
    } else {
      var h, m, rest := n / HOUR, n % HOUR / MINUTE, n % HOUR % MINUTE;
      BareSum(h, "h");
      BareSum(m, "m");
      SumConcat(Bare(h, "h"), Bare(m, "m"));
      if rest > 0 {
        SecondsValue(rest);
        SumOne(SecondsPart(rest));
        SumConcat(Bare(h, "h") + Bare(m, "m"), [SecondsPart(rest)]);
        assert Parts(n) == Bare(h, "h") + Bare(m, "m") + [SecondsPart(rest)];
      } else {
        assert Parts(n) == Bare(h, "h") + Bare(m, "m");
      }
      assert Sum(Parts(n)) == h * HOUR + m * MINUTE + rest == n;
      NotEmpty(Parts(n));
    }
  }

  lemma {:induction false} SmallConcat(a: seq<Component>, b: seq<Component>)
    requires AllKnown(a) && AllKnown(b) && AllKnown(a + b) && Small(a) && Small(b)
    ensures Small(a + b)
  {
    if a == [] {
      assert a + b == b;
    } else {
      assert (a + b)[1..] == a[1..] + b;
      SmallConcat(a[1..], b);
    }
  }

  lemma BareSmall(n: nat, unit: string)
    requires Scale(unit).Some? && n <= U64_MAX
    ensures AllKnown(Bare(n, unit)) && Small(Bare(n, unit))
  {
    DecimalNumber(n);
    if n > 0 {
      SmallOne(Component(Decimal(n), [], unit));
    }
  }

  lemma SmallOne(c: Component)
    requires Known(c) && Number(c.whole) <= U64_MAX
    ensures AllKnown([c]) && Small([c])
  {
    assert [c][1..] == [];
  }

  /** No part of a duration up to 2^64 hours has an integer part above 2^64. */
  lemma PartsSmall(n: nat)
    requires n <= U64_MAX * HOUR
    ensures AllKnown(Parts(n)) && Small(Parts(n))
  {
    hide Bare, Small, Scale;
    PartsSum(n);
    if n < SECOND {
      SmallPartSmall(n);
      SmallOne(SmallPart(n));
    } else {
      var h, m, rest := n / HOUR, n % HOUR / MINUTE, n % HOUR % MINUTE;
      BareSmall(h, "h") by { assert Scale("h").Some? by { UnitsKnown(); } }
      BareSmall(m, "m") by { assert Scale("m").Some? by { UnitsKnown(); } }
      BareKnown(h, m);
      SmallConcat(Bare(h, "h"), Bare(m, "m"));
      if rest > 0 {
        SecondsSmall(rest);
        SmallOne(SecondsPart(rest));
        SmallConcat(Bare(h, "h") + Bare(m, "m"), [SecondsPart(rest)]);
      } else {
        assert Parts(n) == Bare(h, "h") + Bare(m, "m");
      }
    }
  }

  lemma UnitsKnown()
    ensures Scale("h").Some? && Scale("m").Some?
  {
  }

  lemma BareKnown(h: nat, m: nat)
    ensures AllKnown(Bare(h, "h") + Bare(m, "m"))
  {
    BareSum(h, "h");
    BareSum(m, "m");
    SumConcat(Bare(h, "h"), Bare(m, "m"));
  }

  lemma SmallPartSmall(n: nat)
    requires n < SECOND
    ensures Known(SmallPart(n)) && Number(SmallPart(n).whole) <= U64_MAX
  {
    DecimalNumber(n / 1_000_000);
    DecimalNumber(n / 1000);
    DecimalNumber(n);
    assert Decimal(0) == "0";
    DecimalNumber(0);
  }

  lemma SecondsSmall(rest: nat)
    requires rest < MINUTE
    ensures Known(SecondsPart(rest)) && Number(SecondsPart(rest).whole) <= U64_MAX
  {
    SecondsValue(rest);
    DecimalNumber(rest / SECOND);
  }

  /**
   Reading back a printed duration gives the same duration when it is at most `u64::MAX` nanoseconds; a longer one is
   refused as too large. (A `Duration` is less than 2^64 seconds, so the bound admits every one.)
   */
  lemma FormatReadsBack(n: nat)
    requires n <= U64_MAX * HOUR
    ensures GoDuration(ShownAll(Parts(n))) == if n <= U64_MAX then Success((false, n)) else Failure(Overflow)
  {
    hide Parts, Sum, ExactSum, Lost, Small, SomeWraps;
    var s := ShownAll(Parts(n));
    PartsSum(n);
    PartsSmall(n);
    SmallNeverWraps(Parts(n));
    ComponentsShown(Parts(n));
    assert Unsigned(s) == s;
    DurationIsSum(s);
  }

  // ---------------------------------------------------------------- two inputs

  /** What one printed component reads as. */
  lemma ReadOne(c: Component)
    requires Plain(c)
    ensures GoDuration(Shown(c)) ==
            match ValueOf(c)
            case Failure(e) => Failure(e)
            case Success(v) => if v <= U64_MAX then Success((false, v)) else Failure(Overflow)
    ensures Intended(Shown(c), 0) ==
            match Unwrapped(c)
            case Failure(e) => Failure(e)
            case Success(v) => if v <= U64_MAX then Success(v) else Failure(Overflow)
  {
    hide Split, ValueOf, Unwrapped, Shown, Scale;
    var s := Shown(c);
    assert s + [] == s;
    SplitShown(c, []);
    ShownOne(c);
    ComponentsShown([c]);
    assert Unsigned(s) == s;
    if ValueOf(c).Success? {
      TotalStep(s, 0, ValueOf(c).value);
    }
  }

  /**
   The 18-digit cut can change minutes and hours: "0.00000000000027777778h" is a nanosecond and a little more, and reads as 0.
   So a component of hours may be one nanosecond less than its exact floor.
   */
  lemma CutLosesANanosecond()
    ensures
      var c := Component("0", Zeros(12) + Decimal(27777778), "h");
      Plain(c) && Exact(c, HOUR) == 1 && GoDuration(Shown(c)) == Success((false, 0))
  {
    hide Decimal, Fraction, Cut, GoDuration, Shown, Zeros;
    var c := Component("0", Zeros(12) + Decimal(27777778), "h");
    HourDigits();
    assert AllDigits(c.whole) && Number("0"[..0]) == 0 && Number(c.whole) == 0;
    ReadOne(c);
  }

  lemma HourDigits()
    ensures
      var frac := Zeros(12) + Decimal(27777778);
      AllDigits(frac) && AllDigits(Cut(frac)) && Fraction(frac, HOUR) == 1 && Fraction(Cut(frac), HOUR) == 0
  {
    var short, long := Decimal(277777), Decimal(27777778);
    assert long == Decimal(2777777) + "8" && Decimal(2777777) == short + "7";
    assert |short| == 6;
    DecimalNumber(27777778);
    DecimalNumber(277777);
    ZerosNumber(12);
    NumberConcat(Zeros(12), long);
    NumberConcat(Zeros(12), short);
    assert Cut(Zeros(12) + long) == Zeros(12) + short;
    Pow10Sum(9, 9);
    Pow10Sum(18, 2);
    assert Pow10(9) == SECOND && Pow10(2) == 100;
    assert 27777778 * HOUR / 100_000_000_000_000_000_000 == 1;
    assert 277777 * HOUR / 1_000_000_000_000_000_000 == 0;
  }

  lemma EightTenths()
    ensures AllDigits("8") && Fraction(Cut("8"), SECOND) == 800_000_000
  {
    assert Number("8"[..0]) == 0 && Number("8") == 8 && Pow10(1) == 10;
  }

  /** The unchecked addition: "340282366920938463463374607431.8s" is far too large, and reads as 31.8 milliseconds. */
  lemma AdditionWraps()
    ensures
      var c := Component(Decimal(340282366920938463463374607431), "8", "s");
      Plain(c) && Intended(Shown(c), 0) == Failure(Overflow) && GoDuration(Shown(c)) == Success((false, 31_788_544))
  {
    hide Decimal, Fraction, GoDuration, Shown, Intended;
    var n := 340282366920938463463374607431;
    var c := Component(Decimal(n), "8", "s");
    DecimalNumber(n);
    EightTenths();
    ReadOne(c);
    assert n * SECOND + 800_000_000 == U128 + 31_788_544;
  }

  // ---------------------------------------------------------------- keep_alive values

  /** `For` holds whole nanoseconds. */
  datatype Duration = For(nanos: nat) | Forever

  datatype ParseError = InvalidText(input: string) | TooLarge(input: string) | NotFinite

  function WhiteSpace(c: char): bool {
    '\t' <= c <= '\r' || c in " \U{85}\U{a0}\U{1680}\U{2028}\U{2029}\U{202f}\U{205f}\U{3000}" || '\U{2000}' <= c <= '\U{200a}'
  }

  function TrimStart(s: string): string {
    if s != [] && WhiteSpace(s[0]) then TrimStart(s[1..]) else s
  }

  function TrimEnd(s: string): string {
    if s != [] && WhiteSpace(s[|s| - 1]) then TrimEnd(s[..|s| - 1]) else s
  }

  function Trim(s: string): string { TrimEnd(TrimStart(s)) }

  /** `[+-]?digits[.digits]` or `[+-]?.digits`, with at least one digit. */
  ghost predicate IsNumber(s: string) {
    exists a, b :: Decimals(Unsigned(s), a, b)
  }

  predicate Decimals(body: string, a: string, b: string) {
    AllDigits(a) && AllDigits(b) && |a| + |b| > 0 && (body == a + "." + b || (body == a && b == []))
  }

  /** Digits and points only, at least one digit, at most one point. */
  ghost predicate NumberBody(body: string) {
    (forall k :: 0 <= k < |body| ==> IsDigit(body[k]) || body[k] == '.') &&
    (exists k :: 0 <= k < |body| && IsDigit(body[k])) &&
    forall j, k :: 0 <= j < k < |body| ==> body[j] != '.' || body[k] != '.'
  }

  lemma NumberBodyIs(s: string)
    ensures IsNumber(s) <==> NumberBody(Unsigned(s))
  {
    var body := Unsigned(s);
    if IsNumber(s) {
      var a, b :| Decimals(body, a, b);
      DecimalsBody(body, a, b);
    }
    if NumberBody(body) {
      BodyDecimals(body);
    }
  }

  lemma DecimalsBody(body: string, a: string, b: string)
    requires Decimals(body, a, b)
    ensures NumberBody(body)
  {
    if body == a + "." + b {
      assert forall k :: 0 <= k < |body| ==> body[k] == if k < |a| then a[k] else if k == |a| then '.' else b[k - |a| - 1];
      if a != [] { assert IsDigit(body[0]); } else { assert IsDigit(body[1]); }
    } else {
      assert IsDigit(body[0]);
    }
  }

  lemma BodyDecimals(body: string)
    requires NumberBody(body)
    ensures exists a, b :: Decimals(body, a, b)
  {
    if k :| 0 <= k < |body| && body[k] == '.' {
      assert body == body[..k] + "." + body[k + 1..];
      assert Decimals(body, body[..k], body[k + 1..]);
    } else {
      assert Decimals(body, body, []);
    }
  }

  method ReadsAsNumber(s: string) returns (r: bool)
    ensures r <==> IsNumber(s)
  {
    NumberBodyIs(s);
    hide IsNumber;
    var body := Unsigned(s);
    var digits, dots: nat := 0, 0;
    ghost var p, q, d := 0, 0, 0;
    for i := 0 to |body|
      invariant forall k :: 0 <= k < i ==> IsDigit(body[k]) || body[k] == '.'
      invariant if digits == 0 then forall k :: 0 <= k < i ==> !IsDigit(body[k]) else 0 <= d < i && IsDigit(body[d])
      invariant dots == 0 ==> forall k :: 0 <= k < i ==> body[k] != '.'
      invariant dots == 1 ==> 0 <= p < i && body[p] == '.' && forall k :: 0 <= k < i && k != p ==> body[k] != '.'
      invariant dots > 1 ==> 0 <= q < p < i && body[q] == '.' && body[p] == '.'
    {
      if IsDigit(body[i]) {
        digits, d := digits + 1, i;
      } else if body[i] == '.' {
        dots, q, p := dots + 1, p, i;
      } else {
        return false;
      }
    }
    return digits > 0 && dots <= 1;
  }

  /** `KeepAlive::parse`; `seconds` reads a number of seconds as a 64-bit float. */
  function Parse(seconds: string -> Result<Duration, ParseError>, isNumber: bool, input: string): Result<Duration, ParseError> {
    if isNumber then
      match seconds(Trim(input))
      case Failure(TooLarge(_)) => Failure(TooLarge(input))
      case other => other
    else
      match GoDuration(Trim(input))
      case Failure(Invalid) => Failure(InvalidText(input))
      case Failure(Overflow) => Failure(TooLarge(input))
      case Success((negative, nanos)) => Success(if negative && nanos > 0 then Forever else For(nanos))
  }

  method ParseKeepAlive(seconds: string -> Result<Duration, ParseError>, input: string) returns (r: Result<Duration, ParseError>)
    ensures r == Parse(seconds, IsNumber(Trim(input)), input)
  {
    var s := Trim(input);
    var number := ReadsAsNumber(s);
    if number {
      r := seconds(s);
      if r.Failure? && r.error.TooLarge? { r := Failure(TooLarge(input)); }
      return;
    }
    var read := ParseGoDuration(s);
    if read.Failure? {
      return Failure(if read.error.Invalid? then InvalidText(input) else TooLarge(input));
    }
    var (negative, nanos) := read.value;
    return Success(if negative && nanos > 0 then Forever else For(nanos));
  }

  function Display(k: Duration): string {
    match k
    case Forever => "-1"
    case For(n) => ShownAll(Parts(n))
  }

  /**
   `parse` undoes `Display` on `Forever` and on every duration up to `u64::MAX` nanoseconds, and on no longer one: those are
   too large.
   */
  lemma DisplayReadsBack(seconds: string -> Result<Duration, ParseError>, k: Duration)
    requires k.For? ==> k.nanos <= U64_MAX * HOUR
    requires seconds("-1") == Success(Forever)
    ensures
      var s := Display(k);
      Parse(seconds, IsNumber(Trim(s)), s) == if k.For? && k.nanos > U64_MAX then Failure(TooLarge(s)) else Success(k)
  {
    match k {
      case Forever =>
        assert Trim("-1") == "-1";
        assert Decimals("1", "1", []);
        assert Unsigned("-1") == "1";
      case For(n) =>
        hide IsNumber, Trim, GoDuration, Parts, ShownAll;
        DisplayIsPlain(n);
        FormatReadsBack(n);
    }
  }

  /** A printed duration starts with a digit and ends with a letter. */
  lemma DisplayIsPlain(n: nat)
    ensures var s := ShownAll(Parts(n)); Trim(s) == s && !IsNumber(s)
  {
    hide *;
    var s := ShownAll(Parts(n));
    PartsSum(n);
    ComponentsShown(Parts(n));
    LastUnit(Parts(n));
    PlainText(s);
  }

  lemma PlainText(s: string)
    requires s != [] && IsDigit(s[0]) && s[|s| - 1] in "smh"
    ensures Trim(s) == s && !IsNumber(s)
  {
    NumberBodyIs(s);
    hide IsNumber;
    assert Unsigned(s) == s && !NumberBody(s);
    assert !WhiteSpace(s[0]) && !WhiteSpace(s[|s| - 1]);
  }

  lemma {:induction false} LastUnit(cs: seq<Component>)
    requires AllPlain(cs) && cs != []
    ensures var s := ShownAll(cs); s != [] && s[|s| - 1] in "smh"
  {
    if |cs| > 1 {
      LastUnit(cs[1..]);
    } else {
      ShownOne(cs[0]);
      assert cs == [cs[0]];
      assert cs[0].unit[|cs[0].unit| - 1] in "smh";
    }
  }
}
