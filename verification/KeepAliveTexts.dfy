/** What `KeepAlive::parse` answers and what a duration prints as, said of the text itself (crates/ollaya-api/src/keep_alive.rs). */
module KeepAliveTexts {
  import opened Wrappers
  import opened Text
  import opened Arithmetic
  import opened Collections
  import opened Durations
  import opened DurationProofs
  import opened KeepAlive

  // ---------------------------------------------------------------- the components of a text

  /** A component as it is written, with its point or without. */
  datatype Written = Written(whole: string, dot: bool, frac: string, unit: string) {
    function Text(): string { whole + (if dot then "." else "") + frac + unit }

    function Part(): Component { Component(whole, frac, unit) }
  }

  predicate Digits(s: string) {
    forall k :: 0 <= k < |s| ==> '0' <= s[k] <= '9'
  }

  /** A unit's nanoseconds; 0: not a unit. */
  function UnitNanos(unit: string): nat {
    if unit == "ns" then 1
    else if unit == "us" || unit == "\U{b5}s" || unit == "\U{3bc}s" then 1000
    else if unit == "ms" then 1_000_000
    else if unit == "s" then 1_000_000_000
    else if unit == "m" then 60_000_000_000
    else if unit == "h" then 3600_000_000_000
    else 0
  }

  /** At least one digit before or after the point, digits after it only when there is one, and a unit. */
  predicate Good(w: Written) {
    Digits(w.whole) && Digits(w.frac) && |w.whole| + |w.frac| > 0 && (w.dot || w.frac == []) && UnitNanos(w.unit) > 0
  }

  predicate AllGood(ws: seq<Written>) {
    forall i :: 0 <= i < |ws| ==> Good(ws[i])
  }

  /** What can follow a component: nothing, a digit or a point. */
  predicate Follows(tail: string) {
    tail == [] || '0' <= tail[0] <= '9' || tail[0] == '.'
  }

  function TextOf(ws: seq<Written>): string {
    if ws == [] then [] else ws[0].Text() + TextOf(ws[1..])
  }

  predicate StartsGood(s: string, w: Written, tail: string) {
    Good(w) && Follows(tail) && s == w.Text() + tail
  }

  /** No component starts the text. */
  ghost predicate NoGood(s: string) {
    forall w, tail :: !StartsGood(s, w, tail)
  }

  lemma UnitIs(unit: string)
    ensures Scale(unit) == if UnitNanos(unit) > 0 then Some(UnitNanos(unit)) else None
    ensures UnitNanos(unit) > 0 ==> unit != [] && forall i :: 0 <= i < |unit| ==> UnitChar(unit[i])
  {
    if UnitNanos(unit) > 0 {
      UnitChars(unit);
    }
  }

  /** Where the parts of a component lie in a text that starts with it. */
  lemma WrittenAt(w: Written, tail: string)
    ensures
      var (s, a) := (w.Text() + tail, |w.whole|);
      var from := if w.dot then a + 1 else a;
      var b := if w.dot || w.frac == [] then from + |w.frac| else a;
      (w.dot || w.frac == [] ==>
         b + |w.unit| <= |s| && s[..a] == w.whole && s[from..b] == w.frac && s[b..b + |w.unit|] == w.unit &&
         s[b + |w.unit|..] == tail) &&
      (w.dot ==> a < |s| && s[a] == '.')
  {
    if w.dot {
      Cut4(w.whole, ".", w.frac, w.unit, tail);
    } else if w.frac == [] {
      Cut4(w.whole, "", "", w.unit, tail);
    }
  }

  lemma Cut4(a: string, b: string, c: string, d: string, e: string)
    ensures
      var (s, i) := (a + b + c + d + e, |a| + |b|);
      |s| == i + |c| + |d| + |e| && s[..|a|] == a && s[|a|..i] == b && s[i..i + |c|] == c &&
      s[i + |c|..i + |c| + |d|] == d && s[i + |c| + |d|..] == e
  {
  }

  /** The parser takes off the component the text starts with. */
  lemma SplitIs(s: string, w: Written, tail: string)
    requires StartsGood(s, w, tail)
    ensures Split(s) == (w.Part(), tail)
  {
    hide Split;
    WrittenAt(w, tail);
    CharsAt(s, w, tail);
    var a := |w.whole|;
    var from := if w.dot then a + 1 else a;
    var b := from + |w.frac|;
    EndsAt(s, a, from, b, b + |w.unit|, w.dot);
  }

  lemma CharsAt(s: string, w: Written, tail: string)
    requires StartsGood(s, w, tail)
    ensures
      var a := |w.whole|;
      var from := if w.dot then a + 1 else a;
      var b := from + |w.frac|;
      var u := b + |w.unit|;
      from <= |s| && b < u <= |s| && (w.dot ==> a < |s| && s[a] == '.') && (!w.dot ==> b == a) &&
      (forall k :: 0 <= k < a ==> IsDigit(s[k])) && (forall k :: from <= k < b ==> IsDigit(s[k])) &&
      (forall k :: b <= k < u ==> UnitChar(s[k])) && (u < |s| ==> !UnitChar(s[u]))
  {
    UnitIs(w.unit);
    WrittenAt(w, tail);
    var a := |w.whole|;
    var from := if w.dot then a + 1 else a;
    var b := from + |w.frac|;
    var u := b + |w.unit|;
    hide UnitNanos, Digits, UnitChar;
    DigitsIn(s, 0, a, w.whole);
    DigitsIn(s, from, b, w.frac);
    UnitIn(s, b, u, w.unit);
    UnitEnds(s, u, tail);
  }

  lemma DigitsIn(s: string, i: nat, j: nat, part: string)
    requires i <= j <= |s| && s[i..j] == part && Digits(part)
    ensures forall k :: i <= k < j ==> IsDigit(s[k])
  {
    assert forall k :: i <= k < j ==> s[k] == s[i..j][k - i];
  }

  lemma UnitIn(s: string, i: nat, j: nat, part: string)
    requires i <= j <= |s| && s[i..j] == part && forall k :: 0 <= k < |part| ==> UnitChar(part[k])
    ensures forall k :: i <= k < j ==> UnitChar(s[k])
  {
    assert forall k :: i <= k < j ==> s[k] == s[i..j][k - i];
  }

  lemma UnitEnds(s: string, u: nat, tail: string)
    requires u <= |s| && s[u..] == tail && Follows(tail)
    ensures u < |s| ==> !UnitChar(s[u])
  {
    assert u < |s| ==> s[u] == tail[0];
  }

  lemma EndsAt(s: string, a: nat, from: nat, b: nat, u: nat, dot: bool)
    requires a <= from <= b < u <= |s| && from == (if dot then a + 1 else a) && (dot ==> s[a] == '.') && (!dot ==> b == a)
    requires (forall k :: 0 <= k < a ==> IsDigit(s[k])) && (forall k :: from <= k < b ==> IsDigit(s[k]))
    requires (forall k :: b <= k < u ==> UnitChar(s[k])) && (u < |s| ==> !UnitChar(s[u]))
    ensures Split(s) == (Component(s[..a], s[from..b], s[b..u]), s[u..])
  {
    hide DigitsEnd, UnitEnd;
    assert UnitChar(s[b]);
    assert DigitsEnd(s, 0) == a;
    assert DigitsEnd(s, from) == b;
    assert UnitEnd(s, b) == u;
  }

  /** What the parser takes off, as it is written. */
  lemma SplitText(s: string) returns (w: Written)
    ensures s == w.Text() + Split(s).1 && w.Part() == Split(s).0 && (w.dot || w.frac == []) && Follows(Split(s).1)
  {
    var a := DigitsEnd(s, 0);
    var dot := a < |s| && s[a] == '.';
    var from := if dot then a + 1 else a;
    var b := if dot then DigitsEnd(s, from) else a;
    var u := UnitEnd(s, b);
    hide DigitsEnd, UnitEnd;
    w := Written(s[..a], dot, s[from..b], s[b..u]);
    Cuts(s, a, from, b, u);
    assert s[a..from] == if dot then "." else "";
  }

  lemma Cuts(s: string, a: nat, from: nat, b: nat, u: nat)
    requires a <= from <= b <= u <= |s|
    ensures s == s[..a] + s[a..from] + s[from..b] + s[b..u] + s[u..]
  {
  }

  function Parts(ws: seq<Written>): (r: seq<Component>)
    ensures |r| == |ws|
  {
    seq(|ws|, i requires 0 <= i < |ws| => ws[i].Part())
  }

  /** Every text is components and a rest that no component starts; the parser finds them. */
  lemma {:induction false} ComponentsAre(s: string) returns (ws: seq<Written>, rest: string)
    ensures s == TextOf(ws) + rest && AllGood(ws) && (rest == [] || NoGood(rest))
    ensures Components(s) == (Parts(ws), rest == [])
    decreases |s|
  {
    hide Scale, UnitNanos, Split;
    if s == [] {
      ws, rest := [], [];
    } else {
      var w := SplitText(s);
      var (c, next) := Split(s);
      UnitIs(c.unit);
      if Good(w) {
        ws, rest := ComponentsAre(next);
        assert TextOf([w] + ws) == w.Text() + TextOf(ws) by { assert ([w] + ws)[1..] == ws; }
        Associative(w.Text(), TextOf(ws), rest);
        assert Parts([w] + ws) == [c] + Parts(ws);
        ws := [w] + ws;
      } else {
        ws, rest := [], s;
        forall v, tail ensures !StartsGood(s, v, tail) {
          if StartsGood(s, v, tail) {
            SplitIs(s, v, tail);
          }
        }
      }
    }
  }

  // ---------------------------------------------------------------- the sum

  /** The digits after the point that are read. */
  function Kept(frac: string): string {
    if |frac| <= 18 then frac else frac[..18]
  }

  /** A component's nanoseconds, rounded down. */
  function Worth(w: Written): nat
    requires Good(w)
  {
    Number(w.whole) * UnitNanos(w.unit) + Share(Number(Kept(w.frac)), Pow10(|Kept(w.frac)|), UnitNanos(w.unit))
  }

  /** `digits` of `parts` equal parts of `units`, rounded down. */
  function Share(digits: nat, parts: nat, units: nat): nat
    requires 0 < parts
  {
    NonNegative(digits, units);
    DivNonNegative(digits * units, parts);
    digits * units / parts
  }

  /** The components added up, each modulo 2^128. */
  function SumOf(ws: seq<Written>): nat
    requires AllGood(ws)
  {
    if ws == [] then 0 else Worth(ws[0]) % 0x1_0000_0000_0000_0000_0000_0000_0000_0000 + SumOf(ws[1..])
  }

  /** Whole units that exceed 128 bits, or a sum that exceeds 64. */
  predicate TooMuch(ws: seq<Written>)
    requires AllGood(ws)
  {
    SumOf(ws) > 0xffff_ffff_ffff_ffff || exists i :: 0 <= i < |ws| && Huge(ws[i])
  }

  predicate Huge(w: Written)
    requires Good(w)
  {
    Number(w.whole) * UnitNanos(w.unit) >= 0x1_0000_0000_0000_0000_0000_0000_0000_0000
  }

  lemma WorthIs(w: Written)
    requires Good(w)
    ensures Known(w.Part()) && Units(w.Part()) == UnitNanos(w.unit) && Worth(w) == Nanos(w.Part(), Units(w.Part()))
    ensures Readable(w.Part()) <==> !Huge(w)
  {
    UnitIs(w.unit);
    MulMono(1, UnitNanos(w.unit), Number(w.whole));
  }

  lemma {:induction false} SumIs(ws: seq<Written>)
    requires AllGood(ws)
    ensures AllKnown(Parts(ws)) && WrappedSum(Parts(ws)) == SumOf(ws)
    ensures AllReadable(Parts(ws)) <==> forall i :: 0 <= i < |ws| ==> !Huge(ws[i])
  {
    hide Worth, Nanos, Units, Readable, Number, UnitNanos, Huge;
    if ws != [] {
      WorthIs(ws[0]);
      SumIs(ws[1..]);
      assert Parts(ws)[1..] == Parts(ws[1..]);
      assert forall i :: 0 < i < |ws| ==> ws[i] == ws[1..][i - 1];
    }
  }

  // ---------------------------------------------------------------- numbers and white space

  /** The characters that are white space, by code point. */
  predicate White(c: char) {
    var n := c as int;
    9 <= n <= 13 || n == 0x20 || n == 0x85 || n == 0xa0 || n == 0x1680 || 0x2000 <= n <= 0x200a || n == 0x2028 || n == 0x2029 ||
    n == 0x202f || n == 0x205f || n == 0x3000
  }

  predicate AllWhite(s: string) {
    forall k :: 0 <= k < |s| ==> White(s[k])
  }

  /** `s` is the input without the white space around it. */
  predicate Stripped(input: string, s: string, a: string, b: string) {
    input == a + s + b && AllWhite(a) && AllWhite(b) && (s != [] ==> !White(s[0]) && !White(s[|s| - 1]))
  }

  lemma WhiteIs(c: char)
    ensures WhiteSpace(c) <==> White(c)
  {
  }

  lemma {:induction false} TrimStartIs(s: string) returns (a: string)
    ensures s == a + TrimStart(s) && AllWhite(a) && (TrimStart(s) != [] ==> !White(TrimStart(s)[0]))
  {
    hide White, WhiteSpace;
    a := [];
    if s != [] {
      WhiteIs(s[0]);
      if WhiteSpace(s[0]) {
        a := TrimStartIs(s[1..]);
        a := [s[0]] + a;
      }
    }
  }

  lemma {:induction false} TrimEndIs(s: string) returns (b: string)
    ensures s == TrimEnd(s) + b && AllWhite(b) && (TrimEnd(s) != [] ==> TrimEnd(s)[0] == s[0] && !White(TrimEnd(s)[|TrimEnd(s)| - 1]))
  {
    hide White, WhiteSpace;
    b := [];
    if s != [] {
      WhiteIs(s[|s| - 1]);
      if WhiteSpace(s[|s| - 1]) {
        b := TrimEndIs(s[..|s| - 1]);
        b := b + [s[|s| - 1]];
      }
    }
  }

  lemma TrimIs(input: string) returns (a: string, b: string)
    ensures Stripped(input, Trim(input), a, b)
  {
    a := TrimStartIs(input);
    b := TrimEndIs(TrimStart(input));
    hide White, WhiteSpace, TrimStart, TrimEnd;
    assert input == a + TrimEnd(TrimStart(input)) + b;
  }

  /** A number of seconds: an optional sign and digits, with at most one point and at least one digit. */
  predicate NumberText(s: string, sign: string, a: string, b: string) {
    (sign == "" || sign == "+" || sign == "-") && Digits(a) && Digits(b) && |a| + |b| > 0 &&
    (s == sign + a + "." + b || (b == [] && s == sign + a))
  }

  lemma NumberIs(s: string)
    ensures IsNumber(s) <==> exists sign, a, b :: NumberText(s, sign, a, b)
  {
    hide Decimals, NumberText, Unsigned;
    if IsNumber(s) {
      var a, b :| Decimals(Unsigned(s), a, b);
      var sign := SignedNumber(s, a, b);
    }
    if sign, a, b :| NumberText(s, sign, a, b) {
      UnsignedNumber(s, sign, a, b);
      assert Decimals(Unsigned(s), a, b);
    }
  }

  lemma SignedNumber(s: string, a: string, b: string) returns (sign: string)
    requires Decimals(Unsigned(s), a, b)
    ensures NumberText(s, sign, a, b)
  {
    sign := if s != [] && (s[0] == '-' || s[0] == '+') then s[..1] else "";
    assert s == sign + Unsigned(s);
    if Unsigned(s) == a + "." + b {
      assert s == sign + a + "." + b;
    }
  }

  lemma UnsignedNumber(s: string, sign: string, a: string, b: string)
    requires NumberText(s, sign, a, b)
    ensures Decimals(Unsigned(s), a, b)
  {
    if s == sign + a + "." + b {
      assert s == sign + (a + "." + b);
      assert (a + "." + b)[0] != '-' && (a + "." + b)[0] != '+';
    }
  }

  // ---------------------------------------------------------------- the answer

  /** The length of the sign. */
  function SignSize(s: string): (n: nat)
    ensures n <= |s|
  {
    if s != [] && (s[0] == '-' || s[0] == '+') then 1 else 0
  }

  /**
   What a stripped text means: a number of seconds, or after an optional sign components as long as any starts, `ws`, and a
   `rest`. With minus, a duration that is not zero keeps the model loaded.
   */
  ghost predicate Answers(seconds: string -> Result<Duration, ParseError>, input: string, s: string, ws: seq<Written>, rest: string,
                          r: Result<Duration, ParseError>) {
    AllGood(ws) && s[SignSize(s)..] == TextOf(ws) + rest && (rest == [] || NoGood(rest)) &&
    if exists sign, a, b :: NumberText(s, sign, a, b) then
      r == if seconds(s).Failure? && seconds(s).error.TooLarge? then Failure(TooLarge(input)) else seconds(s)
    else if |s| == SignSize(s) then r == Failure(InvalidText(input))
    else if TooMuch(ws) then r == Failure(TooLarge(input))
    else if rest != [] then r == Failure(InvalidText(input))
    else r == Success(if s[0] == '-' && SumOf(ws) > 0 then Forever else For(SumOf(ws)))
  }

  lemma GoDurationSays(s: string) returns (ws: seq<Written>, rest: string)
    ensures AllGood(ws) && s[SignSize(s)..] == TextOf(ws) + rest && (rest == [] || NoGood(rest))
    ensures GoDuration(s) ==
            if |s| == SignSize(s) then Failure(Invalid)
            else if TooMuch(ws) then Failure(Overflow)
            else if rest != [] then Failure(Invalid)
            else Success((s[0] == '-', SumOf(ws)))
  {
    var body := s[SignSize(s)..];
    ws, rest := ComponentsAre(body);
    TotalSays(body, ws, rest);
    hide TooMuch, SumOf, Total, TextOf, NoGood, Good;
    assert Unsigned(s) == body;
  }

  lemma TotalSays(body: string, ws: seq<Written>, rest: string)
    requires AllGood(ws) && Components(body) == (Parts(ws), rest == [])
    ensures Total(body, 0) == if TooMuch(ws) then Failure(Overflow) else if rest != [] then Failure(Invalid) else Success(SumOf(ws))
  {
    hide *;
    TooMuchIs(ws);
    TotalIs(body, 0);
    assert Total(body, 0) == Verdict(TooMuch(ws), rest == [], SumOf(ws));
    VerdictIs(TooMuch(ws), rest == [], SumOf(ws));
  }

  lemma VerdictIs(tooLarge: bool, complete: bool, sum: nat)
    ensures Verdict(tooLarge, complete, sum) ==
            if tooLarge then Failure(Overflow) else if !complete then Failure(Invalid) else Success(sum)
  {
  }

  lemma TooMuchIs(ws: seq<Written>)
    requires AllGood(ws)
    ensures AllKnown(Parts(ws)) && WrappedSum(Parts(ws)) == SumOf(ws)
    ensures TooMuch(ws) <==> !AllReadable(Parts(ws)) || WrappedSum(Parts(ws)) > U64_MAX
  {
    SumIs(ws);
    hide WrappedSum, SumOf, AllReadable, Huge, Good;
  }

  /** The answer on every input. */
  lemma ParseSays(seconds: string -> Result<Duration, ParseError>, input: string)
    returns (a: string, b: string, s: string, ws: seq<Written>, rest: string)
    ensures Stripped(input, s, a, b) && Answers(seconds, input, s, ws, rest, Parse(seconds, IsNumber(Trim(input)), input))
  {
    hide Trim, IsNumber, NumberText, GoDuration, TooMuch, TextOf, SumOf, AllGood, NoGood, Stripped, Parse;
    s := Trim(input);
    a, b := TrimIs(input);
    ws, rest := GoDurationSays(s);
    NumberIs(s);
    ParseIs(seconds, IsNumber(s), input);
  }

  lemma ParseIs(seconds: string -> Result<Duration, ParseError>, number: bool, input: string)
    ensures
      var (s, read) := (Trim(input), GoDuration(Trim(input)));
      Parse(seconds, number, input) ==
      if number then if seconds(s).Failure? && seconds(s).error.TooLarge? then Failure(TooLarge(input)) else seconds(s)
      else if read.Failure? then Failure(if read.error.Invalid? then InvalidText(input) else TooLarge(input))
      else Success(if read.value.0 && read.value.1 > 0 then Forever else For(read.value.1))
  {
    hide Trim, GoDuration;
  }

  // ---------------------------------------------------------------- printing

  /**
   `n` nanoseconds: hours, minutes and seconds that are not zero, with as many digits after the point as needed; less than a
   second in the largest unit that divides it.
   */
  ghost predicate Prints(n: nat, text: string) {
    if n == 0 then text == "0s"
    else if n < 1_000_000_000 then
      text == if n % 1_000_000 == 0 then Decimal(n / 1_000_000) + "ms"
              else if n % 1000 == 0 then Decimal(n / 1000) + "us"
              else Decimal(n) + "ns"
    else
      var (h, m, rest) := (n / 3600_000_000_000, n % 3600_000_000_000 / 60_000_000_000, n % 60_000_000_000);
      exists point ::
        Fractional(rest % 1_000_000_000, point) &&
        text == (if h > 0 then Decimal(h) + "h" else "") + (if m > 0 then Decimal(m) + "m" else "") +
                (if rest > 0 then Decimal(rest / 1_000_000_000) + point + "s" else "")
  }

  /** Nothing for 0, else a point and digits, the last not 0, that denote as many billionths. */
  predicate Fractional(billionths: nat, point: string) {
    if billionths == 0 then point == ""
    else
      2 <= |point| <= 10 && point[0] == '.' && Digits(point[1..]) && point[|point| - 1] != '0' &&
      Number(point[1..]) * 1_000_000_000 == billionths * Pow10(|point| - 1)
  }

  lemma FractionalIs(frac: nat)
    requires 0 < frac < SECOND
    ensures Fractional(frac, "." + TrimZeros(Padded(frac)))
  {
    PaddedNumber(frac);
    var s := Padded(frac);
    Trimmed(s);
    var t := TrimZeros(s);
    TrimmedLast(s);
    TrimmedNotEmpty(frac);
    assert ("." + t)[1..] == t;
    var z := 9 - |t|;
    NumberConcat(t, Zeros(z));
    ZerosNumber(z);
    Pow10Sum(z, |t|);
    assert Pow10(9) == SECOND;
    Associate(Number(t), Pow10(z), Pow10(|t|));
  }

  lemma {:induction false} TrimmedLast(s: string)
    ensures TrimZeros(s) != [] ==> TrimZeros(s)[|TrimZeros(s)| - 1] != '0'
  {
    if s != [] && s[|s| - 1] == '0' {
      TrimmedLast(s[..|s| - 1]);
    }
  }

  lemma SecondsText(rest: nat) returns (point: string)
    ensures Fractional(rest % 1_000_000_000, point)
    ensures Shown(SecondsPart(rest)) == Decimal(rest / 1_000_000_000) + point + "s"
  {
    var (secs, frac) := (rest / SECOND, rest % SECOND);
    if frac == 0 {
      point := "";
      ShownOne(SecondsPart(rest));
      assert Decimal(secs) + point == Decimal(secs);
    } else {
      FractionalIs(frac);
      TrimmedNotEmpty(frac);
      point := "." + TrimZeros(Padded(frac));
    }
  }

  /** What `Display` writes. */
  lemma FormatSays(n: nat)
    ensures Prints(n, ShownAll(KeepAlive.Parts(n)))
  {
    hide Shown, ShownAll, SecondsPart, Bare, Decimal;
    if n < SECOND {
      ShownOne(SmallPart(n));
    } else {
      var (h, m, rest) := (n / HOUR, n % HOUR / MINUTE, n % HOUR % MINUTE);
      assert rest == n % MINUTE;
      var point := SecondsText(rest);
      ShownBare(h, "h");
      ShownBare(m, "m");
      ShownConcat(Bare(h, "h"), Bare(m, "m"));
      ShownOne(SecondsPart(rest));
      ShownConcat(Bare(h, "h") + Bare(m, "m"), if rest > 0 then [SecondsPart(rest)] else []);
      NoneShown();
    }
  }

  lemma NoneShown()
    ensures ShownAll([]) == []
  {
  }
}
