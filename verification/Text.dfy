/** Strings as the Rust code handles them: decimal numbers and code-point order. */
module Text {

  function DigitChar(d: nat): char
    requires d < 10
  {
    '0' + d as char
  }

  /** `n.to_string()`. */
  function Decimal(n: nat): (s: string)
    ensures s != []
  {
    if n < 10 then [DigitChar(n)] else Decimal(n / 10) + [DigitChar(n % 10)]
  }

  predicate IsDigit(c: char) { '0' <= c <= '9' }

  function DigitValue(c: char): nat
    requires IsDigit(c)
  {
    c as nat - '0' as nat
  }

  predicate AllDigits(s: string) {
    forall i :: 0 <= i < |s| ==> IsDigit(s[i])
  }

  /** The number a run of decimal digits denotes. */
  function Number(s: string): nat
    requires AllDigits(s)
  {
    if s == [] then 0 else 10 * Number(s[..|s| - 1]) + DigitValue(s[|s| - 1])
  }

  lemma {:induction false} DecimalNumber(n: nat)
    ensures AllDigits(Decimal(n)) && Number(Decimal(n)) == n && (n > 0 ==> Decimal(n)[0] != '0')
  {
    if n >= 10 {
      DecimalNumber(n / 10);
      var s := Decimal(n);
      assert s[..|s| - 1] == Decimal(n / 10);
    } else {
      assert Number([DigitChar(n)][..0]) == 0;
    }
  }

  /** `a <= b` by code points. */
  predicate Lexicographic(a: string, b: string) {
    a == [] || (b != [] && (a[0] < b[0] || (a[0] == b[0] && Lexicographic(a[1..], b[1..]))))
  }

  /** The first place where the two differ. */
  predicate Differ(a: string, b: string, i: nat) {
    i < |a| && i < |b| && a[..i] == b[..i] && a[i] != b[i]
  }

  /** A text comes before its extensions, and else by the first character that differs. */
  lemma {:induction false} LexicographicIs(a: string, b: string)
    ensures Lexicographic(a, b) <==> a <= b || exists i: nat :: Differ(a, b, i) && a[i] < b[i]
  {
    if a != [] && b != [] && a[0] == b[0] {
      LexicographicIs(a[1..], b[1..]);
      DifferOneOn(a, b);
      if i: nat :| Differ(a[1..], b[1..], i) && a[1..][i] < b[1..][i] {
        assert Differ(a, b, i + 1) && a[i + 1] < b[i + 1];
      }
      if i: nat :| Differ(a, b, i) && a[i] < b[i] {
        assert Differ(a[1..], b[1..], i - 1) && a[1..][i - 1] < b[1..][i - 1];
      }
      assert a <= b <==> a[1..] <= b[1..] by { assert a == [a[0]] + a[1..] && b == [b[0]] + b[1..]; }
    } else if a != [] && b != [] {
      assert Differ(a, b, 0);
    }
  }

  lemma DifferOneOn(a: string, b: string)
    requires a != [] && b != [] && a[0] == b[0]
    ensures forall i: nat :: Differ(a, b, i + 1) <==> Differ(a[1..], b[1..], i)
    ensures !Differ(a, b, 0)
  {
    forall i: nat ensures Differ(a, b, i + 1) <==> Differ(a[1..], b[1..], i) {
      if i < |a| - 1 && i < |b| - 1 {
        assert a[..i + 1] == [a[0]] + a[1..][..i] && b[..i + 1] == [b[0]] + b[1..][..i];
      }
    }
  }

  lemma {:induction false} LexicographicTotal(a: string, b: string)
    ensures Lexicographic(a, b) || Lexicographic(b, a)
    ensures Lexicographic(a, b) && Lexicographic(b, a) ==> a == b
  {
    if a != [] && b != [] {
      LexicographicTotal(a[1..], b[1..]);
      assert a == [a[0]] + a[1..] && b == [b[0]] + b[1..];
    }
  }

  lemma {:induction false} LexicographicTransitive(a: string, b: string, c: string)
    requires Lexicographic(a, b) && Lexicographic(b, c)
    ensures Lexicographic(a, c)
  {
    if a != [] && a[0] == b[0] == c[0] {
      LexicographicTransitive(a[1..], b[1..], c[1..]);
    }
  }
}
