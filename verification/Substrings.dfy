/** `str::replace(mask_text, " ")`: which mask texts it removes from every text. */
module Substrings {

  predicate Contains(s: string, pat: string) {
    pat <= s || (s != [] && Contains(s[1..], pat))
  }

  /** `s.replace(pat, " ")`: occurrences left to right, without overlaps; the empty pattern occurs around every character. */
  function Replace(s: string, pat: string): string
    decreases |s|
  {
    if pat == [] then " " + Spaced(s)
    else if s == [] then []
    else if pat <= s then " " + Replace(s[|pat|..], pat)
    else [s[0]] + Replace(s[1..], pat)
  }

  function Spaced(s: string): string {
    if s == [] then [] else [s[0]] + " " + Spaced(s[1..])
  }

  /** What the result starts with, short of a space, the text starts with. */
  lemma {:induction false} StartKept(s: string, pat: string, u: string)
    requires pat != [] && ' ' !in u && u <= Replace(s, pat)
    ensures u <= s
  {
    if u != [] {
      assert s != [] && u[0] == Replace(s, pat)[0];
      assert u[0] in u;
      assert Replace(s, pat)[1..] == Replace(s[1..], pat);
      StartKept(s[1..], pat, u[1..]);
      assert u == [u[0]] + u[1..] && s == [s[0]] + s[1..];
    }
  }

  lemma NotAtStart(s: string, pat: string)
    requires pat != [] && ' ' !in pat
    ensures !(pat <= Replace(s, pat))
  {
    assert pat[0] in pat;
    if pat <= s {
      assert Replace(s, pat)[0] == ' ';
    } else if pat <= Replace(s, pat) {
      StartKept(s, pat, pat);
      assert false;
    }
  }

  /** A pattern without spaces is gone. */
  lemma {:induction false} Removed(s: string, pat: string)
    requires pat != [] && ' ' !in pat
    ensures !Contains(Replace(s, pat), pat)
    decreases |s|
  {
    var r := Replace(s, pat);
    NotAtStart(s, pat);
    if s != [] {
      if pat <= s {
        assert r[1..] == Replace(s[|pat|..], pat);
        Removed(s[|pat|..], pat);
      } else {
        assert r[1..] == Replace(s[1..], pat);
        Removed(s[1..], pat);
      }
    }
  }

  /** No occurrence of the pattern starts in the first `n` places. */
  predicate NoneBefore(s: string, pat: string, n: nat)
    requires n <= |s|
  {
    forall i :: 0 <= i < n ==> !(pat <= s[i..])
  }

  lemma NoneLater(s: string, pat: string, n: nat)
    requires 0 < n <= |s| && NoneBefore(s, pat, n)
    ensures !(pat <= s) && NoneBefore(s[1..], pat, n - 1)
  {
    assert s[0..] == s;
    forall i | 0 <= i < n - 1 ensures !(pat <= s[1..][i..]) {
      assert s[1..][i..] == s[i + 1..];
    }
  }

  /** Text without the pattern is kept … */
  lemma {:induction false} PlainKept(s: string, pat: string)
    requires pat != [] && NoneBefore(s, pat, |s|)
    ensures Replace(s, pat) == s
  {
    if s != [] {
      NoneLater(s, pat, |s|);
      PlainKept(s[1..], pat);
    }
  }

  lemma Onward(a: string, pat: string, b: string, r: string)
    requires a != []
    ensures (a + pat + b)[0] == a[0] && (a + pat + b)[1..] == a[1..] + pat + b
    ensures [a[0]] + (a[1..] + " " + r) == a + " " + r
  {
    assert [a[0]] + (a[1..] + " " + r) == ([a[0]] + a[1..]) + " " + r;
  }

  /** … and the first occurrence becomes one space, and what follows it is replaced in turn. */
  lemma {:induction false} FirstReplaced(a: string, pat: string, b: string)
    requires pat != [] && NoneBefore(a + pat + b, pat, |a|)
    ensures Replace(a + pat + b, pat) == a + " " + Replace(b, pat)
  {
    var s := a + pat + b;
    if a == [] {
      assert s == pat + b;
      OccurrenceOff(s, pat, b);
    } else {
      hide *;
      Onward(a, pat, b, Replace(b, pat));
      NoneLater(s, pat, |a|);
      OneOn(s, pat);
      FirstReplaced(a[1..], pat, b);
    }
  }

  /** The empty pattern is found around every character. */
  lemma {:induction false} EmptyReplaced(s: string)
    ensures |Replace(s, [])| == 2 * |s| + 1 && Replace(s, [])[2 * |s|] == ' '
    ensures forall i :: 0 <= i < |s| ==> Replace(s, [])[2 * i] == ' ' && Replace(s, [])[2 * i + 1] == s[i]
  {
    if s != [] {
      EmptyReplaced(s[1..]);
      var r, r' := Replace(s, []), Replace(s[1..], []);
      assert r == " " + [s[0]] + r';
      forall i | 0 <= i < |s| ensures r[2 * i] == ' ' && r[2 * i + 1] == s[i] {
        if i > 0 { assert r[2 * i] == r'[2 * (i - 1)] && r[2 * i + 1] == r'[2 * (i - 1) + 1]; }
      }
    }
  }

  /** Text that is too short for an occurrence is kept. */
  lemma {:induction false} ShortKept(s: string, pat: string)
    requires |s| < |pat|
    ensures Replace(s, pat) == s
  {
    if s != [] {
      ShortKept(s[1..], pat);
    }
  }

  lemma OneOn(s: string, pat: string)
    requires s != [] && pat != [] && !(pat <= s)
    ensures Replace(s, pat) == [s[0]] + Replace(s[1..], pat)
  {
  }

  lemma OccurrenceOff(s: string, pat: string, rest: string)
    requires pat != [] && s == pat + rest
    ensures Replace(s, pat) == " " + Replace(rest, pat)
  {
    assert s[|pat|..] == rest;
  }

  /** A pattern `u + " " + …`, `u` without spaces, after text without spaces: that occurrence is the first. */
  lemma {:induction false} FirstOccurrence(a: string, pat: string, u: string, rest: string)
    requires u + " " <= pat && ' ' !in u && ' ' !in a
    ensures Replace(a + pat + rest, pat) == a + " " + Replace(rest, pat)
  {
    hide Replace;
    var s, tail := a + pat + rest, " " + Replace(rest, pat);
    if a == [] {
      assert s == pat + rest;
      OccurrenceOff(s, pat, rest);
    } else {
      assert pat[|u|] == (u + " ")[|u|] == ' ';
      OneOn(s, pat);
      FirstOccurrence(a[1..], pat, u, rest);
      assert s[1..] == a[1..] + pat + rest;
      assert [s[0]] + (a[1..] + tail) == a + tail;
      assert a[1..] + " " + Replace(rest, pat) == a[1..] + tail;
      assert a + " " + Replace(rest, pat) == a + tail;
    }
  }

  function FirstSpace(s: string): (i: nat)
    requires ' ' in s
    ensures i < |s| && s[i] == ' ' && ' ' !in s[..i]
  {
    if s[0] == ' ' then 0 else 1 + FirstSpace(s[1..])
  }

  /** For a pattern with a space, a text that still contains it after the replacement. */
  function Survivor(pat: string): string
    requires ' ' in pat
  {
    pat[..FirstSpace(pat)] + pat + pat[FirstSpace(pat) + 1..]
  }

  predicate Survives(s: string, pat: string) {
    Contains(Replace(s, pat), pat)
  }

  /** The replacement leaves the mask text in some text exactly when the mask text is empty or has a space. */
  lemma SurvivesIff(pat: string)
    ensures (exists s :: Survives(s, pat)) <==> pat == [] || ' ' in pat
  {
    if pat == [] {
      assert Survives(pat, pat);
    } else if ' ' in pat {
      var i := FirstSpace(pat);
      var u, v := pat[..i], pat[i + 1..];
      assert pat == u + " " + v;
      FirstOccurrence(u, pat, u, v);
      ShortKept(v, pat);
      assert Survives(Survivor(pat), pat);
    } else {
      forall s ensures !Survives(s, pat) {
        Removed(s, pat);
      }
    }
  }

  /** Text before a space and text after it: a pattern without spaces lies in one of them. */
  lemma {:induction false} AcrossSpace(a: string, b: string, pat: string)
    requires ' ' !in pat && pat != [] && !Contains(a, pat) && !Contains(b, pat)
    ensures !Contains(a + " " + b, pat)
  {
    var s := a + " " + b;
    if pat <= s {
      StartsBeforeSpace(a, b, pat);
      assert false;
    }
    if a == [] {
      assert s[1..] == b;
    } else {
      AcrossSpace(a[1..], b, pat);
      assert s[1..] == a[1..] + " " + b;
    }
  }

  lemma StartsBeforeSpace(a: string, b: string, pat: string)
    requires ' ' !in pat && pat <= a + " " + b
    ensures pat <= a
  {
    var s := a + " " + b;
    assert s[|a|] == ' ';
    assert forall i :: 0 <= i < |pat| ==> pat[i] == s[i] && pat[i] in pat;
    assert pat == s[..|pat|] == a[..|pat|];
  }
}
