/** Answers from calibrated probabilities (crates/ollaya-decision/src/answer.rs), in exact arithmetic. */
module Answer {
  import opened Wrappers
  import opened Arithmetic
  import opened QuestionTypes
  import opened Calibration

  // ---------------------------------------------------------------- the decision

  /** The first of the largest entries; 0 where there are none. */
  predicate IsFirstLargest(s: seq<real>, k: nat) {
    if s == [] then k == 0
    else k < |s| && (forall i :: 0 <= i < |s| ==> s[i] <= s[k]) && forall i :: 0 <= i < k ==> s[i] < s[k]
  }

  /** `argmax`: a fold from minus infinity. */
  method Argmax(p: seq<real>) returns (k: nat)
    ensures IsFirstLargest(p, k)
  {
    k := 0;
    var best: Option<real> := None;
    for i := 0 to |p|
      invariant i == 0 ==> best == None && k == 0
      invariant i > 0 ==> k < i && best == Some(p[k]) && (forall j :: 0 <= j < i ==> p[j] <= p[k]) && forall j :: 0 <= j < k ==> p[j] < p[k]
    {
      if best.None? || p[i] > best.value {
        k, best := i, Some(p[i]);
      }
    }
  }

  function ArgmaxOf(p: seq<real>): (k: nat)
    ensures IsFirstLargest(p, k)
  {
    if |p| <= 1 then 0
    else
      var k := ArgmaxOf(p[..|p| - 1]);
      if p[|p| - 1] > p[k] then |p| - 1 else k
  }

  /** The decision is the first largest raw logit, whatever the calibration file. */
  lemma DecisionIsRawArgmax(m: Analysis, f: File, q: QType, logits: seq<real>, tokens: nat, k: nat)
    requires ExpIncreases(m)
    ensures IsFirstLargest(Probabilities(m, CalibratedOf(f), q, logits, tokens), k) <==> IsFirstLargest(logits, k)
  {
    hide Probabilities, Distribution, IsFirstLargest;
    var p := Probabilities(m, CalibratedOf(f), q, logits, tokens);
    if logits == [] {
      SameOrder(p, logits, k);
    } else {
      ProbabilitiesKeepOrder(m, f, q, logits, tokens);
      SameOrder(p, logits, k);
    }
  }

  lemma SameOrder(a: seq<real>, b: seq<real>, k: nat)
    requires |a| == |b| && forall i, j :: 0 <= i < |a| && 0 <= j < |a| ==> (a[i] < a[j] <==> b[i] < b[j])
    ensures IsFirstLargest(a, k) <==> IsFirstLargest(b, k)
  {
    assert IsFirstLargest(a, k) ==> IsFirstLargest(b, k);
  }

  // ---------------------------------------------------------------- confidence

  function RawConfidence(p: seq<real>): real
    requires |p| >= 2
  {
    var k := |p| as real;
    (k * p[ArgmaxOf(p)] - 1.0) / (k - 1.0)
  }

  function Confidence(p: seq<real>): real {
    if |p| < 2 then 1.0 else Clamp(RawConfidence(p), 0.0, 1.0)
  }

  lemma {:induction false} SumBounds(p: seq<real>, n: nat, top: real)
    requires n <= |p| && AllPositive(p) && forall i :: 0 <= i < |p| ==> p[i] <= top
    ensures Sum(p[..n]) <= n as real * top
    ensures forall i :: 0 <= i < n ==> p[i] <= Sum(p[..n])
  {
    if n == 0 {
      assert p[..0] == [];
    } else {
      SumBounds(p, n - 1, top);
      assert p[..n][..n - 1] == p[..n - 1];
      SumPositive(p[..n - 1]);
      assert n as real * top == (n - 1) as real * top + top;
    }
  }

  /** The largest probability is at least 1/K and at most 1, so the clamp in `confidence` never changes its value. */
  lemma ConfidenceUnclamped(p: seq<real>)
    requires Distribution(p) && |p| >= 2
    ensures 0.0 <= RawConfidence(p) <= 1.0 && Confidence(p) == RawConfidence(p)
  {
    var k, top := |p| as real, p[ArgmaxOf(p)];
    SumBounds(p, |p|, top);
    assert p[..|p|] == p;
    assert top <= Sum(p[..|p|]);
    assert k * top >= 1.0;
    InUnit(k, top);
    assert RawConfidence(p) == (k * top - 1.0) / (k - 1.0);
  }

  lemma InUnit(k: real, top: real)
    requires k >= 2.0 && top <= 1.0 && k * top >= 1.0
    ensures 0.0 <= (k * top - 1.0) / (k - 1.0) <= 1.0
  {
    assert k * top <= k;
    UnitQuotient(k * top - 1.0, k - 1.0);
  }

  // ---------------------------------------------------------------- entropy confidence

  predicate OfProduct(m: Analysis, x: real, y: real) {
    x > 0.0 && y > 0.0 ==> m.ln(x * y) == m.ln(x) + m.ln(y)
  }

  predicate BelowLine(m: Analysis, x: real) {
    x > 0.0 ==> m.ln(x) <= x - 1.0
  }

  predicate PositiveAboveOne(m: Analysis, x: real) {
    x > 1.0 ==> m.ln(x) > 0.0
  }

  /** The logarithm: a sum for products, below the line `x - 1`, and positive above one. */
  ghost predicate LogOf(m: Analysis) {
    (forall x, y :: OfProduct(m, x, y)) && (forall x :: BelowLine(m, x)) && forall x :: PositiveAboveOne(m, x)
  }

  function Floored(p: real): real { Clamp(p, 0.000_000_000_001, 1.0) }

  /** `-Σ p ln(clamp(p, 1e-12, 1))`. */
  function EntropyOf(m: Analysis, p: seq<real>): real {
    if p == [] then 0.0 else EntropyOf(m, p[..|p| - 1]) - p[|p| - 1] * m.ln(Floored(p[|p| - 1]))
  }

  function RawEntropyConfidence(m: Analysis, p: seq<real>): real {
    1.0 - Quotient(EntropyOf(m, p), m.ln(|p| as real))
  }

  function EntropyConfidence(m: Analysis, p: seq<real>): real {
    if |p| < 2 then 1.0 else Clamp(RawEntropyConfidence(m, p), 0.0, 1.0)
  }

  /** One term of the entropy: not negative, and at most what the line below the logarithm gives. */
  lemma EntropyTerm(m: Analysis, p: real, k: real)
    requires LogOf(m) && 0.0 < p <= 1.0 && k > 1.0
    ensures 0.0 <= -p * m.ln(Floored(p)) <= p * m.ln(k) + 1.0 / k - p
  {
    var c := Floored(p);
    var x := 1.0 / (k * c);
    Reciprocal(k, c);
    LogFacts(m, c, k, x);
    hide LogOf;
    TermBound(p, c, k, x, m.ln(c), m.ln(k));
  }

  lemma Reciprocal(k: real, c: real)
    requires k > 0.0 && c > 0.0
    ensures k * c > 0.0 && 1.0 / (k * c) > 0.0 && 1.0 / (k * c) * (k * c) == 1.0
  {
    var d := k * c;
    assert 1.0 / d * d == 1.0;
  }

  lemma LogFacts(m: Analysis, c: real, k: real, x: real)
    requires LogOf(m) && 0.0 < c <= 1.0 && k > 0.0 && x > 0.0 && k * c > 0.0 && x * (k * c) == 1.0
    ensures m.ln(c) <= 0.0 && -m.ln(c) <= m.ln(k) + x - 1.0
  {
    var d := k * c;
    assert OfProduct(m, 1.0, 1.0) && 1.0 * 1.0 == 1.0;
    assert OfProduct(m, x, d) && OfProduct(m, k, c);
    assert BelowLine(m, c) && BelowLine(m, x);
  }

  lemma TermBound(p: real, c: real, k: real, x: real, lc: real, lk: real)
    requires 0.0 < p <= c && k > 0.0 && x > 0.0 && x * (k * c) == 1.0
    requires lc <= 0.0 && -lc <= lk + x - 1.0
    ensures 0.0 <= -p * lc <= p * lk + 1.0 / k - p
  {
    Scaled(p, -lc, lk + x - 1.0);
    Scaled(p, 0.0, -lc);
    assert p * (-lc) == -p * lc;
    assert p * (lk + x - 1.0) == p * lk + p * x - p;
    ShareBound(p, c, k, x);
  }

  lemma Scaled(p: real, a: real, b: real)
    requires p > 0.0 && a <= b
    ensures p * a <= p * b
  {
  }

  lemma ShareBound(p: real, c: real, k: real, x: real)
    requires 0.0 < p <= c && k > 0.0 && x * (k * c) == 1.0 && x > 0.0
    ensures p * x <= 1.0 / k
  {
    assert p * x <= c * x by { Scaled(x, p, c); }
    assert (c * x) * k == 1.0;
    assert c * x == 1.0 / k;
  }

  /** What the line below the logarithm gives for the entropy of `n` probabilities with sum `s`. */
  function EntropyBound(s: real, lk: real, n: nat, k: real): real
    requires k > 0.0
  {
    s * lk + n as real / k - s
  }

  lemma {:induction false} EntropyBounds(m: Analysis, p: seq<real>, n: nat, k: real)
    requires LogOf(m) && n <= |p| && k > 1.0 && forall i :: 0 <= i < |p| ==> 0.0 < p[i] <= 1.0
    ensures 0.0 <= EntropyOf(m, p[..n]) <= EntropyBound(Sum(p[..n]), m.ln(k), n, k)
  {
    if n == 0 {
      assert p[..0] == [] && EntropyBound(0.0, m.ln(k), 0, k) == 0.0;
    } else {
      EntropyBounds(m, p, n - 1, k);
      assert p[..n][..n - 1] == p[..n - 1];
      EntropyTerm(m, p[n - 1], k);
      hide LogOf, EntropyBound;
      var term := p[n - 1] * m.ln(Floored(p[n - 1]));
      assert EntropyOf(m, p[..n]) == EntropyOf(m, p[..n - 1]) - term;
      hide Floored;
      BoundStep(EntropyOf(m, p[..n - 1]), term, Sum(p[..n - 1]), p[n - 1], m.ln(k), n, k);
    }
  }

  lemma BoundStep(h: real, term: real, s: real, p: real, lk: real, n: nat, k: real)
    requires n > 0 && k > 0.0 && 0.0 <= h <= EntropyBound(s, lk, n - 1, k) && 0.0 <= -term <= p * lk + 1.0 / k - p
    ensures 0.0 <= h - term <= EntropyBound(s + p, lk, n, k)
  {
    assert (s + p) * lk == s * lk + p * lk;
    AddQuotients((n - 1) as real, 1.0, k);
    assert (n - 1) as real + 1.0 == n as real;
  }

  /** The entropy of a distribution over K options is between 0 and ln K, so this clamp never changes the value either. */
  lemma EntropyConfidenceUnclamped(m: Analysis, p: seq<real>)
    requires LogOf(m) && Distribution(p) && |p| >= 2
    ensures 0.0 <= EntropyOf(m, p) <= m.ln(|p| as real)
    ensures 0.0 <= RawEntropyConfidence(m, p) <= 1.0 && EntropyConfidence(m, p) == RawEntropyConfidence(m, p)
  {
    var k := |p| as real;
    SumBounds(p, |p|, p[ArgmaxOf(p)]);
    assert p[..|p|] == p;
    assert forall i :: 0 <= i < |p| ==> p[i] <= Sum(p[..|p|]);
    EntropyBounds(m, p, |p|, k);
    assert PositiveAboveOne(m, k);
    assert m.ln(k) > 0.0;
    hide LogOf, EntropyOf, Sum, Distribution;
    OneWhole(k);
    UnitQuotient(EntropyOf(m, p), m.ln(k));
  }

  lemma UnitQuotient(a: real, d: real)
    requires d > 0.0 && 0.0 <= a <= d
    ensures 0.0 <= a / d <= 1.0
  {
    OneWhole(d);
    QuotientOrder(a, d, d);
    QuotientOrder(a, 0.0, d);
  }

  // ---------------------------------------------------------------- expected score

  function ExpectedScore(p: seq<real>): real {
    if p == [] then 0.0 else ExpectedScore(p[..|p| - 1]) + (|p| - 1) as real * p[|p| - 1]
  }

  lemma Weighted(i: nat, top: nat, sum: real, x: real)
    requires i <= top && 0.0 <= x
    ensures 0.0 <= i as real * x <= top as real * x && top as real * (sum + x) == top as real * sum + top as real * x
  {
  }

  lemma {:induction false} ScoreBounds(p: seq<real>, n: nat)
    requires n <= |p| && AllPositive(p)
    ensures 0.0 <= ExpectedScore(p[..n]) <= (|p| - 1) as real * Sum(p[..n]) || n == 0
    ensures n == 0 ==> ExpectedScore(p[..n]) == 0.0 == Sum(p[..n])
  {
    if n > 0 {
      ScoreBounds(p, n - 1);
      assert p[..n][..n - 1] == p[..n - 1];
      Weighted(n - 1, |p| - 1, Sum(p[..n - 1]), p[n - 1]);
    }
  }

  /** The expected score is a mean of the levels 0 to K - 1. */
  lemma ScoreInRange(p: seq<real>)
    requires Distribution(p) && p != []
    ensures 0.0 <= ExpectedScore(p) <= (|p| - 1) as real
  {
    ScoreBounds(p, |p|);
    assert p[..|p|] == p;
  }
}
