/**
 The formulas behind an answer, written out: which temperature a calibration file gives, the probabilities, and the numbers an
 answer reports (crates/ollaya-decision/src/calibration.rs and answer.rs).
 */
module Formulas {
  import opened Wrappers
  import opened Arithmetic
  import opened QuestionTypes
  import opened Calibration
  import opened Answer

  /** The sum of the first `n` values of `f`. */
  function SumOf(n: nat, f: nat -> real): real {
    if n == 0 then 0.0 else SumOf(n - 1, f) + f(n - 1)
  }

  lemma {:induction false} SumIs(s: seq<real>, f: nat -> real)
    requires forall i :: 0 <= i < |s| ==> s[i] == f(i)
    ensures Sum(s) == SumOf(|s|, f)
  {
    if s != [] {
      SumIs(s[..|s| - 1], f);
    }
  }

  /** `x` is the largest. */
  predicate IsLargest(s: seq<real>, x: real) {
    x in s && forall i :: 0 <= i < |s| ==> s[i] <= x
  }

  // ---------------------------------------------------------------- which temperature

  /** A number of a file, clamped; 1 for anything else. */
  function Applied(v: Value, lo: real, hi: real): real {
    match v
    case Num(Finite(r)) => if r < lo then lo else if hi < r then hi else r
    case _ => 1.0
  }

  /** The clamp range: the file's when its bounds are positive and in order, else 0.5 to 5. */
  predicate RangeIs(f: File, lo: real, hi: real) {
    if f.range.Some? && f.range.value.0.Finite? && f.range.value.1.Finite? && 0.0 < f.range.value.0.r <= f.range.value.1.r
    then lo == f.range.value.0.r && hi == f.range.value.1.r
    else lo == 0.5 && hi == 5.0
  }

  /** The key of `temperature_by_options`. */
  function Key(q: QType, k: nat): string {
    (match q case Choice => "choice" case Score => "score" case Noul => "noul") +
    (if k <= 2 then ":2" else if k <= 5 then ":3-5" else if k <= 10 then ":6-10" else ":11+")
  }

  function Place(q: QType): nat {
    match q case Choice => 0 case Score => 1 case Noul => 2
  }

  /** A coefficient is missing or a finite number. */
  predicate Readable(members: map<string, Value>, key: string) {
    key in members ==> members[key].Num? && members[key].n.Finite?
  }

  function Given(members: map<string, Value>, key: string, default: real): real
    requires Readable(members, key)
  {
    if key in members then members[key].n.r else default
  }

  /** A map of the known kind: every coefficient readable, one of the first four given, bounds in order (0.5 and 12 when missing). */
  predicate IsMap(v: Value, t: TemperatureMap) {
    v.Obj? &&
    var m := v.members;
    "kind" in m && m["kind"] == Text("von-entropy-length-v1") &&
    Readable(m, "bias") && Readable(m, "entropy") && Readable(m, "log_tokens") && Readable(m, "n_options") &&
    Readable(m, "lo") && Readable(m, "hi") &&
    ("bias" in m || "entropy" in m || "log_tokens" in m || "n_options" in m) &&
    Given(m, "lo", 0.5) <= Given(m, "hi", 12.0) &&
    t == EntropyLength(Given(m, "bias", 0.0), Given(m, "entropy", 0.0), Given(m, "log_tokens", 0.0), Given(m, "n_options", 0.0),
                       Given(m, "lo", 0.5), Given(m, "hi", 12.0))
  }

  /** Which maps a file may have; any other leaves the fixed temperatures in place. */
  lemma MapIs(v: Value, t: TemperatureMap)
    ensures ParseMap(v) == Some(t) <==> IsMap(v, t)
  {
  }

  /** The temperature of the question's type and number of options, else of its type, else 1. */
  lemma FixedSays(f: File, q: QType, k: nat, lo: real, hi: real)
    requires RangeIs(f, lo, hi)
    ensures Fixed(CalibratedOf(f), q, k) ==
            if Key(q, k) in f.byOptions then Applied(f.byOptions[Key(q, k)], lo, hi)
            else if Place(q) < |f.temperature| then Applied(f.temperature[Place(q)], lo, hi)
            else 1.0
  {
    KeyIs(q, k);
    assert Range(f) == (lo, hi);
    hide Bucket, Key, Range;
  }

  lemma KeyIs(q: QType, k: nat)
    ensures Bucket(q, k) == Key(q, k)
  {
  }

  /** A valid map replaces the fixed temperatures. */
  lemma TemperatureSays(m: Analysis, f: File, q: QType, logits: seq<real>, tokens: nat)
    ensures
      var t := TemperatureFor(m, CalibratedOf(f), q, logits, tokens);
      if f.temperatureMap.Some? && exists map1 :: IsMap(f.temperatureMap.value, map1) then
        exists map1 :: IsMap(f.temperatureMap.value, map1) &&
                       var x := MapTemperature(m, map1, logits, tokens); t == if x < 0.000_1 then 0.000_1 else x
      else t == Fixed(CalibratedOf(f), q, |logits|)
  {
    hide ParseMap, IsMap, MapTemperature, Fixed;
    if f.temperatureMap.Some? {
      var v := f.temperatureMap.value;
      forall t ensures ParseMap(v) == Some(t) <==> IsMap(v, t) {
        MapIs(v, t);
      }
    }
  }

  /** bias + entropy·H + log_tokens·l/4 + n_options·K/8 */
  function Combined(t: TemperatureMap, h: real, l: real, k: real): real {
    t.bias + t.entropy * h + t.logTokens * (l / 4.0) + t.nOptions * (k / 8.0)
  }

  /** `h` is the entropy over ln K, and 0 for fewer than two options. */
  predicate Normalised(m: Analysis, n: nat, term: nat -> real, h: real) {
    if n <= 1 then h == 0.0 else m.ln(n as real) != 0.0 && h == SumOf(n, term) / m.ln(n as real)
  }

  /** A map's temperature, from the entropy of the softmax, log10(max(tokens, 1)) and the number of options, between its bounds. */
  lemma MapSays(m: Analysis, t: TemperatureMap, logits: seq<real>, tokens: nat, h: real, term: nat -> real)
    requires Normalised(m, |logits|, term, h)
    requires forall i :: 0 <= i < |logits| ==> Surprise(m, Softmax(m, logits)[i], term(i))
    ensures
      var x := Combined(t, h, m.log10((if tokens < 1 then 1 else tokens) as real), |logits| as real);
      var y := if x < t.lo then t.lo else x;
      MapTemperature(m, t, logits, tokens) == if t.hi < y then t.hi else y
  {
    hide Combined, Softmax, SumOf, Entropy, MapTemperature;
    EntropyIs(m, Softmax(m, logits), term);
    MapWith(m, t, logits, tokens, h);
  }

  lemma MapWith(m: Analysis, t: TemperatureMap, logits: seq<real>, tokens: nat, h: real)
    requires h == if |logits| > 1 then Quotient(Entropy(m, Softmax(m, logits)), m.ln(|logits| as real)) else 0.0
    ensures
      var x := Combined(t, h, m.log10((if tokens < 1 then 1 else tokens) as real), |logits| as real);
      MapTemperature(m, t, logits, tokens) == MinReal(MaxReal(x, t.lo), t.hi)
  {
    WeighedIs(t, h, m.log10((if tokens < 1 then 1 else tokens) as real), |logits| as real);
    hide Softmax, Entropy, Quotient, Weighed, Combined;
  }

  lemma WeighedIs(t: TemperatureMap, h: real, l: real, k: real)
    ensures Weighed(t, h, l, k) == Combined(t, h, l, k)
  {
  }

  /** -p·ln(max(p, 1e-12)) */
  predicate Surprise(m: Analysis, p: real, x: real) {
    x == -(p * m.ln(if p < 0.000_000_000_001 then 0.000_000_000_001 else p))
  }

  lemma {:induction false} EntropyIs(m: Analysis, p: seq<real>, term: nat -> real)
    requires forall i :: 0 <= i < |p| ==> Surprise(m, p[i], term(i))
    ensures Entropy(m, p) == SumOf(|p|, term)
  {
    if p != [] {
      EntropyIs(m, p[..|p| - 1], term);
    }
  }

  // ---------------------------------------------------------------- probabilities

  /** exp(z_i - max z), each divided by the sum of all. */
  lemma SoftmaxSays(m: Analysis, z: seq<real>, x: real, e: nat -> real)
    requires ExpIncreases(m) && z != [] && IsLargest(z, x) && forall i :: 0 <= i < |z| ==> e(i) == m.exp(z[i] - x)
    ensures SumOf(|z|, e) > 0.0 && forall i :: 0 <= i < |z| ==> Softmax(m, z)[i] == e(i) / SumOf(|z|, e)
  {
    var w := Weights(m, z);
    WeightsAre(m, z, x, e);
    SumIs(w, e);
    SumPositive(w);
    hide SumOf, Sum, Weights, AllPositive, IsLargest, ExpIncreases, Quotient;
    forall i | 0 <= i < |z| ensures Softmax(m, z)[i] == e(i) / SumOf(|z|, e) {
      QuotientIs(w[i], Sum(w));
    }
  }

  lemma QuotientIs(a: real, b: real)
    requires b != 0.0
    ensures Quotient(a, b) == a / b
  {
  }

  lemma WeightsAre(m: Analysis, z: seq<real>, x: real, e: nat -> real)
    requires ExpIncreases(m) && z != [] && IsLargest(z, x) && forall i :: 0 <= i < |z| ==> e(i) == m.exp(z[i] - x)
    ensures AllPositive(Weights(m, z)) && forall i :: 0 <= i < |z| ==> Weights(m, z)[i] == e(i)
  {
    assert Largest(z) == x;
  }

  /** The probabilities are the softmax of the logits over the temperature. */
  lemma ProbabilitiesSay(m: Analysis, f: File, q: QType, logits: seq<real>, tokens: nat, t: real, z: seq<real>)
    requires t == TemperatureFor(m, CalibratedOf(f), q, logits, tokens)
    requires |z| == |logits| && forall i :: 0 <= i < |z| ==> z[i] * t == logits[i]
    ensures Probabilities(m, CalibratedOf(f), q, logits, tokens) == Softmax(m, z)
  {
    TemperaturePositive(m, f, q, logits, tokens);
    hide TemperatureFor, Softmax;
    forall i | 0 <= i < |z| ensures Divided(logits, t)[i] == z[i] {
      Over(z[i], t);
    }
    assert Divided(logits, t) == z;
  }

  lemma Over(a: real, d: real)
    requires d > 0.0
    ensures a * d / d == a
  {
  }

  // ---------------------------------------------------------------- what an answer reports

  /** The decision: the first of the largest raw logits, whatever the calibration. */
  lemma DecisionSays(m: Analysis, f: File, q: QType, logits: seq<real>, tokens: nat, k: nat)
    requires ExpIncreases(m) && logits != []
    ensures IsFirstLargest(Probabilities(m, CalibratedOf(f), q, logits, tokens), k) <==>
            k < |logits| && IsLargest(logits, logits[k]) && forall i :: 0 <= i < k ==> logits[i] != logits[k]
  {
    DecisionIsRawArgmax(m, f, q, logits, tokens, k);
    hide Probabilities, CalibratedOf;
  }

  /** (K·pmax - 1) / (K - 1), and 1 for fewer than two options. */
  lemma ConfidenceSays(p: seq<real>, top: real)
    requires |p| < 2 || (Distribution(p) && IsLargest(p, top))
    ensures Confidence(p) == if |p| < 2 then 1.0 else (|p| as real * top - 1.0) / (|p| as real - 1.0)
  {
    if |p| >= 2 {
      ConfidenceUnclamped(p);
      assert p[ArgmaxOf(p)] == top;
    }
  }

  /** 1 - H / ln K, H being the sum of -p·ln(max(p, 1e-12)), and 1 for fewer than two options. */
  lemma EntropyConfidenceSays(m: Analysis, p: seq<real>, term: nat -> real)
    requires LogOf(m) && (|p| < 2 || Distribution(p)) && forall i :: 0 <= i < |p| ==> Surprise(m, p[i], term(i))
    ensures |p| < 2 ==> EntropyConfidence(m, p) == 1.0
    ensures |p| >= 2 ==> m.ln(|p| as real) > 0.0 && EntropyConfidence(m, p) == 1.0 - SumOf(|p|, term) / m.ln(|p| as real)
  {
    if |p| >= 2 {
      EntropyConfidenceUnclamped(m, p);
      SumBounds(p, |p|, p[ArgmaxOf(p)]);
      assert p[..|p|] == p;
      EntropyOfIs(m, p, term);
      assert PositiveAboveOne(m, |p| as real);
    }
  }

  lemma {:induction false} EntropyOfIs(m: Analysis, p: seq<real>, term: nat -> real)
    requires forall i :: 0 <= i < |p| ==> p[i] <= 1.0 && Surprise(m, p[i], term(i))
    ensures EntropyOf(m, p) == SumOf(|p|, term)
  {
    if p != [] {
      EntropyOfIs(m, p[..|p| - 1], term);
    }
  }

  /** The sum of i·p_i. */
  lemma {:induction false} ScoreSays(p: seq<real>, term: nat -> real)
    requires forall i: nat :: i < |p| ==> term(i) == i as real * p[i]
    ensures ExpectedScore(p) == SumOf(|p|, term)
  {
    if p != [] {
      ScoreSays(p[..|p| - 1], term);
    }
  }
}
