/** Temperatures and calibrated probabilities (crates/ollaya-decision/src/calibration.rs), in exact arithmetic. */
module Calibration {
  import opened Wrappers
  import opened Arithmetic
  import opened QuestionTypes

  // ---------------------------------------------------------------- the functions of analysis, as far as they are needed

  datatype Analysis = Analysis(exp: real -> real, ln: real -> real, log10: real -> real)

  /** `exp` is positive and strictly increasing. */
  ghost predicate ExpIncreases(m: Analysis) {
    (forall x :: m.exp(x) > 0.0) && forall x, y :: x < y ==> m.exp(x) < m.exp(y)
  }

  // ---------------------------------------------------------------- calibration files

  /** A number of a file; not every one is finite. */
  datatype Number = Finite(r: real) | NotFinite

  /** A JSON value, as far as calibration reads it. */
  datatype Value = Num(n: Number) | Text(s: string) | Obj(members: map<string, Value>) | Other

  datatype File = File(temperature: seq<Value>, byOptions: map<string, Value>, temperatureMap: Option<Value>,
                       range: Option<(Number, Number)>)

  datatype TemperatureMap = EntropyLength(bias: real, entropy: real, logTokens: real, nOptions: real, lo: real, hi: real)

  /** Temperatures as they are applied. */
  datatype Calibrated = Calibrated(byType: seq<real>, byOptions: map<string, real>, input: Option<TemperatureMap>)

  const TEMP_MIN: real := 0.5
  const TEMP_MAX: real := 5.0

  function Clamp(x: real, lo: real, hi: real): real {
    if x < lo then lo else if x > hi then hi else x
  }


  /** The file's own range when it is one, else the default. */
  function Range(f: File): (real, real) {
    match f.range
    case Some((Finite(lo), Finite(hi))) => if 0.0 < lo <= hi then (lo, hi) else (TEMP_MIN, TEMP_MAX)
    case _ => (TEMP_MIN, TEMP_MAX)
  }

  function ClampTemperature(t: Value, range: (real, real)): real {
    match t
    case Num(Finite(r)) => Clamp(r, range.0, range.1)
    case _ => 1.0
  }

  /** A coefficient: Some(None) where the key is missing, None where it is not a finite number. */
  function Coefficient(members: map<string, Value>, key: string): Option<Option<real>> {
    if key !in members then Some(None)
    else
      match members[key]
      case Num(Finite(r)) => Some(Some(r))
      case _ => None
  }

  function Or(x: Option<real>, default: real): real {
    if x.Some? then x.value else default
  }

  /** `TemperatureMap::parse`. */
  function ParseMap(v: Value): Option<TemperatureMap> {
    if !v.Obj? || "kind" !in v.members || v.members["kind"] != Text("von-entropy-length-v1") then None
    else
      var bias :- Coefficient(v.members, "bias");
      var entropy :- Coefficient(v.members, "entropy");
      var logTokens :- Coefficient(v.members, "log_tokens");
      var nOptions :- Coefficient(v.members, "n_options");
      if bias.None? && entropy.None? && logTokens.None? && nOptions.None? then None
      else
        var lo :- Coefficient(v.members, "lo");
        var hi :- Coefficient(v.members, "hi");
        if Or(lo, 0.5) <= Or(hi, 12.0) then
          Some(EntropyLength(Or(bias, 0.0), Or(entropy, 0.0), Or(logTokens, 0.0), Or(nOptions, 0.0), Or(lo, 0.5), Or(hi, 12.0)))
        else None
  }

  /** What a file sets for question type `i`. */
  function ByType(f: File, i: nat): real {
    if i < |f.temperature| then ClampTemperature(f.temperature[i], Range(f)) else 1.0
  }

  method FromFile(f: File) returns (c: Calibrated)
    ensures c == CalibratedOf(f)
  {
    var range := Range(f);
    var byType := [1.0, 1.0, 1.0];
    var n := if |f.temperature| < 3 then |f.temperature| else 3;
    for i := 0 to n
      invariant |byType| == 3 && forall k :: 0 <= k < 3 ==> byType[k] == if k < i then ByType(f, k) else 1.0
    {
      byType := byType[i := ClampTemperature(f.temperature[i], range)];
    }
    assert byType == [ByType(f, 0), ByType(f, 1), ByType(f, 2)];
    var byOptions := map key <- f.byOptions :: ClampTemperature(f.byOptions[key], range);
    c := Calibrated(byType, byOptions, if f.temperatureMap.Some? then ParseMap(f.temperatureMap.value) else None);
  }

  function CalibratedOf(f: File): Calibrated {
    Calibrated([ByType(f, 0), ByType(f, 1), ByType(f, 2)],
               map key <- f.byOptions :: ClampTemperature(f.byOptions[key], Range(f)),
               if f.temperatureMap.Some? then ParseMap(f.temperatureMap.value) else None)
  }

  // ---------------------------------------------------------------- temperatures

  function Bucket(q: QType, k: nat): string {
    q.Name() + ":" + if k <= 2 then "2" else if k <= 5 then "3-5" else if k <= 10 then "6-10" else "11+"
  }

  function Fixed(c: Calibrated, q: QType, k: nat): real
    requires |c.byType| == 3
  {
    if Bucket(q, k) in c.byOptions then c.byOptions[Bucket(q, k)] else c.byType[q.Index()]
  }

  /** The normalised entropy that a map reads; the quotient by zero is left to `Quotient`. */
  function Entropy(m: Analysis, p: seq<real>): real {
    if p == [] then 0.0 else Entropy(m, p[..|p| - 1]) - p[|p| - 1] * m.ln(MaxReal(p[|p| - 1], 0.000_000_000_001))
  }

  /** A quotient; what a quotient by zero is does not matter here. */
  function Quotient(a: real, b: real): real {
    if b == 0.0 then 0.0 else a / b
  }

  function MapTemperature(m: Analysis, t: TemperatureMap, logits: seq<real>, tokens: nat): real {
    var k := |logits|;
    var h := if k > 1 then Quotient(Entropy(m, Softmax(m, logits)), m.ln(k as real)) else 0.0;
    var n := if tokens < 1 then 1 else tokens;
    MinReal(MaxReal(Weighed(t, h, m.log10(n as real), k as real), t.lo), t.hi)
  }

  /** The map's formula, before it is bounded. */
  function Weighed(t: TemperatureMap, h: real, logTokens: real, k: real): real {
    t.bias + t.entropy * h + t.logTokens * (logTokens / 4.0) + t.nOptions * (k / 8.0)
  }

  /** `temperature_for`. */
  function TemperatureFor(m: Analysis, c: Calibrated, q: QType, logits: seq<real>, tokens: nat): real
    requires |c.byType| == 3
  {
    match c.input
    case Some(t) => MaxReal(MapTemperature(m, t, logits, tokens), 0.000_1)
    case None => Fixed(c, q, |logits|)
  }

  lemma FixedPositive(f: File, t: Value)
    ensures Range(f).0 > 0.0 && Range(f).0 <= Range(f).1 && ClampTemperature(t, Range(f)) > 0.0
  {
  }

  /** Every calibration file gives a positive temperature: invalid entries, ranges and maps included, whatever the logits. */
  lemma TemperaturePositive(m: Analysis, f: File, q: QType, logits: seq<real>, tokens: nat)
    ensures TemperatureFor(m, CalibratedOf(f), q, logits, tokens) > 0.0
  {
    hide MapTemperature, Range, ClampTemperature, ParseMap;
    forall i: nat ensures ByType(f, i) > 0.0 {
      if i < |f.temperature| { FixedPositive(f, f.temperature[i]); }
    }
    var key := Bucket(q, |logits|);
    if key in f.byOptions { FixedPositive(f, f.byOptions[key]); }
  }

  /**
   A fixed temperature is neutral or within the clamp range; one that a map computes is within the map's own bounds, and
   never below 1e-4.
   */
  lemma TemperatureInRange(m: Analysis, f: File, q: QType, logits: seq<real>, tokens: nat)
    ensures
      var t := TemperatureFor(m, CalibratedOf(f), q, logits, tokens);
      match CalibratedOf(f).input
      case None => t == 1.0 || Range(f).0 <= t <= Range(f).1
      case Some(bounds) => bounds.lo <= bounds.hi && (t == 0.000_1 || (bounds.lo <= t <= bounds.hi && 0.000_1 < t))
    ensures match f.range
            case Some((Finite(lo), Finite(hi))) => Range(f) == if 0.0 < lo <= hi then (lo, hi) else (0.5, 5.0)
            case _ => Range(f) == (0.5, 5.0)
  {
    var c := CalibratedOf(f);
    match c.input {
      case Some(bounds) => BoundsInOrder(f.temperatureMap.value);
      case None =>
        var key := Bucket(q, |logits|);
        assert Fixed(c, q, |logits|) == if key in f.byOptions then ClampTemperature(f.byOptions[key], Range(f)) else ByType(f, q.Index());
    }
  }

  lemma BoundsInOrder(v: Value)
    requires ParseMap(v).Some?
    ensures ParseMap(v).value.lo <= ParseMap(v).value.hi
  {
  }

  // ---------------------------------------------------------------- softmax

  function Sum(s: seq<real>): real {
    if s == [] then 0.0 else Sum(s[..|s| - 1]) + s[|s| - 1]
  }

  function Largest(s: seq<real>): (x: real)
    requires s != []
    ensures x in s && forall i :: 0 <= i < |s| ==> s[i] <= x
  {
    if |s| == 1 then s[0] else MaxReal(Largest(s[..|s| - 1]), s[|s| - 1])
  }

  function Weights(m: Analysis, z: seq<real>): (e: seq<real>)
    ensures |e| == |z|
  {
    if z == [] then []
    else
      var max := Largest(z);
      seq(|z|, i requires 0 <= i < |z| => m.exp(z[i] - max))
  }

  function Divided(s: seq<real>, d: real): (r: seq<real>)
    ensures |r| == |s|
  {
    seq(|s|, i requires 0 <= i < |s| => Quotient(s[i], d))
  }

  function Softmax(m: Analysis, z: seq<real>): (p: seq<real>)
    ensures |p| == |z|
  {
    Divided(Weights(m, z), Sum(Weights(m, z)))
  }

  /** `probabilities`. */
  function Probabilities(m: Analysis, c: Calibrated, q: QType, logits: seq<real>, tokens: nat): (p: seq<real>)
    requires |c.byType| == 3
    ensures |p| == |logits|
  {
    Softmax(m, Divided(logits, TemperatureFor(m, c, q, logits, tokens)))
  }

  predicate AllPositive(s: seq<real>) {
    forall i :: 0 <= i < |s| ==> s[i] > 0.0
  }

  lemma {:induction false} SumPositive(s: seq<real>)
    requires AllPositive(s)
    ensures Sum(s) >= 0.0 && (s != [] ==> Sum(s) > 0.0)
  {
    if s != [] {
      SumPositive(s[..|s| - 1]);
    }
  }

  lemma {:induction false} SumDivided(s: seq<real>, d: real)
    requires d > 0.0
    ensures Sum(Divided(s, d)) == Sum(s) / d
  {
    if s != [] {
      var init := s[..|s| - 1];
      SumDivided(init, d);
      assert Divided(s, d)[..|s| - 1] == Divided(init, d);
      AddQuotients(Sum(init), s[|s| - 1], d);
    }
  }

  lemma AddQuotients(a: real, b: real, d: real)
    requires d > 0.0
    ensures a / d + b / d == (a + b) / d
  {
  }

  lemma QuotientOrder(a: real, b: real, d: real)
    requires d > 0.0
    ensures a < b <==> a / d < b / d
    ensures a > 0.0 ==> a / d > 0.0
  {
    if a < b { Less(a, b, d); } else { assert a / d >= b / d by { if b < a { Less(b, a, d); } } }
    if a > 0.0 { Less(0.0, a, d); assert 0.0 / d == 0.0; }
  }

  lemma Less(a: real, b: real, d: real)
    requires a < b && d > 0.0
    ensures a / d < b / d
  {
    assert b / d - a / d == (b - a) / d;
    assert ((b - a) / d) * d == b - a;
  }

  /** A distribution: positive, and sums to one. */
  predicate Distribution(p: seq<real>) {
    AllPositive(p) && Sum(p) == 1.0
  }

  lemma OneWhole(d: real)
    requires d > 0.0
    ensures d / d == 1.0
  {
  }

  lemma SoftmaxDistributes(m: Analysis, z: seq<real>)
    requires ExpIncreases(m) && z != []
    ensures Distribution(Softmax(m, z))
  {
    var e := Weights(m, z);
    assert AllPositive(e);
    SumPositive(e);
    SumDivided(e, Sum(e));
    OneWhole(Sum(e));
    forall i | 0 <= i < |e| ensures Softmax(m, z)[i] > 0.0 {
      QuotientOrder(e[i], e[i], Sum(e));
    }
  }

  lemma SoftmaxOrder(m: Analysis, z: seq<real>, i: nat, j: nat)
    requires ExpIncreases(m) && i < |z| && j < |z|
    ensures Softmax(m, z)[i] < Softmax(m, z)[j] <==> z[i] < z[j]
  {
    var e, max := Weights(m, z), Largest(z);
    assert AllPositive(e);
    SumPositive(e);
    QuotientOrder(e[i], e[j], Sum(e));
    assert e[i] == m.exp(z[i] - max) && e[j] == m.exp(z[j] - max);
    if z[i] < z[j] {
      assert z[i] - max < z[j] - max;
    } else if z[j] < z[i] {
      assert z[j] - max < z[i] - max;
    }
  }

  /** For every calibration file the probabilities are positive, sum to one, and are in the order of the raw logits. */
  lemma ProbabilitiesKeepOrder(m: Analysis, f: File, q: QType, logits: seq<real>, tokens: nat)
    requires ExpIncreases(m) && logits != []
    ensures
      var p := Probabilities(m, CalibratedOf(f), q, logits, tokens);
      Distribution(p) && forall i, j :: 0 <= i < |p| && 0 <= j < |p| ==> (p[i] < p[j] <==> logits[i] < logits[j])
  {
    hide Softmax, TemperatureFor, Distribution;
    var t := TemperatureFor(m, CalibratedOf(f), q, logits, tokens);
    TemperaturePositive(m, f, q, logits, tokens);
    var z := Divided(logits, t);
    SoftmaxDistributes(m, z);
    var p := Softmax(m, z);
    forall i, j | 0 <= i < |p| && 0 <= j < |p| ensures p[i] < p[j] <==> logits[i] < logits[j] {
      SoftmaxOrder(m, z, i, j);
      QuotientOrder(logits[i], logits[j], t);
    }
  }
}
