/**
 Which nodes webgraph.convert (train/webgraph.py) replaces and what by, said of the graph and its numbers alone. A matrix is ternary
 by columns, or integer codes times a scale by rows; the scale is at most three float32 steps from the largest magnitude over 7.
 */
module Conversions {
  import opened Wrappers
  import opened Arithmetic
  import opened Collections
  import opened Shapes
  import opened Onnx
  import opened Quantize
  import opened WebGraph
  import opened WebGraphProofs

  // ---------------------------------------------------------------- rounding

  /** `c` is the integer nearest to `y`, the even one of two. */
  predicate Nearest(y: real, c: int) {
    var d := y - c as real;
    -0.5 < d < 0.5 || ((d == 0.5 || d == -0.5) && c % 2 == 0)
  }

  lemma RintIs(y: real, c: int)
    ensures Rint(y) == c <==> Nearest(y, c)
  {
    var f := y.Floor;
    if Nearest(y, c) {
      assert c == f || c == f + 1;
    }
  }

  // ---------------------------------------------------------------- int4 rows

  function Magnitude(x: real): real { if x < 0.0 then -x else x }

  /** `max` is the largest magnitude of a row. */
  predicate LargestOf(row: seq<real>, max: real) {
    (forall j :: 0 <= j < |row| ==> Magnitude(row[j]) <= max) && exists j :: 0 <= j < |row| && Magnitude(row[j]) == max
  }

  /** The scale `k` float32 steps from `max / 7`. */
  function ScaleAt(s: Semantics, ulp: (real, int) -> real, max: real, k: int): real {
    var g := s.round(max / 7.0);
    ulp(if g < 0.000000000001 then 0.000000000001 else g, k)
  }

  /** `codes` are the row over the scale, rounded, and give the row back. */
  predicate CodesOf(s: Semantics, row: seq<real>, g: real, codes: seq<int>) {
    g != 0.0 && |codes| == |row| && forall j :: 0 <= j < |row| ==> Coded(s, row[j], g, codes[j])
  }

  predicate Coded(s: Semantics, x: real, g: real, c: int)
    requires g != 0.0
  {
    -7 <= c <= 7 && Nearest(s.round(x / g), c) && s.round(c as real * g) == x
  }

  /** Codes in -7..7 times a scale that is at most three steps from the largest magnitude over 7. */
  ghost predicate IntegerRow(s: Semantics, ulp: (real, int) -> real, row: seq<real>) {
    exists max: real, k: int, codes: seq<int> ::
      LargestOf(row, max) && -3 <= k <= 3 && CodesOf(s, row, ScaleAt(s, ulp, max, k), codes)
  }

  lemma CodesUnique(s: Semantics, row: seq<real>, g: real, codes: seq<int>)
    requires g != 0.0
    ensures CodesOf(s, row, g, codes) <==> codes == RowCodes(s, row, g) && Good(s, row, g)
  {
    if |codes| == |row| {
      forall j | 0 <= j < |row| ensures codes[j] == CodeFor(s, row[j], g) <==> Nearest(s.round(row[j] / g), codes[j]) {
        RintIs(s.round(row[j] / g), codes[j]);
      }
    }
    hide Nearest, CodeFor;
  }

  lemma StepOf(t: nat, k: int)
    requires t < STEPS
    ensures -3 <= Ulps(t) <= 3
  {
  }

  lemma StepFor(k: int) returns (t: nat)
    requires -3 <= k <= 3
    ensures t < STEPS && Ulps(t) == k
  {
    t := if k == 0 then 0 else if k > 0 then 2 * k - 1 else -2 * k;
  }

  lemma CandidateIs(s: Semantics, ulp: (real, int) -> real, row: seq<real>, max: real, t: nat)
    requires LargestOf(row, max) && t < STEPS
    ensures Candidate(s, ulp, row, t) == ScaleAt(s, ulp, max, Ulps(t))
  {
    var i :| 0 <= i < |row| && Magnitude(row[i]) == max;
    assert Abs(row[i]) <= MaxAbs(row);
    var j :| 0 <= j < |row| && MaxAbs(row) == Abs(row[j]);
    assert Magnitude(row[j]) <= max;
  }

  /** These are the rows that are taken for int4. */
  lemma IntegerRowIff(s: Semantics, ulp: (real, int) -> real, row: seq<real>)
    requires row != []
    ensures Int4(s, ulp, row) <==> IntegerRow(s, ulp, row)
  {
    hide Good, CodesOf, Candidate, ScaleAt;
    if t :| 0 <= t < STEPS && Good(s, row, Candidate(s, ulp, row, t)) {
      var max := MaxAbs(row);
      assert LargestOf(row, max) by { Largest(row); }
      CandidateIs(s, ulp, row, max, t);
      StepOf(t, Ulps(t));
      GoodScale(s, row, Candidate(s, ulp, row, t));
      CodesUnique(s, row, Candidate(s, ulp, row, t), RowCodes(s, row, Candidate(s, ulp, row, t)));
    }
    if max: real, k: int, codes: seq<int> :| LargestOf(row, max) && -3 <= k <= 3 && CodesOf(s, row, ScaleAt(s, ulp, max, k), codes) {
      var t := StepFor(k);
      CandidateIs(s, ulp, row, max, t);
      CodesScale(s, row, ScaleAt(s, ulp, max, k), codes);
      CodesUnique(s, row, ScaleAt(s, ulp, max, k), codes);
      assert Good(s, row, Candidate(s, ulp, row, t));
    }
  }

  /** The steps in the order they are tried. */
  function Step(t: nat): int
    requires t < 7
  {
    [0, 1, -1, 2, -2, 3, -3][t]
  }

  ghost predicate Works(s: Semantics, row: seq<real>, g: real) {
    exists codes :: CodesOf(s, row, g, codes)
  }

  /** The first scale tried that works. */
  ghost predicate FirstScale(s: Semantics, ulp: (real, int) -> real, row: seq<real>, g: real) {
    exists max: real, t: nat :: LargestOf(row, max) && FirstAt(s, ulp, row, max, t) && g == ScaleAt(s, ulp, max, Step(t))
  }

  ghost predicate FirstAt(s: Semantics, ulp: (real, int) -> real, row: seq<real>, max: real, t: nat) {
    t < 7 && Works(s, row, ScaleAt(s, ulp, max, Step(t))) && forall u: nat :: u < t ==> !Works(s, row, ScaleAt(s, ulp, max, Step(u)))
  }

  lemma WorksIs(s: Semantics, row: seq<real>, g: real)
    ensures Works(s, row, g) <==> Good(s, row, g)
  {
    if g != 0.0 {
      CodesUnique(s, row, g, RowCodes(s, row, g));
      if codes :| CodesOf(s, row, g, codes) {
        CodesUnique(s, row, g, codes);
      }
    }
  }

  lemma {:induction false} FirstGoodAt(s: Semantics, ulp: (real, int) -> real, row: seq<real>, t: nat) returns (k: nat)
    requires t <= STEPS && FirstGood(s, ulp, row, t).Some?
    ensures t <= k < STEPS && Good(s, row, Candidate(s, ulp, row, k)) && FirstGood(s, ulp, row, t) == Some(Candidate(s, ulp, row, k))
    ensures forall u :: t <= u < k ==> !Good(s, row, Candidate(s, ulp, row, u))
    decreases STEPS - t
  {
    hide Good, Candidate;
    k := t;
    if !Good(s, row, Candidate(s, ulp, row, t)) {
      k := FirstGoodAt(s, ulp, row, t + 1);
    }
  }

  lemma FirstScaleIs(s: Semantics, ulp: (real, int) -> real, row: seq<real>, g: real)
    requires row != [] && FirstGood(s, ulp, row, 0) == Some(g)
    ensures FirstScale(s, ulp, row, g)
  {
    var max := MaxAbs(row);
    Largest(row);
    var k := FirstGoodAt(s, ulp, row, 0);
    hide Good, Candidate, ScaleAt, Works, LargestOf, MaxAbs, FirstGood;
    forall t: nat | t < 7
      ensures Candidate(s, ulp, row, t) == ScaleAt(s, ulp, max, Step(t))
      ensures Works(s, row, ScaleAt(s, ulp, max, Step(t))) <==> Good(s, row, Candidate(s, ulp, row, t))
    {
      CandidateIs(s, ulp, row, max, t);
      assert Step(t) == Ulps(t);
      WorksIs(s, row, Candidate(s, ulp, row, t));
    }
    assert FirstAt(s, ulp, row, max, k);
  }

  lemma Largest(row: seq<real>)
    requires row != []
    ensures LargestOf(row, MaxAbs(row))
  {
    assert forall j :: 0 <= j < |row| ==> Magnitude(row[j]) == Abs(row[j]);
    var j :| 0 <= j < |row| && MaxAbs(row) == Abs(row[j]);
    assert Magnitude(row[j]) == MaxAbs(row);
  }

  lemma GoodScale(s: Semantics, row: seq<real>, g: real)
    requires Good(s, row, g)
    ensures g != 0.0
  {
  }

  lemma CodesScale(s: Semantics, row: seq<real>, g: real, codes: seq<int>)
    requires CodesOf(s, row, g, codes)
    ensures g != 0.0
  {
  }

  /**
   So every row of codes times a scale is: when float32 holds the products to an eighth of the scale and the quotients to a
   quarter, and the scale is at most three steps from the largest magnitude over 7.
   */
  lemma QuantizedRow(s: Semantics, ulp: (real, int) -> real, row: seq<real>, codes: seq<int>, max: real, k: int, g: real)
    requires LargestOf(row, max) && -3 <= k <= 3 && g == ScaleAt(s, ulp, max, k) && g > 0.0 && |codes| == |row|
    requires forall j :: 0 <= j < |row| ==> Multiple(s, row[j], g, codes[j])
    ensures IntegerRow(s, ulp, row)
  {
    hide ScaleAt, Coded, Multiple;
    forall j | 0 <= j < |row| ensures Coded(s, row[j], g, codes[j]) {
      MultipleCoded(s, row[j], g, codes[j]);
    }
    assert CodesOf(s, row, g, codes);
  }

  /** `x` is a code times the scale, as float32 holds it. */
  predicate Multiple(s: Semantics, x: real, g: real, c: int)
    requires g > 0.0
  {
    -7 <= c <= 7 && x == s.round(c as real * g) && Magnitude(x - c as real * g) <= g / 8.0 && Magnitude(s.round(x / g) - x / g) <= 0.25
  }

  lemma MultipleCoded(s: Semantics, x: real, g: real, c: int)
    requires g > 0.0 && Multiple(s, x, g, c)
    ensures Coded(s, x, g, c)
  {
    QuotientNear(x, c, g, s.round(x / g));
    hide Nearest;
  }

  lemma QuotientNear(x: real, c: int, g: real, y: real)
    requires g > 0.0 && Magnitude(x - c as real * g) <= g / 8.0 && Magnitude(y - x / g) <= 0.25
    ensures Nearest(y, c)
  {
    var q := x / g;
    assert q * g == x;
    assert (q - c as real) * g == q * g - c as real * g;
    Gap(q - c as real, g);
  }

  lemma Gap(e: real, g: real)
    requires g > 0.0 && Magnitude(e * g) <= g / 8.0
    ensures Magnitude(e) <= 0.125
  {
    assert (e - 0.125) * g == e * g - g / 8.0;
    assert (-0.125 - e) * g == -(e * g) - g / 8.0;
    if e > 0.125 {
      Positives(e - 0.125, g);
    } else if e < -0.125 {
      Positives(-0.125 - e, g);
    }
  }

  lemma Positives(a: real, b: real)
    requires a > 0.0 && b > 0.0
    ensures a * b > 0.0
  {
  }

  // ---------------------------------------------------------------- matrices

  predicate Matrix(t: Tensor) {
    |t.shape| == 2 && t.dtype == FLOAT && forall i :: 0 <= i < |t.data| ==> t.data[i].Real?
  }

  /** The number in row `r` and column `c`. */
  function NumberAt(w: Tensor, r: nat, c: nat): real
    requires Matrix(w) && |w.data| == w.shape[0] * w.shape[1] && r < w.shape[0] && c < w.shape[1]
  {
    Index2(w.shape[0], w.shape[1], r, c);
    w.data[r * w.shape[1] + c].r
  }

  /** Row `i` of a float matrix. */
  predicate IsRow(w: Tensor, i: nat, row: seq<real>)
    requires Matrix(w) && |w.data| == w.shape[0] * w.shape[1] && i < w.shape[0]
  {
    |row| == w.shape[1] && forall j :: 0 <= j < |row| ==> row[j] == NumberAt(w, i, j)
  }

  lemma RowIs(w: Tensor, i: nat, row: seq<real>)
    requires Matrix(w) && |w.data| == w.shape[0] * w.shape[1] && i < w.shape[0]
    ensures IsRow(w, i, row) <==> row == RowsOf(w.data, w.shape[0], w.shape[1])[i]
  {
    var own := RowsOf(w.data, w.shape[0], w.shape[1])[i];
    forall j | 0 <= j < w.shape[1] ensures own[j] == NumberAt(w, i, j) {
      Index2(w.shape[0], w.shape[1], i, j);
    }
  }

  /** Every row is integer codes times a scale. */
  ghost predicate IntegerRows(s: Semantics, ulp: (real, int) -> real, w: Tensor)
    requires Matrix(w) && |w.data| == w.shape[0] * w.shape[1]
  {
    forall i, row :: 0 <= i < w.shape[0] && IsRow(w, i, row) ==> IntegerRow(s, ulp, row)
  }

  lemma IntegerRowsIff(s: Semantics, ulp: (real, int) -> real, w: Tensor)
    requires Matrix(w) && |w.data| == w.shape[0] * w.shape[1] && w.shape[1] > 0
    ensures AllInt4(s, ulp, RowsOf(w.data, w.shape[0], w.shape[1])) <==> IntegerRows(s, ulp, w)
  {
    var rows := RowsOf(w.data, w.shape[0], w.shape[1]);
    hide IntegerRow, Int4, RowsOf, IsRow;
    forall i | 0 <= i < w.shape[0] ensures IsRow(w, i, rows[i]) && (Int4(s, ulp, rows[i]) <==> IntegerRow(s, ulp, rows[i])) {
      RowIs(w, i, rows[i]);
      IntegerRowIff(s, ulp, rows[i]);
    }
    forall i, row | 0 <= i < w.shape[0] && IsRow(w, i, row) ensures row == rows[i] {
      RowIs(w, i, row);
    }
  }

  /** Every column has one magnitude besides zero. */
  ghost predicate TernaryColumns(w: Tensor)
    requires Matrix(w) && |w.data| == w.shape[0] * w.shape[1]
  {
    forall i :: 0 <= i < w.shape[1] ==> TernaryColumn(w, i)
  }

  ghost predicate TernaryColumn(w: Tensor, i: nat)
    requires Matrix(w) && |w.data| == w.shape[0] * w.shape[1] && i < w.shape[1]
  {
    exists g: real :: g >= 0.0 && ColumnOf(w, i, g)
  }

  predicate ColumnOf(w: Tensor, i: nat, g: real)
    requires Matrix(w) && |w.data| == w.shape[0] * w.shape[1] && i < w.shape[1]
  {
    forall j :: 0 <= j < w.shape[0] ==> NumberAt(w, j, i) == 0.0 || NumberAt(w, j, i) == g || NumberAt(w, j, i) == -g
  }

  lemma ColumnElement(w: Tensor, i: nat, j: nat)
    requires Matrix(w) && |w.data| == w.shape[0] * w.shape[1] && i < w.shape[1] && j < w.shape[0]
    ensures TransposedRows(w)[i][j] == NumberAt(w, j, i)
  {
    Index2(w.shape[0], w.shape[1], j, i);
    TransposedElement(w, i, j);
  }

  lemma ColumnIs(w: Tensor, i: nat, g: real)
    requires Matrix(w) && |w.data| == w.shape[0] * w.shape[1] && i < w.shape[1]
    ensures ColumnOf(w, i, g) <==> TernaryRow(TransposedRows(w)[i], g)
  {
    forall j | 0 <= j < w.shape[0] ensures TransposedRows(w)[i][j] == NumberAt(w, j, i) {
      ColumnElement(w, i, j);
    }
    hide TransposedRows;
  }

  lemma TernaryColumnsIff(w: Tensor)
    requires Matrix(w) && |w.data| == w.shape[0] * w.shape[1]
    ensures RowScale(TransposedRows(w)).Some? <==> TernaryColumns(w)
  {
    var rows := TransposedRows(w);
    hide TransposedRows, TernaryRow, ColumnOf;
    if RowScale(rows).Some? {
      forall i | 0 <= i < w.shape[1] ensures TernaryColumn(w, i) {
        var g := RowScale(rows).value[i];
        ColumnIs(w, i, g);
        assert g >= 0.0 && ColumnOf(w, i, g);
      }
    }
    if TernaryColumns(w) {
      var g := seq(|rows|, i requires 0 <= i < |rows| => SomeScale(w, i));
      forall i | 0 <= i < |rows| ensures g[i] >= 0.0 && TernaryRow(rows[i], g[i]) {
        ColumnIs(w, i, g[i]);
      }
      RowScaleComplete(rows, g);
    }
  }

  ghost function SomeScale(w: Tensor, i: nat): (g: real)
    requires Matrix(w) && |w.data| == w.shape[0] * w.shape[1] && TernaryColumns(w) && i < w.shape[1]
    ensures g >= 0.0 && ColumnOf(w, i, g)
  {
    assert TernaryColumn(w, i);
    var g: real :| g >= 0.0 && ColumnOf(w, i, g);
    g
  }

  // ---------------------------------------------------------------- the scales

  /** Row `i`'s scale stands once for each of its blocks. */
  predicate Repeated(data: seq<Elem>, blocks: nat, i: nat, g: real) {
    forall j :: 0 <= j < blocks ==> Place(blocks, i, j) < |data| && data[Place(blocks, i, j)] == Real(g)
  }

  lemma RepeatedIs(g: seq<real>, blocks: nat, i: nat)
    requires i < |g|
    ensures Repeated(Repeat(g, blocks), blocks, i, g[i])
  {
    forall j | 0 <= j < blocks
      ensures Place(blocks, i, j) < |Repeat(g, blocks)| && Repeat(g, blocks)[Place(blocks, i, j)] == Real(g[i])
    {
      RepeatAt(g, blocks, i, j);
    }
  }

  /** The scale of a ternary column: its magnitude, and 1 when it is all zero. */
  predicate ColumnScale(w: Tensor, i: nat, g: real)
    requires Matrix(w) && |w.data| == w.shape[0] * w.shape[1] && i < w.shape[1]
  {
    g > 0.0 && ColumnOf(w, i, g) && (g == 1.0 || exists j :: 0 <= j < w.shape[0] && NumberAt(w, j, i) != 0.0)
  }

  ghost predicate ColumnScales(w: Tensor, data: seq<Elem>, blocks: nat)
    requires Matrix(w) && |w.data| == w.shape[0] * w.shape[1]
  {
    forall i :: 0 <= i < w.shape[1] ==> ScaledColumn(w, data, blocks, i)
  }

  ghost predicate ScaledColumn(w: Tensor, data: seq<Elem>, blocks: nat, i: nat)
    requires Matrix(w) && |w.data| == w.shape[0] * w.shape[1] && i < w.shape[1]
  {
    exists g :: ColumnScale(w, i, g) && Repeated(data, blocks, i, g)
  }

  ghost predicate RowScales(s: Semantics, ulp: (real, int) -> real, w: Tensor, data: seq<Elem>, blocks: nat)
    requires Matrix(w) && |w.data| == w.shape[0] * w.shape[1]
  {
    forall i, row :: 0 <= i < w.shape[0] && IsRow(w, i, row) ==> ScaledRow(s, ulp, data, blocks, i, row)
  }

  ghost predicate ScaledRow(s: Semantics, ulp: (real, int) -> real, data: seq<Elem>, blocks: nat, i: nat, row: seq<real>) {
    exists g :: FirstScale(s, ulp, row, g) && Repeated(data, blocks, i, g)
  }

  lemma ColumnScalesAre(w: Tensor, g: seq<real>, blocks: nat)
    requires Matrix(w) && |w.data| == w.shape[0] * w.shape[1] && RowScale(TransposedRows(w)) == Some(g)
    ensures ColumnScales(w, Repeat(Scales(g), blocks), blocks)
  {
    hide Repeated, ColumnScale, Repeat, Scales, RowScale;
    forall i | 0 <= i < w.shape[1] ensures ScaledColumn(w, Repeat(Scales(g), blocks), blocks, i) {
      RepeatedIs(Scales(g), blocks, i);
      ColumnScaleIs(w, g, i);
    }
  }

  lemma ColumnScaleIs(w: Tensor, g: seq<real>, i: nat)
    requires Matrix(w) && |w.data| == w.shape[0] * w.shape[1] && RowScale(TransposedRows(w)) == Some(g) && i < w.shape[1]
    ensures ColumnScale(w, i, Scales(g)[i])
  {
    var row := TransposedRows(w)[i];
    ScaleOf(TransposedRows(w), g, i);
    hide TransposedRows, RowScale, MaxAbs, Scales, TernaryRow, ColumnOf, NumberAt;
    ColumnIs(w, i, g[i]);
    MaxAbsZero(row);
    if g[i] == 0.0 {
      ZeroRow(row);
      ColumnIs(w, i, 1.0);
    } else {
      var j :| 0 <= j < |row| && row[j] != 0.0;
      ColumnElement(w, i, j);
    }
  }

  lemma ScaleOf(rows: seq<seq<real>>, g: seq<real>, i: nat)
    requires RowScale(rows) == Some(g) && i < |rows|
    ensures |g| == |rows| && g[i] == MaxAbs(rows[i]) && g[i] >= 0.0 && TernaryRow(rows[i], g[i])
    ensures Scales(g)[i] == if g[i] == 0.0 then 1.0 else g[i]
  {
  }

  lemma ZeroRow(row: seq<real>)
    requires forall j :: 0 <= j < |row| ==> row[j] == 0.0
    ensures TernaryRow(row, 1.0)
  {
  }

  lemma MaxAbsZero(row: seq<real>)
    ensures MaxAbs(row) == 0.0 <==> forall j :: 0 <= j < |row| ==> row[j] == 0.0
  {
  }

  lemma RowScalesAre(s: Semantics, ulp: (real, int) -> real, w: Tensor, g: seq<real>, codes: seq<seq<int>>, blocks: nat)
    requires Matrix(w) && |w.data| == w.shape[0] * w.shape[1] && w.shape[1] > 0
    requires IntRowsOf(s, ulp, RowsOf(w.data, w.shape[0], w.shape[1])) == Some((g, codes))
    ensures RowScales(s, ulp, w, Repeat(g, blocks), blocks)
  {
    hide FirstGood, Repeated, FirstScale, Repeat, IntRowsOf, RowCodes;
    forall i, row | 0 <= i < w.shape[0] && IsRow(w, i, row)
      ensures ScaledRow(s, ulp, Repeat(g, blocks), blocks, i, row)
    {
      RowIs(w, i, row);
      FirstScaleIs(s, ulp, row, g[i]);
      RepeatedIs(g, blocks, i);
    }
  }

  // ---------------------------------------------------------------- what is read once

  predicate ReadsAt(nodes: seq<Node>, i: nat, p: nat, x: string) {
    i < |nodes| && p < |nodes[i].inputs| && nodes[i].inputs[p] == x
  }

  /** Input `p` of node `i` is `x`, and no other input is. */
  ghost predicate OnlyRead(nodes: seq<Node>, i: nat, p: nat, x: string) {
    ReadsAt(nodes, i, p, x) && forall j: nat, q: nat :: ReadsAt(nodes, j, q, x) ==> j == i && q == p
  }

  ghost predicate ReadOnce(nodes: seq<Node>, x: string) {
    exists i: nat, p: nat :: OnlyRead(nodes, i, p, x)
  }

  /** How often a list has `x`, and where it has it once. */
  predicate OnlyAt(xs: seq<string>, p: nat, x: string) {
    p < |xs| && xs[p] == x && forall q: nat :: q < |xs| && xs[q] == x ==> q == p
  }

  lemma {:induction false} CountNone(xs: seq<string>, x: string)
    ensures multiset(xs)[x] == 0 <==> x !in xs
  {
    assert x in multiset(xs) <==> x in xs;
  }

  lemma CountOnce(xs: seq<string>, x: string)
    ensures multiset(xs)[x] == 1 <==> exists p: nat :: OnlyAt(xs, p, x)
  {
    if x in xs {
      var p: nat :| p < |xs| && xs[p] == x;
      var rest := xs[..p] + xs[p + 1..];
      assert xs == xs[..p] + [x] + xs[p + 1..];
      assert multiset(xs) == multiset(rest) + multiset{x};
      CountNone(rest, x);
      assert multiset(xs)[x] == 1 <==> x !in rest;
      if x !in rest {
        forall q: nat | q < |xs| && q != p ensures xs[q] != x {
          assert xs[q] == rest[if q < p then q else q - 1];
        }
        assert OnlyAt(xs, p, x);
      } else {
        var r :| 0 <= r < |rest| && rest[r] == x;
        var q := if r < p then r else r + 1;
        assert xs[q] == x && q != p;
      }
    } else {
      CountNone(xs, x);
    }
  }

  lemma {:induction false} UsesNone(nodes: seq<Node>, x: string)
    ensures Uses(nodes, x) == 0 <==> forall i: nat, p: nat :: !ReadsAt(nodes, i, p, x)
  {
    if nodes != [] {
      var k := |nodes| - 1;
      UsesNone(nodes[..k], x);
      CountNone(nodes[k].inputs, x);
      if p: nat :| p < |nodes[k].inputs| && nodes[k].inputs[p] == x {
        assert ReadsAt(nodes, k, p, x);
      }
      if i: nat, p: nat :| ReadsAt(nodes[..k], i, p, x) {
        assert ReadsAt(nodes, i, p, x);
      }
      if i: nat, p: nat :| ReadsAt(nodes, i, p, x) {
        assert i == k || ReadsAt(nodes[..k], i, p, x);
      }
    }
  }

  /** The counter says one exactly when the name is read once. */
  lemma {:induction false} UsesOnce(nodes: seq<Node>, x: string)
    ensures Uses(nodes, x) == 1 <==> ReadOnce(nodes, x)
  {
    if nodes != [] {
      var k := |nodes| - 1;
      var front, last := nodes[..k], nodes[k].inputs;
      UsesOnce(front, x);
      UsesNone(front, x);
      CountNone(last, x);
      CountOnce(last, x);
      ReadLast(nodes, x);
    }
  }

  /** A name is read once in all: before the last node and not by it, or by it alone. */
  lemma ReadLast(nodes: seq<Node>, x: string)
    requires nodes != []
    ensures
      var k := |nodes| - 1;
      ReadOnce(nodes, x) <==>
      (ReadOnce(nodes[..k], x) && x !in nodes[k].inputs) ||
      ((forall i: nat, p: nat :: !ReadsAt(nodes[..k], i, p, x)) && exists p: nat :: OnlyAt(nodes[k].inputs, p, x))
  {
    var k := |nodes| - 1;
    var front, last := nodes[..k], nodes[k].inputs;
    forall i: nat, p: nat ensures ReadsAt(nodes, i, p, x) <==> (i == k && p < |last| && last[p] == x) || ReadsAt(front, i, p, x) {
    }
    if i: nat, p: nat :| OnlyRead(nodes, i, p, x) {
      if i == k {
        forall q: nat | q < |last| && last[q] == x ensures q == p {
          assert ReadsAt(nodes, k, q, x);
        }
        assert OnlyAt(last, p, x);
      } else {
        assert ReadsAt(front, i, p, x);
        assert OnlyRead(front, i, p, x);
        if q: nat :| q < |last| && last[q] == x {
          assert ReadsAt(nodes, k, q, x);
        }
      }
    }
    if ReadOnce(front, x) && x !in last {
      var i: nat, p: nat :| OnlyRead(front, i, p, x);
      assert OnlyRead(nodes, i, p, x);
    }
    if p: nat :| OnlyAt(last, p, x) {
      if forall i: nat, p: nat :: !ReadsAt(front, i, p, x) {
        assert OnlyRead(nodes, k, p, x);
      }
    }
  }

  // ---------------------------------------------------------------- what a node becomes

  /** The largest of 16, 32, 64, 128 and 256 that divides the size. */
  predicate IsBlock(size: nat, b: nat) {
    b in {16, 32, 64, 128, 256} && size % b == 0 && forall c :: c in {16, 32, 64, 128, 256} && size % c == 0 ==> c <= b
  }

  lemma BlockIs(size: nat, b: nat)
    ensures Block(size) == Some(b) <==> IsBlock(size, b)
  {
    BlockDivides(size);
  }

  /** A MatMul by an initializer that nothing else reads. */
  ghost predicate OwnMatMul(inits: Env, nodes: seq<Node>, n: Node) {
    n.op == MatMul && Arity(n) && n.inputs[1] in inits && ReadOnce(nodes, n.inputs[1]) && Matrix(inits[n.inputs[1]])
  }

  /** A Gather, axis 0, of rows of an initializer that nothing else reads. */
  ghost predicate OwnGather(inits: Env, nodes: seq<Node>, n: Node) {
    n.op == Gather(0) && Arity(n) && n.inputs[0] in inits && ReadOnce(nodes, n.inputs[0]) && Matrix(inits[n.inputs[0]])
  }

  lemma DataOf(w: Tensor)
    requires |w.shape| == 2
    ensures |w.data| == w.shape[0] * w.shape[1]
  {
    SizeOf2(w.shape);
  }

  ghost predicate Ternary(w: Tensor)
    requires Matrix(w)
  {
    DataOf(w);
    w.shape[0] > 0 && TernaryColumns(w)
  }

  ghost predicate Integers(s: Semantics, ulp: (real, int) -> real, w: Tensor)
    requires Matrix(w)
  {
    DataOf(w);
    w.shape[1] > 0 && IntegerRows(s, ulp, w)
  }

  /** The conversion cannot encode the weight: no block size divides its inner size, or that is zero. */
  ghost predicate Raises(s: Semantics, ulp: (real, int) -> real, inits: Env, nodes: seq<Node>, n: Node) {
    (OwnMatMul(inits, nodes, n) &&
     var w := inits[n.inputs[1]]; w.shape[0] == 0 || (Ternary(w) && w.shape[0] % 16 != 0)) ||
    (OwnGather(inits, nodes, n) &&
     var w := inits[n.inputs[0]]; w.shape[1] == 0 || (Integers(s, ulp, w) && w.shape[1] % 16 != 0))
  }

  ghost predicate ToMatMulNBits(inits: Env, nodes: seq<Node>, n: Node) {
    OwnMatMul(inits, nodes, n) && var w := inits[n.inputs[1]]; Ternary(w) && w.shape[0] % 16 == 0
  }

  ghost predicate ToGatherQ4(s: Semantics, ulp: (real, int) -> real, inits: Env, nodes: seq<Node>, n: Node) {
    OwnGather(inits, nodes, n) && var w := inits[n.inputs[0]]; Integers(s, ulp, w) && w.shape[1] % 16 == 0
  }

  /** The node with packed 2-bit codes and scales, which scales those are, and that they give back the weight. */
  ghost predicate IsMatMulNBits(s: Semantics, n: Node, w: Tensor, node: Node, added: seq<Initializer>)
    requires n.op == MatMul && Arity(n) && Matrix(w)
  {
    var (x, name, k, cols) := (n.inputs[0], n.inputs[1], w.shape[0], w.shape[1]);
    node.op.MatMulNBits? && node.op.k == k && node.op.n == cols && IsBlock(k, node.op.blockSize) &&
    node.inputs == [x, name + ".q2", name + ".scale"] && node.outputs == n.outputs &&
    |added| == 2 && added[0].name == name + ".q2" && added[1].name == name + ".scale" && !added[0].external && !added[1].external &&
    added[0].value.dtype == UINT8 && added[0].value.shape == [cols, k / node.op.blockSize, node.op.blockSize / 4] &&
    added[1].value.dtype == FLOAT && added[1].value.shape == [cols * (k / node.op.blockSize)] &&
    (DataOf(w);
     ColumnScales(w, added[1].value.data, k / node.op.blockSize) &&
     Dequantize(s, added[0].value, added[1].value, 2, node.op.blockSize, cols * k) == Some(TransposeData(k, cols, w.data)))
  }

  /** The node with packed 4-bit codes and scales, which scales those are, and that they give back the weight. */
  ghost predicate IsGatherQ4(s: Semantics, ulp: (real, int) -> real, n: Node, w: Tensor, node: Node, added: seq<Initializer>)
    requires n.op == Gather(0) && Arity(n) && Matrix(w)
  {
    var (name, ids, rows, cols) := (n.inputs[0], n.inputs[1], w.shape[0], w.shape[1]);
    node.op.GatherBlockQuantized? && IsBlock(cols, node.op.blockSize) &&
    node.inputs == [name + ".q4", ids, name + ".scale"] && node.outputs == n.outputs &&
    |added| == 2 && added[0].name == name + ".q4" && added[1].name == name + ".scale" && !added[0].external && !added[1].external &&
    added[0].value.dtype == UINT8 && added[0].value.shape == [rows, cols / 2] &&
    added[1].value.dtype == FLOAT && added[1].value.shape == [rows, cols / node.op.blockSize] &&
    (DataOf(w);
     RowScales(s, ulp, w, added[1].value.data, cols / node.op.blockSize) &&
     Dequantize(s, added[0].value, added[1].value, 4, node.op.blockSize, rows * cols) == Some(w.data))
  }

  lemma MatMulBecomes(s: Semantics, n: Node, w: Tensor)
    requires n.op == MatMul && Arity(n) && Matrix(w)
    requires s.round(0.0) == 0.0 && s.round(1.0) == 1.0 && s.round(-1.0) == -1.0
    requires forall i :: 0 <= i < |w.data| ==> s.round(w.data[i].r) == w.data[i].r
    ensures
      var r := RewriteMatMul(s, n, w);
      (r.Raise? <==> w.shape[0] == 0 || (Ternary(w) && w.shape[0] % 16 != 0)) &&
      (r.New? <==> Ternary(w) && w.shape[0] % 16 == 0) &&
      (r.New? ==> IsMatMulNBits(s, n, w, r.node, r.added))
  {
    DataOf(w);
    if w.shape[0] > 0 {
      TernaryColumnsIff(w);
      hide TernaryColumns, TransposedRows, IsBlock, RowScale;
      if RowScale(TransposedRows(w)).Some? {
        TernaryIsRewritten(s, n, w);
        if w.shape[0] % 16 == 0 {
          MatMulIs(s, n, w);
        }
      }
    }
  }

  lemma MatMulIs(s: Semantics, n: Node, w: Tensor)
    requires n.op == MatMul && Arity(n) && Matrix(w) && RewriteMatMul(s, n, w).New?
    requires s.round(0.0) == 0.0 && s.round(1.0) == 1.0 && s.round(-1.0) == -1.0
    requires forall i :: 0 <= i < |w.data| ==> s.round(w.data[i].r) == w.data[i].r
    ensures IsMatMulNBits(s, n, w, RewriteMatMul(s, n, w).node, RewriteMatMul(s, n, w).added)
  {
    var g, b := RowScale(TransposedRows(w)).value, Block(w.shape[0]).value;
    DataOf(w);
    BlockIs(w.shape[0], b);
    MatMulDequantizes(s, w, b, g);
    ColumnScalesAre(w, g, w.shape[0] / b);
    hide Dequantize, TransposedRows, RowScale, IsBlock, Block, ColumnScales;
  }

  lemma GatherBecomes(s: Semantics, ulp: (real, int) -> real, n: Node, w: Tensor)
    requires n.op == Gather(0) && Arity(n) && Matrix(w)
    ensures
      var r := RewriteGather(s, ulp, n, w);
      (r.Raise? <==> w.shape[1] == 0 || (Integers(s, ulp, w) && w.shape[1] % 16 != 0)) &&
      (r.New? <==> Integers(s, ulp, w) && w.shape[1] % 16 == 0) &&
      (r.New? ==> IsGatherQ4(s, ulp, n, w, r.node, r.added))
  {
    DataOf(w);
    Int4IsRewritten(s, ulp, n, w);
    if w.shape[1] > 0 {
      IntegerRowsIff(s, ulp, w);
      if RewriteGather(s, ulp, n, w).New? {
        GatherIs(s, ulp, n, w);
      }
    }
    hide *;
  }

  lemma GatherIs(s: Semantics, ulp: (real, int) -> real, n: Node, w: Tensor)
    requires n.op == Gather(0) && Arity(n) && Matrix(w) && RewriteGather(s, ulp, n, w).New?
    ensures IsGatherQ4(s, ulp, n, w, RewriteGather(s, ulp, n, w).node, RewriteGather(s, ulp, n, w).added)
  {
    DataOf(w);
    var b, g, codes := GatherParts(s, ulp, n, w);
    GatherDequantizes(s, ulp, w, b, g, codes);
    RowScalesAre(s, ulp, w, g, codes, w.shape[1] / b);
    BlockIs(w.shape[1], b);
    hide Dequantize, IsBlock, IntRowsOf, Block, RowScales;
  }

  /** What stands for a node in the converted graph, and the initializers that come with it. */
  ghost predicate Became(s: Semantics, ulp: (real, int) -> real, inits: Env, n: Node, node: Node, added: seq<Initializer>) {
    if n.op == MatMul && Arity(n) && n.inputs[1] in inits && Matrix(inits[n.inputs[1]]) then
      IsMatMulNBits(s, n, inits[n.inputs[1]], node, added)
    else if n.op == Gather(0) && Arity(n) && n.inputs[0] in inits && Matrix(inits[n.inputs[0]]) then
      IsGatherQ4(s, ulp, n, inits[n.inputs[0]], node, added)
    else false
  }

  lemma NodeBecomes(s: Semantics, ulp: (real, int) -> real, inits: Env, all: seq<Node>, n: Node)
    requires Arity(n) && HoldsWeights(s, inits)
    ensures
      var r := Rewrite(s, ulp, inits, all, n);
      (r.Raise? <==> Raises(s, ulp, inits, all, n)) &&
      (r.New? <==> ToMatMulNBits(inits, all, n) || ToGatherQ4(s, ulp, inits, all, n)) &&
      (r.New? ==> Became(s, ulp, inits, n, r.node, r.added))
  {
    hide ReadOnce, Uses, Integers, Ternary, IsMatMulNBits, IsGatherQ4;
    if n.op.MatMul? && n.inputs[1] in inits {
      UsesOnce(all, n.inputs[1]);
      if Matrix(inits[n.inputs[1]]) {
        MatMulBecomes(s, n, inits[n.inputs[1]]);
      }
    } else if n.op.Gather? && n.inputs[0] in inits {
      UsesOnce(all, n.inputs[0]);
      if Matrix(inits[n.inputs[0]]) && n.op == Gather(0) {
        GatherBecomes(s, ulp, n, inits[n.inputs[0]]);
      }
    }
  }

  // ---------------------------------------------------------------- the whole graph

  /** Node `i` and the initializers that come with it, in the converted graph. */
  ghost predicate Stands(s: Semantics, ulp: (real, int) -> real, inits: Env, all: seq<Node>, n: Node, node: Node,
                         added: seq<Initializer>) {
    if ToMatMulNBits(inits, all, n) || ToGatherQ4(s, ulp, inits, all, n) then Became(s, ulp, inits, n, node, added)
    else node == n && added == []
  }

  /** The weight a node stops reading, if it is converted. */
  ghost function Dropped(s: Semantics, ulp: (real, int) -> real, inits: Env, all: seq<Node>, n: Node): set<string> {
    if ToMatMulNBits(inits, all, n) then {n.inputs[1]} else if ToGatherQ4(s, ulp, inits, all, n) then {n.inputs[0]} else {}
  }

  ghost function DroppedBy(s: Semantics, ulp: (real, int) -> real, inits: Env, all: seq<Node>, i: nat): set<string>
    requires i <= |all|
  {
    if i == 0 then {} else DroppedBy(s, ulp, inits, all, i - 1) + Dropped(s, ulp, inits, all, all[i - 1])
  }

  lemma {:induction false} InDropped(s: Semantics, ulp: (real, int) -> real, inits: Env, all: seq<Node>, i: nat, x: string)
    requires i <= |all|
    ensures x in DroppedBy(s, ulp, inits, all, i) <==> exists k :: 0 <= k < i && x in Dropped(s, ulp, inits, all, all[k])
  {
    hide Dropped;
    if i > 0 {
      InDropped(s, ulp, inits, all, i - 1, x);
    }
  }

  /** What one more converted node adds. */
  lemma ConvertOneMore(s: Semantics, ulp: (real, int) -> real, inits: Env, all: seq<Node>, i: nat)
    requires 0 < i <= |all| && Arities(all) && HoldsWeights(s, inits)
    ensures Convert(s, ulp, inits, all, i).None? <==>
            Convert(s, ulp, inits, all, i - 1).None? || Raises(s, ulp, inits, all, all[i - 1])
    ensures Convert(s, ulp, inits, all, i).Some? ==>
              var c, d := Convert(s, ulp, inits, all, i - 1).value, Convert(s, ulp, inits, all, i).value;
              |d.nodes| == |c.nodes| + 1 && d.nodes[..|c.nodes|] == c.nodes && c.added <= d.added &&
              d.gone == c.gone + Dropped(s, ulp, inits, all, all[i - 1]) &&
              Stands(s, ulp, inits, all, all[i - 1], d.nodes[|c.nodes|], d.added[|c.added|..])
  {
    ArityAt(all, i - 1);
    var n := all[i - 1];
    NodeBecomes(s, ulp, inits, all, n);
    hide Rewrite, Raises, Became, OwnMatMul, OwnGather, Integers, Ternary, HoldsWeights;
    NotBoth(s, ulp, inits, all, n);
    if Convert(s, ulp, inits, all, i).Some? {
      var c, d := Convert(s, ulp, inits, all, i - 1).value, Convert(s, ulp, inits, all, i).value;
      var r := Rewrite(s, ulp, inits, all, n);
      if r.New? {
        assert d.added[|c.added|..] == r.added;
      } else {
        assert d.added[|c.added|..] == [];
      }
    }
  }

  lemma NotBoth(s: Semantics, ulp: (real, int) -> real, inits: Env, all: seq<Node>, n: Node)
    ensures ToMatMulNBits(inits, all, n) ==> n.op == MatMul && Arity(n)
    ensures ToGatherQ4(s, ulp, inits, all, n) ==> n.op == Gather(0) && Arity(n)
  {
  }

  lemma DroppedStep(s: Semantics, ulp: (real, int) -> real, inits: Env, all: seq<Node>, i: nat)
    requires 0 < i <= |all|
    ensures DroppedBy(s, ulp, inits, all, i) == DroppedBy(s, ulp, inits, all, i - 1) + Dropped(s, ulp, inits, all, all[i - 1])
  {
  }

  /** Each node's own initializers, one list after the other. */
  lemma {:induction false} ConvertedParts(s: Semantics, ulp: (real, int) -> real, inits: Env, all: seq<Node>, i: nat)
    returns (parts: seq<seq<Initializer>>)
    requires i <= |all| && Arities(all) && HoldsWeights(s, inits) && Convert(s, ulp, inits, all, i).Some?
    ensures
      var c := Convert(s, ulp, inits, all, i).value;
      |c.nodes| == |parts| == i && c.added == Joined(parts) && c.gone == DroppedBy(s, ulp, inits, all, i) &&
      forall k :: 0 <= k < i ==> Stands(s, ulp, inits, all, all[k], c.nodes[k], parts[k])
  {
    if i == 0 {
      parts := [];
    } else {
      DroppedStep(s, ulp, inits, all, i);
      hide *;
      ConvertOneMore(s, ulp, inits, all, i);
      var before := ConvertedParts(s, ulp, inits, all, i - 1);
      var c, d := Convert(s, ulp, inits, all, i - 1).value, Convert(s, ulp, inits, all, i).value;
      var last := d.added[|c.added|..];
      StandsSnoc(s, ulp, inits, all, i, c, d, before, last);
      parts := before + [last];
    }
  }

  lemma StandsSnoc(s: Semantics, ulp: (real, int) -> real, inits: Env, all: seq<Node>, i: nat, c: Converted, d: Converted,
                   before: seq<seq<Initializer>>, last: seq<Initializer>)
    requires 0 < i <= |all| && |c.nodes| == |before| == i - 1 && |d.nodes| == i && d.nodes[..i - 1] == c.nodes
    requires c.added <= d.added && last == d.added[|c.added|..] && c.added == Joined(before)
    requires forall k :: 0 <= k < i - 1 ==> Stands(s, ulp, inits, all, all[k], c.nodes[k], before[k])
    requires Stands(s, ulp, inits, all, all[i - 1], d.nodes[i - 1], last)
    ensures d.added == Joined(before + [last])
    ensures forall k :: 0 <= k < i ==> Stands(s, ulp, inits, all, all[k], d.nodes[k], (before + [last])[k])
  {
    hide *;
    JoinedSnoc(before, last);
    forall k | 0 <= k < i ensures Stands(s, ulp, inits, all, all[k], d.nodes[k], (before + [last])[k]) {
      if k < i - 1 {
        assert d.nodes[k] == d.nodes[..i - 1][k];
      }
    }
  }

  /** Some of the first `i` nodes raises. */
  ghost predicate SomeRaises(s: Semantics, ulp: (real, int) -> real, inits: Env, all: seq<Node>, i: nat)
    requires i <= |all|
  {
    i > 0 && (SomeRaises(s, ulp, inits, all, i - 1) || Raises(s, ulp, inits, all, all[i - 1]))
  }

  lemma {:induction false} SomeRaisesIff(s: Semantics, ulp: (real, int) -> real, inits: Env, all: seq<Node>, i: nat)
    requires i <= |all|
    ensures SomeRaises(s, ulp, inits, all, i) <==> exists k :: 0 <= k < i && Raises(s, ulp, inits, all, all[k])
  {
    hide Raises;
    if i > 0 {
      SomeRaisesIff(s, ulp, inits, all, i - 1);
    }
  }

  lemma {:induction false} ConvertRaises(s: Semantics, ulp: (real, int) -> real, inits: Env, all: seq<Node>, i: nat)
    requires i <= |all| && Arities(all) && HoldsWeights(s, inits)
    ensures Convert(s, ulp, inits, all, i).None? <==> SomeRaises(s, ulp, inits, all, i)
  {
    if i > 0 {
      ConvertOneMore(s, ulp, inits, all, i);
      hide Convert, Raises, HoldsWeights, Arities;
      ConvertRaises(s, ulp, inits, all, i - 1);
    }
  }

  lemma {:induction false} KeptIff(inits: seq<Initializer>, gone: set<string>, t: Initializer)
    ensures t in KeptInits(inits, gone) <==> t in inits && t.name !in gone
  {
    if inits != [] {
      assert inits == inits[..|inits| - 1] + [inits[|inits| - 1]];
      KeptIff(inits[..|inits| - 1], gone, t);
    }
  }

  /**
   The conversion, said of the graph: it raises exactly when some node does; else every ternary MatMul and int4 Gather whose
   weight is read nowhere else stands as its low-bit operator, every other node as it is; exactly their weights are dropped,
   every other initializer stays, and the new ones follow in the order of the nodes.
   */
  lemma ConvertSays(s: Semantics, ulp: (real, int) -> real, inits: seq<Initializer>, all: seq<Node>)
    returns (parts: seq<seq<Initializer>>)
    requires Arities(all) && HoldsWeights(s, InitEnv(map[], inits))
    ensures
      var env := InitEnv(map[], inits);
      var r := Convert(s, ulp, env, all, |all|);
      (r.None? <==> exists k :: 0 <= k < |all| && Raises(s, ulp, env, all, all[k])) &&
      (r.Some? ==>
         |r.value.nodes| == |parts| == |all| && r.value.added == Joined(parts) &&
         (forall k :: 0 <= k < |all| ==> Stands(s, ulp, env, all, all[k], r.value.nodes[k], parts[k])) &&
         forall t :: t in KeptInits(inits, r.value.gone) <==>
                     t in inits && forall k :: 0 <= k < |all| ==> t.name !in Dropped(s, ulp, env, all, all[k]))
  {
    var env := InitEnv(map[], inits);
    ConvertRaises(s, ulp, env, all, |all|);
    SomeRaisesIff(s, ulp, env, all, |all|);
    parts := [];
    if Convert(s, ulp, env, all, |all|).Some? {
      parts := ConvertedParts(s, ulp, env, all, |all|);
      var gone := Convert(s, ulp, env, all, |all|).value.gone;
      hide Convert, Stands, Dropped, Raises, HoldsWeights, InitEnv;
      forall t
        ensures t in KeptInits(inits, gone) <==>
                t in inits && forall k :: 0 <= k < |all| ==> t.name !in Dropped(s, ulp, env, all, all[k])
      {
        KeptIff(inits, gone, t);
        InDropped(s, ulp, env, all, |all|, t.name);
      }
    }
  }
}
