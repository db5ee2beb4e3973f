/**
 The low-bit encodings of train/webgraph.py and the recognizers of train/ternary.py it relies on: which matrices are
 ternary or int4 per row, how codes are packed in bytes, and what a runtime reads back.
 */
module Quantize {
  import opened Wrappers
  import opened Arithmetic
  import opened Onnx

  /** `_block`: the largest of the five block sizes that divides k; None is Python's StopIteration. */
  function Block(k: nat): Option<nat> {
    if k % 256 == 0 then Some(256) else if k % 128 == 0 then Some(128) else if k % 64 == 0 then Some(64)
    else if k % 32 == 0 then Some(32) else if k % 16 == 0 then Some(16) else None
  }

  lemma BlockDivides(k: nat)
    ensures Block(k).Some? <==> k % 16 == 0
    ensures Block(k).Some? ==>
              var b := Block(k).value;
              k % b == 0 && b % 16 == 0 && 16 <= b <= 256 &&
              forall c :: c in {256, 128, 64, 32, 16} && k % c == 0 ==> c <= b
  {
    Halved(k, 128);
    Halved(k, 64);
    Halved(k, 32);
    Halved(k, 16);
  }

  lemma Halved(k: nat, d: nat)
    requires 0 < d
    ensures k % (2 * d) == 0 ==> k % d == 0
  {
    if k % (2 * d) == 0 {
      assert k == 2 * d * (k / (2 * d)) == d * (2 * (k / (2 * d)));
      DivUnique(k, d, 2 * (k / (2 * d)), 0);
    }
  }

  function Per(bits: nat): nat
    requires bits in {2, 4}
  {
    if bits == 2 then 4 else 2
  }

  // ---------------------------------------------------------------- packing

  function Shift(c: bv8, bits: nat, j: nat): bv8
    requires bits in {2, 4} && j < Per(bits)
  {
    if bits == 4 then (if j == 0 then c else c << 4)
    else if j == 0 then c else if j == 1 then c << 2 else if j == 2 then c << 4 else c << 6
  }

  /** Byte `i` after the first `j` codes of its group have been or-ed in. */
  function Or(u: seq<bv8>, bits: nat, i: nat, j: nat): bv8
    requires bits in {2, 4} && j <= Per(bits) && (i + 1) * Per(bits) <= |u|
  {
    if j == 0 then 0 else Or(u, bits, i, j - 1) | Shift(u[i * Per(bits) + j - 1], bits, j - 1)
  }

  function PackedData(u: seq<bv8>, bits: nat): (r: seq<bv8>)
    requires bits in {2, 4} && |u| % Per(bits) == 0
    ensures |r| == |u| / Per(bits)
  {
    seq(|u| / Per(bits), i requires 0 <= i < |u| / Per(bits) => Or(u, bits, i, Per(bits)))
  }

  predicate InRange(u: seq<bv8>, bits: nat) {
    forall i :: 0 <= i < |u| ==> u[i] < (if bits == 2 then 4 else 16)
  }

  /** `_pack`, on the codes in row-major order: the first code of each byte in its lowest bits. */
  method Pack(u: seq<bv8>, bits: nat) returns (out: seq<bv8>)
    requires bits in {2, 4} && |u| % Per(bits) == 0
    ensures out == PackedData(u, bits)
  {
    var per := Per(bits);
    var bytes := new bv8[|u| / per](_ => 0);
    for j := 0 to per
      invariant forall i :: 0 <= i < bytes.Length ==> bytes[i] == Or(u, bits, i, j)
    {
      forall i | 0 <= i < bytes.Length {
        bytes[i] := bytes[i] | Shift(u[i * per + j], bits, j);
      }
    }
    out := bytes[..];
  }

  /** Every code comes back out of the packed bytes, whatever its neighbours are. */
  lemma PackedDecodes(u: seq<bv8>, bits: nat, i: nat)
    requires bits in {2, 4} && |u| % Per(bits) == 0 && InRange(u, bits) && i < |u|
    ensures i / Per(bits) < |u| / Per(bits)
    ensures CodeOf(PackedData(u, bits)[i / Per(bits)], bits, i % Per(bits)) == u[i] as nat
  {
    if bits == 4 {
      Decodes4(u, i / 2);
    } else {
      Decodes2(u, i / 4);
    }
  }

  lemma Decodes4(u: seq<bv8>, g: nat)
    requires |u| % 2 == 0 && InRange(u, 4) && 2 * g < |u|
    ensures var x := PackedData(u, 4)[g]; CodeOf(x, 4, 0) == u[2 * g] as nat && CodeOf(x, 4, 1) == u[2 * g + 1] as nat
  {
    var c0, c1 := u[2 * g], u[2 * g + 1];
    assert Or(u, 4, g, 1) == 0 | c0;
  }

  lemma Decodes2(u: seq<bv8>, g: nat)
    requires |u| % 4 == 0 && InRange(u, 2) && 4 * g < |u|
    ensures var x := PackedData(u, 2)[g];
            CodeOf(x, 2, 0) == u[4 * g] as nat && CodeOf(x, 2, 1) == u[4 * g + 1] as nat &&
            CodeOf(x, 2, 2) == u[4 * g + 2] as nat && CodeOf(x, 2, 3) == u[4 * g + 3] as nat
  {
    var c0, c1, c2, c3 := u[4 * g], u[4 * g + 1], u[4 * g + 2], u[4 * g + 3];
    assert Or(u, 2, g, 1) == 0 | c0;
    assert Or(u, 2, g, 2) == (0 | c0) | (c1 << 2);
    assert Or(u, 2, g, 3) == ((0 | c0) | (c1 << 2)) | (c2 << 4);
    assert Or(u, 2, g, 4) == (((0 | c0) | (c1 << 2)) | (c2 << 4)) | (c3 << 6);
  }

  // ---------------------------------------------------------------- packed tensors and their scales

  function Zero(bits: nat): int
    requires bits in {2, 4}
  {
    if bits == 2 then 2 else 8
  }

  /** Codes plus the zero point, as uint8. */
  function Unsigned(codes: seq<int>, bits: nat): (r: seq<bv8>)
    requires bits in {2, 4}
    ensures |r| == |codes|
  {
    seq(|codes|, i requires 0 <= i < |codes| => ((codes[i] + Zero(bits)) % 256) as bv8)
  }

  predicate CodesFit(codes: seq<int>, bits: nat)
    requires bits in {2, 4}
  {
    forall i :: 0 <= i < |codes| ==> -Zero(bits) <= codes[i] < Zero(bits)
  }

  function ByteData(bytes: seq<bv8>): (r: seq<Elem>)
    ensures |r| == |bytes|
  {
    seq(|bytes|, i requires 0 <= i < |bytes| => Byte(bytes[i]))
  }

  /** The data of a tensor of packed codes. */
  function PackedCodes(codes: seq<int>, bits: nat): (r: seq<Elem>)
    requires bits in {2, 4} && |codes| % Per(bits) == 0
    ensures |r| == |codes| / Per(bits)
  {
    ByteData(PackedData(Unsigned(codes, bits), bits))
  }

  lemma PackedCode(codes: seq<int>, bits: nat, i: nat)
    requires bits in {2, 4} && |codes| % Per(bits) == 0 && CodesFit(codes, bits) && i < |codes|
    ensures i / Per(bits) < |PackedCodes(codes, bits)|
    ensures var e := PackedCodes(codes, bits)[i / Per(bits)];
            e.Byte? && CodeOf(e.b, bits, i % Per(bits)) == codes[i] + Zero(bits)
  {
    var u := Unsigned(codes, bits);
    forall k | 0 <= k < |codes| ensures u[k] < (if bits == 2 then 4 else 16) {
      UnsignedCode(codes[k], bits);
    }
    PackedDecodes(u, bits, i);
    UnsignedCode(codes[i], bits);
  }

  lemma UnsignedCode(c: int, bits: nat)
    requires bits in {2, 4} && -Zero(bits) <= c < Zero(bits)
    ensures var u := ((c + Zero(bits)) % 256) as bv8;
            u < (if bits == 2 then 4 else 16) && u as int == c + Zero(bits)
  {
    assert (c + Zero(bits)) % 256 == c + Zero(bits);
  }

  /** `np.repeat`: each row's scale once per block. */
  function Repeat(g: seq<real>, reps: nat): (r: seq<Elem>)
    ensures |r| == |g| * reps
  {
    seq(|g| * reps, i requires 0 <= i < |g| * reps => Split2(|g|, reps, i); Real(g[i / reps]))
  }

  lemma RepeatAt(g: seq<real>, reps: nat, row: nat, j: nat)
    requires row < |g| && j < reps
    ensures 0 <= row * reps + j < |Repeat(g, reps)| && Repeat(g, reps)[row * reps + j] == Real(g[row])
  {
    Index2(|g|, reps, row, j);
  }

  /** A matrix given by its rows, in row-major order. */
  function Flat<T>(m: seq<seq<T>>, cols: nat): (r: seq<T>)
    requires forall i :: 0 <= i < |m| ==> |m[i]| == cols
    ensures |r| == |m| * cols
  {
    seq(|m| * cols, i requires 0 <= i < |m| * cols => Split2(|m|, cols, i); m[i / cols][i % cols])
  }

  lemma FlatAt<T>(m: seq<seq<T>>, cols: nat, row: nat, col: nat)
    requires forall i :: 0 <= i < |m| ==> |m[i]| == cols
    requires row < |m| && col < cols
    ensures Place(cols, row, col) < |Flat(m, cols)| && Flat(m, cols)[Place(cols, row, col)] == m[row][col]
  {
    Index2(|m|, cols, row, col);
  }

  lemma FlatFits(codes: seq<seq<int>>, bits: nat, cols: nat)
    requires bits in {2, 4} && forall i :: 0 <= i < |codes| ==> |codes[i]| == cols && CodesFit(codes[i], bits)
    ensures CodesFit(Flat(codes, cols), bits)
  {
    forall i | 0 <= i < |codes| * cols ensures -Zero(bits) <= Flat(codes, cols)[i] < Zero(bits) {
      Split2(|codes|, cols, i);
    }
  }

  /** Encoded with the block size `_block` picks, every element decodes to its code times its row's scale. */
  lemma DequantizedExactly(s: Semantics, q: Tensor, scale: Tensor, bits: nat,
                           codes: seq<seq<int>>, g: seq<real>, cols: nat, b: nat, row: nat, col: nat)
    requires bits in {2, 4} && 0 < cols && Block(cols) == Some(b) && row < |g| == |codes| && col < cols
    requires forall i :: 0 <= i < |codes| ==> |codes[i]| == cols && CodesFit(codes[i], bits)
    requires |Flat(codes, cols)| % Per(bits) == 0
    requires q.data == PackedCodes(Flat(codes, cols), bits) && scale.data == Repeat(g, cols / b)
    ensures 0 < b && Dequantized(s, q, scale, bits, b, Place(cols, row, col)) == Some(Real(Weight(s, codes[row][col], g[row])))
  {
    var f := Place(cols, row, col);
    EncodedAt(bits, codes, g, cols, b, row, col);
  }

  lemma EncodedAt(bits: nat, codes: seq<seq<int>>, g: seq<real>, cols: nat, b: nat, row: nat, col: nat)
    requires bits in {2, 4} && 0 < cols && Block(cols) == Some(b) && row < |g| == |codes| && col < cols
    requires forall i :: 0 <= i < |codes| ==> |codes[i]| == cols && CodesFit(codes[i], bits)
    requires |Flat(codes, cols)| % Per(bits) == 0
    ensures
      var f := Place(cols, row, col);
      var q, scale := PackedCodes(Flat(codes, cols), bits), Repeat(g, cols / b);
      0 < b && 0 <= f / Per(bits) < |q| && 0 <= f / b < |scale| && scale[f / b] == Real(g[row]) &&
      q[f / Per(bits)].Byte? && CodeOf(q[f / Per(bits)].b, bits, f % Per(bits)) == codes[row][col] + Zero(bits)
  {
    var f := Place(cols, row, col);
    FlatAt(codes, cols, row, col);
    FlatFits(codes, bits, cols);
    PackedCode(Flat(codes, cols), bits, f);
    DivNonNegative(f, Per(bits));
    ScaleIndex(cols, b, row, col);
    RepeatAt(g, cols / b, row, col / b);
  }

  function Place(cols: nat, row: nat, col: nat): nat
  {
    NonNegative(row, cols);
    row * cols + col
  }

  /** The scale of an element, found by its row and block or by its place in row-major order. */
  lemma ScaleIndex(cols: nat, b: nat, row: nat, col: nat)
    requires Block(cols) == Some(b) && col < cols
    ensures 0 < b && 0 <= col / b < cols / b && Place(cols, row, col) / b == row * (cols / b) + col / b
  {
    BlockDivides(cols);
    DivMul(cols, b);
    Nested(cols / b, b, row, col);
  }

  lemma DivMul(x: nat, d: nat)
    requires 0 < d && x % d == 0
    ensures x == (x / d) * d && 0 <= x / d
  {
  }

  /**
   The byte and slot of an element of rows of `c` blocks of `m` bytes of `per` codes, found in the runtime's layout
   [rows, c, m] or by its place in row-major order.
   */
  lemma ByteIndex(c: nat, m: nat, per: nat, row: nat, col: nat)
    requires 0 < per && 0 < m * per && col < c * (m * per)
    ensures 0 <= row * (c * (m * per)) + col
    ensures (row * (c * (m * per)) + col) / per == (row * c + col / (m * per)) * m + (col % (m * per)) / per
    ensures (row * (c * (m * per)) + col) % per == col % (m * per) % per
  {
    Nested(c, m * per, row, col);
    NonNegative(row, c);
    Nested(m, per, row * c + col / (m * per), col % (m * per));
  }

  /** Elements that dequantize one by one dequantize together. */
  lemma {:induction false} DequantizePrefix(s: Semantics, q: Tensor, scale: Tensor, bits: nat, w: seq<Elem>, b: nat, n: nat)
    requires bits in {2, 4} && 0 < b && n <= |w|
    requires forall f :: 0 <= f < n ==> Dequantized(s, q, scale, bits, b, f) == Some(w[f])
    ensures Dequantize(s, q, scale, bits, b, n) == Some(w[..n])
  {
    hide Dequantized;
    if n > 0 {
      DequantizePrefix(s, q, scale, bits, w, b, n - 1);
      assert w[..n] == w[..n - 1] + [w[n - 1]];
    }
  }

  // ---------------------------------------------------------------- ternary rows

  function Abs(x: real): real { if x < 0.0 then -x else x }

  /** `np.abs(row).max()` of a non-empty row. */
  function MaxAbs(row: seq<real>): (g: real)
    ensures forall i :: 0 <= i < |row| ==> Abs(row[i]) <= g
    ensures g >= 0.0 && (row != [] ==> exists i :: 0 <= i < |row| && g == Abs(row[i]))
  {
    if row == [] then 0.0
    else
      var k := |row| - 1;
      var m, x := MaxAbs(row[..k]), Abs(row[k]);
      assert forall i :: 0 <= i < k ==> row[..k][i] == row[i];
      if m < x || k == 0 then x else m
  }

  predicate TernaryRow(row: seq<real>, g: real) {
    forall j :: 0 <= j < |row| ==> row[j] == 0.0 || row[j] == g || row[j] == -g
  }

  /** `_row_scale`: each row's largest magnitude, when every element is that, its negative or zero. */
  function RowScale(w: seq<seq<real>>): (r: Option<seq<real>>)
    ensures r.Some? ==> |r.value| == |w| && forall i :: 0 <= i < |w| ==> r.value[i] >= 0.0 && TernaryRow(w[i], r.value[i])
  {
    if forall i :: 0 <= i < |w| ==> TernaryRow(w[i], MaxAbs(w[i]))
    then Some(seq(|w|, i requires 0 <= i < |w| => MaxAbs(w[i]))) else None
  }

  /** It accepts every matrix with some scale per row, and then finds that scale: of an all-zero row, zero. */
  lemma RowScaleComplete(w: seq<seq<real>>, g: seq<real>)
    requires |g| == |w| && forall i :: 0 <= i < |w| ==> g[i] >= 0.0 && TernaryRow(w[i], g[i])
    ensures RowScale(w).Some?
    ensures forall i :: 0 <= i < |w| ==>
              RowScale(w).value[i] == if forall j :: 0 <= j < |w[i]| ==> w[i][j] == 0.0 then 0.0 else g[i]
  {
    forall i | 0 <= i < |w|
      ensures TernaryRow(w[i], MaxAbs(w[i]))
      ensures MaxAbs(w[i]) == if forall j :: 0 <= j < |w[i]| ==> w[i][j] == 0.0 then 0.0 else g[i]
    {
      if j :| 0 <= j < |w[i]| && w[i][j] != 0.0 {
        assert Abs(w[i][j]) == g[i];
      }
    }
  }

  /** Round half to even, as `np.rint`. */
  function Rint(x: real): int {
    var f := x.Floor;
    var d := x - f as real;
    if d < 0.5 then f else if d > 0.5 then f + 1 else if f % 2 == 0 then f else f + 1
  }

  predicate HoldsRow(s: Semantics, row: seq<real>) {
    forall j :: 0 <= j < |row| ==> s.round(row[j]) == row[j]
  }

  /** float32 holds the small integers the codes are made of, and the weights. */
  predicate Float32(s: Semantics, w: seq<seq<real>>) {
    s.round(0.0) == 0.0 && s.round(1.0) == 1.0 && s.round(-1.0) == -1.0 && forall i :: 0 <= i < |w| ==> HoldsRow(s, w[i])
  }

  function CodeFor(s: Semantics, x: real, g: real): int
    requires g != 0.0
  {
    Rint(s.round(x / g))
  }

  function RowCodes(s: Semantics, row: seq<real>, g: real): (q: seq<int>)
    requires g != 0.0
    ensures |q| == |row|
  {
    seq(|row|, j requires 0 <= j < |row| => CodeFor(s, row[j], g))
  }

  /** The codes give the row back: the assertion of `matmul_nbits`, and the test of `_int_rows`. */
  predicate GivesBack(s: Semantics, row: seq<real>, codes: seq<int>, g: real) {
    |codes| == |row| && forall j :: 0 <= j < |row| ==> Weight(s, codes[j], g) == row[j]
  }

  function Positive(g: real): (r: real)
    ensures r != 0.0
  {
    if g > 0.0 then g else 1.0
  }

  /** For every row of a matrix `_row_scale` accepts, all-zero rows included, the codes are -1, 0 or 1 and give it back. */
  lemma TernaryExact(s: Semantics, row: seq<real>, g: real)
    requires TernaryRow(row, g) && g >= 0.0 && HoldsRow(s, row)
    requires s.round(0.0) == 0.0 && s.round(1.0) == 1.0 && s.round(-1.0) == -1.0
    ensures var codes := RowCodes(s, row, Positive(g)); GivesBack(s, row, codes, Positive(g)) && CodesFit(codes, 2)
    ensures forall j :: 0 <= j < |row| ==> -1 <= RowCodes(s, row, Positive(g))[j] <= 1
  {
    var p := Positive(g);
    forall j | 0 <= j < |row|
      ensures -1 <= CodeFor(s, row[j], p) <= 1 && Weight(s, CodeFor(s, row[j], p), p) == row[j]
    {
      TernaryElement(s, row[j], p);
    }
  }

  lemma TernaryElement(s: Semantics, x: real, g: real)
    requires g > 0.0 && (x == 0.0 || x == g || x == -g) && s.round(x) == x
    requires s.round(0.0) == 0.0 && s.round(1.0) == 1.0 && s.round(-1.0) == -1.0
    ensures -1 <= CodeFor(s, x, g) <= 1 && Weight(s, CodeFor(s, x, g), g) == x
  {
    if x == 0.0 {
      assert x / g == 0.0;
    } else if x == g {
      assert x / g == 1.0;
    } else {
      assert x / g == -1.0;
    }
  }

  // ---------------------------------------------------------------- int4 rows

  /** The scales `_int_rows` tries for a row: the float32 nearest max / top, then its neighbours, this many ulps away. */
  const STEPS := 7

  function Ulps(t: nat): int
    requires t < STEPS
  {
    match t case 0 => 0 case 1 => 1 case 2 => -1 case 3 => 2 case 4 => -2 case 5 => 3 case _ => -3
  }

  const TOP := 7

  function Candidate(s: Semantics, ulp: (real, int) -> real, row: seq<real>, t: nat): real
    requires t < STEPS
  {
    ulp(MaxReal(s.round(MaxAbs(row) / TOP as real), 0.000000000001), Ulps(t))
  }

  /** Scale `g` gives the row back exactly from codes in -7..7. */
  predicate Good(s: Semantics, row: seq<real>, g: real) {
    g != 0.0 && GivesBack(s, row, RowCodes(s, row, g), g) &&
    forall j :: 0 <= j < |row| ==> -TOP <= RowCodes(s, row, g)[j] <= TOP
  }

  /** The first candidate scale, from the `t`-th on, that gives the row back. */
  function FirstGood(s: Semantics, ulp: (real, int) -> real, row: seq<real>, t: nat): (r: Option<real>)
    requires t <= STEPS
    ensures r.Some? ==> Good(s, row, r.value)
    ensures r.None? ==> forall k :: t <= k < STEPS ==> !Good(s, row, Candidate(s, ulp, row, k))
    decreases STEPS - t
  {
    if t == STEPS then None
    else if Good(s, row, Candidate(s, ulp, row, t)) then Some(Candidate(s, ulp, row, t))
    else FirstGood(s, ulp, row, t + 1)
  }

  function IntRowsOf(s: Semantics, ulp: (real, int) -> real, w: seq<seq<real>>): (r: Option<(seq<real>, seq<seq<int>>)>)
    ensures r.Some? <==> forall i :: 0 <= i < |w| ==> FirstGood(s, ulp, w[i], 0).Some?
    ensures r.Some? ==>
              |r.value.0| == |w| == |r.value.1| &&
              forall i :: 0 <= i < |w| ==>
                r.value.0[i] != 0.0 && FirstGood(s, ulp, w[i], 0) == Some(r.value.0[i]) && r.value.1[i] == RowCodes(s, w[i], r.value.0[i])
  {
    if forall i :: 0 <= i < |w| ==> FirstGood(s, ulp, w[i], 0).Some? then
      var sc := seq(|w|, i requires 0 <= i < |w| => FirstGood(s, ulp, w[i], 0).value);
      Some((sc, seq(|w|, i requires 0 <= i < |w| => RowCodes(s, w[i], sc[i]))))
    else None
  }

  /** What `_int_rows` has recorded for a row after trying `t` candidates. */
  ghost predicate Tried(s: Semantics, ulp: (real, int) -> real, row: seq<real>, t: nat, ok: bool, sc: real, q: seq<int>)
    requires t <= STEPS
  {
    if ok then sc != 0.0 && FirstGood(s, ulp, row, 0) == Some(sc) && q == RowCodes(s, row, sc)
    else FirstGood(s, ulp, row, 0) == FirstGood(s, ulp, row, t)
  }

  /**
   `_int_rows`: a scale and integer codes per row, or None. Every candidate is tried for all rows at once, each row
   keeping the first that gives it back.
   */
  method IntRows(s: Semantics, ulp: (real, int) -> real, w: seq<seq<real>>) returns (r: Option<(seq<real>, seq<seq<int>>)>)
    ensures r == IntRowsOf(s, ulp, w)
  {
    hide AllTried, Tried, Candidate, RowCodes, IntRowsOf;
    var rows := |w|;
    var sc, q, ok := seq(rows, i => 0.0), seq(rows, i => []), seq(rows, i => false);
    NoneTried(s, ulp, w, ok, sc, q);
    for t := 0 to STEPS
      invariant |ok| == |sc| == |q| == rows && AllTried(s, ulp, w, t, ok, sc, q, 0)
    {
      for i := 0 to rows
        invariant |ok| == |sc| == |q| == rows && AllTried(s, ulp, w, t, ok, sc, q, i)
      {
        var sk := Candidate(s, ulp, w[i], t);
        TriedNext(s, ulp, w, t, ok, sc, q, i);
        if !ok[i] && Good(s, w[i], sk) {
          sc, q, ok := sc[i := sk], q[i := RowCodes(s, w[i], sk)], ok[i := true];
        }
      }
      AllTriedNext(s, ulp, w, t, ok, sc, q);
    }
    TriedAll(s, ulp, w, ok, sc, q);
    return if forall i :: 0 <= i < rows ==> ok[i] then Some((sc, q)) else None;
  }

  lemma TriedAll(s: Semantics, ulp: (real, int) -> real, w: seq<seq<real>>, ok: seq<bool>, sc: seq<real>, q: seq<seq<int>>)
    requires AllTried(s, ulp, w, STEPS, ok, sc, q, 0)
    ensures IntRowsOf(s, ulp, w) == if forall i :: 0 <= i < |ok| ==> ok[i] then Some((sc, q)) else None
  {
    assert forall i :: 0 <= i < |w| ==> Tried(s, ulp, w[i], STEPS, ok[i], sc[i], q[i]);
    if forall i :: 0 <= i < |ok| ==> ok[i] {
      var want := IntRowsOf(s, ulp, w).value;
      assert sc == want.0 && q == want.1;
    } else {
      var i :| 0 <= i < |w| && !ok[i];
      assert FirstGood(s, ulp, w[i], 0).None?;
    }
  }

  /** The rows before the `i`-th have tried candidate `t`, the others not yet. */
  ghost predicate AllTried(s: Semantics, ulp: (real, int) -> real, w: seq<seq<real>>, t: nat,
                           ok: seq<bool>, sc: seq<real>, q: seq<seq<int>>, i: nat)
    requires t <= STEPS && (t == STEPS ==> i == 0)
  {
    |ok| == |sc| == |q| == |w| &&
    forall k :: 0 <= k < |w| ==> Tried(s, ulp, w[k], if k < i then t + 1 else t, ok[k], sc[k], q[k])
  }

  lemma NoneTried(s: Semantics, ulp: (real, int) -> real, w: seq<seq<real>>, ok: seq<bool>, sc: seq<real>, q: seq<seq<int>>)
    requires |ok| == |sc| == |q| == |w| && forall i :: 0 <= i < |ok| ==> !ok[i]
    ensures AllTried(s, ulp, w, 0, ok, sc, q, 0)
  {
  }

  lemma TriedNext(s: Semantics, ulp: (real, int) -> real, w: seq<seq<real>>, t: nat,
                  ok: seq<bool>, sc: seq<real>, q: seq<seq<int>>, i: nat)
    requires t < STEPS && i < |w| && AllTried(s, ulp, w, t, ok, sc, q, i)
    ensures
      var sk := Candidate(s, ulp, w[i], t);
      if !ok[i] && Good(s, w[i], sk)
      then AllTried(s, ulp, w, t, ok[i := true], sc[i := sk], q[i := RowCodes(s, w[i], sk)], i + 1)
      else AllTried(s, ulp, w, t, ok, sc, q, i + 1)
  {
    TriedOne(s, ulp, w[i], t, ok[i], sc[i], q[i]);
  }

  lemma TriedOne(s: Semantics, ulp: (real, int) -> real, row: seq<real>, t: nat, ok: bool, sc: real, q: seq<int>)
    requires t < STEPS && Tried(s, ulp, row, t, ok, sc, q)
    ensures
      var sk := Candidate(s, ulp, row, t);
      if !ok && Good(s, row, sk) then Tried(s, ulp, row, t + 1, true, sk, RowCodes(s, row, sk))
      else Tried(s, ulp, row, t + 1, ok, sc, q)
  {
  }

  lemma AllTriedNext(s: Semantics, ulp: (real, int) -> real, w: seq<seq<real>>, t: nat, ok: seq<bool>, sc: seq<real>, q: seq<seq<int>>)
    requires t < STEPS && AllTried(s, ulp, w, t, ok, sc, q, |w|)
    ensures AllTried(s, ulp, w, t + 1, ok, sc, q, 0)
  {
  }
}
