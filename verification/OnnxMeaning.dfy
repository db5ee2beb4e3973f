/** What the interpreted operators compute, element by element. */
module OnnxMeaning {
  import opened Wrappers
  import opened Arithmetic
  import opened Shapes
  import opened Onnx

  // ---------------------------------------------------------------- Gather along axis 0

  predicate InRange(e: Elem, n: nat) {
    e.Int? && 0 <= e.i + n && e.i < n
  }

  /** Rows `j` of `r` and `p` of `t`, `row` elements each, are the same. */
  predicate SameRow(r: seq<Elem>, j: nat, t: seq<Elem>, p: nat, row: nat) {
    NonNegative(j, row);
    NonNegative(p, row);
    j * row + row <= |r| && p * row + row <= |t| && r[j * row..j * row + row] == t[p * row..p * row + row]
  }

  /** Row `j` of the result is the row that index `j` names, counted from the end when it is negative. */
  predicate GathersRow(r: seq<Elem>, t: Tensor, ids: seq<Elem>, j: nat)
    requires t.shape != [] && j < |ids| && InRange(ids[j], t.shape[0])
  {
    SameRow(r, j, t.data, if ids[j].i < 0 then ids[j].i + t.shape[0] else ids[j].i, Size(t.shape[1..]))
  }

  ghost predicate Gathers(t: Tensor, ids: seq<Elem>, n: nat, r: Option<seq<Elem>>)
    requires t.shape != [] && n <= |ids|
  {
    match r
    case None => exists j :: 0 <= j < n && !InRange(ids[j], t.shape[0])
    case Some(data) =>
      |data| == n * Size(t.shape[1..]) && forall j :: 0 <= j < n ==> InRange(ids[j], t.shape[0]) && GathersRow(data, t, ids, j)
  }

  lemma RowAt(t: Tensor, e: Elem)
    requires t.shape != []
    ensures
      var row := Size(t.shape[1..]);
      match Slice(t.shape, t.data, [e])
      case None => !InRange(e, t.shape[0])
      case Some(block) =>
        InRange(e, t.shape[0]) &&
        var p := if e.i < 0 then e.i + t.shape[0] else e.i;
        |block| == row && 0 <= p * row && p * row + row <= |t.data| && block == t.data[p * row..p * row + row]
  {
    assert [e][1..] == [];
    if InRange(e, t.shape[0]) {
      var p := if e.i < 0 then e.i + t.shape[0] else e.i;
      RowBound(t.shape[0], Size(t.shape[1..]), p);
      Distribute(p, 1, Size(t.shape[1..]));
      var block := Chunk(t.data, t.shape[0], Size(t.shape[1..]), p);
      assert Slice(t.shape[1..], block, [e][1..]) == Some(block);
      assert Wrap(e.i, t.shape[0]) == p;
    }
  }

  function Single(ids: seq<Elem>): (r: seq<seq<Elem>>)
    ensures |r| == |ids| && forall at <- r :: |at| == 1
  {
    seq(|ids|, i requires 0 <= i < |ids| => [ids[i]])
  }

  lemma {:induction false} SlicesSay(t: Tensor, ids: seq<Elem>, n: nat)
    requires t.shape != [] && n <= |ids|
    ensures Gathers(t, ids, n, Slices(t.shape, t.data, Single(ids[..n]), 1))
  {
    hide *;
    if n == 0 {
      NoSlices(t, ids);
    } else {
      var k := n - 1;
      SlicesSay(t, ids, k);
      SlicesSnoc(t, ids, k);
      RowAt(t, ids[k]);
      var (most, last) := (Slices(t.shape, t.data, Single(ids[..k]), 1), Slice(t.shape, t.data, [ids[k]]));
      if most.Some? && last.Some? {
        OneMoreRow(t, ids, k, most.value, last.value);
      } else {
        NoRow(t, ids, k);
      }
    }
  }

  lemma NoSlices(t: Tensor, ids: seq<Elem>)
    requires t.shape != []
    ensures Gathers(t, ids, 0, Slices(t.shape, t.data, Single(ids[..0]), 1))
  {
  }

  lemma NoRow(t: Tensor, ids: seq<Elem>, k: nat)
    requires t.shape != [] && k < |ids| && (Gathers(t, ids, k, None) || !InRange(ids[k], t.shape[0]))
    ensures Gathers(t, ids, k + 1, None)
  {
    hide InRange;
  }

  lemma SlicesSnoc(t: Tensor, ids: seq<Elem>, k: nat)
    requires t.shape != [] && k < |ids|
    ensures
      var (most, last) := (Slices(t.shape, t.data, Single(ids[..k]), 1), Slice(t.shape, t.data, [ids[k]]));
      Slices(t.shape, t.data, Single(ids[..k + 1]), 1) ==
      if most.Some? && last.Some? then Some(most.value + last.value) else None
  {
    assert Single(ids[..k + 1])[..k] == Single(ids[..k]) && Single(ids[..k + 1])[k] == [ids[k]];
    hide Slice, Single;
  }

  lemma OneMoreRow(t: Tensor, ids: seq<Elem>, k: nat, most: seq<Elem>, last: seq<Elem>)
    requires t.shape != [] && k < |ids| && Gathers(t, ids, k, Some(most)) && InRange(ids[k], t.shape[0])
    requires
      var (row, p) := (Size(t.shape[1..]), if ids[k].i < 0 then ids[k].i + t.shape[0] else ids[k].i);
      |last| == row && 0 <= p * row && p * row + row <= |t.data| && last == t.data[p * row..p * row + row]
    ensures Gathers(t, ids, k + 1, Some(most + last))
  {
    var row := Size(t.shape[1..]);
    Distribute(k, 1, row);
    forall j | 0 <= j < k + 1 ensures InRange(ids[j], t.shape[0]) && GathersRow(most + last, t, ids, j) {
      if j < k {
        RowBound(k, row, j);
        assert (most + last)[j * row..j * row + row] == most[j * row..j * row + row];
      } else {
        assert (most + last)[k * row..k * row + row] == last;
      }
    }
  }

  /** Gather along axis 0 takes the rows its indices name, and fails when one names none. */
  lemma GatherSays(t: Tensor, ids: Tensor)
    ensures
      var r := EvalGather(t, ids);
      (r.Some? ==>
         t.shape != [] && r.value.dtype == t.dtype && r.value.shape == ids.shape + t.shape[1..] &&
         Gathers(t, ids.data, |ids.data|, Some(r.value.data))) &&
      (r.None? ==> t.shape == [] || Gathers(t, ids.data, |ids.data|, None))
  {
    if t.shape != [] {
      SlicesSay(t, ids.data, |ids.data|);
      assert ids.data[..|ids.data|] == ids.data;
      assert Single(ids.data) == seq(|ids.data|, i requires 0 <= i < |ids.data| => [ids.data[i]]);
      hide Gathers, Slices;
    }
  }

  // ---------------------------------------------------------------- Transpose and MatMul

  /** `perm = [1, 0]` swaps rows and columns. */
  lemma TransposeSays(t: Tensor, r: nat, c: nat)
    requires |t.shape| == 2 && r < t.shape[0] && c < t.shape[1]
    ensures
      var u := EvalTranspose([1, 0], t);
      u.Some? && u.value.dtype == t.dtype && u.value.shape == [t.shape[1], t.shape[0]] &&
      0 <= r * t.shape[1] + c < |t.data| && 0 <= c * t.shape[0] + r < |u.value.data| &&
      u.value.data[c * t.shape[0] + r] == t.data[r * t.shape[1] + c]
  {
    SizeOf2(t.shape);
    SizeOf2([t.shape[1], t.shape[0]]);
    Index2(t.shape[0], t.shape[1], r, c);
    Index2(t.shape[1], t.shape[0], c, r);
    assert !OrderKeeping([1, 0]) by { assert seq(2, i => i)[0] == 0 && |[1, 0]| == 2; }
  }

  /** Row `r` of `x` and column `c` of `w`. */
  predicate RowAndColumn(x: Tensor, w: Tensor, k: nat, r: nat, c: nat, row: seq<Elem>, column: seq<Elem>)
    requires |w.shape| == 2 && w.shape[0] == k && c < w.shape[1]
  {
    SizeOf2(w.shape);
    NonNegative(r, k);
    |row| == |column| == k && r * k + k <= |x.data| && row == x.data[r * k..r * k + k] &&
    forall p :: 0 <= p < k ==> (Index2(k, w.shape[1], p, c); column[p] == w.data[p * w.shape[1] + c])
  }

  /** Each element of a MatMul by a matrix is the dot product of a row and a column. */
  lemma MatMulSays(s: Semantics, x: Tensor, w: Tensor, lead: seq<nat>, r: nat, c: nat, row: seq<Elem>, column: seq<Elem>)
    requires |w.shape| == 2 && x.shape == lead + [w.shape[0]] && r < Size(lead) && c < w.shape[1]
    requires RowAndColumn(x, w, w.shape[0], r, c, row, column)
    ensures
      var y := EvalMatMul(s, x, w);
      y.Some? && y.value.dtype == FLOAT && y.value.shape == lead + [w.shape[1]] &&
      0 <= r * w.shape[1] + c < |y.value.data| && y.value.data[r * w.shape[1] + c] == s.dot(row, column)
  {
    var (k, n, rows) := (w.shape[0], w.shape[1], Size(lead));
    SizeOf2(w.shape);
    SizeSnoc(lead, k);
    ColumnIs(k, n, w.data, c, column);
    RowIs(x.data, rows, k, r, row);
    LinearAt(s, x, TransposeData(k, n, w.data), lead, n, k, r, c);
    hide TransposeData, Chunk, RowAndColumn, EvalLinear, Size;
  }

  lemma LinearAt(s: Semantics, x: Tensor, w: seq<Elem>, lead: seq<nat>, n: nat, k: nat, r: nat, c: nat)
    requires |w| == n * k && x.shape == lead + [k] && r < Size(lead) && c < n
    ensures |x.data| == Size(lead) * k
    ensures
      var y := EvalLinear(s, x, w, n, k);
      y.Some? && y.value.dtype == FLOAT && y.value.shape == lead + [n] && 0 <= r * n + c < |y.value.data| &&
      y.value.data[r * n + c] == s.dot(Chunk(x.data, Size(lead), k, r), Chunk(w, n, k, c))
  {
    SizeSnoc(lead, k);
    SizeSnoc(lead, n);
    assert x.shape[..|x.shape| - 1] == lead;
    Index2(Size(lead), n, r, c);
    hide Chunk, Size;
  }

  lemma RowIs(data: seq<Elem>, rows: nat, k: nat, r: nat, row: seq<Elem>)
    requires |data| == rows * k && r < rows && 0 <= r * k && r * k + k <= |data| && row == data[r * k..r * k + k]
    ensures Chunk(data, rows, k, r) == row
  {
    RowBound(rows, k, r);
  }

  lemma ColumnIs(k: nat, n: nat, data: seq<Elem>, c: nat, column: seq<Elem>)
    requires |data| == k * n && c < n && |column| == k
    requires forall p :: 0 <= p < k ==> (Index2(k, n, p, c); column[p] == data[p * n + c])
    ensures |TransposeData(k, n, data)| == n * k && Chunk(TransposeData(k, n, data), n, k, c) == column
  {
    RowBound(n, k, c);
    forall p | 0 <= p < k ensures Chunk(TransposeData(k, n, data), n, k, c)[p] == column[p] {
      Index2(n, k, c, p);
    }
  }
}
