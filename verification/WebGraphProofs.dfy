/** What webgraph.py promises: the low-bit graph dequantizes to exactly the float32 weights, so it computes the same. */
module WebGraphProofs {
  import opened Wrappers
  import opened Arithmetic
  import opened Onnx
  import opened Quantize
  import opened WebGraph

  // ---------------------------------------------------------------- weights come back exactly

  /** A matrix whose codes give every row back dequantizes to itself, element by element. */
  lemma EncodedDequantizes(s: Semantics, data: seq<Elem>, rows: nat, cols: nat, codes: seq<seq<int>>, g: seq<real>, bits: nat, b: nat)
    requires |data| == rows * cols && AllReal(data) && bits in {2, 4} && Block(cols) == Some(b) && 0 < cols
    requires |codes| == |g| == rows && forall i :: 0 <= i < rows ==> |codes[i]| == cols && CodesFit(codes[i], bits)
    requires AllGivenBack(s, RowsOf(data, rows, cols), codes, g)
    ensures
      var (q, scale) := Encode(codes, g, cols, bits, b);
      0 < b && Dequantize(s, q, scale, bits, b, rows * cols) == Some(data)
  {
    var (q, scale) := Encode(codes, g, cols, bits, b);
    forall f | 0 <= f < rows * cols
      ensures Dequantized(s, q, scale, bits, b, f) == Some(data[f])
    {
      Split2(rows, cols, f);
      var row, col := f / cols, f % cols;
      assert f == Place(cols, row, col);
      DequantizedExactly(s, q, scale, bits, codes, g, cols, b, row, col);
      assert GivesBack(s, RowsOf(data, rows, cols)[row], codes[row], g[row]);
      assert RowsOf(data, rows, cols)[row][col] == data[f].r;
    }
    DequantizePrefix(s, q, scale, bits, data, b, rows * cols);
    assert data[..rows * cols] == data;
  }

  /** float32 holds 0, 1, -1 and every weight of the graph. */
  ghost predicate HoldsWeights(s: Semantics, inits: Env) {
    s.round(0.0) == 0.0 && s.round(1.0) == 1.0 && s.round(-1.0) == -1.0 &&
    forall x, i :: x in inits && 0 <= i < |inits[x].data| && inits[x].data[i].Real? ==>
      s.round(inits[x].data[i].r) == inits[x].data[i].r
  }

  lemma TransposedHolds(s: Semantics, w: Tensor)
    requires FloatMatrix(w) && forall i :: 0 <= i < |w.data| ==> s.round(w.data[i].r) == w.data[i].r
    ensures forall i :: 0 <= i < w.shape[1] ==> HoldsRow(s, TransposedRows(w)[i])
  {
    forall i | 0 <= i < w.shape[1] ensures HoldsRow(s, TransposedRows(w)[i]) {
      forall j | 0 <= j < w.shape[0] ensures s.round(TransposedRows(w)[i][j]) == TransposedRows(w)[i][j] {
        TransposedElement(w, i, j);
      }
    }
  }

  lemma TransposedElement(w: Tensor, i: nat, j: nat)
    requires FloatMatrix(w) && i < w.shape[1] && j < w.shape[0]
    ensures |w.data| == w.shape[0] * w.shape[1] && Place(w.shape[1], j, i) < |w.data|
    ensures TransposedRows(w)[i][j] == w.data[Place(w.shape[1], j, i)].r
  {
    SizeOf2(w.shape);
    var k, n := w.shape[0], w.shape[1];
    Index2(k, n, j, i);
    Index2(n, k, i, j);
    TransposedAt(w.data, k, n, i, j);
  }

  lemma TransposedAt(data: seq<Elem>, k: nat, n: nat, i: nat, j: nat)
    requires |data| == k * n && i < n && j < k
    ensures Place(k, i, j) < n * k && Place(n, j, i) < k * n
    ensures TransposeData(k, n, data)[Place(k, i, j)] == data[Place(n, j, i)]
  {
    Index2(n, k, i, j);
    Index2(k, n, j, i);
  }

  /** A ternary weight's codes fit 2 bits and give it back, so `matmul_nbits` never fails its assertion. */
  lemma TernaryCodes(s: Semantics, w: seq<seq<real>>, g: seq<real>)
    requires RowScale(w) == Some(g) && forall i :: 0 <= i < |w| ==> HoldsRow(s, w[i])
    requires s.round(0.0) == 0.0 && s.round(1.0) == 1.0 && s.round(-1.0) == -1.0
    ensures AllGivenBack(s, w, Codes(s, w, Scales(g)), Scales(g))
    ensures forall i :: 0 <= i < |w| ==> CodesFit(Codes(s, w, Scales(g))[i], 2)
  {
    forall i | 0 <= i < |w|
      ensures GivesBack(s, w[i], RowCodes(s, w[i], Positive(g[i])), Positive(g[i])) && CodesFit(RowCodes(s, w[i], Positive(g[i])), 2)
    {
      TernaryExact(s, w[i], g[i]);
    }
  }

  /** Of a weight that float32 holds, a ternary one whose inner size is a multiple of 16 is always rewritten. */
  lemma TernaryIsRewritten(s: Semantics, n: Node, w: Tensor)
    requires n.op.MatMul? && Arity(n) && FloatMatrix(w) && w.shape[0] > 0
    requires s.round(0.0) == 0.0 && s.round(1.0) == 1.0 && s.round(-1.0) == -1.0
    requires forall i :: 0 <= i < |w.data| ==> s.round(w.data[i].r) == w.data[i].r
    requires RowScale(TransposedRows(w)).Some?
    ensures RewriteMatMul(s, n, w).New? <==> w.shape[0] % 16 == 0
    ensures RewriteMatMul(s, n, w).Raise? <==> w.shape[0] % 16 != 0
  {
    TransposedHolds(s, w);
    TernaryCodes(s, TransposedRows(w), RowScale(TransposedRows(w)).value);
    BlockDivides(w.shape[0]);
  }

  /** A row that is integer codes times one of the scales that are tried. */
  predicate Int4(s: Semantics, ulp: (real, int) -> real, row: seq<real>) {
    exists t :: 0 <= t < STEPS && Good(s, row, Candidate(s, ulp, row, t))
  }

  predicate AllInt4(s: Semantics, ulp: (real, int) -> real, rows: seq<seq<real>>) {
    forall i :: 0 <= i < |rows| ==> Int4(s, ulp, rows[i])
  }

  /**
   A Gather from rows of a matrix: rewritten exactly when they are int4 and their length is a positive multiple of 16; raises
   when rows are empty, or int4 of another length; left alone otherwise.
   */
  lemma Int4IsRewritten(s: Semantics, ulp: (real, int) -> real, n: Node, w: Tensor)
    requires n.op == Gather(0) && Arity(n) && FloatMatrix(w) && |w.data| == w.shape[0] * w.shape[1]
    ensures
      var int4 := AllInt4(s, ulp, RowsOf(w.data, w.shape[0], w.shape[1]));
      (RewriteGather(s, ulp, n, w).New? <==> w.shape[1] > 0 && int4 && w.shape[1] % 16 == 0) &&
      (RewriteGather(s, ulp, n, w).Raise? <==> w.shape[1] == 0 || (int4 && w.shape[1] % 16 != 0)) &&
      (RewriteGather(s, ulp, n, w).Keep? <==> w.shape[1] > 0 && !int4)
  {
    hide Encode, RowsOf, Good;
    BlockDivides(w.shape[1]);
    IntRowsIff(s, ulp, RowsOf(w.data, w.shape[0], w.shape[1]));
  }

  lemma IntRowsIff(s: Semantics, ulp: (real, int) -> real, rows: seq<seq<real>>)
    ensures IntRowsOf(s, ulp, rows).Some? <==> AllInt4(s, ulp, rows)
  {
    hide Good, Candidate;
    forall i | 0 <= i < |rows| ensures FirstGood(s, ulp, rows[i], 0).Some? <==> Int4(s, ulp, rows[i]) {
      if FirstGood(s, ulp, rows[i], 0).Some? {
        var t := GoodAt(s, ulp, rows[i], 0);
      }
    }
    hide Int4, FirstGood;
  }

  lemma {:induction false} GoodAt(s: Semantics, ulp: (real, int) -> real, row: seq<real>, from: nat) returns (t: nat)
    requires from <= STEPS && FirstGood(s, ulp, row, from).Some?
    ensures t < STEPS && Good(s, row, Candidate(s, ulp, row, t))
    decreases STEPS - from
  {
    hide Good, Candidate;
    if Good(s, row, Candidate(s, ulp, row, from)) {
      t := from;
    } else {
      t := GoodAt(s, ulp, row, from + 1);
    }
  }

  lemma MatMulDequantizes(s: Semantics, w: Tensor, b: nat, g: seq<real>)
    requires FloatMatrix(w) && w.shape[0] > 0 && Block(w.shape[0]) == Some(b) && RowScale(TransposedRows(w)) == Some(g)
    requires s.round(0.0) == 0.0 && s.round(1.0) == 1.0 && s.round(-1.0) == -1.0
    requires forall i :: 0 <= i < |w.data| ==> s.round(w.data[i].r) == w.data[i].r
    ensures
      var k, n := w.shape[0], w.shape[1];
      var (q, scale) := Encode(Codes(s, TransposedRows(w), Scales(g)), Scales(g), k, 2, b);
      0 < b && |w.data| == k * n && Dequantize(s, q, scale, 2, b, n * k) == Some(TransposeData(k, n, w.data))
  {
    var k, n := w.shape[0], w.shape[1];
    SizeOf2(w.shape);
    TransposedHolds(s, w);
    TernaryCodes(s, TransposedRows(w), g);
    TransposedReal(k, n, w.data);
    EncodedDequantizes(s, TransposeData(k, n, w.data), n, k, Codes(s, TransposedRows(w), Scales(g)), Scales(g), 2, b);
  }

  lemma GatherDequantizes(s: Semantics, ulp: (real, int) -> real, w: Tensor, b: nat, g: seq<real>, codes: seq<seq<int>>)
    requires FloatMatrix(w) && w.shape[1] > 0 && Block(w.shape[1]) == Some(b) && |w.data| == w.shape[0] * w.shape[1]
    requires IntRowsOf(s, ulp, RowsOf(w.data, w.shape[0], w.shape[1])) == Some((g, codes))
    ensures
      var (q, scale) := Encode(codes, g, w.shape[1], 4, b);
      0 < b && Dequantize(s, q, scale, 4, b, w.shape[0] * w.shape[1]) == Some(w.data)
  {
    var rows := RowsOf(w.data, w.shape[0], w.shape[1]);
    forall i | 0 <= i < |rows|
      ensures GivesBack(s, rows[i], codes[i], g[i]) && CodesFit(codes[i], 4)
    {
      assert Good(s, rows[i], g[i]);
    }
    EncodedDequantizes(s, w.data, w.shape[0], w.shape[1], codes, g, 4, b);
  }

  // ---------------------------------------------------------------- one rewritten node

  /** The new operator computes the tensor the old one did. */
  lemma MatMulSame(s: Semantics, n: Node, w: Tensor, x: Tensor)
    requires n.op.MatMul? && Arity(n) && RewriteMatMul(s, n, w).New?
    requires s.round(0.0) == 0.0 && s.round(1.0) == 1.0 && s.round(-1.0) == -1.0
    requires forall i :: 0 <= i < |w.data| && w.data[i].Real? ==> s.round(w.data[i].r) == w.data[i].r
    ensures
      var r := RewriteMatMul(s, n, w);
      EvalOp(s, r.node.op, [x, r.added[0].value, r.added[1].value]) == EvalOp(s, n.op, [x, w])
  {
    var g, b := RowScale(TransposedRows(w)).value, Block(w.shape[0]).value;
    MatMulDequantizes(s, w, b, g);
  }

  lemma GatherSame(s: Semantics, ulp: (real, int) -> real, n: Node, w: Tensor, ids: Tensor)
    requires n.op.Gather? && Arity(n) && RewriteGather(s, ulp, n, w).New?
    ensures
      var r := RewriteGather(s, ulp, n, w);
      EvalOp(s, r.node.op, [r.added[0].value, ids, r.added[1].value]) == EvalOp(s, n.op, [w, ids])
  {
    var b, g, codes := GatherParts(s, ulp, n, w);
    GatherDequantizes(s, ulp, w, b, g, codes);
    EvenBlocks(w.shape[1]);
    var (q, scale) := Encode(codes, g, w.shape[1], 4, b);
    QuantizedGather(s, w, q, ids, scale, b);
  }

  lemma EvenBlocks(h: nat)
    requires Block(h).Some?
    ensures h % 2 == 0
  {
    BlockDivides(h);
    Sixteen(h);
  }

  lemma Sixteen(h: nat)
    requires h % 16 == 0
    ensures h % 2 == 0
  {
    DivUnique(h, 2, 8 * (h / 16), 0);
  }

  /** What `gather_q4` builds. */
  lemma GatherParts(s: Semantics, ulp: (real, int) -> real, n: Node, w: Tensor) returns (b: nat, g: seq<real>, codes: seq<seq<int>>)
    requires n.op.Gather? && Arity(n) && RewriteGather(s, ulp, n, w).New?
    ensures FloatMatrix(w) && n.op == Gather(0) && w.shape[1] > 0 && |w.data| == w.shape[0] * w.shape[1]
    ensures IntRowsOf(s, ulp, RowsOf(w.data, w.shape[0], w.shape[1])) == Some((g, codes)) && Block(w.shape[1]) == Some(b)
    ensures
      var r := RewriteGather(s, ulp, n, w);
      r.node.op == GatherBlockQuantized(b) && |r.added| == 2 && (r.added[0].value, r.added[1].value) == Encode(codes, g, w.shape[1], 4, b)
  {
    SizeOf2(w.shape);
    var rows := IntRowsOf(s, ulp, RowsOf(w.data, w.shape[0], w.shape[1])).value;
    b, g, codes := Block(w.shape[1]).value, rows.0, rows.1;
  }

  lemma QuantizedGather(s: Semantics, w: Tensor, q: Tensor, ids: Tensor, scale: Tensor, b: nat)
    requires |w.shape| == 2 && w.dtype == FLOAT && w.shape[1] > 0 && w.shape[1] % 2 == 0 && 0 < b
    requires q.shape == [w.shape[0], w.shape[1] / 2] && Dequantize(s, q, scale, 4, b, w.shape[0] * w.shape[1]) == Some(w.data)
    ensures EvalGatherBlockQuantized(s, q, ids, scale, b) == EvalGather(w, ids)
  {
    assert 2 * (w.shape[1] / 2) == w.shape[1];
    assert w.shape == [w.shape[0], w.shape[1]];
  }

  /** The values a converted graph's environment must hold for one rewritten node. */
  ghost predicate HasAdded(e: Env, added: seq<Initializer>) {
    forall t <- added :: t.name in e && e[t.name] == t.value
  }

  lemma NewStep(s: Semantics, ulp: (real, int) -> real, inits: Env, all: seq<Node>, n: Node, e1: Env, e2: Env, d: set<string>)
    requires Arity(n) && Rewrite(s, ulp, inits, all, n).New? && HoldsWeights(s, inits)
    requires Step(s, n, e1).Some? && Agree(e1, e2, d) && Weights(n) in e1 && e1[Weights(n)] == inits[Weights(n)]
    requires (if n.op.MatMul? then n.inputs[0] else n.inputs[1]) !in d
    requires HasAdded(e2, Rewrite(s, ulp, inits, all, n).added)
    ensures
      var node := Rewrite(s, ulp, inits, all, n).node;
      Step(s, node, e2).Some? && Agree(Step(s, n, e1).value, Step(s, node, e2).value, d)
  {
    var r := Rewrite(s, ulp, inits, all, n);
    NewNames(s, ulp, inits, all, n);
    var args, args' := SameArguments(s, n, r, e1, e2, d);
    if n.op.MatMul? {
      MatMulSame(s, n, inits[Weights(n)], args[0]);
    } else {
      GatherSame(s, ulp, n, inits[Weights(n)], args[1]);
    }
    BindAgrees(e1, e2, d, n.outputs, EvalOp(s, n.op, args).value);
  }

  /** The names a new node and its two new initializers have. */
  predicate Renamed(n: Node, r: Outcome) {
    Arity(n) && (n.op.MatMul? || n.op.Gather?) && r.New? && |r.added| == 2 && r.node.outputs == n.outputs && Arity(r.node) &&
    r.added[0].name == Weights(n) + (if n.op.MatMul? then ".q2" else ".q4") && r.added[1].name == Weights(n) + ".scale" &&
    r.node.inputs == if n.op.MatMul? then [n.inputs[0], r.added[0].name, r.added[1].name]
                     else [r.added[0].name, n.inputs[1], r.added[1].name]
  }

  /** What the old and the new node are applied to. */
  lemma SameArguments(s: Semantics, n: Node, r: Outcome, e1: Env, e2: Env, d: set<string>) returns (args: seq<Tensor>, args': seq<Tensor>)
    requires Renamed(n, r) && Step(s, n, e1).Some? && Agree(e1, e2, d) && HasAdded(e2, r.added)
    requires (if n.op.MatMul? then n.inputs[0] else n.inputs[1]) !in d
    ensures Lookup(e1, n.inputs) == Some(args) && Lookup(e2, r.node.inputs) == Some(args') && |args| == 2 && Weights(n) in e1
    ensures args[if n.op.MatMul? then 1 else 0] == e1[Weights(n)]
    ensures args' == if n.op.MatMul? then [args[0], r.added[0].value, r.added[1].value] else [r.added[0].value, args[1], r.added[1].value]
  {
    assert n.inputs[0] in n.inputs && n.inputs[1] in n.inputs;
    args := [e1[n.inputs[0]], e1[n.inputs[1]]];
    Lookup2(e1, n.inputs);
    assert r.added[0] in r.added && r.added[1] in r.added;
    Lookup3(e2, r.node.inputs);
    args' := [e2[r.node.inputs[0]], e2[r.node.inputs[1]], e2[r.node.inputs[2]]];
  }

  lemma NewNames(s: Semantics, ulp: (real, int) -> real, inits: Env, all: seq<Node>, n: Node)
    requires Arity(n) && Rewrite(s, ulp, inits, all, n).New?
    ensures Renamed(n, Rewrite(s, ulp, inits, all, n))
  {
  }

  lemma Lookup2(e: Env, xs: seq<string>)
    requires |xs| == 2 && xs[0] in e && xs[1] in e
    ensures Lookup(e, xs) == Some([e[xs[0]], e[xs[1]]])
  {
    assert Lookup(e, xs).value == [e[xs[0]], e[xs[1]]];
  }

  lemma Lookup3(e: Env, xs: seq<string>)
    requires |xs| == 3 && xs[0] in e && xs[1] in e && xs[2] in e
    ensures Lookup(e, xs) == Some([e[xs[0]], e[xs[1]], e[xs[2]]])
  {
    assert Lookup(e, xs).value == [e[xs[0]], e[xs[1]], e[xs[2]]];
  }

  // ---------------------------------------------------------------- who reads a dropped weight

  lemma {:induction false} UsesAtLeast(nodes: seq<Node>, i: nat, x: string)
    requires i < |nodes|
    ensures Uses(nodes, x) >= multiset(nodes[i].inputs)[x]
    decreases |nodes|
  {
    if i < |nodes| - 1 {
      UsesAtLeast(nodes[..|nodes| - 1], i, x);
    }
  }

  lemma {:induction false} UsesTwo(nodes: seq<Node>, i: nat, j: nat, x: string)
    requires i < j < |nodes| && x in nodes[i].inputs && x in nodes[j].inputs
    ensures Uses(nodes, x) >= 2
    decreases |nodes|
  {
    var k := |nodes| - 1;
    if j < k {
      UsesTwo(nodes[..k], i, j, x);
    } else {
      UsesAtLeast(nodes[..k], i, x);
      assert nodes[..k][i] == nodes[i];
    }
  }

  /** A dropped weight is the weight of some rewritten node. */
  lemma {:induction false} GoneBy(s: Semantics, ulp: (real, int) -> real, inits: Env, all: seq<Node>, i: nat, x: string) returns (j: nat)
    requires i <= |all| && Arities(all) && Convert(s, ulp, inits, all, i).Some? && x in Convert(s, ulp, inits, all, i).value.gone
    ensures j < i && Arity(all[j]) && Rewrite(s, ulp, inits, all, all[j]).New? && x == Weights(all[j])
  {
    ArityAt(all, i - 1);
    if Rewrite(s, ulp, inits, all, all[i - 1]).New? && x == Weights(all[i - 1]) {
      j := i - 1;
    } else {
      j := GoneBy(s, ulp, inits, all, i - 1, x);
    }
  }

  /** The names a node reads after the conversion, except the new encoded weights. */
  function StillRead(s: Semantics, ulp: (real, int) -> real, inits: Env, all: seq<Node>, n: Node): set<string>
    requires Arity(n)
  {
    if Rewrite(s, ulp, inits, all, n).New? then {if n.op.MatMul? then n.inputs[0] else n.inputs[1]} else Set(n.inputs)
  }

  /** Only weights read once are dropped, and no node still reads one. */
  lemma DroppedUnread(s: Semantics, ulp: (real, int) -> real, inits: Env, all: seq<Node>, i: nat, x: string)
    requires i < |all| && Arities(all) && Convert(s, ulp, inits, all, |all|).Some?
    requires x in Convert(s, ulp, inits, all, |all|).value.gone
    ensures Uses(all, x) == 1 && x in inits && Arity(all[i]) && x !in StillRead(s, ulp, inits, all, all[i])
  {
    ArityAt(all, i);
    var j := GoneBy(s, ulp, inits, all, |all|, x);
    var n := all[i];
    assert x in all[j].inputs;
    if x in StillRead(s, ulp, inits, all, n) {
      assert x in n.inputs;
      if i < j {
        UsesTwo(all, i, j, x);
      } else if j < i {
        UsesTwo(all, j, i, x);
      } else {
        assert n.inputs == [x, x];
        UsesAtLeast(all, i, x);
      }
    }
  }

  // ---------------------------------------------------------------- initializers by name

  lemma {:induction false} InitEnvValue(env: Env, inits: seq<Initializer>, t: Initializer)
    requires Unique(inits) && t in inits
    ensures InitEnv(env, inits)[t.name] == t.value
  {
    var k := |inits| - 1;
    assert inits == inits[..k] + [inits[k]];
    if t != inits[k] {
      var i :| 0 <= i < k && inits[i] == t;
      assert inits[..k][i] == t;
      InitEnvValue(env, inits[..k], t);
    }
  }

  lemma {:induction false} InitEnvOther(env: Env, inits: seq<Initializer>, x: string)
    requires x in env && x !in Names(inits)
    ensures InitEnv(env, inits)[x] == env[x]
  {
    if inits != [] {
      var k := |inits| - 1;
      assert inits == inits[..k] + [inits[k]];
      NamesSnoc(inits[..k], inits[k]);
      InitEnvOther(env, inits[..k], x);
    }
  }

  lemma {:induction false} KeptMember(inits: seq<Initializer>, gone: set<string>, t: Initializer)
    ensures t in KeptInits(inits, gone) <==> t in inits && t.name !in gone
  {
    if inits != [] {
      var k := |inits| - 1;
      assert inits == inits[..k] + [inits[k]];
      KeptMember(inits[..k], gone, t);
    }
  }

  lemma {:induction false} KeptUnique(inits: seq<Initializer>, gone: set<string>)
    requires Unique(inits)
    ensures Unique(KeptInits(inits, gone)) && Names(KeptInits(inits, gone)) == Names(inits) - gone
  {
    if inits != [] {
      var k := |inits| - 1;
      var kept := KeptInits(inits[..k], gone);
      assert inits == inits[..k] + [inits[k]];
      KeptUnique(inits[..k], gone);
      NamesSnoc(inits[..k], inits[k]);
      NamesSnoc(kept, inits[k]);
    }
  }

  lemma {:induction false} UniqueConcat(a: seq<Initializer>, b: seq<Initializer>)
    requires Unique(a) && Unique(b) && Names(a) !! Names(b)
    ensures Unique(a + b) && Names(a + b) == Names(a) + Names(b)
  {
    if b == [] {
      assert a + b == a;
    } else {
      var k := |b| - 1;
      assert b == b[..k] + [b[k]];
      NamesSnoc(b[..k], b[k]);
      UniqueConcat(a, b[..k]);
      NamesSnoc(a + b[..k], b[k]);
      assert a + b == (a + b[..k]) + [b[k]];
    }
  }

  // ---------------------------------------------------------------- names of the encoded weights

  /** The names `.q2`, `.q4` and `.scale` the weights' encodings could get. */
  function Encodings(names: set<string>): set<string> {
    (set x | x in names :: x + ".q2") + (set x | x in names :: x + ".q4") + (set x | x in names :: x + ".scale")
  }

  /** They are new: no input, initializer or node output has one of them; and no initializer is a graph input. */
  predicate Fresh(inputs: set<string>, inits: seq<Initializer>, all: seq<Node>) {
    Unique(inits) && inputs !! Names(inits) && Encodings(Names(inits)) !! inputs + Names(inits) + Defined({}, all)
  }

  /** Encoding names of different weights, and of different kinds, differ. */
  lemma EncodingApart(x: string, names: set<string>)
    requires x !in names
    ensures x + ".q2" !in Encodings(names) && x + ".q4" !in Encodings(names) && x + ".scale" !in Encodings(names)
    ensures x + ".q2" != x + ".scale" && x + ".q4" != x + ".scale"
  {
    forall y | y in names
      ensures x + ".q2" != y + ".q2" && x + ".q4" != y + ".q4" && x + ".scale" != y + ".scale"
      ensures x + ".q2" != y + ".q4" && x + ".q2" != y + ".scale" && x + ".q4" != y + ".q2"
      ensures x + ".q4" != y + ".scale" && x + ".scale" != y + ".q2" && x + ".scale" != y + ".q4"
    {
      LastChars(x);
      LastChars(y);
      assert (x + ".q2")[..|x|] == x && (y + ".q2")[..|y|] == y;
      assert (x + ".q4")[..|x|] == x && (y + ".q4")[..|y|] == y;
      assert (x + ".scale")[..|x|] == x && (y + ".scale")[..|y|] == y;
    }
    LastChars(x);
  }

  lemma LastChars(x: string)
    ensures (x + ".q2")[|x| + 2] == '2' && (x + ".q4")[|x| + 2] == '4' && (x + ".scale")[|x| + 5] == 'e'
    ensures |x + ".q2"| == |x| + 3 == |x + ".q4"| && |x + ".scale"| == |x| + 6
  {
  }

  lemma {:induction false} AddedUnique(s: Semantics, ulp: (real, int) -> real, inits: Env, all: seq<Node>, i: nat)
    requires i <= |all| && Arities(all) && Convert(s, ulp, inits, all, i).Some?
    ensures
      var c := Convert(s, ulp, inits, all, i).value;
      Unique(c.added) && Names(c.added) <= Encodings(c.gone) && c.gone <= inits.Keys
  {
    if i > 0 {
      AddedUnique(s, ulp, inits, all, i - 1);
      ArityAt(all, i - 1);
      var r := Rewrite(s, ulp, inits, all, all[i - 1]);
      if r.New? {
        WeightsNew(s, ulp, inits, all, i - 1);
        AddedOne(s, ulp, inits, all, all[i - 1], Convert(s, ulp, inits, all, i - 1).value);
      }
    }
  }

  lemma AddedOne(s: Semantics, ulp: (real, int) -> real, inits: Env, all: seq<Node>, n: Node, c: Converted)
    requires Arity(n) && Rewrite(s, ulp, inits, all, n).New? && Weights(n) !in c.gone
    requires Unique(c.added) && Names(c.added) <= Encodings(c.gone)
    ensures
      var added := c.added + Rewrite(s, ulp, inits, all, n).added;
      Unique(added) && Names(added) <= Encodings(c.gone + {Weights(n)})
  {
    NewNames(s, ulp, inits, all, n);
    AddedPair(c.added, c.gone, Weights(n), Rewrite(s, ulp, inits, all, n).added);
  }

  /** A node's weights were not dropped before: they are read once. */
  lemma WeightsNew(s: Semantics, ulp: (real, int) -> real, inits: Env, all: seq<Node>, i: nat)
    requires i < |all| && Arities(all) && Convert(s, ulp, inits, all, i).Some? && Arity(all[i])
    requires Rewrite(s, ulp, inits, all, all[i]).New?
    ensures Weights(all[i]) !in Convert(s, ulp, inits, all, i).value.gone
  {
    var x := Weights(all[i]);
    if x in Convert(s, ulp, inits, all, i).value.gone {
      var j := GoneBy(s, ulp, inits, all, i, x);
      UsesTwo(all, j, i, x);
    }
  }

  lemma AddedPair(added: seq<Initializer>, gone: set<string>, x: string, more: seq<Initializer>)
    requires Unique(added) && Names(added) <= Encodings(gone) && x !in gone && |more| == 2
    requires more[0].name in {x + ".q2", x + ".q4"} && more[1].name == x + ".scale"
    ensures Unique(added + more) && Names(added + more) <= Encodings(gone + {x})
  {
    EncodingApart(x, gone);
    NamesSnoc(added, more[0]);
    NamesSnoc(added + [more[0]], more[1]);
    assert added + more == added + [more[0]] + [more[1]];
    assert x in gone + {x};
    assert forall y :: y in gone ==> y in gone + {x};
  }

  // ---------------------------------------------------------------- the whole graph

  lemma StepKeeps(s: Semantics, n: Node, e: Env, x: string)
    requires Step(s, n, e).Some? && x in e && x !in n.outputs
    ensures x in Step(s, n, e).value && Step(s, n, e).value[x] == e[x]
  {
  }

  /** None of the first `i` nodes still reads a dropped weight. */
  ghost predicate ReadsKept(s: Semantics, ulp: (real, int) -> real, inits: Env, all: seq<Node>, gone: set<string>, i: nat)
    requires i <= |all|
  {
    i == 0 || (ReadsKept(s, ulp, inits, all, gone, i - 1) && Arity(all[i - 1]) && StillRead(s, ulp, inits, all, all[i - 1]) !! gone)
  }

  lemma {:induction false} DroppedAllUnread(s: Semantics, ulp: (real, int) -> real, inits: Env, all: seq<Node>, i: nat)
    requires i <= |all| && Arities(all) && Convert(s, ulp, inits, all, |all|).Some?
    ensures ReadsKept(s, ulp, inits, all, Convert(s, ulp, inits, all, |all|).value.gone, i)
  {
    if i > 0 {
      DroppedAllUnread(s, ulp, inits, all, i - 1);
      ArityAt(all, i - 1);
      forall x | x in Convert(s, ulp, inits, all, |all|).value.gone ensures x !in StillRead(s, ulp, inits, all, all[i - 1]) {
        DroppedUnread(s, ulp, inits, all, i - 1, x);
      }
    }
  }

  ghost predicate Within(a: seq<Initializer>, b: seq<Initializer>) {
    forall t :: t in a ==> t in b
  }

  ghost predicate StartsWith(inits: Env, e: Env) {
    forall x :: x in inits ==> x in e && e[x] == inits[x]
  }

  /** What one more converted node adds. */
  lemma ConvertSnoc(s: Semantics, ulp: (real, int) -> real, inits: Env, all: seq<Node>, i: nat, added: seq<Initializer>)
    requires 0 < i <= |all| && Arities(all) && Convert(s, ulp, inits, all, i).Some? && Arity(all[i - 1])
    requires Within(Convert(s, ulp, inits, all, i).value.added, added)
    ensures Convert(s, ulp, inits, all, i - 1).Some? && Within(Convert(s, ulp, inits, all, i - 1).value.added, added)
    ensures
      var r := Rewrite(s, ulp, inits, all, all[i - 1]);
      !r.Raise? && (r.New? ==> Within(r.added, added)) &&
      Convert(s, ulp, inits, all, i).value.nodes ==
      Convert(s, ulp, inits, all, i - 1).value.nodes + [if r.New? then r.node else all[i - 1]]
  {
  }

  lemma {:induction false} ConvertRun(s: Semantics, ulp: (real, int) -> real, inits: Env, all: seq<Node>, i: nat,
                                      e1: Env, e2: Env, gone: set<string>, added: seq<Initializer>)
    requires i <= |all| && Arities(all) && Convert(s, ulp, inits, all, i).Some? && HoldsWeights(s, inits)
    requires Run(s, all[..i], e1).Some? && Agree(e1, e2, gone) && HasAdded(e2, added)
    requires ReadsKept(s, ulp, inits, all, gone, i) && Within(Convert(s, ulp, inits, all, i).value.added, added)
    requires Names(added) + inits.Keys !! Defined({}, all[..i]) && StartsWith(inits, e1)
    ensures
      var nodes := Convert(s, ulp, inits, all, i).value.nodes;
      Run(s, nodes, e2).Some? && Agree(Run(s, all[..i], e1).value, Run(s, nodes, e2).value, gone) &&
      HasAdded(Run(s, nodes, e2).value, added)
    decreases i
  {
    if i > 0 {
      var prefix, n := all[..i - 1], all[i - 1];
      assert all[..i][..i - 1] == prefix;
      ConvertSnoc(s, ulp, inits, all, i, added);
      ConvertRun(s, ulp, inits, all, i - 1, e1, e2, gone, added);
      var nodes := Convert(s, ulp, inits, all, i - 1).value.nodes;
      ConvertLast(s, ulp, inits, all, n, prefix, nodes, e1, e2, gone, added);
    }
  }

  lemma ConvertLast(s: Semantics, ulp: (real, int) -> real, inits: Env, all: seq<Node>, n: Node,
                    prefix: seq<Node>, nodes: seq<Node>, e1: Env, e2: Env, gone: set<string>, added: seq<Initializer>)
    requires Arity(n) && !Rewrite(s, ulp, inits, all, n).Raise? && HoldsWeights(s, inits)
    requires Run(s, prefix, e1).Some? && Step(s, n, Run(s, prefix, e1).value).Some? && Run(s, nodes, e2).Some?
    requires Agree(Run(s, prefix, e1).value, Run(s, nodes, e2).value, gone) && HasAdded(Run(s, nodes, e2).value, added)
    requires StillRead(s, ulp, inits, all, n) !! gone && StartsWith(inits, e1)
    requires Rewrite(s, ulp, inits, all, n).New? ==> Within(Rewrite(s, ulp, inits, all, n).added, added)
    requires Names(added) + inits.Keys !! Defined({}, prefix) + Set(n.outputs)
    ensures
      var node := if Rewrite(s, ulp, inits, all, n).New? then Rewrite(s, ulp, inits, all, n).node else n;
      var r := Run(s, nodes + [node], e2);
      r.Some? && Agree(Step(s, n, Run(s, prefix, e1).value).value, r.value, gone) && HasAdded(r.value, added)
  {
    var node := if Rewrite(s, ulp, inits, all, n).New? then Rewrite(s, ulp, inits, all, n).node else n;
    ConvertOne(s, ulp, inits, all, n, Run(s, prefix, e1).value, Run(s, nodes, e2).value, gone, added, prefix, e1);
  }

  lemma ConvertOne(s: Semantics, ulp: (real, int) -> real, inits: Env, all: seq<Node>, n: Node, f1: Env, f2: Env,
                   gone: set<string>, added: seq<Initializer>, before: seq<Node>, e1: Env)
    requires Arity(n) && !Rewrite(s, ulp, inits, all, n).Raise? && HoldsWeights(s, inits)
    requires Run(s, before, e1) == Some(f1) && Step(s, n, f1).Some? && Agree(f1, f2, gone) && HasAdded(f2, added)
    requires StillRead(s, ulp, inits, all, n) !! gone && StartsWith(inits, e1)
    requires Rewrite(s, ulp, inits, all, n).New? ==> Within(Rewrite(s, ulp, inits, all, n).added, added)
    requires Names(added) + inits.Keys !! Defined({}, before) + Set(n.outputs)
    ensures
      var node := if Rewrite(s, ulp, inits, all, n).New? then Rewrite(s, ulp, inits, all, n).node else n;
      Step(s, node, f2).Some? && Agree(Step(s, n, f1).value, Step(s, node, f2).value, gone) &&
      HasAdded(Step(s, node, f2).value, added)
  {
    var r := Rewrite(s, ulp, inits, all, n);
    if r.New? {
      RunKeeps(s, before, e1, Weights(n));
      NewStep(s, ulp, inits, all, n, f1, f2, gone);
      NewNames(s, ulp, inits, all, n);
    } else {
      StepAgrees(s, n, f1, f2, gone);
    }
    var node := if r.New? then r.node else n;
    forall t | t in added
      ensures t.name in Step(s, node, f2).value && Step(s, node, f2).value[t.name] == t.value
    {
      assert t.name in Names(added) && (t.name in n.outputs ==> t.name in Set(n.outputs));
      StepKeeps(s, node, f2, t.name);
    }
  }

  /**
   Wherever the float32 graph runs, the converted one does, and every output that is not itself an initializer keeps
   its value: for every dot product, every rounding that holds the weights, and every other operator.
   */
  lemma ConvertKeepsOutputs(s: Semantics, ulp: (real, int) -> real, env: Env, inits: seq<Initializer>, all: seq<Node>)
    requires WellFormed(env.Keys + Names(inits), all) && Arities(all) && Fresh(env.Keys, inits, all)
    requires HoldsWeights(s, InitEnv(map[], inits)) && Convert(s, ulp, InitEnv(map[], inits), all, |all|).Some?
    requires Run(s, all, InitEnv(env, inits)).Some?
    ensures
      var c := Convert(s, ulp, InitEnv(map[], inits), all, |all|).value;
      var r := Run(s, c.nodes, InitEnv(env, KeptInits(inits, c.gone) + c.added));
      r.Some? && Agree(Run(s, all, InitEnv(env, inits)).value, r.value, Names(inits))
  {
    hide Convert, Run, Agree, HasAdded, StartsWith, ReadsKept, HoldsWeights, WellFormed, Arities, Fresh, Encodings, Unique;
    var start := InitEnv(map[], inits);
    var c := Convert(s, ulp, start, all, |all|).value;
    var e1, e2 := InitEnv(env, inits), InitEnv(env, KeptInits(inits, c.gone) + c.added);
    AddedUnique(s, ulp, start, all, |all|);
    StartsAgree(env, inits, c.gone, c.added, all);
    NodesApart(env.Keys, inits, all, c.gone, c.added);
    assert all[..|all|] == all;
    DroppedAllUnread(s, ulp, start, all, |all|);
    ConvertRun(s, ulp, start, all, |all|, e1, e2, c.gone, c.added);
    AgreeBesides(Run(s, all, e1).value, Run(s, c.nodes, e2).value, c.gone, Names(inits));
  }

  lemma NodesApart(inputs: set<string>, inits: seq<Initializer>, all: seq<Node>, gone: set<string>, added: seq<Initializer>)
    requires WellFormed(inputs + Names(inits), all) && Arities(all) && Fresh(inputs, inits, all)
    requires gone <= Names(inits) && Names(added) <= Encodings(gone)
    ensures Names(added) + Names(inits) !! Defined({}, all)
  {
    BaseApart(inputs + Names(inits), all);
    EncodingsOf(gone, Names(inits));
  }

  lemma AgreeBesides(e1: Env, e2: Env, d: set<string>, d': set<string>)
    requires Agree(e1, e2, d) && d <= d'
    ensures Agree(e1, e2, d')
  {
  }

  lemma EncodingsOf(a: set<string>, b: set<string>)
    requires a <= b
    ensures Encodings(a) <= Encodings(b)
  {
  }

  /** Both graphs start with the same inputs and kept initializers; the new one also has the encoded weights. */
  lemma StartsAgree(env: Env, inits: seq<Initializer>, gone: set<string>, added: seq<Initializer>, all: seq<Node>)
    requires Fresh(env.Keys, inits, all) && gone <= Names(inits) && Unique(added) && Names(added) <= Encodings(gone)
    ensures Agree(InitEnv(env, inits), InitEnv(env, KeptInits(inits, gone) + added), gone)
    ensures HasAdded(InitEnv(env, KeptInits(inits, gone) + added), added)
    ensures StartsWith(InitEnv(map[], inits), InitEnv(env, inits))
  {
    var kept := KeptInits(inits, gone);
    EncodingsOf(gone, Names(inits));
    KeptUnique(inits, gone);
    UniqueConcat(kept, added);
    var e1, e2 := InitEnv(env, inits), InitEnv(env, kept + added);
    forall x | x in e1 && x !in gone ensures x in e2 && e2[x] == e1[x] {
      if x in Names(inits) {
        var t :| t in inits && t.name == x;
        KeptMember(inits, gone, t);
        InitEnvValue(env, inits, t);
        InitEnvValue(env, kept + added, t);
      } else {
        InitEnvOther(env, inits, x);
        InitEnvOther(env, kept + added, x);
      }
    }
    forall t | t in added ensures t.name in e2 && e2[t.name] == t.value {
      InitEnvValue(env, kept + added, t);
      assert t in kept + added && t.name in Names(kept + added);
    }
    forall x | x in InitEnv(map[], inits) ensures e1[x] == InitEnv(map[], inits)[x] {
      var t :| t in inits && t.name == x;
      InitEnvValue(env, inits, t);
      InitEnvValue(map[], inits, t);
    }
  }

  // ---------------------------------------------------------------- what is dropped

  lemma {:induction false} ConvertedReads(s: Semantics, ulp: (real, int) -> real, inits: Env, all: seq<Node>, i: nat, gone: set<string>)
    requires i <= |all| && Arities(all) && Convert(s, ulp, inits, all, i).Some? && ReadsKept(s, ulp, inits, all, gone, i)
    requires Encodings(inits.Keys) !! gone
    ensures InputsOf(Convert(s, ulp, inits, all, i).value.nodes) !! gone
    ensures Defined({}, Convert(s, ulp, inits, all, i).value.nodes) == Defined({}, all[..i])
  {
    hide Rewrite, Encodings;
    if i > 0 {
      assert all[..i][..i - 1] == all[..i - 1];
      ConvertedReads(s, ulp, inits, all, i - 1, gone);
      var n := all[i - 1];
      var nodes := Convert(s, ulp, inits, all, i - 1).value.nodes;
      if Rewrite(s, ulp, inits, all, n).New? {
        NewReads(s, ulp, inits, all, n, gone);
      } else {
      }
    }
  }

  lemma NewReads(s: Semantics, ulp: (real, int) -> real, inits: Env, all: seq<Node>, n: Node, gone: set<string>)
    requires Arity(n) && Rewrite(s, ulp, inits, all, n).New? && StillRead(s, ulp, inits, all, n) !! gone && Encodings(inits.Keys) !! gone
    ensures Set(Rewrite(s, ulp, inits, all, n).node.inputs) !! gone && Rewrite(s, ulp, inits, all, n).node.outputs == n.outputs
  {
    NewNames(s, ulp, inits, all, n);
    var x := Weights(n);
    assert x + ".q2" in Encodings(inits.Keys) && x + ".q4" in Encodings(inits.Keys) && x + ".scale" in Encodings(inits.Keys);
  }

  /**
   Only initializers read exactly once are dropped, no node of the converted graph refers to one, and it defines the same
   names as before.
   */
  lemma DroppedInitializers(s: Semantics, ulp: (real, int) -> real, inputs: set<string>, inits: seq<Initializer>, all: seq<Node>)
    requires Arities(all) && Fresh(inputs, inits, all) && Convert(s, ulp, InitEnv(map[], inits), all, |all|).Some?
    ensures
      var c := Convert(s, ulp, InitEnv(map[], inits), all, |all|).value;
      InputsOf(c.nodes) !! c.gone && Defined({}, c.nodes) == Defined({}, all) &&
      forall x <- c.gone :: x in Names(inits) && Uses(all, x) == 1
  {
    var start := InitEnv(map[], inits);
    var c := Convert(s, ulp, start, all, |all|).value;
    assert all[..|all|] == all;
    assert start.Keys == Names(inits);
    AddedUnique(s, ulp, start, all, |all|);
    DroppedAllUnread(s, ulp, start, all, |all|);
    ConvertedReads(s, ulp, start, all, |all|, c.gone);
    forall x | x in c.gone ensures Uses(all, x) == 1 {
      var j := GoneBy(s, ulp, start, all, |all|, x);
    }
  }
}
