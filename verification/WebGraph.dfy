/**
 `convert` of train/webgraph.py: every MatMul by a ternary weight becomes MatMulNBits over packed 2-bit codes, every
 Gather from int4 rows becomes GatherBlockQuantized, and the float weights they read go.
 */
module WebGraph {
  import opened Wrappers
  import opened Arithmetic
  import opened Shapes
  import opened Onnx
  import opened Quantize

  // ---------------------------------------------------------------- what one node becomes

  datatype Outcome = Keep | Raise | New(node: Node, added: seq<Initializer>)

  predicate AllReal(data: seq<Elem>) {
    forall i :: 0 <= i < |data| ==> data[i].Real?
  }

  /** `w.ndim == 2 and w.dtype == np.float32`. */
  predicate FloatMatrix(t: Tensor) {
    |t.shape| == 2 && t.dtype == FLOAT && AllReal(t.data)
  }

  function RowsOf(data: seq<Elem>, rows: nat, cols: nat): (w: seq<seq<real>>)
    requires |data| == rows * cols && AllReal(data)
    ensures |w| == rows && forall i :: 0 <= i < rows ==> |w[i]| == cols
  {
    seq(rows, i requires 0 <= i < rows => RowAt(data, rows, cols, i))
  }

  function RowAt(data: seq<Elem>, rows: nat, cols: nat, i: nat): (row: seq<real>)
    requires |data| == rows * cols && AllReal(data) && i < rows
    ensures |row| == cols
  {
    seq(cols, j requires 0 <= j < cols => Index2(rows, cols, i, j); data[Place(cols, i, j)].r)
  }

  /** `w.T` of a rank-2 tensor, by rows. */
  function TransposedRows(w: Tensor): (r: seq<seq<real>>)
    requires FloatMatrix(w)
    ensures |r| == w.shape[1] && forall i :: 0 <= i < |r| ==> |r[i]| == w.shape[0]
  {
    SizeOf2(w.shape);
    TransposedReal(w.shape[0], w.shape[1], w.data);
    RowsOf(TransposeData(w.shape[0], w.shape[1], w.data), w.shape[1], w.shape[0])
  }

  lemma TransposedReal(rows: nat, cols: nat, data: seq<Elem>)
    requires |data| == rows * cols && AllReal(data)
    ensures AllReal(TransposeData(rows, cols, data))
  {
    forall i | 0 <= i < cols * rows ensures TransposeData(rows, cols, data)[i].Real? {
      Split2(cols, rows, i);
      Index2(rows, cols, i % rows, i / rows);
    }
  }

  function Scales(g: seq<real>): (r: seq<real>)
    ensures |r| == |g| && forall i :: 0 <= i < |r| ==> r[i] != 0.0
  {
    seq(|g|, i requires 0 <= i < |g| => Positive(g[i]))
  }

  function Codes(s: Semantics, w: seq<seq<real>>, g: seq<real>): (r: seq<seq<int>>)
    requires |g| == |w| && forall i :: 0 <= i < |g| ==> g[i] != 0.0
    ensures |r| == |w| && forall i :: 0 <= i < |w| ==> |r[i]| == |w[i]|
  {
    seq(|w|, i requires 0 <= i < |w| => RowCodes(s, w[i], g[i]))
  }

  predicate AllGivenBack(s: Semantics, w: seq<seq<real>>, codes: seq<seq<int>>, g: seq<real>)
    requires |codes| == |w| == |g|
  {
    forall i :: 0 <= i < |w| ==> GivesBack(s, w[i], codes[i], g[i])
  }

  /** Packed codes and repeated scales, as tensors of these shapes. */
  function Encode(codes: seq<seq<int>>, g: seq<real>, cols: nat, bits: nat, b: nat): (r: (Tensor, Tensor))
    requires bits in {2, 4} && Block(cols) == Some(b) && |codes| == |g| && forall i :: 0 <= i < |codes| ==> |codes[i]| == cols
    ensures |Flat(codes, cols)| % Per(bits) == 0
    ensures 0 < b && r.0.data == PackedCodes(Flat(codes, cols), bits) && r.1.data == Repeat(g, cols / b)
    ensures bits == 4 ==> r.0.shape == [|g|, cols / 2]
  {
    BlockDivides(cols);
    EncodedSizes(|g|, cols, bits, b);
    var q := PackedCodes(Flat(codes, cols), bits);
    if bits == 2 then
      (TensorData(UINT8, [|g|, cols / b, b / 4], q), TensorData(FLOAT, [|g| * (cols / b)], Repeat(g, cols / b)))
    else
      (TensorData(UINT8, [|g|, cols / 2], q), TensorData(FLOAT, [|g|, cols / b], Repeat(g, cols / b)))
  }

  lemma EncodedSizes(rows: nat, cols: nat, bits: nat, b: nat)
    requires bits in {2, 4} && Block(cols) == Some(b)
    ensures 0 < b && (rows * cols) % Per(bits) == 0
    ensures bits == 2 ==> Size([rows, cols / b, b / 4]) == rows * cols / 4
    ensures bits == 4 ==> Size([rows, cols / 2]) == rows * cols / 2
    ensures Size([rows * (cols / b)]) == rows * (cols / b) == Size([rows, cols / b])
  {
    BlockDivides(cols);
    DivMul(cols, b);
    var c, per := cols / b, Per(bits);
    var m := b / per;
    DivMul(b, per);
    Associate(c, m, per);
    Associate(rows, c * m, per);
    DivUnique(cols, per, c * m, 0);
    NonNegative(rows, c * m);
    DivUnique(rows * cols, per, rows * (c * m), 0);
    SizeOf2([rows, cols / b]);
    SizeOf2([rows, cols / 2]);
    SizeOf3(rows, c, b / 4);
    NonNegative(rows, c);
    assert Size([rows * c]) == rows * c * Size([rows * c][1..]);
  }

  lemma SizeOf3(x: nat, y: nat, z: nat)
    ensures Size([x, y, z]) == x * (y * z)
  {
    SizeOf2([y, z]);
    assert [x, y, z][1..] == [y, z];
  }

  /** `matmul_nbits`, when `_row_scale` finds the transposed weight ternary. */
  function RewriteMatMul(s: Semantics, n: Node, w: Tensor): Outcome
    requires n.op.MatMul? && Arity(n)
  {
    if !FloatMatrix(w) then Keep
    else if w.shape[0] == 0 then Raise
    else
      match RowScale(TransposedRows(w))
      case None => Keep
      case Some(g) =>
        match Block(w.shape[0])
        case None => Raise
        case Some(b) =>
          var codes := Codes(s, TransposedRows(w), Scales(g));
          if AllGivenBack(s, TransposedRows(w), codes, Scales(g)) then
            var (q, scale) := Encode(codes, Scales(g), w.shape[0], 2, b);
            New(Node(MatMulNBits(w.shape[0], w.shape[1], b), [n.inputs[0], n.inputs[1] + ".q2", n.inputs[1] + ".scale"], n.outputs),
                [Initializer(n.inputs[1] + ".q2", q, false), Initializer(n.inputs[1] + ".scale", scale, false)])
          else Raise
  }

  /** `gather_q4`, when `_int_rows` finds the rows int4. */
  function RewriteGather(s: Semantics, ulp: (real, int) -> real, n: Node, w: Tensor): Outcome
    requires n.op.Gather? && Arity(n)
  {
    if !FloatMatrix(w) || n.op.axis != 0 then Keep
    else if w.shape[1] == 0 then Raise
    else
      SizeOf2(w.shape);
      match IntRowsOf(s, ulp, RowsOf(w.data, w.shape[0], w.shape[1]))
      case None => Keep
      case Some((g, codes)) =>
        match Block(w.shape[1])
        case None => Raise
        case Some(b) =>
          var (q, scale) := Encode(codes, g, w.shape[1], 4, b);
          New(Node(GatherBlockQuantized(b), [n.inputs[0] + ".q4", n.inputs[1], n.inputs[0] + ".scale"], n.outputs),
              [Initializer(n.inputs[0] + ".q4", q, false), Initializer(n.inputs[0] + ".scale", scale, false)])
  }

  /** How many node inputs read `x`. */
  function Uses(nodes: seq<Node>, x: string): nat {
    if nodes == [] then 0 else Uses(nodes[..|nodes| - 1], x) + multiset(nodes[|nodes| - 1].inputs)[x]
  }

  /** The initializer a rewritten node stops reading. */
  function Weights(n: Node): string
    requires (n.op.MatMul? || n.op.Gather?) && Arity(n)
  {
    if n.op.MatMul? then n.inputs[1] else n.inputs[0]
  }

  function Rewrite(s: Semantics, ulp: (real, int) -> real, inits: Env, all: seq<Node>, n: Node): (r: Outcome)
    requires Arity(n)
    ensures r.New? ==> (n.op.MatMul? || n.op.Gather?) && Uses(all, Weights(n)) == 1 && Weights(n) in inits
  {
    if n.op.MatMul? && n.inputs[1] in inits && Uses(all, n.inputs[1]) == 1 then RewriteMatMul(s, n, inits[n.inputs[1]])
    else if n.op.Gather? && n.inputs[0] in inits && Uses(all, n.inputs[0]) == 1 then RewriteGather(s, ulp, n, inits[n.inputs[0]])
    else Keep
  }

  // ---------------------------------------------------------------- the whole graph

  datatype Converted = Converted(nodes: seq<Node>, gone: set<string>, added: seq<Initializer>)

  /** The first `i` nodes converted; None when a recognized weight cannot be encoded (an exception). */
  function Convert(s: Semantics, ulp: (real, int) -> real, inits: Env, all: seq<Node>, i: nat): Option<Converted>
    requires i <= |all| && Arities(all)
  {
    if i == 0 then Some(Converted([], {}, []))
    else
      var c :- Convert(s, ulp, inits, all, i - 1);
      ArityAt(all, i - 1);
      match Rewrite(s, ulp, inits, all, all[i - 1])
      case Keep => Some(c.(nodes := c.nodes + [all[i - 1]]))
      case Raise => None
      case New(node, added) =>
        Some(Converted(c.nodes + [node], c.gone + {Weights(all[i - 1])}, c.added + added))
  }

  function KeptInits(inits: seq<Initializer>, gone: set<string>): seq<Initializer> {
    if inits == [] then []
    else
      var k := |inits| - 1;
      if inits[k].name in gone then KeptInits(inits[..k], gone) else KeptInits(inits[..k], gone) + [inits[k]]
  }

  // ---------------------------------------------------------------- the code

  /** `users`: how many node inputs read each name. */
  method CountUses(nodes: seq<Node>) returns (users: map<string, nat>)
    ensures forall x :: (if x in users then users[x] else 0) == Uses(nodes, x)
  {
    users := map[];
    for i := 0 to |nodes|
      invariant forall x :: (if x in users then users[x] else 0) == Uses(nodes[..i], x)
    {
      assert nodes[..i + 1][..i] == nodes[..i];
      var inputs := nodes[i].inputs;
      for j := 0 to |inputs|
        invariant forall x :: (if x in users then users[x] else 0) == Uses(nodes[..i], x) + multiset(inputs[..j])[x]
      {
        assert inputs[..j + 1] == inputs[..j] + [inputs[j]];
        users := users[inputs[j] := 1 + if inputs[j] in users then users[inputs[j]] else 0];
      }
      assert inputs[..|inputs|] == inputs;
    }
    assert nodes[..|nodes|] == nodes;
  }

  method PackTensor(codes: seq<seq<int>>, g: seq<real>, cols: nat, bits: nat, b: nat) returns (q: Tensor, scale: Tensor)
    requires bits in {2, 4} && Block(cols) == Some(b) && |codes| == |g| && forall i :: 0 <= i < |codes| ==> |codes[i]| == cols
    ensures (q, scale) == Encode(codes, g, cols, bits, b)
  {
    BlockDivides(cols);
    EncodedSizes(|g|, cols, bits, b);
    var bytes := Pack(Unsigned(Flat(codes, cols), bits), bits);
    assert ByteData(bytes) == PackedCodes(Flat(codes, cols), bits);
    if bits == 2 {
      q, scale := TensorData(UINT8, [|g|, cols / b, b / 4], ByteData(bytes)), TensorData(FLOAT, [|g| * (cols / b)], Repeat(g, cols / b));
    } else {
      q, scale := TensorData(UINT8, [|g|, cols / 2], ByteData(bytes)), TensorData(FLOAT, [|g|, cols / b], Repeat(g, cols / b));
    }
  }

  method MatMulNBitsNode(s: Semantics, n: Node, w: Tensor) returns (r: Outcome)
    requires n.op.MatMul? && Arity(n)
    ensures r == RewriteMatMul(s, n, w)
  {
    if !FloatMatrix(w) { return Keep; }
    if w.shape[0] == 0 { return Raise; }
    var g := RowScale(TransposedRows(w));
    if g.None? { return Keep; }
    var b := Block(w.shape[0]);
    var codes := Codes(s, TransposedRows(w), Scales(g.value));
    if b.None? || !AllGivenBack(s, TransposedRows(w), codes, Scales(g.value)) { return Raise; }
    var q, scale := PackTensor(codes, Scales(g.value), w.shape[0], 2, b.value);
    return New(Node(MatMulNBits(w.shape[0], w.shape[1], b.value), [n.inputs[0], n.inputs[1] + ".q2", n.inputs[1] + ".scale"], n.outputs),
               [Initializer(n.inputs[1] + ".q2", q, false), Initializer(n.inputs[1] + ".scale", scale, false)]);
  }

  method GatherQ4Node(s: Semantics, ulp: (real, int) -> real, n: Node, w: Tensor) returns (r: Outcome)
    requires n.op.Gather? && Arity(n)
    ensures r == RewriteGather(s, ulp, n, w)
  {
    if !FloatMatrix(w) || n.op.axis != 0 { return Keep; }
    if w.shape[1] == 0 { return Raise; }
    SizeOf2(w.shape);
    var rows := IntRows(s, ulp, RowsOf(w.data, w.shape[0], w.shape[1]));
    if rows.None? { return Keep; }
    var b := Block(w.shape[1]);
    if b.None? { return Raise; }
    var (g, codes) := rows.value;
    var q, scale := PackTensor(codes, g, w.shape[1], 4, b.value);
    return New(Node(GatherBlockQuantized(b.value), [n.inputs[0] + ".q4", n.inputs[1], n.inputs[0] + ".scale"], n.outputs),
               [Initializer(n.inputs[0] + ".q4", q, false), Initializer(n.inputs[0] + ".scale", scale, false)]);
  }

  /** `convert`, on the graph in memory; False: an exception, the graph is left alone. */
  method ConvertGraph(s: Semantics, ulp: (real, int) -> real, graph: Graph) returns (ok: bool)
    requires Arities(graph.nodes)
    modifies graph
    ensures
      var c := Convert(s, ulp, InitEnv(map[], old(graph.initializers)), old(graph.nodes), |old(graph.nodes)|);
      ok == c.Some? &&
      graph.nodes == (if ok then c.value.nodes else old(graph.nodes)) &&
      graph.initializers == if ok then KeptInits(old(graph.initializers), c.value.gone) + c.value.added else old(graph.initializers)
  {
    var all := graph.nodes;
    var inits := InitEnv(map[], graph.initializers);
    var users := CountUses(all);
    var nodes: seq<Node>, gone: set<string>, added: seq<Initializer> := [], {}, [];
    for i := 0 to |all|
      invariant graph.nodes == all && graph.initializers == old(graph.initializers)
      invariant Convert(s, ulp, inits, all, i) == Some(Converted(nodes, gone, added))
    {
      var n := all[i];
      ArityAt(all, i);
      var r := Keep;
      if n.op.MatMul? {
        assert (if n.inputs[1] in users then users[n.inputs[1]] else 0) == Uses(all, n.inputs[1]);
        if n.inputs[1] in inits && n.inputs[1] in users && users[n.inputs[1]] == 1 {
          r := MatMulNBitsNode(s, n, inits[n.inputs[1]]);
        }
      } else if n.op.Gather? {
        assert (if n.inputs[0] in users then users[n.inputs[0]] else 0) == Uses(all, n.inputs[0]);
        if n.inputs[0] in inits && n.inputs[0] in users && users[n.inputs[0]] == 1 {
          r := GatherQ4Node(s, ulp, n, inits[n.inputs[0]]);
        }
      }
      assert r == Rewrite(s, ulp, inits, all, n);
      match r {
        case Keep =>
          nodes := nodes + [n];
        case Raise =>
          ConvertFails(s, ulp, inits, all, i + 1);
          return false;
        case New(node, more) =>
          nodes, gone, added := nodes + [node], gone + {Weights(n)}, added + more;
      }
    }
    graph.nodes, graph.initializers := nodes, KeptInits(graph.initializers, gone) + added;
    return true;
  }

  lemma {:induction false} ConvertFails(s: Semantics, ulp: (real, int) -> real, inits: Env, all: seq<Node>, i: nat)
    requires i <= |all| && Arities(all) && Convert(s, ulp, inits, all, i).None?
    ensures Convert(s, ulp, inits, all, |all|).None?
    decreases |all| - i
  {
    if i < |all| {
      ConvertFails(s, ulp, inits, all, i + 1);
    }
  }
}
