/**
 The part of ONNX the graph rewrites rely on: tensors in row-major order, nodes in execution order, and an evaluator
 that fails on any ill-formed step. Everything a rewrite must not depend on is a parameter (`Semantics`): how values
 are rounded by Cast, how a dot product is summed, and what every other operator does.
 */
module Onnx {
  import opened Wrappers
  import opened Arithmetic
  import opened Collections
  import opened Shapes

  datatype DType = FLOAT | FLOAT16 | BFLOAT16 | INT64 | INT32 | UINT8

  /** One element: a float's value, an integer, or a byte of packed codes. */
  datatype Elem = Real(r: real) | Int(i: int) | Byte(b: bv8)

  datatype TensorData = TensorData(dtype: DType, shape: seq<nat>, data: seq<Elem>)

  /** A tensor: as many elements as its shape says, the last axis varying fastest. */
  type Tensor = t: TensorData | |t.data| == Size(t.shape) witness TensorData(FLOAT, [], [Real(0.0)])

  /** The operators the rewrites read or write, with the attributes they look at; any other operator is `Other`. */
  datatype Op =
    | Cast(to: DType)
    | Identity
    | Transpose(perm: Option<seq<nat>>)
    | Gather(axis: int)
    | GatherND(batchDims: int)
    | MatMul
    | MatMulNBits(k: nat, n: nat, blockSize: nat)
    | GatherBlockQuantized(blockSize: nat)
    | Other(kind: string)

  datatype Node = Node(op: Op, inputs: seq<string>, outputs: seq<string>)

  datatype Initializer = Initializer(name: string, value: Tensor, external: bool)

  datatype Semantics = Semantics(
    convert: (DType, Elem) -> Elem,                       // one element, as Cast (and numpy's astype) rounds it
    round: real -> real,                                  // a real, rounded to float32
    dot: (seq<Elem>, seq<Elem>) -> Elem,                  // a dot product, in whatever order it is summed
    other: (Op, seq<Tensor>) -> Option<seq<Tensor>>)      // every operator not interpreted here

  type Env = map<string, Tensor>

  /** `model.graph`, rewritten in place by the passes. */
  class Graph {
    const inputs: seq<string>
    const outputs: seq<string>
    var initializers: seq<Initializer>
    var nodes: seq<Node>

    constructor (inputs: seq<string>, outputs: seq<string>, initializers: seq<Initializer>, nodes: seq<Node>)
      ensures this.inputs == inputs && this.outputs == outputs
      ensures this.initializers == initializers && this.nodes == nodes
    {
      this.inputs, this.outputs, this.initializers, this.nodes := inputs, outputs, initializers, nodes;
    }
  }

  function Names(inits: seq<Initializer>): set<string> {
    set t | t in inits :: t.name
  }

  predicate Unique(inits: seq<Initializer>) {
    forall i, j :: 0 <= i < j < |inits| ==> inits[i].name != inits[j].name
  }

  /** The names a graph's nodes may read before any of them has run. */
  function Base(inputs: seq<string>, inits: seq<Initializer>): set<string> {
    Set(inputs) + Names(inits)
  }

  /** The environment a graph starts from: its inputs and its initializers. */
  function InitEnv(env: Env, inits: seq<Initializer>): (r: Env)
    ensures r.Keys == env.Keys + Names(inits)
  {
    if inits == [] then env
    else
      var k := |inits| - 1;
      assert inits == inits[..k] + [inits[k]];
      NamesSnoc(inits[..k], inits[k]);
      InitEnv(env, inits[..k])[inits[k].name := inits[k].value]
  }

  lemma NamesSnoc(inits: seq<Initializer>, t: Initializer)
    ensures Names(inits + [t]) == Names(inits) + {t.name}
  {
    assert forall u :: u in inits + [t] <==> u in inits || u == t;
  }

  // ---------------------------------------------------------------- operators

  function CastData(s: Semantics, to: DType, data: seq<Elem>): (r: seq<Elem>)
    ensures |r| == |data|
  {
    seq(|data|, i requires 0 <= i < |data| => s.convert(to, data[i]))
  }

  function CastTensor(s: Semantics, to: DType, t: Tensor): Tensor {
    TensorData(to, t.shape, CastData(s, to, t.data))
  }

  predicate OrderKeeping(perm: seq<nat>) {
    perm == seq(|perm|, i => i)
  }

  /** Rank-2 transposition, `perm = [1, 0]`. */
  function TransposeData(rows: nat, cols: nat, data: seq<Elem>): (r: seq<Elem>)
    requires |data| == rows * cols
    ensures |r| == cols * rows
  {
    seq(cols * rows, i requires 0 <= i < cols * rows =>
      Split2(cols, rows, i);
      Index2(rows, cols, i % rows, i / rows);
      data[(i % rows) * cols + i / rows])
  }

  function EvalTranspose(perm: seq<nat>, t: Tensor): Option<Tensor> {
    if |perm| != |t.shape| then None
    else if OrderKeeping(perm) then Some(t)
    else if perm == [1, 0] then
      SizeOf2(t.shape);
      SizeOf2([t.shape[1], t.shape[0]]);
      Some(TensorData(t.dtype, [t.shape[1], t.shape[0]], TransposeData(t.shape[0], t.shape[1], t.data)))
    else None
  }

  lemma SizeOf2(shape: seq<nat>)
    requires |shape| == 2
    ensures Size(shape) == shape[0] * shape[1]
  {
    assert Size(shape[1..]) == shape[1] * Size(shape[1..][1..]);
  }

  /** An index as ONNX reads it: a negative one counts from the end. */
  function Wrap(i: int, d: nat): int {
    if i < 0 then i + d else i
  }

  /** Row `i` of `n` rows of `row` elements. */
  function Chunk(data: seq<Elem>, n: nat, row: nat, i: nat): (r: seq<Elem>)
    requires |data| == n * row && i < n
    ensures |r| == row
  {
    RowBound(n, row, i);
    data[i * row..(i + 1) * row]
  }

  /** The block of a tensor at a prefix of its coordinates; None when a coordinate is out of range. */
  function Slice(shape: seq<nat>, data: seq<Elem>, at: seq<Elem>): (r: Option<seq<Elem>>)
    requires |data| == Size(shape) && |at| <= |shape|
    ensures r.Some? ==> |r.value| == Size(shape[|at|..])
    decreases |at|
  {
    if at == [] then Some(data)
    else if !at[0].Int? then None
    else
      var i := Wrap(at[0].i, shape[0]);
      if 0 <= i < shape[0] then
        assert shape[1..][|at| - 1..] == shape[|at|..];
        Slice(shape[1..], Chunk(data, shape[0], Size(shape[1..]), i), at[1..])
      else None
  }

  /** The blocks at each coordinate prefix in turn, one after the other. */
  function Slices(shape: seq<nat>, data: seq<Elem>, ats: seq<seq<Elem>>, m: nat): (r: Option<seq<Elem>>)
    requires |data| == Size(shape) && m <= |shape| && forall at <- ats :: |at| == m
    ensures r.Some? ==> |r.value| == |ats| * Size(shape[m..])
  {
    if ats == [] then Some([])
    else
      var most :- Slices(shape, data, ats[..|ats| - 1], m);
      var last :- Slice(shape, data, ats[|ats| - 1]);
      assert (|ats| - 1) * Size(shape[m..]) + Size(shape[m..]) == |ats| * Size(shape[m..]);
      Some(most + last)
  }

  /** `data` cut in `n` tuples of `m`. */
  function Tuples(data: seq<Elem>, n: nat, m: nat): (r: seq<seq<Elem>>)
    requires |data| == n * m
    ensures |r| == n && forall t <- r :: |t| == m
  {
    seq(n, i requires 0 <= i < n => Chunk(data, n, m, i))
  }

  function GatherTuples(t: Tensor, ats: seq<seq<Elem>>, m: nat, lead: seq<nat>): Option<Tensor>
    requires m <= |t.shape| && |ats| == Size(lead) && forall at <- ats :: |at| == m
  {
    var data :- Slices(t.shape, t.data, ats, m);
    SizeConcat(lead, t.shape[m..]);
    Some(TensorData(t.dtype, lead + t.shape[m..], data))
  }

  lemma {:induction false} SizeConcat(a: seq<nat>, b: seq<nat>)
    ensures Size(a + b) == Size(a) * Size(b)
  {
    if a == [] {
      assert a + b == b;
    } else {
      SizeConcat(a[1..], b);
      assert (a + b)[1..] == a[1..] + b;
      assert a[0] * (Size(a[1..]) * Size(b)) == (a[0] * Size(a[1..])) * Size(b);
    }
  }

  /** Gather along axis 0: one row per index. */
  function EvalGather(t: Tensor, ids: Tensor): Option<Tensor> {
    if t.shape == [] then None
    else
      GatherTuples(t, seq(|ids.data|, i requires 0 <= i < |ids.data| => [ids.data[i]]), 1, ids.shape)
  }

  /** GatherND with batch_dims 0: one block per index tuple, the tuples lying along the last axis of `ids`. */
  function EvalGatherND(t: Tensor, ids: Tensor): Option<Tensor> {
    if ids.shape == [] then None
    else
      var lead, m := ids.shape[..|ids.shape| - 1], ids.shape[|ids.shape| - 1];
      if m > |t.shape| then None
      else
        SizeSnoc(lead, m);
        assert lead + [m] == ids.shape;
        GatherTuples(t, Tuples(ids.data, Size(lead), m), m, lead)
  }

  /** x · wᵀ for the rows of `x` and `w`: each output element is one dot product. */
  function LinearData(s: Semantics, x: seq<Elem>, w: seq<Elem>, rows: nat, n: nat, k: nat): (r: seq<Elem>)
    requires |x| == rows * k && |w| == n * k
    ensures |r| == rows * n
  {
    seq(rows * n, i requires 0 <= i < rows * n =>
      Split2(rows, n, i);
      s.dot(Chunk(x, rows, k, i / n), Chunk(w, n, k, i % n)))
  }

  /** x · wᵀ for `x` [..., k] and `w` [n, k]. */
  function EvalLinear(s: Semantics, x: Tensor, w: seq<Elem>, n: nat, k: nat): Option<Tensor>
    requires |w| == n * k
  {
    if x.shape == [] || x.shape[|x.shape| - 1] != k then None
    else
      var lead := x.shape[..|x.shape| - 1];
      SizeSnoc(lead, k);
      SizeSnoc(lead, n);
      assert lead + [k] == x.shape;
      Some(TensorData(FLOAT, lead + [n], LinearData(s, x.data, w, Size(lead), n, k)))
  }

  lemma SizeSnoc(lead: seq<nat>, d: nat)
    ensures Size(lead + [d]) == Size(lead) * d
  {
    SizeConcat(lead, [d]);
    assert Size([d]) == d * Size([d][1..]) == d;
  }

  /** Code `j` of a byte holding 8 / bits codes, the first in the lowest bits. */
  function CodeOf(byte: bv8, bits: nat, j: nat): (c: nat)
    requires (bits == 2 && j < 4) || (bits == 4 && j < 2)
  {
    if bits == 4 then (if j == 0 then byte & 15 else (byte >> 4) & 15) as nat
    else (if j == 0 then byte & 3 else if j == 1 then (byte >> 2) & 3 else if j == 2 then (byte >> 4) & 3 else (byte >> 6) & 3) as nat
  }

  /** A code times its scale, in float32. */
  function Weight(s: Semantics, code: int, scale: real): real {
    s.round(code as real * scale)
  }

  /**
   What MatMulNBits and GatherBlockQuantized dequantize element `f` (in row-major order) of a matrix to: codes and scales
   lie in the same order, 8 / bits codes to a byte and one scale to a block; the zero point is 2^(bits - 1).
   */
  function Dequantized(s: Semantics, q: Tensor, scale: Tensor, bits: nat, block: nat, f: nat): Option<Elem>
    requires bits in {2, 4} && block != 0
  {
    var per := if bits == 2 then 4 else 2;
    DivNonNegative(f, per);
    DivNonNegative(f, block);
    if f / per < |q.data| && f / block < |scale.data| && q.data[f / per].Byte? && scale.data[f / block].Real? then
      var code := CodeOf(q.data[f / per].b, bits, f % per) - (if bits == 2 then 2 else 8);
      Some(Real(Weight(s, code, scale.data[f / block].r)))
    else None
  }

  /** The first `n` elements of the dequantized matrix, in row-major order. */
  function Dequantize(s: Semantics, q: Tensor, scale: Tensor, bits: nat, block: nat, n: nat): (r: Option<seq<Elem>>)
    requires bits in {2, 4} && block != 0
    ensures r.Some? ==> |r.value| == n
  {
    if n == 0 then Some([])
    else
      var most :- Dequantize(s, q, scale, bits, block, n - 1);
      var last :- Dequantized(s, q, scale, bits, block, n - 1);
      Some(most + [last])
  }

  function EvalMatMul(s: Semantics, x: Tensor, w: Tensor): Option<Tensor>
    requires |w.shape| == 2
  {
    SizeOf2(w.shape);
    EvalLinear(s, x, TransposeData(w.shape[0], w.shape[1], w.data), w.shape[1], w.shape[0])
  }

  function EvalMatMulNBits(s: Semantics, x: Tensor, q: Tensor, scale: Tensor, k: nat, n: nat, block: nat): Option<Tensor>
  {
    if block == 0 || k == 0 then None
    else
      var w :- Dequantize(s, q, scale, 2, block, n * k);
      EvalLinear(s, x, w, n, k)
  }

  function EvalGatherBlockQuantized(s: Semantics, q: Tensor, ids: Tensor, scale: Tensor, block: nat): Option<Tensor>
  {
    if block == 0 || |q.shape| != 2 || q.shape[1] == 0 then None
    else
      var v, h := q.shape[0], 2 * q.shape[1];
      var w :- Dequantize(s, q, scale, 4, block, v * h);
      SizeOf2([v, h]);
      EvalGather(TensorData(FLOAT, [v, h], w), ids)
  }

  function One(t: Option<Tensor>): Option<seq<Tensor>> {
    match t case None => None case Some(v) => Some([v])
  }

  function EvalOp(s: Semantics, op: Op, args: seq<Tensor>): Option<seq<Tensor>> {
    match op
    case Cast(to) => if |args| == 1 then Some([CastTensor(s, to, args[0])]) else None
    case Identity => if |args| == 1 then Some([args[0]]) else None
    case Transpose(Some(perm)) => if |args| == 1 then One(EvalTranspose(perm, args[0])) else None
    case Gather(0) => if |args| == 2 then One(EvalGather(args[0], args[1])) else None
    case GatherND(0) => if |args| == 2 then One(EvalGatherND(args[0], args[1])) else None
    case MatMul => if |args| == 2 && |args[1].shape| == 2 then One(EvalMatMul(s, args[0], args[1])) else s.other(op, args)
    case MatMulNBits(k, n, block) => if |args| == 3 then One(EvalMatMulNBits(s, args[0], args[1], args[2], k, n, block)) else None
    case GatherBlockQuantized(block) =>
      if |args| == 3 then One(EvalGatherBlockQuantized(s, args[0], args[1], args[2], block)) else None
    case _ => s.other(op, args)
  }

  // ---------------------------------------------------------------- running a graph

  function Lookup(env: Env, names: seq<string>): (r: Option<seq<Tensor>>)
    ensures r.Some? <==> forall x <- names :: x in env
    ensures r.Some? ==> |r.value| == |names| && forall i | 0 <= i < |names| :: r.value[i] == env[names[i]]
  {
    if forall x <- names :: x in env then
      Some(seq(|names|, i requires 0 <= i < |names| => assert names[i] in names; env[names[i]]))
    else None
  }

  function Bind(env: Env, names: seq<string>, values: seq<Tensor>): (r: Env)
    requires |names| == |values|
    ensures r.Keys == env.Keys + Set(names)
    ensures forall x :: x in env && x !in names ==> r[x] == env[x]
  {
    if names == [] then env
    else
      var k := |names| - 1;
      assert names == names[..k] + [names[k]];
      Bind(env, names[..k], values[..k])[names[k] := values[k]]
  }

  function Set(names: seq<string>): set<string> { set x | x in names }

  function Step(s: Semantics, n: Node, env: Env): Option<Env> {
    var args :- Lookup(env, n.inputs);
    var outs :- EvalOp(s, n.op, args);
    if |outs| == |n.outputs| then Some(Bind(env, n.outputs, outs)) else None
  }

  /** Every name's value after the nodes have run in order, or None when a node cannot run. */
  function Run(s: Semantics, nodes: seq<Node>, env: Env): Option<Env> {
    if nodes == [] then Some(env)
    else
      var e :- Run(s, nodes[..|nodes| - 1], env);
      Step(s, nodes[|nodes| - 1], e)
  }

  /** The names defined after the nodes have run. */
  function Defined(base: set<string>, nodes: seq<Node>): set<string> {
    if nodes == [] then base else Defined(base, nodes[..|nodes| - 1]) + Set(nodes[|nodes| - 1].outputs)
  }

  /** The names the nodes read. */
  function InputsOf(nodes: seq<Node>): set<string> {
    if nodes == [] then {} else InputsOf(nodes[..|nodes| - 1]) + Set(nodes[|nodes| - 1].inputs)
  }

  predicate Arity(n: Node) {
    match n.op
    case Cast(_) => |n.inputs| == 1 && |n.outputs| == 1
    case Identity => |n.inputs| == 1 && |n.outputs| == 1
    case Transpose(_) => |n.inputs| == 1 && |n.outputs| == 1
    case Gather(_) => |n.inputs| == 2 && |n.outputs| == 1
    case GatherND(_) => |n.inputs| == 2 && |n.outputs| == 1
    case MatMul => |n.inputs| == 2 && |n.outputs| == 1
    case _ => true
  }

  /** Every node has the inputs and outputs of its operator. */
  predicate Arities(nodes: seq<Node>) {
    nodes == [] || (Arities(nodes[..|nodes| - 1]) && Arity(nodes[|nodes| - 1]))
  }

  /** A valid node list: every input defined before it is read, every name defined once. */
  predicate WellFormed(base: set<string>, nodes: seq<Node>) {
    nodes == [] ||
    var prefix, n := nodes[..|nodes| - 1], nodes[|nodes| - 1];
    WellFormed(base, prefix) && Arity(n) && Distinct(n.outputs) &&
    Set(n.inputs) <= Defined(base, prefix) && Set(n.outputs) !! Defined(base, prefix)
  }

  /** `e2` has every value of `e1`, except perhaps those of the names in `d`. */
  ghost predicate Agree(e1: Env, e2: Env, d: set<string>) {
    forall x :: x in e1 && x !in d ==> x in e2 && e2[x] == e1[x]
  }

  // ---------------------------------------------------------------- facts every pass uses

  lemma {:induction false} BindAgrees(e1: Env, e2: Env, d: set<string>, names: seq<string>, values: seq<Tensor>)
    requires |names| == |values| && Agree(e1, e2, d)
    ensures Agree(Bind(e1, names, values), Bind(e2, names, values), d)
  {
    if names != [] {
      var k := |names| - 1;
      BindAgrees(e1, e2, d, names[..k], values[..k]);
    }
  }

  /** A node that reads no name of `d` runs the same in both environments. */
  lemma StepAgrees(s: Semantics, n: Node, e1: Env, e2: Env, d: set<string>)
    requires Agree(e1, e2, d) && Set(n.inputs) !! d && Step(s, n, e1).Some?
    ensures Step(s, n, e2).Some? && Agree(Step(s, n, e1).value, Step(s, n, e2).value, d)
  {
    forall x | x in n.inputs ensures x in e2 && e2[x] == e1[x] {
      assert x in Set(n.inputs);
    }
    assert Lookup(e1, n.inputs).value == Lookup(e2, n.inputs).value;
    BindAgrees(e1, e2, d, n.outputs, EvalOp(s, n.op, Lookup(e1, n.inputs).value).value);
  }

  /** Nodes that read no name of `d` run the same in both environments. */
  lemma {:induction false} RunAgrees(s: Semantics, nodes: seq<Node>, e1: Env, e2: Env, d: set<string>)
    requires Agree(e1, e2, d) && Run(s, nodes, e1).Some? && InputsOf(nodes) !! d
    ensures Run(s, nodes, e2).Some? && Agree(Run(s, nodes, e1).value, Run(s, nodes, e2).value, d)
  {
    if nodes != [] {
      var k := |nodes| - 1;
      RunAgrees(s, nodes[..k], e1, e2, d);
      StepAgrees(s, nodes[k], Run(s, nodes[..k], e1).value, Run(s, nodes[..k], e2).value, d);
    }
  }

  lemma BindOne(env: Env, x: string, t: Tensor)
    ensures Bind(env, [x], [t]) == env[x := t]
  {
    assert [x] == [x][..0] + [x];
  }

  lemma RunOne(s: Semantics, n: Node, env: Env)
    ensures Run(s, [n], env) == Step(s, n, env)
  {
    assert [n][..0] == [];
  }

  lemma DefinedOne(base: set<string>, n: Node)
    ensures Defined(base, [n]) == base + Set(n.outputs)
    ensures WellFormed(base, [n]) <==>
            Arity(n) && Distinct(n.outputs) && Set(n.inputs) <= base && Set(n.outputs) !! base
  {
    assert [n][..0] == [];
  }

  lemma {:induction false} RunConcat(s: Semantics, a: seq<Node>, b: seq<Node>, env: Env)
    ensures Run(s, a + b, env) == match Run(s, a, env) case None => None case Some(e) => Run(s, b, e)
  {
    if b == [] {
      assert a + b == a;
    } else {
      var k := |b| - 1;
      hide Step;
      RunConcat(s, a, b[..k], env);
      assert (a + b)[..|a + b| - 1] == a + b[..k] && (a + b)[|a + b| - 1] == b[k];
    }
  }

  lemma {:induction false} DefinedConcat(base: set<string>, a: seq<Node>, b: seq<Node>)
    ensures Defined(base, a + b) == Defined(Defined(base, a), b)
  {
    if b == [] {
      assert a + b == a;
    } else {
      DefinedConcat(base, a, b[..|b| - 1]);
      assert (a + b)[..|a + b| - 1] == a + b[..|b| - 1];
    }
  }

  lemma {:induction false} WellFormedConcat(base: set<string>, a: seq<Node>, b: seq<Node>)
    ensures WellFormed(base, a + b) <==> WellFormed(base, a) && WellFormed(Defined(base, a), b)
  {
    if b == [] {
      assert a + b == a;
    } else {
      var k := |b| - 1;
      WellFormedConcat(base, a, b[..k]);
      DefinedConcat(base, a, b[..k]);
      assert (a + b)[..|a + b| - 1] == a + b[..k];
    }
  }

  /** A run defines exactly the names of its nodes. */
  lemma {:induction false} RunDefines(s: Semantics, nodes: seq<Node>, env: Env)
    requires Run(s, nodes, env).Some?
    ensures Run(s, nodes, env).value.Keys == Defined(env.Keys, nodes)
  {
    if nodes != [] {
      RunDefines(s, nodes[..|nodes| - 1], env);
    }
  }

  /** A name defined before the nodes run, and by none of them, keeps its value. */
  lemma {:induction false} RunKeeps(s: Semantics, nodes: seq<Node>, env: Env, x: string)
    requires Run(s, nodes, env).Some? && x in env && x !in Defined({}, nodes)
    ensures x in Run(s, nodes, env).value && Run(s, nodes, env).value[x] == env[x]
  {
    if nodes != [] {
      RunKeeps(s, nodes[..|nodes| - 1], env, x);
      assert x !in Set(nodes[|nodes| - 1].outputs);
    }
  }

  lemma {:induction false} BaseDefined(base: set<string>, nodes: seq<Node>)
    ensures base <= Defined(base, nodes)
    ensures Defined(base, nodes) == base + Defined({}, nodes)
  {
    if nodes != [] {
      BaseDefined(base, nodes[..|nodes| - 1]);
    }
  }

  /** A well-formed list defines no name it starts from. */
  lemma {:induction false} BaseApart(base: set<string>, nodes: seq<Node>)
    requires WellFormed(base, nodes)
    ensures base !! Defined({}, nodes)
  {
    if nodes != [] {
      BaseApart(base, nodes[..|nodes| - 1]);
      BaseDefined(base, nodes[..|nodes| - 1]);
    }
  }

  lemma {:induction false} ArityAt(nodes: seq<Node>, i: nat)
    requires Arities(nodes) && i < |nodes|
    ensures Arities(nodes[..i]) && Arity(nodes[i]) && Arities(nodes[..i + 1])
    decreases |nodes|
  {
    var k := |nodes| - 1;
    assert nodes[..i + 1][..i] == nodes[..i];
    if i < k {
      ArityAt(nodes[..k], i);
      assert nodes[..k][..i] == nodes[..i];
    }
  }

  lemma {:induction false} ArityPrefix(nodes: seq<Node>, i: nat)
    requires Arities(nodes) && i <= |nodes|
    ensures Arities(nodes[..i])
  {
    if i < |nodes| {
      ArityAt(nodes, i);
    } else {
      assert nodes[..i] == nodes;
    }
  }

  lemma {:induction false} AritiesConcat(a: seq<Node>, b: seq<Node>)
    ensures Arities(a + b) <==> Arities(a) && Arities(b)
  {
    if b == [] {
      assert a + b == a;
    } else {
      AritiesConcat(a, b[..|b| - 1]);
      assert (a + b)[..|a + b| - 1] == a + b[..|b| - 1];
    }
  }

  lemma AritiesOf(n: Node)
    ensures Arities([n]) <==> Arity(n)
  {
    assert [n][..0] == [];
  }

  lemma AppendWellFormed(base: set<string>, a: seq<Node>, b: seq<Node>)
    requires WellFormed(base, a) && WellFormed(Defined(base, a), b) && Arities(a) && Arities(b)
    ensures WellFormed(base, a + b) && Defined(base, a + b) == Defined(Defined(base, a), b) && Arities(a + b)
  {
    WellFormedConcat(base, a, b);
    DefinedConcat(base, a, b);
    AritiesConcat(a, b);
  }

  lemma RunPair(s: Semantics, a: Node, b: Node, e: Env)
    ensures Run(s, [a, b], e) == match Step(s, a, e) case None => None case Some(e') => Step(s, b, e')
  {
    RunOne(s, a, e);
    RunConcat(s, [a], [b], e);
    assert [a] + [b] == [a, b];
    if Step(s, a, e).Some? {
      RunOne(s, b, Step(s, a, e).value);
    }
  }
}
