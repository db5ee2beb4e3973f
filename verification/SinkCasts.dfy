/**
 `sink_casts_below_gathers` of convert/ollaya_convert/weightless_sharded.py: Gather(Cast(W), ids) becomes
 Cast(Gather(W, ids)), through Identity and order-keeping Transpose nodes, and the chains nothing reads any more go.
 */
module SinkCasts {
  import opened Wrappers
  import opened Arithmetic
  import opened Collections
  import opened Shapes
  import opened Onnx

  // ---------------------------------------------------------------- what the pass looks for

  /** Identity, or a Transpose that keeps the axis order. */
  predicate Passthrough(n: Node) {
    n.op.Identity? || (n.op.Transpose? && n.op.perm.Some? && OrderKeeping(n.op.perm.value))
  }

  predicate GathersRows(n: Node) {
    n.op == Gather(0) || n.op == GatherND(0)
  }

  function ExternalTypes(initializers: seq<Initializer>): (ext: map<string, DType>)
    ensures ext.Keys == set t | t in initializers && t.external :: t.name
  {
    if initializers == [] then map[]
    else
      var k := |initializers| - 1;
      var t := initializers[k];
      assert initializers == initializers[..k] + [t];
      var rest := ExternalTypes(initializers[..k]);
      if t.external then rest[t.name := t.value.dtype] else rest
  }

  predicate Narrow(ext: map<string, DType>, w: string) {
    w in ext && ext[w] in {BFLOAT16, FLOAT16}
  }

  /** The checkpoint tensor `x` is a widened copy of, and the type it is widened to: the chain of nodes that leads to `x`. */
  function Source(nodes: seq<Node>, ext: map<string, DType>, x: string): Option<(string, DType)>
    requires Arities(nodes)
  {
    if nodes == [] then None
    else
      var prefix, n := nodes[..|nodes| - 1], nodes[|nodes| - 1];
      if x !in n.outputs then Source(prefix, ext, x)
      else if Passthrough(n) then Source(prefix, ext, n.inputs[0])
      else if n.op.Cast? && Narrow(ext, n.inputs[0]) then Some((n.inputs[0], n.op.to))
      else None
  }

  // ---------------------------------------------------------------- the rewrite

  predicate Rewritten(prefix: seq<Node>, ext: map<string, DType>, n: Node)
    requires Arities(prefix) && Arity(n)
  {
    GathersRows(n) && Source(prefix, ext, n.inputs[0]).Some?
  }

  function NarrowName(n: Node): string
    requires |n.outputs| > 0
  {
    n.outputs[0] + ":narrow"
  }

  function GatherOf(n: Node, w: string): Node
    requires Arity(n) && GathersRows(n)
  {
    Node(n.op, [w, n.inputs[1]], [NarrowName(n)])
  }

  function WidenOf(n: Node, to: DType): Node
    requires Arity(n) && GathersRows(n)
  {
    Node(Cast(to), [NarrowName(n)], [n.outputs[0]])
  }

  function SinkNode(prefix: seq<Node>, ext: map<string, DType>, n: Node): seq<Node>
    requires Arities(prefix) && Arity(n)
  {
    if Rewritten(prefix, ext, n) then
      var (w, to) := Source(prefix, ext, n.inputs[0]).value;
      [GatherOf(n, w), WidenOf(n, to)]
    else [n]
  }

  function Sink(nodes: seq<Node>, ext: map<string, DType>): seq<Node>
    requires Arities(nodes)
  {
    if nodes == [] then []
    else
      var k := |nodes| - 1;
      Sink(nodes[..k], ext) + SinkNode(nodes[..k], ext, nodes[k])
  }

  /** How many Gathers the pass rewrites. */
  function Rewrites(nodes: seq<Node>, ext: map<string, DType>): nat
    requires Arities(nodes)
  {
    if nodes == [] then 0
    else
      var k := |nodes| - 1;
      Rewrites(nodes[..k], ext) + if Rewritten(nodes[..k], ext, nodes[k]) then 1 else 0
  }

  // ---------------------------------------------------------------- dead chains

  function Used(nodes: seq<Node>, outputs: seq<string>): set<string> {
    Set(outputs) + InputsOf(nodes)
  }

  predicate Kept(n: Node, used: set<string>) {
    !((n.op.Cast? || Passthrough(n)) && Set(n.outputs) !! used)
  }

  function Filter(nodes: seq<Node>, used: set<string>): (r: seq<Node>)
    ensures |r| <= |nodes| && (|r| == |nodes| ==> r == nodes)
    ensures Arities(nodes) ==> Arities(r)
  {
    if nodes == [] then []
    else
      var k := |nodes| - 1;
      var r := Filter(nodes[..k], used);
      assert (r + [nodes[k]])[..|r|] == r;
      if Kept(nodes[k], used) then r + [nodes[k]] else r
  }

  /** Dead chains removed until nothing more goes. */
  function Prune(nodes: seq<Node>, outputs: seq<string>): seq<Node>
    decreases |nodes|
  {
    var r := Filter(nodes, Used(nodes, outputs));
    if |r| == |nodes| then nodes else Prune(r, outputs)
  }

  function SinkResult(nodes: seq<Node>, ext: map<string, DType>, outputs: seq<string>): seq<Node>
    requires Arities(nodes)
  {
    if Rewrites(nodes, ext) == 0 then nodes else Prune(Sink(nodes, ext), outputs)
  }

  // ---------------------------------------------------------------- the code

  /** `producer`: the node (its index) that outputs each name, the last one if several do. */
  ghost predicate Indexes(producer: map<string, nat>, nodes: seq<Node>) {
    forall x :: if x in producer then producer[x] < |nodes| && Outputs(nodes, producer[x], x) else !Defines(nodes, x)
  }

  ghost predicate Defines(nodes: seq<Node>, x: string) {
    x in Defined({}, nodes)
  }

  /** Node `j` is the last that outputs `x`. */
  ghost predicate Outputs(nodes: seq<Node>, j: nat, x: string)
    requires j < |nodes|
  {
    x in nodes[j].outputs && forall i :: j < i < |nodes| ==> x !in nodes[i].outputs
  }

  method Index(nodes: seq<Node>) returns (producer: map<string, nat>)
    ensures Indexes(producer, nodes)
  {
    producer := map[];
    for i := 0 to |nodes|
      invariant Indexes(producer, nodes[..i])
    {
      assert nodes[..i + 1][..i] == nodes[..i];
      ghost var before := producer;
      producer := producer + map o | o in nodes[i].outputs :: i;
      forall x
        ensures if x in producer then producer[x] < i + 1 && Outputs(nodes[..i + 1], producer[x], x) else !Defines(nodes[..i + 1], x)
      {
        assert x in nodes[i].outputs <==> x in Set(nodes[i].outputs);
        if x !in nodes[i].outputs && x in before {
          assert Outputs(nodes[..i], before[x], x);
        }
        assert x !in before ==> !Defines(nodes[..i], x);
      }
    }
    assert nodes[..|nodes|] == nodes;
  }

  method FindSource(nodes: seq<Node>, producer: map<string, nat>, ext: map<string, DType>, x: string, ghost base: set<string>)
    returns (src: Option<(string, DType)>)
    requires WellFormed(base, nodes) && Arities(nodes) && Indexes(producer, nodes)
    ensures src == Source(nodes, ext, x)
  {
    var name := x;
    ghost var top := |nodes|;
    while name in producer && Passthrough(nodes[producer[name]])
      invariant top <= |nodes| && Source(nodes, ext, x) == Source(nodes, ext, name)
      invariant name in producer ==> producer[name] < top
      decreases top
    {
      var j := producer[name];
      SourceAt(nodes, ext, j, name);
      var input := nodes[j].inputs[0];
      InputsBefore(base, nodes, j, input);
      SourceStable(base, nodes, ext, j, input);
      if input in producer && producer[input] >= j {
        NotDefinedAfter(base, nodes, j, producer[input], input);
      }
      name, top := input, j;
    }
    if name in producer {
      var n := nodes[producer[name]];
      SourceAt(nodes, ext, producer[name], name);
      if n.op.Cast? && Narrow(ext, n.inputs[0]) {
        return Some((n.inputs[0], n.op.to));
      }
    } else {
      assert !Defines(nodes, name);
      UndefinedHasNoSource(nodes, ext, name);
    }
    return None;
  }

  method SinkCastsBelowGathers(graph: Graph) returns (rewritten: nat)
    requires WellFormed(Base(graph.inputs, graph.initializers), graph.nodes)
    requires Arities(graph.nodes)
    modifies graph`nodes
    ensures graph.nodes == SinkResult(old(graph.nodes), ExternalTypes(graph.initializers), graph.outputs)
    ensures rewritten == Rewrites(old(graph.nodes), ExternalTypes(graph.initializers))
  {
    var ext := ExternalTypes(graph.initializers);
    var all := graph.nodes;
    ghost var base := Base(graph.inputs, graph.initializers);
    var producer := Index(all);
    var nodes: seq<Node> := [];
    rewritten := 0;
    for i := 0 to |all|
      invariant graph.nodes == all && Arities(all[..i])
      invariant nodes == Sink(all[..i], ext) && rewritten == Rewrites(all[..i], ext)
    {
      assert all[..i + 1][..i] == all[..i];
      ArityAt(all, i);
      var n := all[i];
      var src := None;
      if GathersRows(n) {
        src := FindSource(all, producer, ext, n.inputs[0], base);
        InputsBefore(base, all, i, n.inputs[0]);
        SourceStable(base, all, ext, i, n.inputs[0]);
      }
      if src.None? {
        nodes := nodes + [n];
      } else {
        var (w, to) := src.value;
        var narrow := n.outputs[0] + ":narrow";
        nodes := nodes + [Node(n.op, [w, n.inputs[1]], [narrow]), Node(Cast(to), [narrow], [n.outputs[0]])];
        rewritten := rewritten + 1;
      }
    }
    assert all[..|all|] == all;
    if rewritten == 0 {
      return;
    }
    var done := false;
    while !done
      invariant Prune(nodes, graph.outputs) == Prune(Sink(all, ext), graph.outputs)
      invariant done ==> nodes == Prune(nodes, graph.outputs)
      decreases |nodes|, !done
    {
      var keep := Filter(nodes, Used(nodes, graph.outputs));
      if |keep| == |nodes| {
        done := true;
      } else {
        nodes := keep;
      }
    }
    graph.nodes := nodes;
  }

  // ---------------------------------------------------------------- sources

  lemma {:induction false} WellFormedPrefix(base: set<string>, nodes: seq<Node>, i: nat)
    requires i <= |nodes| && WellFormed(base, nodes)
    ensures WellFormed(base, nodes[..i]) && Defined(base, nodes[..i]) <= Defined(base, nodes)
    decreases |nodes|
  {
    if i == |nodes| {
      assert nodes[..i] == nodes;
    } else {
      var k := |nodes| - 1;
      WellFormedPrefix(base, nodes[..k], i);
      assert nodes[..k][..i] == nodes[..i];
    }
  }

  /** A well-formed list's inputs come from before the node that reads them. */
  lemma InputsBefore(base: set<string>, nodes: seq<Node>, i: nat, x: string)
    requires i < |nodes| && WellFormed(base, nodes) && x in nodes[i].inputs
    ensures x in Defined(base, nodes[..i])
  {
    WellFormedPrefix(base, nodes, i + 1);
    assert nodes[..i + 1][..i] == nodes[..i];
    assert x in Set(nodes[i].inputs);
  }

  /** No node from position `i` on outputs a name defined before it. */
  lemma NotDefinedAfter(base: set<string>, nodes: seq<Node>, i: nat, j: nat, x: string)
    requires i <= j < |nodes| && WellFormed(base, nodes) && x in Defined(base, nodes[..i])
    ensures x !in nodes[j].outputs
  {
    WellFormedPrefix(base, nodes, j + 1);
    assert nodes[..j + 1][..j] == nodes[..j];
    WellFormedPrefix(base, nodes[..j], i);
    assert nodes[..j][..i] == nodes[..i];
    assert x !in Set(nodes[j].outputs);
  }

  lemma {:induction false} SourceStable(base: set<string>, nodes: seq<Node>, ext: map<string, DType>, i: nat, x: string)
    requires i <= |nodes| && WellFormed(base, nodes) && Arities(nodes) && x in Defined(base, nodes[..i])
    ensures Arities(nodes[..i]) && Source(nodes, ext, x) == Source(nodes[..i], ext, x)
    decreases |nodes|
  {
    ArityPrefix(nodes, i);
    if i < |nodes| {
      var k := |nodes| - 1;
      NotDefinedAfter(base, nodes, i, k, x);
      assert nodes[..k][..i] == nodes[..i];
      SourceStable(base, nodes[..k], ext, i, x);
    } else {
      assert nodes[..i] == nodes;
    }
  }

  /** The source of a name, read at the last node that outputs it. */
  lemma {:induction false} SourceAt(nodes: seq<Node>, ext: map<string, DType>, j: nat, x: string)
    requires Arities(nodes) && j < |nodes| && Outputs(nodes, j, x)
    ensures Arities(nodes[..j]) && Arity(nodes[j])
    ensures Source(nodes, ext, x) ==
            if Passthrough(nodes[j]) then Source(nodes[..j], ext, nodes[j].inputs[0])
            else if nodes[j].op.Cast? && Narrow(ext, nodes[j].inputs[0]) then Some((nodes[j].inputs[0], nodes[j].op.to))
            else None
    decreases |nodes|
  {
    ArityAt(nodes, j);
    var k := |nodes| - 1;
    if j < k {
      assert nodes[..k][..j] == nodes[..j];
      SourceAt(nodes[..k], ext, j, x);
    }
  }

  lemma {:induction false} UndefinedHasNoSource(nodes: seq<Node>, ext: map<string, DType>, x: string)
    requires Arities(nodes) && x !in Defined({}, nodes)
    ensures Source(nodes, ext, x).None?
  {
    if nodes != [] {
      assert x !in Set(nodes[|nodes| - 1].outputs);
      UndefinedHasNoSource(nodes[..|nodes| - 1], ext, x);
    }
  }

  lemma {:induction false} SourceExternal(nodes: seq<Node>, ext: map<string, DType>, x: string)
    requires Arities(nodes) && Source(nodes, ext, x).Some?
    ensures Source(nodes, ext, x).value.0 in ext
  {
    var prefix, n := nodes[..|nodes| - 1], nodes[|nodes| - 1];
    if x !in n.outputs {
      SourceExternal(prefix, ext, x);
    } else if Passthrough(n) {
      SourceExternal(prefix, ext, n.inputs[0]);
    }
  }

  /** What `Source` says of a name is true of every run: the name holds the checkpoint tensor, cast. */
  lemma {:induction false} SourceMeaning(s: Semantics, base: set<string>, nodes: seq<Node>, ext: map<string, DType>, env: Env, x: string)
    requires WellFormed(base, nodes) && Arities(nodes) && env.Keys == base && ext.Keys <= base
    requires Run(s, nodes, env).Some? && Source(nodes, ext, x).Some?
    ensures
      var e, (w, to) := Run(s, nodes, env).value, Source(nodes, ext, x).value;
      w in env && w in e && e[w] == env[w] && x in e && e[x] == CastTensor(s, to, env[w])
  {
    var prefix, n := nodes[..|nodes| - 1], nodes[|nodes| - 1];
    SourceExternal(nodes, ext, x);
    BaseKept(s, base, nodes, env);
    BaseKept(s, base, prefix, env);
    if x !in n.outputs {
      SourceMeaning(s, base, prefix, ext, env, x);
    } else if Passthrough(n) {
      SourceMeaning(s, base, prefix, ext, env, n.inputs[0]);
      UnaryStep(s, n, Run(s, prefix, env).value, x);
    } else {
      UnaryStep(s, n, Run(s, prefix, env).value, x);
    }
  }

  /** What a Cast or a pass-through node does. */
  lemma UnaryStep(s: Semantics, n: Node, e: Env, x: string)
    requires Arity(n) && (Passthrough(n) || n.op.Cast?) && Step(s, n, e).Some? && x in n.outputs
    ensures n.inputs[0] in e && x in Step(s, n, e).value
    ensures Step(s, n, e).value[x] == if n.op.Cast? then CastTensor(s, n.op.to, e[n.inputs[0]]) else e[n.inputs[0]]
  {
    assert n.inputs[0] in n.inputs;
    assert n.outputs == [x];
    assert Lookup(e, n.inputs).value == [e[n.inputs[0]]];
    BindOne(e, x, EvalOp(s, n.op, [e[n.inputs[0]]]).value[0]);
  }

  /** No node of a well-formed list overwrites an input or an initializer. */
  lemma {:induction false} BaseKept(s: Semantics, base: set<string>, nodes: seq<Node>, env: Env)
    requires WellFormed(base, nodes) && env.Keys == base && Run(s, nodes, env).Some?
    ensures forall x :: x in base ==> x in Run(s, nodes, env).value && Run(s, nodes, env).value[x] == env[x]
  {
    BaseApart(base, nodes);
    forall x | x in base ensures x in Run(s, nodes, env).value && Run(s, nodes, env).value[x] == env[x] {
      RunKeeps(s, nodes, env, x);
    }
  }

  // ---------------------------------------------------------------- Cast commutes with gathering rows

  lemma {:induction false} SliceCast(s: Semantics, to: DType, shape: seq<nat>, data: seq<Elem>, at: seq<Elem>)
    requires |data| == Size(shape) && |at| <= |shape|
    ensures Slice(shape, CastData(s, to, data), at) ==
            match Slice(shape, data, at) case None => None case Some(d) => Some(CastData(s, to, d))
    decreases |at|
  {
    if at != [] && at[0].Int? {
      var i, row := Wrap(at[0].i, shape[0]), Size(shape[1..]);
      if 0 <= i < shape[0] {
        SliceCast(s, to, shape[1..], Chunk(data, shape[0], row, i), at[1..]);
        ChunkCast(s, to, data, shape[0], row, i);
      }
    }
  }

  lemma ChunkCast(s: Semantics, to: DType, data: seq<Elem>, n: nat, row: nat, i: nat)
    requires |data| == n * row && i < n
    ensures Chunk(CastData(s, to, data), n, row, i) == CastData(s, to, Chunk(data, n, row, i))
  {
    RowBound(n, row, i);
  }

  lemma {:induction false} SlicesCast(s: Semantics, to: DType, shape: seq<nat>, data: seq<Elem>, ats: seq<seq<Elem>>, m: nat)
    requires |data| == Size(shape) && m <= |shape| && forall at <- ats :: |at| == m
    ensures Slices(shape, CastData(s, to, data), ats, m) ==
            match Slices(shape, data, ats, m) case None => None case Some(d) => Some(CastData(s, to, d))
  {
    if ats != [] {
      var k := |ats| - 1;
      SlicesCast(s, to, shape, data, ats[..k], m);
      SliceCast(s, to, shape, data, ats[k]);
      var most, last := Slices(shape, data, ats[..k], m), Slice(shape, data, ats[k]);
      if most.Some? && last.Some? {
        CastConcat(s, to, most.value, last.value);
      }
    } else {
      assert CastData(s, to, []) == [];
    }
  }

  lemma CastConcat(s: Semantics, to: DType, a: seq<Elem>, b: seq<Elem>)
    ensures CastData(s, to, a + b) == CastData(s, to, a) + CastData(s, to, b)
  {
  }

  /** Gathering rows of a cast tensor is casting the gathered rows; one fails exactly when the other does. */
  lemma GatherCommutesWithCast(s: Semantics, op: Op, to: DType, w: Tensor, ids: Tensor)
    requires op == Gather(0) || op == GatherND(0)
    ensures EvalOp(s, op, [CastTensor(s, to, w), ids]) ==
            match EvalOp(s, op, [w, ids]) case None => None case Some(ts) => Some([CastTensor(s, to, ts[0])])
  {
    if op == Gather(0) {
      if w.shape != [] {
        SlicesCast(s, to, w.shape, w.data, seq(|ids.data|, i requires 0 <= i < |ids.data| => [ids.data[i]]), 1);
      }
    } else if ids.shape != [] {
      var lead, m := ids.shape[..|ids.shape| - 1], ids.shape[|ids.shape| - 1];
      if m <= |w.shape| {
        SizeSnoc(lead, m);
        assert lead + [m] == ids.shape;
        SlicesCast(s, to, w.shape, w.data, Tuples(ids.data, Size(lead), m), m);
      }
    }
  }

  // ---------------------------------------------------------------- the rewrite keeps every value

  /** The `:narrow` names a rewrite of these nodes could add. */
  function NarrowNames(nodes: seq<Node>): set<string> {
    if nodes == [] then {}
    else
      var n := nodes[|nodes| - 1];
      NarrowNames(nodes[..|nodes| - 1]) + if |n.outputs| > 0 then {NarrowName(n)} else {}
  }

  /** They are new: no input, initializer or node output has one of them. */
  predicate Fresh(base: set<string>, nodes: seq<Node>) {
    NarrowNames(nodes) !! Defined(base, nodes)
  }

  /** One rewritten Gather computes the value the original computed. */
  lemma SinkNodeMeaning(s: Semantics, n: Node, w: string, to: DType, e1: Env, e2: Env)
    requires GathersRows(n) && Arity(n) && Step(s, n, e1).Some? && Agree(e1, e2, {})
    requires w in e1 && n.inputs[0] in e1 && e1[n.inputs[0]] == CastTensor(s, to, e1[w])
    requires NarrowName(n) !in e1
    ensures
      var pair := [GatherOf(n, w), WidenOf(n, to)];
      Run(s, pair, e2).Some? && Agree(Step(s, n, e1).value, Run(s, pair, e2).value, {})
  {
    var ids, t := OriginalStep(s, n, w, to, e1);
    assert n.inputs[1] in e2 && e2[n.inputs[1]] == ids && w in e2 && e2[w] == e1[w];
    PairRuns(s, n, w, to, e2, ids, t);
    BindNew(e1, e2, NarrowName(n), t);
    BindAgrees(e1, Bind(e2, [NarrowName(n)], [t]), {}, n.outputs, [CastTensor(s, to, t)]);
  }

  lemma BindNew(e1: Env, e2: Env, x: string, t: Tensor)
    requires Agree(e1, e2, {}) && x !in e1
    ensures Agree(e1, Bind(e2, [x], [t]), {})
  {
  }

  lemma PairRuns(s: Semantics, n: Node, w: string, to: DType, e: Env, ids: Tensor, t: Tensor)
    requires GathersRows(n) && Arity(n) && w in e && n.inputs[1] in e && e[n.inputs[1]] == ids
    requires EvalOp(s, n.op, [e[w], ids]) == Some([t])
    ensures Run(s, [GatherOf(n, w), WidenOf(n, to)], e) ==
            Some(Bind(Bind(e, [NarrowName(n)], [t]), n.outputs, [CastTensor(s, to, t)]))
  {
    hide EvalOp, CastTensor, NarrowName, Run;
    var x := NarrowName(n);
    var e' := Bind(e, [x], [t]);
    BindOne(e, x, t);
    GatherStep(s, GatherOf(n, w), e, e[w], ids, t);
    CastStep(s, WidenOf(n, to), e', t, to);
    assert n.outputs == [n.outputs[0]];
    RunPair(s, GatherOf(n, w), WidenOf(n, to), e);
  }

  /** What the original Gather did: it gathered rows of a cast tensor, that is, cast the rows. */
  lemma OriginalStep(s: Semantics, n: Node, w: string, to: DType, e1: Env) returns (ids: Tensor, t: Tensor)
    requires GathersRows(n) && Arity(n) && Step(s, n, e1).Some?
    requires w in e1 && n.inputs[0] in e1 && e1[n.inputs[0]] == CastTensor(s, to, e1[w])
    ensures n.inputs[1] in e1 && e1[n.inputs[1]] == ids && EvalOp(s, n.op, [e1[w], ids]) == Some([t])
    ensures Step(s, n, e1) == Some(Bind(e1, n.outputs, [CastTensor(s, to, t)]))
  {
    hide EvalOp, CastTensor, Bind;
    assert n.inputs[0] in n.inputs && n.inputs[1] in n.inputs;
    ids := e1[n.inputs[1]];
    assert Lookup(e1, n.inputs).value == [e1[n.inputs[0]], ids];
    t := GatheredCast(s, n.op, to, e1[w], ids);
  }

  lemma GatheredCast(s: Semantics, op: Op, to: DType, w: Tensor, ids: Tensor) returns (t: Tensor)
    requires (op == Gather(0) || op == GatherND(0)) && EvalOp(s, op, [CastTensor(s, to, w), ids]).Some?
    ensures EvalOp(s, op, [w, ids]) == Some([t]) && EvalOp(s, op, [CastTensor(s, to, w), ids]) == Some([CastTensor(s, to, t)])
  {
    GatherCommutesWithCast(s, op, to, w, ids);
    t := EvalOp(s, op, [w, ids]).value[0];
  }

  lemma GatherStep(s: Semantics, n: Node, e: Env, w: Tensor, ids: Tensor, t: Tensor)
    requires GathersRows(n) && |n.inputs| == 2 && |n.outputs| == 1
    requires n.inputs[0] in e && e[n.inputs[0]] == w && n.inputs[1] in e && e[n.inputs[1]] == ids
    requires EvalOp(s, n.op, [w, ids]) == Some([t])
    ensures Step(s, n, e) == Some(Bind(e, n.outputs, [t]))
  {
    assert Lookup(e, n.inputs).value == [w, ids];
  }

  lemma CastStep(s: Semantics, n: Node, e: Env, t: Tensor, to: DType)
    requires n.op == Cast(to) && |n.inputs| == 1 && |n.outputs| == 1 && n.inputs[0] in e && e[n.inputs[0]] == t
    ensures Step(s, n, e) == Some(Bind(e, n.outputs, [CastTensor(s, to, t)]))
  {
    assert Lookup(e, n.inputs).value == [t];
  }

  lemma {:induction false} SinkMeaning(s: Semantics, base: set<string>, nodes: seq<Node>, ext: map<string, DType>, env: Env)
    requires WellFormed(base, nodes) && Arities(nodes) && Fresh(base, nodes) && env.Keys == base && ext.Keys <= base
    requires Run(s, nodes, env).Some?
    ensures Run(s, Sink(nodes, ext), env).Some?
    ensures Agree(Run(s, nodes, env).value, Run(s, Sink(nodes, ext), env).value, {})
  {
    if nodes != [] {
      var prefix, n := nodes[..|nodes| - 1], nodes[|nodes| - 1];
      SinkMeaning(s, base, prefix, ext, env);
      var e1, e2 := Run(s, prefix, env).value, Run(s, Sink(prefix, ext), env).value;
      RunConcat(s, Sink(prefix, ext), SinkNode(prefix, ext, n), env);
      if Rewritten(prefix, ext, n) {
        SourceMeaning(s, base, prefix, ext, env, n.inputs[0]);
        RunDefines(s, prefix, env);
        var (w, to) := Source(prefix, ext, n.inputs[0]).value;
        SinkNodeMeaning(s, n, w, to, e1, e2);
      } else {
        StepAgrees(s, n, e1, e2, {});
        RunOne(s, n, e2);
      }
    }
  }

  /** Dropping nodes whose outputs (in `d`) nobody reads leaves every other value. */
  lemma {:induction false} FilterMeaning(s: Semantics, nodes: seq<Node>, used: set<string>, d: set<string>, env: Env)
    requires Run(s, nodes, env).Some? && d !! used
    requires InputsOf(nodes) <= used && Defined({}, nodes) <= used + d
    ensures Run(s, Filter(nodes, used), env).Some?
    ensures Agree(Run(s, nodes, env).value, Run(s, Filter(nodes, used), env).value, d)
  {
    if nodes != [] {
      var prefix, n := nodes[..|nodes| - 1], nodes[|nodes| - 1];
      FilterMeaning(s, prefix, used, d, env);
      var e1, e2 := Run(s, prefix, env).value, Run(s, Filter(prefix, used), env).value;
      if Kept(n, used) {
        StepAgrees(s, n, e1, e2, d);
        RunOne(s, n, e2);
        RunConcat(s, Filter(prefix, used), [n], env);
      } else {
        DropAgrees(s, n, e1, e2, d);
      }
    }
  }

  lemma DropAgrees(s: Semantics, n: Node, e1: Env, e2: Env, d: set<string>)
    requires Agree(e1, e2, d) && Step(s, n, e1).Some? && Set(n.outputs) <= d
    ensures Agree(Step(s, n, e1).value, e2, d)
  {
    assert forall x :: x in n.outputs ==> x in Set(n.outputs);
  }

  lemma {:induction false} PruneMeaning(s: Semantics, nodes: seq<Node>, outputs: seq<string>, env: Env)
    requires Run(s, nodes, env).Some?
    ensures Run(s, Prune(nodes, outputs), env).Some?
    ensures forall o :: o in outputs && o in Run(s, nodes, env).value ==>
              o in Run(s, Prune(nodes, outputs), env).value &&
              Run(s, Prune(nodes, outputs), env).value[o] == Run(s, nodes, env).value[o]
    decreases |nodes|
  {
    var used := Used(nodes, outputs);
    var r := Filter(nodes, used);
    if |r| != |nodes| {
      FilterMeaning(s, nodes, used, Defined({}, nodes) - used, env);
      PruneMeaning(s, r, outputs, env);
      assert forall o :: o in outputs ==> o in Set(outputs);
    }
  }

  /** The pass leaves every graph output's value unchanged, whatever the inputs, the checkpoint and the other operators. */
  lemma SinkKeepsOutputs(s: Semantics, base: set<string>, nodes: seq<Node>, ext: map<string, DType>, outputs: seq<string>, env: Env)
    requires WellFormed(base, nodes) && Arities(nodes) && Fresh(base, nodes) && env.Keys == base && ext.Keys <= base
    requires Run(s, nodes, env).Some?
    ensures Run(s, SinkResult(nodes, ext, outputs), env).Some?
    ensures
      var e1, e2 := Run(s, nodes, env).value, Run(s, SinkResult(nodes, ext, outputs), env).value;
      forall o :: o in outputs && o in e1 ==> o in e2 && e2[o] == e1[o]
  {
    if Rewrites(nodes, ext) != 0 {
      SinkMeaning(s, base, nodes, ext, env);
      PruneMeaning(s, Sink(nodes, ext), outputs, env);
    }
  }

  // ---------------------------------------------------------------- the result is a valid graph

  lemma PairWellFormed(names: set<string>, n: Node, w: string, to: DType)
    requires GathersRows(n) && Arity(n) && w in names && n.inputs[1] in names
    requires NarrowName(n) !in names && n.outputs[0] !in names
    ensures
      var pair := [GatherOf(n, w), WidenOf(n, to)];
      WellFormed(names, pair) && Arities(pair) && Defined(names, pair) == names + Set(n.outputs) + {NarrowName(n)}
  {
    var gather, widen := GatherOf(n, w), WidenOf(n, to);
    assert Set([NarrowName(n)]) == {NarrowName(n)} && Set(n.outputs) == {n.outputs[0]} && Set([n.outputs[0]]) == {n.outputs[0]};
    assert Set(gather.inputs) == {w, n.inputs[1]};
    assert NarrowName(n) != n.outputs[0] by { assert |NarrowName(n)| == |n.outputs[0]| + 7; }
    DefinedOne(names, gather);
    DefinedOne(names + {NarrowName(n)}, widen);
    AritiesOf(gather);
    AritiesOf(widen);
    AppendWellFormed(names, [gather], [widen]);
    assert [gather] + [widen] == [gather, widen];
  }

  /** What one node becomes, after nodes that define `names`. */
  lemma NodeWellFormed(base: set<string>, prefix: seq<Node>, names: set<string>, n: Node, ext: map<string, DType>)
    requires Arities(prefix) && Arity(n) && Distinct(n.outputs) && base <= names && ext.Keys <= base
    requires Set(n.inputs) <= names && Set(n.outputs) !! names && (|n.outputs| > 0 ==> NarrowName(n) !in names)
    ensures
      var r := SinkNode(prefix, ext, n);
      WellFormed(names, r) && Arities(r) && names + Set(n.outputs) <= Defined(names, r) &&
      Defined(names, r) <= names + Set(n.outputs) + NarrowNames([n])
  {
    assert [n][..0] == [];
    if Rewritten(prefix, ext, n) {
      SourceExternal(prefix, ext, n.inputs[0]);
      var (w, to) := Source(prefix, ext, n.inputs[0]).value;
      assert n.inputs[1] in Set(n.inputs) && n.outputs[0] in Set(n.outputs);
      PairWellFormed(names, n, w, to);
    } else {
      DefinedOne(names, n);
      AritiesOf(n);
    }
  }

  lemma {:induction false} SinkWellFormed(base: set<string>, nodes: seq<Node>, ext: map<string, DType>)
    requires WellFormed(base, nodes) && Arities(nodes) && Fresh(base, nodes) && ext.Keys <= base
    ensures WellFormed(base, Sink(nodes, ext)) && Arities(Sink(nodes, ext))
    ensures Defined(base, nodes) <= Defined(base, Sink(nodes, ext)) <= Defined(base, nodes) + NarrowNames(nodes)
  {
    if nodes != [] {
      var prefix, n := nodes[..|nodes| - 1], nodes[|nodes| - 1];
      SinkWellFormed(base, prefix, ext);
      NewNamesApart(base, prefix, n);
      BaseDefined(base, prefix);
      assert [n][..0] == [];
      NodeWellFormed(base, prefix, Defined(base, Sink(prefix, ext)), n, ext);
      AppendWellFormed(base, Sink(prefix, ext), SinkNode(prefix, ext, n));
    }
  }

  /** The last node's outputs, and its `:narrow` name, differ from every name defined or added before it. */
  lemma NewNamesApart(base: set<string>, prefix: seq<Node>, n: Node)
    requires NarrowNames(prefix) !! Defined(base, prefix) + Set(n.outputs)
    requires Set(n.outputs) !! Defined(base, prefix)
    requires |n.outputs| > 0 ==> NarrowName(n) !in Defined(base, prefix)
    ensures Set(n.outputs) !! Defined(base, prefix) + NarrowNames(prefix)
    ensures |n.outputs| > 0 ==> NarrowName(n) !in Defined(base, prefix) + NarrowNames(prefix)
  {
    if |n.outputs| > 0 {
      assert n.outputs[0] in Set(n.outputs);
      if NarrowName(n) in NarrowNames(prefix) {
        NarrowOf(base, prefix, n);
      }
    }
  }

  lemma {:induction false} NarrowOf(base: set<string>, nodes: seq<Node>, n: Node)
    requires |n.outputs| > 0 && NarrowName(n) in NarrowNames(nodes)
    ensures n.outputs[0] in Defined(base, nodes)
  {
    var prefix, m := nodes[..|nodes| - 1], nodes[|nodes| - 1];
    if NarrowName(n) in NarrowNames(prefix) {
      NarrowOf(base, prefix, n);
    } else {
      assert NarrowName(m)[..|NarrowName(m)| - 7] == m.outputs[0];
      assert NarrowName(n)[..|NarrowName(n)| - 7] == n.outputs[0];
      assert m.outputs[0] in Set(m.outputs);
    }
  }

  lemma {:induction false} FilterWellFormed(base: set<string>, nodes: seq<Node>, used: set<string>)
    requires WellFormed(base, nodes) && InputsOf(nodes) <= used
    ensures WellFormed(base, Filter(nodes, used))
    ensures Defined(base, Filter(nodes, used)) <= Defined(base, nodes)
    ensures Defined(base, nodes) * used <= Defined(base, Filter(nodes, used))
  {
    if nodes != [] {
      var prefix, n := nodes[..|nodes| - 1], nodes[|nodes| - 1];
      var r := Filter(prefix, used);
      FilterWellFormed(base, prefix, used);
      if Kept(n, used) {
        assert (r + [n])[..|r + [n]| - 1] == r;
      } else {
      }
    }
  }

  lemma {:induction false} FilterKeeps(nodes: seq<Node>, used: set<string>, n: Node)
    requires n in nodes && |Filter(nodes, used)| == |nodes|
    ensures Kept(n, used)
  {
    var k := |nodes| - 1;
    assert nodes == nodes[..k] + [nodes[k]];
    if n != nodes[k] {
      FilterKeeps(nodes[..k], used, n);
    }
  }

  lemma {:induction false} PruneWellFormed(base: set<string>, nodes: seq<Node>, outputs: seq<string>)
    requires WellFormed(base, nodes) && Arities(nodes)
    ensures WellFormed(base, Prune(nodes, outputs)) && Arities(Prune(nodes, outputs))
    ensures forall n <- Prune(nodes, outputs) :: Kept(n, Used(Prune(nodes, outputs), outputs))
    decreases |nodes|
  {
    var used := Used(nodes, outputs);
    var r := Filter(nodes, used);
    if |r| != |nodes| {
      FilterWellFormed(base, nodes, used);
      PruneWellFormed(base, r, outputs);
    } else {
      forall n | n in nodes ensures Kept(n, used) {
        FilterKeeps(nodes, used, n);
      }
    }
  }

  // ---------------------------------------------------------------- nothing is left to rewrite

  lemma SourceAppend(nodes: seq<Node>, n: Node, ext: map<string, DType>, x: string)
    requires Arities(nodes) && Arity(n)
    ensures Arities(nodes + [n])
    ensures Source(nodes + [n], ext, x) ==
            if x !in n.outputs then Source(nodes, ext, x)
            else if Passthrough(n) then Source(nodes, ext, n.inputs[0])
            else if n.op.Cast? && Narrow(ext, n.inputs[0]) then Some((n.inputs[0], n.op.to))
            else None
    ensures Rewrites(nodes + [n], ext) == Rewrites(nodes, ext) + if Rewritten(nodes, ext, n) then 1 else 0
  {
    assert (nodes + [n])[..|nodes|] == nodes;
  }

  /** Neither name a rewritten Gather defines is a widened checkpoint tensor, and nothing is left to rewrite there. */
  lemma PairSource(r: seq<Node>, n: Node, w: string, to: DType, ext: map<string, DType>, x: string)
    requires Arities(r) && Arity(n) && GathersRows(n) && NarrowName(n) !in ext && Source(r, ext, w).None?
    ensures
      var r' := r + [GatherOf(n, w), WidenOf(n, to)];
      Arities(r') && Rewrites(r', ext) == Rewrites(r, ext) &&
      (Source(r', ext, x).Some? ==> x !in n.outputs && Source(r, ext, x).Some?)
  {
    var gather, widen := GatherOf(n, w), WidenOf(n, to);
    assert r + [gather, widen] == r + [gather] + [widen];
    assert n.outputs == widen.outputs;
    SourceAppend(r, gather, ext, x);
    SourceAppend(r + [gather], widen, ext, x);
  }

  lemma ExternalHasNoSource(base: set<string>, nodes: seq<Node>, ext: map<string, DType>, w: string)
    requires WellFormed(base, nodes) && Arities(nodes) && w in base
    ensures Source(nodes, ext, w).None?
  {
    BaseApart(base, nodes);
    UndefinedHasNoSource(nodes, ext, w);
  }

  /** After the rewrite, only names that were widened copies before are. */
  lemma {:induction false} SinkSource(base: set<string>, nodes: seq<Node>, ext: map<string, DType>, x: string)
    requires WellFormed(base, nodes) && Arities(nodes) && Fresh(base, nodes) && ext.Keys <= base
    ensures Arities(Sink(nodes, ext)) && (Source(Sink(nodes, ext), ext, x).Some? ==> Source(nodes, ext, x).Some?)
    decreases |nodes|
  {
    SinkWellFormed(base, nodes, ext);
    if nodes != [] {
      var prefix, n := nodes[..|nodes| - 1], nodes[|nodes| - 1];
      SinkWellFormed(base, prefix, ext);
      SinkSource(base, prefix, ext, x);
      FreshName(base, nodes);
      if Rewritten(prefix, ext, n) {
        SinkPair(base, prefix, n, ext, x);
      } else {
        SourceAppend(Sink(prefix, ext), n, ext, x);
        if Passthrough(n) {
          SinkSource(base, prefix, ext, n.inputs[0]);
        }
      }
    }
  }

  lemma FreshName(base: set<string>, nodes: seq<Node>)
    requires nodes != [] && Fresh(base, nodes)
    ensures |nodes[|nodes| - 1].outputs| > 0 ==> NarrowName(nodes[|nodes| - 1]) !in base
  {
    BaseDefined(base, nodes);
  }

  lemma SinkPair(base: set<string>, prefix: seq<Node>, n: Node, ext: map<string, DType>, x: string)
    requires Arities(prefix) && Arity(n) && Rewritten(prefix, ext, n) && ext.Keys <= base && NarrowName(n) !in base
    requires WellFormed(base, Sink(prefix, ext)) && Arities(Sink(prefix, ext))
    ensures
      var r, r' := Sink(prefix, ext), Sink(prefix, ext) + SinkNode(prefix, ext, n);
      Arities(r') && Rewrites(r', ext) == Rewrites(r, ext) &&
      (Source(r', ext, x).Some? ==> x !in n.outputs && Source(r, ext, x).Some?)
  {
    var (w, to) := Source(prefix, ext, n.inputs[0]).value;
    SourceExternal(prefix, ext, n.inputs[0]);
    ExternalHasNoSource(base, Sink(prefix, ext), ext, w);
    PairSource(Sink(prefix, ext), n, w, to, ext, x);
  }

  lemma {:induction false} SinkLeavesNone(base: set<string>, nodes: seq<Node>, ext: map<string, DType>)
    requires WellFormed(base, nodes) && Arities(nodes) && Fresh(base, nodes) && ext.Keys <= base
    ensures Arities(Sink(nodes, ext)) && Rewrites(Sink(nodes, ext), ext) == 0
  {
    SinkWellFormed(base, nodes, ext);
    if nodes != [] {
      var prefix, n := nodes[..|nodes| - 1], nodes[|nodes| - 1];
      SinkLeavesNone(base, prefix, ext);
      SinkWellFormed(base, prefix, ext);
      FreshName(base, nodes);
      NodeLeavesNone(base, prefix, n, ext);
    }
  }

  lemma NodeLeavesNone(base: set<string>, prefix: seq<Node>, n: Node, ext: map<string, DType>)
    requires WellFormed(base, prefix) && Arities(prefix) && Fresh(base, prefix) && ext.Keys <= base && Arity(n)
    requires |n.outputs| > 0 ==> NarrowName(n) !in base
    requires WellFormed(base, Sink(prefix, ext)) && Arities(Sink(prefix, ext)) && Rewrites(Sink(prefix, ext), ext) == 0
    ensures Arities(Sink(prefix, ext) + SinkNode(prefix, ext, n))
    ensures Rewrites(Sink(prefix, ext) + SinkNode(prefix, ext, n), ext) == 0
  {
    hide Fresh, WellFormed, Sink, Rewrites, Source, NarrowName;
    if Rewritten(prefix, ext, n) {
      SinkPair(base, prefix, n, ext, "");
    } else {
      SourceAppend(Sink(prefix, ext), n, ext, "");
      if GathersRows(n) {
        SinkSource(base, prefix, ext, n.inputs[0]);
      }
    }
  }

  /** Nor does dropping nodes make a new widened copy. */
  lemma {:induction false} FilterSource(base: set<string>, nodes: seq<Node>, ext: map<string, DType>, used: set<string>, x: string)
    requires WellFormed(base, nodes) && Arities(nodes) && Source(Filter(nodes, used), ext, x).Some?
    ensures Source(nodes, ext, x).Some?
    decreases |nodes|
  {
    if nodes != [] {
      var prefix, n := nodes[..|nodes| - 1], nodes[|nodes| - 1];
      var r := Filter(prefix, used);
      if Kept(n, used) {
        SourceAppend(r, n, ext, x);
        if x !in n.outputs {
          FilterSource(base, prefix, ext, used, x);
        } else if Passthrough(n) {
          FilterSource(base, prefix, ext, used, n.inputs[0]);
        }
      } else {
        FilterSource(base, prefix, ext, used, x);
        if x in n.outputs {
          assert x in Set(n.outputs);
          BaseDefined(base, prefix);
          UndefinedHasNoSource(prefix, ext, x);
        }
      }
    }
  }

  lemma {:induction false} FilterLeavesNone(base: set<string>, nodes: seq<Node>, ext: map<string, DType>, used: set<string>)
    requires WellFormed(base, nodes) && Arities(nodes) && Rewrites(nodes, ext) == 0
    ensures Rewrites(Filter(nodes, used), ext) == 0
  {
    if nodes != [] {
      var prefix, n := nodes[..|nodes| - 1], nodes[|nodes| - 1];
      var r := Filter(prefix, used);
      FilterLeavesNone(base, prefix, ext, used);
      if Kept(n, used) {
        SourceAppend(r, n, ext, "");
        if Rewritten(r, ext, n) {
          FilterSource(base, prefix, ext, used, n.inputs[0]);
        }
      } else {
      }
    }
  }

  lemma {:induction false} PruneLeavesNone(base: set<string>, nodes: seq<Node>, ext: map<string, DType>, outputs: seq<string>)
    requires WellFormed(base, nodes) && Arities(nodes) && Rewrites(nodes, ext) == 0
    ensures Arities(Prune(nodes, outputs)) && Rewrites(Prune(nodes, outputs), ext) == 0
    decreases |nodes|
  {
    var used := Used(nodes, outputs);
    if |Filter(nodes, used)| != |nodes| {
      FilterWellFormed(base, nodes, used);
      FilterLeavesNone(base, nodes, ext, used);
      PruneLeavesNone(base, Filter(nodes, used), ext, outputs);
    }
  }

  /**
   The result is again a list of nodes in a valid order. Once anything was rewritten, no Cast or pass-through node is
   unused and no Gather reads rows of a widened checkpoint tensor; running the pass again changes nothing.
   */
  lemma SinkResultShape(base: set<string>, nodes: seq<Node>, ext: map<string, DType>, outputs: seq<string>)
    requires WellFormed(base, nodes) && Arities(nodes) && Fresh(base, nodes) && ext.Keys <= base
    ensures
      var r := SinkResult(nodes, ext, outputs);
      WellFormed(base, r) && Arities(r) && Rewrites(r, ext) == 0 && SinkResult(r, ext, outputs) == r &&
      (Rewrites(nodes, ext) > 0 ==> forall n <- r :: Kept(n, Used(r, outputs)))
  {
    if Rewrites(nodes, ext) != 0 {
      SinkWellFormed(base, nodes, ext);
      SinkLeavesNone(base, nodes, ext);
      PruneWellFormed(base, Sink(nodes, ext), outputs);
      PruneLeavesNone(base, Sink(nodes, ext), ext, outputs);
    }
  }
}
