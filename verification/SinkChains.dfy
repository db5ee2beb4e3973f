/**
 What `sink_casts_below_gathers` (convert/ollaya_convert/weightless_sharded.py) finds and what it leaves, said of the graph alone:
 a chain is a Cast of a 16-bit checkpoint tensor and the nodes that only hand its result on.
 */
module SinkChains {
  import opened Wrappers
  import opened Collections
  import opened Onnx
  import opened SinkCasts

  // ---------------------------------------------------------------- chains

  /** Identity, or a Transpose whose `perm` is 0, 1, 2, … */
  predicate HandsOn(n: Node) {
    n.op == Identity ||
    (n.op.Transpose? && n.op.perm.Some? && forall i :: 0 <= i < |n.op.perm.value| ==> n.op.perm.value[i] == i)
  }

  ghost predicate Linked(nodes: seq<Node>, a: string, b: string) {
    exists n :: n in nodes && HandsOn(n) && n.inputs == [a] && n.outputs == [b]
  }

  /** The names from a Cast of `w` on, each handed on to the next. */
  ghost predicate Chain(nodes: seq<Node>, names: seq<string>, w: string, to: DType) {
    names != [] && Node(Cast(to), [w], [names[0]]) in nodes &&
    forall k :: 0 <= k < |names| - 1 ==> Linked(nodes, names[k], names[k + 1])
  }

  /** Initializer `i` is external and called `w`, and of several that are the last counts. */
  predicate Counts(inits: seq<Initializer>, i: nat, w: string) {
    i < |inits| && inits[i].external && inits[i].name == w && forall j :: i < j < |inits| && inits[j].external ==> inits[j].name != w
  }

  /** An external initializer of type BFLOAT16 or FLOAT16. */
  ghost predicate Half(inits: seq<Initializer>, w: string) {
    exists i: nat :: Counts(inits, i, w) && (inits[i].value.dtype == BFLOAT16 || inits[i].value.dtype == FLOAT16)
  }

  /** `x` ends a chain from a Cast to `to` of the 16-bit checkpoint tensor `w`. */
  ghost predicate Widened(nodes: seq<Node>, inits: seq<Initializer>, x: string, w: string, to: DType) {
    Half(inits, w) && exists names :: Chain(nodes, names, w, to) && names[|names| - 1] == x
  }

  lemma HandsOnIs(n: Node)
    ensures Passthrough(n) <==> HandsOn(n)
  {
    if n.op.Transpose? && n.op.perm.Some? {
      var perm := n.op.perm.value;
      var kept: seq<nat> := seq(|perm|, i => i);
      assert OrderKeeping(perm) <==> perm == kept;
      assert forall i :: 0 <= i < |perm| ==> kept[i] == i;
    }
  }

  lemma CountsBefore(inits: seq<Initializer>, i: nat, w: string)
    requires i < |inits| - 1 && Counts(inits, i, w)
    ensures Counts(inits[..|inits| - 1], i, w) && (inits[|inits| - 1].external ==> inits[|inits| - 1].name != w)
  {
    var k := |inits| - 1;
    assert forall j :: i <= j < k ==> inits[..k][j] == inits[j];
  }

  lemma {:induction false} TypeOf(inits: seq<Initializer>, i: nat, w: string)
    requires Counts(inits, i, w)
    ensures w in ExternalTypes(inits) && ExternalTypes(inits)[w] == inits[i].value.dtype
  {
    var k := |inits| - 1;
    if i < k {
      CountsBefore(inits, i, w);
      hide Counts;
      TypeOf(inits[..k], i, w);
    }
  }

  lemma {:induction false} SomeCounts(inits: seq<Initializer>, w: string) returns (i: nat)
    requires w in ExternalTypes(inits)
    ensures Counts(inits, i, w)
  {
    var k := |inits| - 1;
    if inits[k].external && inits[k].name == w {
      i := k;
    } else {
      i := SomeCounts(inits[..k], w);
      assert forall j :: i < j < k ==> inits[j] == inits[..k][j];
    }
  }

  lemma HalfIs(inits: seq<Initializer>, w: string)
    ensures Narrow(ExternalTypes(inits), w) <==> Half(inits, w)
  {
    if i: nat :| Counts(inits, i, w) && (inits[i].value.dtype == BFLOAT16 || inits[i].value.dtype == FLOAT16) {
      TypeOf(inits, i, w);
    }
    if w in ExternalTypes(inits) {
      var i := SomeCounts(inits, w);
      TypeOf(inits, i, w);
    }
  }

  lemma ChainGrows(nodes: seq<Node>, more: seq<Node>, names: seq<string>, w: string, to: DType)
    requires Chain(nodes, names, w, to) && forall n <- nodes :: n in more
    ensures Chain(more, names, w, to)
  {
    forall k | 0 <= k < |names| - 1 ensures Linked(more, names[k], names[k + 1]) {
      assert Linked(nodes, names[k], names[k + 1]);
    }
  }

  /** What the walk finds is such a chain … */
  lemma {:induction false} SourceChain(nodes: seq<Node>, ext: map<string, DType>, x: string) returns (names: seq<string>)
    requires Arities(nodes) && Source(nodes, ext, x).Some?
    ensures
      var (w, to) := Source(nodes, ext, x).value;
      Narrow(ext, w) && Chain(nodes, names, w, to) && names[|names| - 1] == x
  {
    var prefix, n := nodes[..|nodes| - 1], nodes[|nodes| - 1];
    var (w, to) := Source(nodes, ext, x).value;
    HandsOnIs(n);
    if x !in n.outputs {
      names := SourceChain(prefix, ext, x);
      ChainGrows(prefix, nodes, names, w, to);
    } else if Passthrough(n) {
      var front := SourceChain(prefix, ext, n.inputs[0]);
      ChainGrows(prefix, nodes, front, w, to);
      names := front + [x];
      assert n.inputs == [n.inputs[0]] && n.outputs == [x] && n in nodes;
      assert Linked(nodes, n.inputs[0], x);
      LinkedSnoc(nodes, front, x, w, to);
    } else {
      names := [x];
      assert n == Node(Cast(to), [w], [x]);
    }
  }

  lemma LinkedSnoc(nodes: seq<Node>, front: seq<string>, x: string, w: string, to: DType)
    requires Chain(nodes, front, w, to) && Linked(nodes, front[|front| - 1], x)
    ensures Chain(nodes, front + [x], w, to)
  {
    hide Linked;
    var names := front + [x];
    forall k | 0 <= k < |names| - 1 ensures Linked(nodes, names[k], names[k + 1]) {
      if k < |front| - 1 {
        assert Linked(nodes, front[k], front[k + 1]);
      }
    }
  }

  /** In a valid list a node's output has no later producer. */
  lemma OnlyProducer(base: set<string>, nodes: seq<Node>, j: nat, x: string)
    requires WellFormed(base, nodes) && j < |nodes| && x in nodes[j].outputs
    ensures Outputs(nodes, j, x)
  {
    WellFormedPrefix(base, nodes, j + 1);
    assert nodes[..j + 1][..j] == nodes[..j];
    assert x in Set(nodes[j].outputs);
    forall i | j < i < |nodes| ensures x !in nodes[i].outputs {
      NotDefinedAfter(base, nodes, j + 1, i, x);
    }
  }

  /** … and it finds every chain. */
  lemma {:induction false} ChainSource(base: set<string>, nodes: seq<Node>, ext: map<string, DType>, names: seq<string>, w: string,
                                       to: DType)
    requires WellFormed(base, nodes) && Arities(nodes) && Narrow(ext, w) && Chain(nodes, names, w, to)
    ensures Source(nodes, ext, names[|names| - 1]) == Some((w, to))
  {
    var k := |names| - 1;
    if k == 0 {
      var j :| 0 <= j < |nodes| && nodes[j] == Node(Cast(to), [w], [names[0]]);
      OnlyProducer(base, nodes, j, names[0]);
      SourceAt(nodes, ext, j, names[0]);
    } else {
      assert Linked(nodes, names[k - 1], names[k]);
      var n :| n in nodes && HandsOn(n) && n.inputs == [names[k - 1]] && n.outputs == [names[k]];
      var j :| 0 <= j < |nodes| && nodes[j] == n;
      HandsOnIs(n);
      OnlyProducer(base, nodes, j, names[k]);
      SourceAt(nodes, ext, j, names[k]);
      InputsBefore(base, nodes, j, names[k - 1]);
      SourceStable(base, nodes, ext, j, names[k - 1]);
      FrontChain(nodes, names, w, to);
      ChainSource(base, nodes, ext, names[..k], w, to);
    }
  }

  lemma FrontChain(nodes: seq<Node>, names: seq<string>, w: string, to: DType)
    requires |names| > 1 && Chain(nodes, names, w, to)
    ensures Chain(nodes, names[..|names| - 1], w, to)
  {
    hide Linked;
    var front := names[..|names| - 1];
    forall k | 0 <= k < |front| - 1 ensures Linked(nodes, front[k], front[k + 1]) {
      assert Linked(nodes, names[k], names[k + 1]);
    }
  }

  /** A name has a source exactly when it ends a chain, and the source is the chain's tensor and type. */
  lemma SourceIff(base: set<string>, nodes: seq<Node>, inits: seq<Initializer>, x: string, w: string, to: DType)
    requires WellFormed(base, nodes) && Arities(nodes)
    ensures Source(nodes, ExternalTypes(inits), x) == Some((w, to)) <==> Widened(nodes, inits, x, w, to)
  {
    var ext := ExternalTypes(inits);
    HalfIs(inits, w);
    if Source(nodes, ext, x) == Some((w, to)) {
      var names := SourceChain(nodes, ext, x);
    }
    if Widened(nodes, inits, x, w, to) {
      var names :| Chain(nodes, names, w, to) && names[|names| - 1] == x;
      ChainSource(base, nodes, ext, names, w, to);
    }
  }

  // ---------------------------------------------------------------- what becomes of every node

  /** Some chain ends at `x`. */
  ghost predicate EndsChain(nodes: seq<Node>, inits: seq<Initializer>, x: string) {
    exists w, to :: Widened(nodes, inits, x, w, to)
  }

  predicate ReadsRows(n: Node) {
    n.op == Gather(0) || n.op == GatherND(0)
  }

  /** What stands for a node: a Gather of the narrow tensor and a Cast where its data ends a chain, else the node. */
  ghost predicate StandsFor(nodes: seq<Node>, inits: seq<Initializer>, n: Node, part: seq<Node>)
    requires Arity(n)
  {
    if ReadsRows(n) && EndsChain(nodes, inits, n.inputs[0]) then
      var narrow := n.outputs[0] + ":narrow";
      forall w, to :: Widened(nodes, inits, n.inputs[0], w, to) ==>
        part == [Node(n.op, [w, n.inputs[1]], [narrow]), Node(Cast(to), [narrow], [n.outputs[0]])]
    else part == [n]
  }

  /** What the prefix before a node says of a name the node reads, the chains of the whole list say. */
  lemma SourceBefore(base: set<string>, nodes: seq<Node>, inits: seq<Initializer>, k: nat, x: string)
    requires WellFormed(base, nodes) && Arities(nodes) && k < |nodes| && Arities(nodes[..k]) && x in nodes[k].inputs
    ensures Source(nodes[..k], ExternalTypes(inits), x).Some? <==> EndsChain(nodes, inits, x)
    ensures forall w, to :: Source(nodes[..k], ExternalTypes(inits), x) == Some((w, to)) <==> Widened(nodes, inits, x, w, to)
  {
    var ext := ExternalTypes(inits);
    InputsBefore(base, nodes, k, x);
    SourceStable(base, nodes, ext, k, x);
    forall w, to ensures Source(nodes, ext, x) == Some((w, to)) <==> Widened(nodes, inits, x, w, to) {
      SourceIff(base, nodes, inits, x, w, to);
    }
    hide Widened, Source, ExternalTypes, Arities, WellFormed;
    if Source(nodes, ext, x).Some? {
      var (w, to) := Source(nodes, ext, x).value;
      assert Widened(nodes, inits, x, w, to);
    }
  }

  lemma NodeStands(base: set<string>, nodes: seq<Node>, inits: seq<Initializer>, k: nat)
    requires WellFormed(base, nodes) && Arities(nodes) && k < |nodes| && Arities(nodes[..k]) && Arity(nodes[k])
    ensures StandsFor(nodes, inits, nodes[k], SinkNode(nodes[..k], ExternalTypes(inits), nodes[k]))
    ensures |SinkNode(nodes[..k], ExternalTypes(inits), nodes[k])| ==
            if Rewritten(nodes[..k], ExternalTypes(inits), nodes[k]) then 2 else 1
  {
    hide Widened, Source, ExternalTypes, WellFormed;
    if ReadsRows(nodes[k]) {
      SourceBefore(base, nodes, inits, k, nodes[k].inputs[0]);
    }
  }

  function Pairs(parts: seq<seq<Node>>): set<int> {
    set i | 0 <= i < |parts| && |parts[i]| == 2
  }

  lemma NoPairs()
    ensures Pairs([]) == {}
  {
  }

  lemma PairsSnoc(parts: seq<seq<Node>>, last: seq<Node>)
    ensures |Pairs(parts + [last])| == |Pairs(parts)| + if |last| == 2 then 1 else 0
  {
    var more := Pairs(parts + [last]);
    assert forall i :: 0 <= i < |parts| ==> (parts + [last])[i] == parts[i];
    if |last| == 2 {
      assert more == Pairs(parts) + {|parts|};
    } else {
      assert more == Pairs(parts);
    }
  }

  /** The list of parts, and how many of them are pairs. */
  lemma {:induction false} SunkParts(base: set<string>, nodes: seq<Node>, inits: seq<Initializer>, k: nat)
    returns (parts: seq<seq<Node>>)
    requires WellFormed(base, nodes) && Arities(nodes) && k <= |nodes|
    ensures Arities(nodes[..k]) && |parts| == k && Joined(parts) == Sink(nodes[..k], ExternalTypes(inits))
    ensures forall i :: 0 <= i < k ==> Arity(nodes[i]) && StandsFor(nodes, inits, nodes[i], parts[i])
    ensures Rewrites(nodes[..k], ExternalTypes(inits)) == |Pairs(parts)|
  {
    if k == 0 {
      parts := [];
      NoPairs();
    } else {
      var before := SunkParts(base, nodes, inits, k - 1);
      ArityAt(nodes, k - 1);
      ArityPrefix(nodes, k);
      NodeStands(base, nodes, inits, k - 1);
      SinkSnoc(nodes, ExternalTypes(inits), k - 1);
      hide *;
      var last := SinkNode(nodes[..k - 1], ExternalTypes(inits), nodes[k - 1]);
      JoinedSnoc(before, last);
      PairsSnoc(before, last);
      parts := before + [last];
      forall i | 0 <= i < k ensures Arity(nodes[i]) && StandsFor(nodes, inits, nodes[i], parts[i]) {
        assert parts[i] == if i < k - 1 then before[i] else last;
      }
    }
  }

  lemma SinkSnoc(nodes: seq<Node>, ext: map<string, DType>, k: nat)
    requires k < |nodes| && Arities(nodes[..k]) && Arities(nodes[..k + 1]) && Arity(nodes[k])
    ensures Sink(nodes[..k + 1], ext) == Sink(nodes[..k], ext) + SinkNode(nodes[..k], ext, nodes[k])
    ensures Rewrites(nodes[..k + 1], ext) == Rewrites(nodes[..k], ext) + if Rewritten(nodes[..k], ext, nodes[k]) then 1 else 0
  {
    assert nodes[..k + 1][..k] == nodes[..k];
  }

  // ---------------------------------------------------------------- what is pruned

  predicate InChain(n: Node) {
    n.op.Cast? || HandsOn(n)
  }

  /** The nodes that are no part of a chain. */
  function Others(nodes: seq<Node>): seq<Node> {
    if nodes == [] then []
    else Others(nodes[..|nodes| - 1]) + if InChain(nodes[|nodes| - 1]) then [] else [nodes[|nodes| - 1]]
  }

  /** Some output of the node is a graph output, or some node reads it. */
  predicate IsRead(nodes: seq<Node>, outputs: seq<string>, n: Node) {
    exists o :: o in n.outputs && (o in outputs || exists m :: m in nodes && o in m.inputs)
  }

  lemma {:induction false} InputsRead(nodes: seq<Node>, x: string)
    ensures x in InputsOf(nodes) <==> exists m :: m in nodes && x in m.inputs
  {
    if nodes != [] {
      var k := |nodes| - 1;
      assert nodes == nodes[..k] + [nodes[k]];
      InputsRead(nodes[..k], x);
    }
  }

  lemma KeptIs(nodes: seq<Node>, outputs: seq<string>, n: Node)
    ensures Kept(n, Used(nodes, outputs)) <==> !InChain(n) || IsRead(nodes, outputs, n)
  {
    HandsOnIs(n);
    forall o | o in n.outputs ensures o in Used(nodes, outputs) <==> o in outputs || exists m :: m in nodes && o in m.inputs {
      InputsRead(nodes, o);
    }
    hide InputsOf, Passthrough, HandsOn;
    assert Set(n.outputs) !! Used(nodes, outputs) <==> forall o :: o in n.outputs ==> o !in Used(nodes, outputs);
  }

  lemma {:induction false} FilterOthers(nodes: seq<Node>, used: set<string>)
    ensures Others(Filter(nodes, used)) == Others(nodes) && forall n <- Filter(nodes, used) :: n in nodes
  {
    if nodes != [] {
      var k := |nodes| - 1;
      var r := Filter(nodes[..k], used);
      FilterOthers(nodes[..k], used);
      HandsOnIs(nodes[k]);
      assert (r + [nodes[k]])[..|r|] == r;
    }
  }

  lemma {:induction false} PruneOthers(nodes: seq<Node>, outputs: seq<string>)
    ensures Others(Prune(nodes, outputs)) == Others(nodes) && forall n <- Prune(nodes, outputs) :: n in nodes
    decreases |nodes|
  {
    var r := Filter(nodes, Used(nodes, outputs));
    FilterOthers(nodes, Used(nodes, outputs));
    if |r| != |nodes| {
      PruneOthers(r, outputs);
    }
  }

  // ---------------------------------------------------------------- the whole pass

  /** The node reads rows of what ends a chain. */
  ghost predicate Sinks(nodes: seq<Node>, inits: seq<Initializer>, n: Node) {
    ReadsRows(n) && n.inputs != [] && EndsChain(nodes, inits, n.inputs[0])
  }

  ghost predicate LeftToSink(nodes: seq<Node>, inits: seq<Initializer>) {
    exists n :: n in nodes && Sinks(nodes, inits, n)
  }

  ghost predicate NoneSinks(nodes: seq<Node>, inits: seq<Initializer>, k: nat)
    requires k <= |nodes|
  {
    k == 0 || (NoneSinks(nodes, inits, k - 1) && !Sinks(nodes, inits, nodes[k - 1]))
  }

  lemma {:induction false} NoneSinksIff(nodes: seq<Node>, inits: seq<Initializer>, k: nat)
    requires k <= |nodes|
    ensures NoneSinks(nodes, inits, k) <==> forall i :: 0 <= i < k ==> !Sinks(nodes, inits, nodes[i])
  {
    hide Sinks;
    if k > 0 {
      NoneSinksIff(nodes, inits, k - 1);
    }
  }

  lemma {:induction false} NoneLeft(base: set<string>, nodes: seq<Node>, inits: seq<Initializer>, k: nat)
    requires WellFormed(base, nodes) && Arities(nodes) && k <= |nodes|
    ensures Arities(nodes[..k])
    ensures Rewrites(nodes[..k], ExternalTypes(inits)) == 0 <==>
            NoneSinks(nodes, inits, k)
  {
    ArityPrefix(nodes, k);
    if k > 0 {
      hide Sinks, Rewrites, Rewritten, WellFormed, Arities, ExternalTypes;
      NoneLeft(base, nodes, inits, k - 1);
      ArityAt(nodes, k - 1);
      SinksIff(base, nodes, inits, k - 1);
      SinkSnoc(nodes, ExternalTypes(inits), k - 1);
    }
  }

  lemma SinksIff(base: set<string>, nodes: seq<Node>, inits: seq<Initializer>, k: nat)
    requires WellFormed(base, nodes) && Arities(nodes) && k < |nodes| && Arities(nodes[..k]) && Arity(nodes[k])
    ensures Rewritten(nodes[..k], ExternalTypes(inits), nodes[k]) <==> Sinks(nodes, inits, nodes[k])
  {
    hide EndsChain, Source, ExternalTypes, WellFormed, Arities;
    if ReadsRows(nodes[k]) {
      SourceBefore(base, nodes, inits, k, nodes[k].inputs[0]);
    }
  }

  lemma NoneLeftIff(base: set<string>, nodes: seq<Node>, inits: seq<Initializer>)
    requires WellFormed(base, nodes) && Arities(nodes)
    ensures Rewrites(nodes, ExternalTypes(inits)) == 0 <==> !LeftToSink(nodes, inits)
  {
    NoneLeft(base, nodes, inits, |nodes|);
    NoneSinksIff(nodes, inits, |nodes|);
    assert nodes[..|nodes|] == nodes;
    hide Sinks;
    if n :| n in nodes && Sinks(nodes, inits, n) {
      var i :| 0 <= i < |nodes| && nodes[i] == n;
    }
  }

  /**
   The pass, said of the graph: every node that reads rows of a chain's end becomes two and is counted, every other node stays;
   if there was any, the chain nodes that nothing reads are gone, and no other node is; nothing is left to sink.
   */
  lemma SinkSays(base: set<string>, nodes: seq<Node>, inits: seq<Initializer>, outputs: seq<string>) returns (parts: seq<seq<Node>>)
    requires WellFormed(base, nodes) && Arities(nodes) && Fresh(base, nodes) && Names(inits) <= base
    ensures |parts| == |nodes| && forall i :: 0 <= i < |nodes| ==> Arity(nodes[i]) && StandsFor(nodes, inits, nodes[i], parts[i])
    ensures Rewrites(nodes, ExternalTypes(inits)) == |Pairs(parts)|
    ensures
      var r := SinkResult(nodes, ExternalTypes(inits), outputs);
      !LeftToSink(r, inits) &&
      if Rewrites(nodes, ExternalTypes(inits)) == 0 then r == nodes
      else Others(r) == Others(Joined(parts)) && (forall n <- r :: n in Joined(parts) && (InChain(n) ==> IsRead(r, outputs, n)))
  {
    var ext := ExternalTypes(inits);
    parts := SunkParts(base, nodes, inits, |nodes|);
    assert nodes[..|nodes|] == nodes;
    var r := SinkResult(nodes, ext, outputs);
    assert ext.Keys <= Names(inits);
    SinkResultShape(base, nodes, ext, outputs);
    NoneLeftIff(base, r, inits);
    if Rewrites(nodes, ext) != 0 {
      PruneOthers(Sink(nodes, ext), outputs);
      forall n | n in r ensures InChain(n) ==> IsRead(r, outputs, n) {
        KeptIs(r, outputs, n);
      }
    }
  }
}
