/**
 `make_weightless` of convert/ollaya_convert/weightless_sharded.py: initializers become references to checkpoint
 tensors, followed by the Cast and Transpose that reproduce the exported value.
 */
module Weightless {
  import opened Wrappers
  import opened Arithmetic
  import opened Shapes
  import opened Onnx
  import SinkCasts

  // ---------------------------------------------------------------- checkpoints

  function Exp2(n: int): (r: real)
    ensures r > 0.0
    decreases if n < 0 then -n else n
  {
    if n == 0 then 1.0 else if n > 0 then 2.0 * Exp2(n - 1) else Exp2(n + 1) / 2.0
  }

  /** The value of a finite IEEE number given by its fields: a fraction of `scale`, an exponent and its bias. */
  function Finite(negative: bool, exponent: nat, fraction: real, bias: nat): real {
    var magnitude := if exponent == 0 then fraction * Exp2(1 - bias) else (1.0 + fraction) * Exp2(exponent - bias);
    if negative then -magnitude else magnitude
  }

  function Float32(b: nat): real {
    Finite(b / 0x8000_0000 % 2 == 1, b / 0x80_0000 % 256, (b % 0x80_0000) as real / 8388608.0, 127)
  }

  function Bfloat16(b: nat): real {
    Finite(b / 0x8000 % 2 == 1, b / 0x80 % 256, (b % 0x80) as real / 128.0, 127)
  }

  function Float16(b: nat): real {
    Finite(b / 0x8000 % 2 == 1, b / 0x400 % 32, (b % 0x400) as real / 1024.0, 15)
  }

  function Signed(b: nat, top: nat): int {
    if b < top then b else b - 2 * top
  }

  function Decode(d: DType, b: nat): Elem {
    match d
    case FLOAT => Real(Float32(b))
    case FLOAT16 => Real(Float16(b))
    case BFLOAT16 => Real(Bfloat16(b))
    case INT64 => Int(Signed(b, 0x8000_0000_0000_0000))
    case INT32 => Int(Signed(b, 0x8000_0000))
    case UINT8 => Int(b)
  }

  /** How many patterns a type has. */
  function Patterns(d: DType): nat {
    match d
    case FLOAT => 0x1_0000_0000
    case FLOAT16 => 0x1_0000
    case BFLOAT16 => 0x1_0000
    case INT64 => 0x1_0000_0000_0000_0000
    case INT32 => 0x1_0000_0000
    case UINT8 => 256
  }

  /** A pattern of the type's width, and of a float a finite one. */
  predicate Proper(d: DType, b: nat) {
    b < Patterns(d) &&
    match d
    case FLOAT => b / 0x80_0000 % 256 != 255
    case FLOAT16 => b / 0x400 % 32 != 31
    case BFLOAT16 => b / 0x80 % 256 != 255
    case _ => true
  }

  datatype EntryData = EntryData(key: string, dtype: DType, shape: seq<nat>, bits: seq<nat>)

  /** One checkpoint tensor: the stored numbers, in row-major order. */
  type Entry = e: EntryData | |e.bits| == Size(e.shape) && forall i :: 0 <= i < |e.bits| ==> Proper(e.dtype, e.bits[i])
    witness EntryData("", FLOAT, [], [0])

  datatype Source = Source(location: string, entries: seq<Entry>)

  datatype Ref = Ref(si: nat, ei: nat)

  predicate ValidRef(sources: seq<Source>, r: Ref) {
    r.si < |sources| && r.ei < |sources[r.si].entries|
  }

  function At(sources: seq<Source>, r: Ref): Entry
    requires ValidRef(sources, r)
  {
    sources[r.si].entries[r.ei]
  }

  function DecodeAll(d: DType, bits: seq<nat>): (r: seq<Elem>)
    ensures |r| == |bits|
  {
    seq(|bits|, i requires 0 <= i < |bits| => Decode(d, bits[i]))
  }

  /** The tensor as a runtime reads it from the file. */
  function Stored(e: Entry): Tensor {
    TensorData(e.dtype, e.shape, DecodeAll(e.dtype, e.bits))
  }

  /** `Source.value`: the tensor as the exporter saw it, a bfloat16 one with its bits moved up into a float32. */
  function Value(e: Entry): Tensor {
    if e.dtype == BFLOAT16 then
      TensorData(FLOAT, e.shape, DecodeAll(FLOAT, seq(|e.bits|, i requires 0 <= i < |e.bits| => e.bits[i] * 65536)))
    else Stored(e)
  }

  lemma Widening(b: nat)
    ensures Float32(b * 65536) == Bfloat16(b)
  {
    var q, r := b / 128, b % 128;
    assert b * 65536 == q * 0x80_0000 + r * 65536;
    DivUnique(b * 65536, 0x80_0000, q, r * 65536);
    var q', r' := b / 0x8000, b % 0x8000;
    assert b * 65536 == q' * 0x8000_0000 + r' * 65536;
    DivUnique(b * 65536, 0x8000_0000, q', r' * 65536);
    assert (r * 65536) as real / 8388608.0 == r as real / 128.0;
  }

  /** The upcast changes no element's value. */
  lemma ValueIsExact(e: Entry)
    ensures Value(e).shape == e.shape && Value(e).data == Stored(e).data
  {
    if e.dtype == BFLOAT16 {
      forall i | 0 <= i < |e.bits| ensures Value(e).data[i] == Stored(e).data[i] {
        Widening(e.bits[i]);
      }
    }
  }

  /** `convert` leaves a finite number alone that the type can hold. */
  ghost predicate Exact(s: Semantics) {
    forall d: DType, b: nat :: Proper(d, b) ==> s.convert(d, Decode(d, b)) == Decode(d, b)
  }

  /** A conversion that wraps integers to the width of the type, as numpy and ONNX do. */
  function Wrapping(d: DType, e: Elem): Elem {
    match (d, e)
    case (INT64, Int(i)) => Int(Signed(i % 0x1_0000_0000_0000_0000, 0x8000_0000_0000_0000))
    case (INT32, Int(i)) => Int(Signed(i % 0x1_0000_0000, 0x8000_0000))
    case (UINT8, Int(i)) => Int(i % 256)
    case _ => e
  }

  /** Wrapping conversions leave those numbers alone. */
  lemma WrappingIsExact(s: Semantics)
    requires forall d, e :: s.convert(d, e) == Wrapping(d, e)
    ensures Exact(s)
  {
    forall d: DType, b: nat | Proper(d, b) ensures s.convert(d, Decode(d, b)) == Decode(d, b) {
      assert s.convert(d, Decode(d, b)) == Wrapping(d, Decode(d, b));
    }
  }

  // ---------------------------------------------------------------- finding an initializer's tensor

  datatype Found = Found(at: Ref, transpose: bool)

  /** What the rewrite is given: how values convert, the checkpoint files, and the checkpoint names to try for an initializer. */
  datatype Job = Job(s: Semantics, sources: seq<Source>, candidates: string -> seq<string>, verify: bool)

  function FindKey(entries: seq<Entry>, key: string, from: nat): (r: Option<nat>)
    requires from <= |entries|
    ensures r.Some? ==> from <= r.value < |entries| && entries[r.value].key == key
    ensures r.None? ==> forall i :: from <= i < |entries| ==> entries[i].key != key
    decreases |entries| - from
  {
    if from == |entries| then None
    else if entries[from].key == key then Some(from)
    else FindKey(entries, key, from + 1)
  }

  /** The first checkpoint file that has the key. */
  function LookupKey(sources: seq<Source>, key: string, from: nat): (r: Option<Ref>)
    requires from <= |sources|
    ensures r.Some? ==> ValidRef(sources, r.value) && At(sources, r.value).key == key
    ensures r.None? ==> forall at :: ValidRef(sources, at) && from <= at.si ==> At(sources, at).key != key
    decreases |sources| - from
  {
    if from == |sources| then None
    else
      match FindKey(sources[from].entries, key, 0)
      case Some(ei) => Some(Ref(from, ei))
      case None => LookupKey(sources, key, from + 1)
  }

  /** The tensor, transposed or not and converted, is exactly the initializer's value. */
  predicate Matches(s: Semantics, e: Entry, t: Tensor, transpose: bool) {
    if transpose then
      |t.shape| == 2 && e.shape == [t.shape[1], t.shape[0]] &&
      (SizeOf2(e.shape); CastData(s, t.dtype, TransposeData(e.shape[0], e.shape[1], Value(e).data)) == t.data)
    else e.shape == t.shape && CastData(s, t.dtype, Value(e).data) == t.data
  }

  /** By name: the first candidate key whose tensor matches, as it is or transposed. */
  function ByName(job: Job, t: Tensor, keys: seq<string>): (r: Option<Found>)
    ensures r.Some? ==> ValidRef(job.sources, r.value.at) && Matches(job.s, At(job.sources, r.value.at), t, r.value.transpose)
  {
    if keys == [] then None
    else
      match LookupKey(job.sources, keys[0], 0)
      case Some(at) =>
        if Matches(job.s, At(job.sources, at), t, false) then Some(Found(at, false))
        else if Matches(job.s, At(job.sources, at), t, true) then Some(Found(at, true))
        else ByName(job, t, keys[1..])
      case None => ByName(job, t, keys[1..])
  }

  function SourceRefs(si: nat, entries: seq<Entry>): seq<Ref> {
    seq(|entries|, ei requires 0 <= ei < |entries| => Ref(si, ei))
  }

  function Refs(sources: seq<Source>): (r: seq<Ref>)
    ensures forall at :: at in r <==> ValidRef(sources, at)
  {
    if sources == [] then []
    else
      var k := |sources| - 1;
      var last := SourceRefs(k, sources[k].entries);
      assert forall at: Ref :: at in last <==> at.si == k && at.ei < |sources[k].entries| by {
        forall at: Ref | at.si == k && at.ei < |sources[k].entries| ensures at in last {
          assert last[at.ei] == at;
        }
      }
      assert forall at :: ValidRef(sources, at) <==> ValidRef(sources[..k], at) || (at.si == k && at.ei < |sources[k].entries|);
      Refs(sources[..k]) + last
  }

  /** By shape and value: the first tensor in file order that matches and is not in use. */
  function ByShape(job: Job, t: Tensor, refs: seq<Ref>, transpose: bool, used: set<Ref>): (r: Option<Found>)
    requires forall at <- refs :: ValidRef(job.sources, at)
    ensures r.Some? ==> r.value.at in refs && r.value.at !in used && r.value.transpose == transpose
    ensures r.Some? ==> Matches(job.s, At(job.sources, r.value.at), t, transpose)
    ensures r.None? ==> forall at <- refs :: at in used || !Matches(job.s, At(job.sources, at), t, transpose)
  {
    if refs == [] then None
    else if refs[0] !in used && Matches(job.s, At(job.sources, refs[0]), t, transpose) then Some(Found(refs[0], transpose))
    else ByShape(job, t, refs[1..], transpose, used)
  }

  function FirstHit(sources: seq<Source>, keys: seq<string>): (r: Option<Ref>)
    ensures r.Some? ==> ValidRef(sources, r.value) && At(sources, r.value).key in keys
    ensures r.None? ==> forall at :: ValidRef(sources, at) ==> At(sources, at).key !in keys
  {
    if keys == [] then None
    else
      match LookupKey(sources, keys[0], 0)
      case Some(at) => Some(at)
      case None => FirstHit(sources, keys[1..])
  }

  /** Where an initializer comes from; Some(None) keeps it inline, None is the ValueError of a tensor that does not fit. */
  function Choose(job: Job, init: Initializer, used: set<Ref>): (r: Option<Option<Found>>)
    ensures r.Some? && r.value.Some? ==> ValidRef(job.sources, r.value.value.at)
    ensures r.Some? && r.value.Some? && job.verify ==>
              Matches(job.s, At(job.sources, r.value.value.at), init.value, r.value.value.transpose)
  {
    var keys := job.candidates(init.name) + [init.name];
    if job.verify then
      var named := ByName(job, init.value, keys);
      if named.Some? || |init.value.data| <= 4096 then Some(named)
      else
        var direct := ByShape(job, init.value, Refs(job.sources), false, used);
        Some(if direct.Some? then direct else ByShape(job, init.value, Refs(job.sources), true, used))
    else
      match FirstHit(job.sources, keys)
      case None => Some(None)
      case Some(at) =>
        if At(job.sources, at).shape != init.value.shape || at in used then None else Some(Some(Found(at, false)))
  }

  // ---------------------------------------------------------------- the rewrite

  datatype Placed = Placed(kept: seq<Initializer>, nodes: seq<Node>, used: set<Ref>)

  function ExtName(location: string, key: string): string {
    "w:" + location + ":" + key
  }

  function NameOf(sources: seq<Source>, at: Ref): string
    requires ValidRef(sources, at)
  {
    ExtName(sources[at.si].location, At(sources, at).key)
  }

  function CastName(name: string): string { name + ":cast" }

  /** The nodes that turn the checkpoint tensor into the initializer. */
  function Restore(e: Entry, ext: string, init: Initializer, transpose: bool): seq<Node> {
    var cur := if e.dtype == init.value.dtype then ext else CastName(init.name);
    (if e.dtype == init.value.dtype then [] else [Node(Cast(init.value.dtype), [ext], [cur])]) +
    [Node(if transpose then Transpose(Some([1, 0])) else Identity, [cur], [init.name])]
  }

  function Place(sources: seq<Source>, p: Placed, init: Initializer, found: Option<Found>): Placed
    requires found.Some? ==> ValidRef(sources, found.value.at)
  {
    match found
    case None => p.(kept := p.kept + [init.(external := false)])
    case Some(Found(at, transpose)) =>
      var ext := NameOf(sources, at);
      var e := At(sources, at);
      Placed(if ext in Names(p.kept) then p.kept else p.kept + [Initializer(ext, Stored(e), true)],
             p.nodes + Restore(e, ext, init, transpose),
             p.used + {at})
  }

  function PlaceAll(job: Job, inits: seq<Initializer>): Option<Placed> {
    if inits == [] then Some(Placed([], [], {}))
    else
      var k := |inits| - 1;
      var p :- PlaceAll(job, inits[..k]);
      var found :- Choose(job, inits[k], p.used);
      Some(Place(job.sources, p, inits[k], found))
  }

  // ---------------------------------------------------------------- the code

  method FindByName(job: Job, t: Tensor, keys: seq<string>) returns (found: Option<Found>)
    ensures found == ByName(job, t, keys)
  {
    found := None;
    for i := 0 to |keys|
      invariant found.None? && ByName(job, t, keys) == ByName(job, t, keys[i..])
    {
      assert keys[i..][1..] == keys[i + 1..];
      var hit := LookupKey(job.sources, keys[i], 0);
      if hit.Some? {
        var e := At(job.sources, hit.value);
        if Matches(job.s, e, t, false) {
          found := Some(Found(hit.value, false));
        } else if Matches(job.s, e, t, true) {
          found := Some(Found(hit.value, true));
        }
        if found.Some? {
          return;
        }
      }
    }
  }

  method FindByShape(job: Job, t: Tensor, used: set<Ref>) returns (found: Option<Found>)
    ensures var direct := ByShape(job, t, Refs(job.sources), false, used);
            found == if direct.Some? then direct else ByShape(job, t, Refs(job.sources), true, used)
  {
    var refs := Refs(job.sources);
    for pass := 0 to 2
      invariant pass > 0 ==> ByShape(job, t, refs, false, used).None?
      invariant pass > 1 ==> ByShape(job, t, refs, true, used).None?
    {
      var transpose := pass == 1;
      for i := 0 to |refs|
        invariant ByShape(job, t, refs, transpose, used) == ByShape(job, t, refs[i..], transpose, used)
      {
        assert refs[i..][1..] == refs[i + 1..];
        if refs[i] !in used && Matches(job.s, At(job.sources, refs[i]), t, transpose) {
          return Some(Found(refs[i], transpose));
        }
      }
    }
    found := None;
  }

  /** The tensor an initializer is mapped to, if any; None when it does not fit or is already used. */
  method FindTensor(job: Job, init: Initializer, used: set<Ref>) returns (found: Option<Option<Found>>)
    ensures found == Choose(job, init, used)
  {
    var keys := job.candidates(init.name) + [init.name];
    if !job.verify {
      var hit := FirstHit(job.sources, keys);
      if hit.None? {
        return Some(None);
      }
      if At(job.sources, hit.value).shape != init.value.shape || hit.value in used {
        return None;
      }
      return Some(Some(Found(hit.value, false)));
    }
    var named := FindByName(job, init.value, keys);
    if named.None? && |init.value.data| > 4096 {
      named := FindByShape(job, init.value, used);
    }
    return Some(named);
  }

  method PlaceInitializers(job: Job, inits: seq<Initializer>) returns (r: Option<Placed>)
    ensures r == PlaceAll(job, inits)
  {
    var p := Placed([], [], {});
    for i := 0 to |inits|
      invariant PlaceAll(job, inits[..i]) == Some(p)
    {
      assert inits[..i + 1][..i] == inits[..i];
      var found := FindTensor(job, inits[i], p.used);
      if found.None? {
        PlaceAllFails(job, inits, i + 1);
        return None;
      }
      p := Place(job.sources, p, inits[i], found.value);
    }
    assert inits[..|inits|] == inits;
    return Some(p);
  }

  // ---------------------------------------------------------------- tensors left over

  /** The keys of source `si` that no initializer uses. */
  function UnusedKeys(entries: seq<Entry>, si: nat, used: set<Ref>): set<string> {
    set ei | 0 <= ei < |entries| && Ref(si, ei) !in used :: entries[ei].key
  }

  /** `unused`: by location, so of sources that share one the last counts. */
  function Unused(sources: seq<Source>, used: set<Ref>): map<string, set<string>> {
    if sources == [] then map[]
    else
      var k := |sources| - 1;
      Unused(sources[..k], used)[sources[k].location := UnusedKeys(sources[k].entries, k, used)]
  }

  /** `not any(unused.values())`. */
  predicate NoneReported(unused: map<string, set<string>>) {
    forall x <- unused :: unused[x] == {}
  }

  method UnusedTensors(sources: seq<Source>, used: set<Ref>) returns (unused: map<string, set<string>>)
    ensures unused == Unused(sources, used)
  {
    unused := map[];
    for i := 0 to |sources|
      invariant unused == Unused(sources[..i], used)
    {
      assert sources[..i + 1][..i] == sources[..i];
      unused := unused[sources[i].location := UnusedKeys(sources[i].entries, i, used)];
    }
    assert sources[..|sources|] == sources;
  }

  /** False: a checkpoint tensor does not fit or is used twice, or (without `verify`) an unused tensor is reported. */
  method MakeWeightless(graph: Graph, job: Job, sink: bool) returns (ok: bool)
    requires
      var p := PlaceAll(job, graph.initializers);
      p.Some? ==> WellFormed(Base(graph.inputs, p.value.kept), p.value.nodes + graph.nodes) &&
                  Arities(p.value.nodes + graph.nodes)
    modifies graph
    ensures
      var p := PlaceAll(job, old(graph.initializers));
      (ok <==> p.Some? && (job.verify || NoneReported(Unused(job.sources, p.value.used)))) &&
      (p.None? ==> graph.nodes == old(graph.nodes) && graph.initializers == old(graph.initializers)) &&
      (p.Some? ==>
         graph.initializers == p.value.kept &&
         graph.nodes == Rewired(p.value, old(graph.nodes), graph.outputs, sink))
  {
    var p := PlaceInitializers(job, graph.initializers);
    if p.None? {
      return false;
    }
    graph.initializers := p.value.kept;
    graph.nodes := p.value.nodes + graph.nodes;
    if sink {
      var _ := SinkCasts.SinkCastsBelowGathers(graph);
    }
    var unused := UnusedTensors(job.sources, p.value.used);
    return job.verify || NoneReported(unused);
  }

  function Rewired(p: Placed, nodes: seq<Node>, outputs: seq<string>, sink: bool): seq<Node>
    requires Arities(p.nodes + nodes)
  {
    if sink then SinkCasts.SinkResult(p.nodes + nodes, SinkCasts.ExternalTypes(p.kept), outputs) else p.nodes + nodes
  }

  lemma {:induction false} PlaceAllFails(job: Job, inits: seq<Initializer>, i: nat)
    requires i <= |inits| && PlaceAll(job, inits[..i]).None?
    ensures PlaceAll(job, inits).None?
    decreases |inits| - i
  {
    if i == |inits| {
      assert inits[..i] == inits;
    } else {
      assert inits[..i + 1][..i] == inits[..i];
      PlaceAllFails(job, inits, i + 1);
    }
  }
}
