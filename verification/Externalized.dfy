/**
 Which initializers make_weightless (convert/ollaya_convert/weightless_sharded.py) externalizes and to which tensors, said of the
 names, shapes and numbers alone, and the nodes and initializers that come of it.
 */
module Externalized {
  import opened Wrappers
  import opened Arithmetic
  import opened Collections
  import opened Shapes
  import opened Onnx
  import opened Weightless
  import SinkCasts
  import SinkChains

  // ---------------------------------------------------------------- which tensor

  predicate Earlier(a: Ref, b: Ref) {
    a.si < b.si || (a.si == b.si && a.ei < b.ei)
  }

  /** The first tensor of that key, in the order of the files. */
  ghost predicate FirstOf(sources: seq<Source>, key: string, at: Ref) {
    ValidRef(sources, at) && At(sources, at).key == key &&
    forall b :: ValidRef(sources, b) && Earlier(b, at) ==> At(sources, b).key != key
  }

  /** The tensor's numbers, converted, are the initializer's. */
  predicate Same(s: Semantics, e: Entry, t: Tensor) {
    e.shape == t.shape &&
    forall i :: 0 <= i < |t.data| ==> s.convert(t.dtype, Decode(e.dtype, e.bits[i])) == t.data[i]
  }

  /** Row `r` and column `c` of the initializer are row `c` and column `r` of the tensor. */
  predicate SameTransposed(s: Semantics, e: Entry, t: Tensor) {
    |t.shape| == 2 && e.shape == [t.shape[1], t.shape[0]] &&
    forall r, c :: 0 <= r < t.shape[0] && 0 <= c < t.shape[1] ==> TransposedAt(s, e, t, r, c)
  }

  predicate TransposedAt(s: Semantics, e: Entry, t: Tensor, r: nat, c: nat)
    requires |t.shape| == 2 && e.shape == [t.shape[1], t.shape[0]] && r < t.shape[0] && c < t.shape[1]
  {
    Places(e, t, r, c);
    s.convert(t.dtype, Decode(e.dtype, e.bits[c * t.shape[0] + r])) == t.data[r * t.shape[1] + c]
  }

  lemma Places(e: Entry, t: Tensor, r: nat, c: nat)
    requires |t.shape| == 2 && e.shape == [t.shape[1], t.shape[0]] && r < t.shape[0] && c < t.shape[1]
    ensures 0 <= c * t.shape[0] + r < |e.bits| && 0 <= r * t.shape[1] + c < |t.data|
    ensures |t.data| == t.shape[0] * t.shape[1] && |e.bits| == t.shape[1] * t.shape[0]
  {
    SizeOf2(t.shape);
    SizeOf2(e.shape);
    Index2(t.shape[0], t.shape[1], r, c);
    Index2(t.shape[1], t.shape[0], c, r);
  }

  lemma SameIs(s: Semantics, e: Entry, t: Tensor)
    ensures Matches(s, e, t, false) <==> Same(s, e, t)
  {
    ValueIsExact(e);
    if e.shape == t.shape {
      assert |e.bits| == |t.data|;
      assert forall i :: 0 <= i < |t.data| ==>
               CastData(s, t.dtype, Value(e).data)[i] == s.convert(t.dtype, Decode(e.dtype, e.bits[i]));
    }
  }

  lemma TransposedIs(s: Semantics, e: Entry, t: Tensor)
    ensures Matches(s, e, t, true) <==> SameTransposed(s, e, t)
  {
    if |t.shape| == 2 && e.shape == [t.shape[1], t.shape[0]] {
      ValueIsExact(e);
      SizeOf2(t.shape);
      SizeOf2(e.shape);
      var (rows, cols) := (t.shape[0], t.shape[1]);
      var turned := CastData(s, t.dtype, TransposeData(cols, rows, Value(e).data));
      forall r, c | 0 <= r < rows && 0 <= c < cols
        ensures 0 <= r * cols + c < |t.data| && (TransposedAt(s, e, t, r, c) <==> turned[r * cols + c] == t.data[r * cols + c])
      {
        Places(e, t, r, c);
        Turned(s, e, t, r, c);
      }
      if SameTransposed(s, e, t) {
        forall i | 0 <= i < |t.data| ensures turned[i] == t.data[i] {
          Split2(rows, cols, i);
          assert TransposedAt(s, e, t, i / cols, i % cols);
        }
      }
    }
  }

  lemma Turned(s: Semantics, e: Entry, t: Tensor, r: nat, c: nat)
    requires |t.shape| == 2 && e.shape == [t.shape[1], t.shape[0]] && r < t.shape[0] && c < t.shape[1]
    ensures |Value(e).data| == t.shape[1] * t.shape[0] && 0 <= r * t.shape[1] + c < t.shape[0] * t.shape[1]
    ensures 0 <= c * t.shape[0] + r < |e.bits|
    ensures CastData(s, t.dtype, TransposeData(t.shape[1], t.shape[0], Value(e).data))[r * t.shape[1] + c] ==
            s.convert(t.dtype, Decode(e.dtype, e.bits[c * t.shape[0] + r]))
  {
    ValueIsExact(e);
    Places(e, t, r, c);
    Index2(t.shape[0], t.shape[1], r, c);
  }

  lemma {:induction false} FindKeyIs(entries: seq<Entry>, key: string, from: nat)
    requires from <= |entries|
    ensures FindKey(entries, key, from).Some? ==> forall i :: from <= i < FindKey(entries, key, from).value ==> entries[i].key != key
    decreases |entries| - from
  {
    if from < |entries| && entries[from].key != key {
      FindKeyIs(entries, key, from + 1);
    }
  }

  lemma {:induction false} LookupFirst(sources: seq<Source>, key: string, from: nat)
    requires from <= |sources| && LookupKey(sources, key, from).Some?
    ensures forall b :: ValidRef(sources, b) && from <= b.si && Earlier(b, LookupKey(sources, key, from).value) ==>
              At(sources, b).key != key
    decreases |sources| - from
  {
    FindKeyIs(sources[from].entries, key, 0);
    if FindKey(sources[from].entries, key, 0).None? {
      LookupFirst(sources, key, from + 1);
    }
  }

  /** What `lookup` finds is the first tensor of the key. */
  lemma LookupIs(sources: seq<Source>, key: string, at: Ref)
    ensures LookupKey(sources, key, 0) == Some(at) <==> FirstOf(sources, key, at)
  {
    var r := LookupKey(sources, key, 0);
    if r.Some? {
      LookupFirst(sources, key, 0);
      if FirstOf(sources, key, at) {
        assert !Earlier(at, r.value) && !Earlier(r.value, at);
      }
    }
  }

  // ---------------------------------------------------------------- by name

  /** The first tensor of the key is the initializer's, as it is or transposed. */
  ghost predicate Hits(job: Job, t: Tensor, key: string, at: Ref) {
    FirstOf(job.sources, key, at) && (Same(job.s, At(job.sources, at), t) || SameTransposed(job.s, At(job.sources, at), t))
  }

  ghost predicate NoHit(job: Job, t: Tensor, key: string) {
    forall at :: !Hits(job, t, key, at)
  }

  /** Key `k` is the first that hits. */
  ghost predicate Named(job: Job, t: Tensor, keys: seq<string>, k: nat, at: Ref) {
    k < |keys| && Hits(job, t, keys[k], at) && forall j :: 0 <= j < k ==> NoHit(job, t, keys[j])
  }

  lemma HitsIs(job: Job, t: Tensor, key: string)
    ensures
      match LookupKey(job.sources, key, 0)
      case None => NoHit(job, t, key)
      case Some(at) =>
        FirstOf(job.sources, key, at) && (forall b :: Hits(job, t, key, b) ==> b == at) &&
        (Hits(job, t, key, at) <==> Matches(job.s, At(job.sources, at), t, false) || Matches(job.s, At(job.sources, at), t, true)) &&
        (Same(job.s, At(job.sources, at), t) <==> Matches(job.s, At(job.sources, at), t, false))
  {
    forall at ensures LookupKey(job.sources, key, 0) == Some(at) <==> FirstOf(job.sources, key, at) {
      LookupIs(job.sources, key, at);
    }
    if LookupKey(job.sources, key, 0).Some? {
      var at := LookupKey(job.sources, key, 0).value;
      SameIs(job.s, At(job.sources, at), t);
      TransposedIs(job.s, At(job.sources, at), t);
    }
    hide Same, SameTransposed, Matches, FirstOf, LookupKey;
  }

  /** What a search by name may answer. */
  ghost predicate IsByName(job: Job, t: Tensor, keys: seq<string>, found: Option<Found>) {
    match found
    case None => forall k :: 0 <= k < |keys| ==> NoHit(job, t, keys[k])
    case Some(Found(at, transpose)) =>
      exists k: nat :: Named(job, t, keys, k, at) && (transpose <==> !Same(job.s, At(job.sources, at), t))
  }

  /** By name: the first key that hits, untransposed if that is the value; none when no key hits. */
  lemma {:induction false} ByNameIs(job: Job, t: Tensor, keys: seq<string>)
    ensures IsByName(job, t, keys, ByName(job, t, keys))
  {
    if keys != [] {
      HitsIs(job, t, keys[0]);
      ByNameIs(job, t, keys[1..]);
      var at := LookupKey(job.sources, keys[0], 0);
      assert at.None? || !Hits(job, t, keys[0], at.value) ==> NoHit(job, t, keys[0]);
      hide Matches, LookupKey, Same, SameTransposed, FirstOf, Hits, NoHit;
      if at.Some? && Hits(job, t, keys[0], at.value) {
        assert Named(job, t, keys, 0, at.value);
      } else {
        OneMoreKey(job, t, keys, ByName(job, t, keys[1..]));
      }
    }
  }

  lemma OneMoreKey(job: Job, t: Tensor, keys: seq<string>, found: Option<Found>)
    requires keys != [] && NoHit(job, t, keys[0]) && IsByName(job, t, keys[1..], found)
    ensures IsByName(job, t, keys, found)
  {
    hide NoHit, Same, SameTransposed;
    if found.Some? {
      var at := found.value.at;
      var k: nat :| Named(job, t, keys[1..], k, at) && (found.value.transpose <==> !Same(job.s, At(job.sources, at), t));
      assert forall j :: 0 < j <= k ==> keys[j] == keys[1..][j - 1];
      assert Named(job, t, keys, k + 1, at);
    } else {
      assert forall j :: 0 < j < |keys| ==> keys[j] == keys[1..][j - 1];
    }
  }

  // ---------------------------------------------------------------- by shape

  /** A tensor no earlier initializer uses that has the value, as it is or transposed. */
  ghost predicate Free(job: Job, t: Tensor, used: set<Ref>, at: Ref, transpose: bool) {
    ValidRef(job.sources, at) && at !in used &&
    if transpose then SameTransposed(job.s, At(job.sources, at), t) else Same(job.s, At(job.sources, at), t)
  }

  ghost predicate FirstFree(job: Job, t: Tensor, used: set<Ref>, at: Ref, transpose: bool) {
    Free(job, t, used, at, transpose) && forall b :: Earlier(b, at) ==> !Free(job, t, used, b, transpose)
  }

  lemma FreeIs(job: Job, t: Tensor, used: set<Ref>, at: Ref, transpose: bool)
    requires ValidRef(job.sources, at)
    ensures Free(job, t, used, at, transpose) <==> at !in used && Matches(job.s, At(job.sources, at), t, transpose)
  {
    SameIs(job.s, At(job.sources, at), t);
    TransposedIs(job.s, At(job.sources, at), t);
    hide Matches, Same, SameTransposed;
  }

  /** The files' tensors are tried in order. */
  lemma {:induction false} RefsInOrder(sources: seq<Source>)
    ensures forall i, j :: 0 <= i < j < |Refs(sources)| ==> Earlier(Refs(sources)[i], Refs(sources)[j])
  {
    if sources != [] {
      var k := |sources| - 1;
      RefsInOrder(sources[..k]);
      var (before, last) := (Refs(sources[..k]), SourceRefs(k, sources[k].entries));
      assert Refs(sources) == before + last;
      assert forall at :: at in before ==> at.si < k;
      forall i, j | 0 <= i < j < |before + last| ensures Earlier((before + last)[i], (before + last)[j]) {
        if i < |before| {
          assert before[i] in before;
        }
      }
    }
  }

  lemma {:induction false} ByShapeFirst(job: Job, t: Tensor, refs: seq<Ref>, transpose: bool, used: set<Ref>)
    requires forall at <- refs :: ValidRef(job.sources, at)
    requires forall i, j :: 0 <= i < j < |refs| ==> Earlier(refs[i], refs[j])
    ensures var r := ByShape(job, t, refs, transpose, used);
            (r.None? ==> forall b <- refs :: !Free(job, t, used, b, transpose)) &&
            (r.Some? ==> Free(job, t, used, r.value.at, transpose) &&
                         forall b <- refs :: Earlier(b, r.value.at) ==> !Free(job, t, used, b, transpose))
  {
    hide Matches, Free;
    if refs != [] {
      var at := refs[0];
      FreeIs(job, t, used, at, transpose);
      assert forall b <- refs :: b == at || b in refs[1..];
      assert forall b <- refs[1..] :: Earlier(at, b);
      if !Free(job, t, used, at, transpose) {
        ByShapeFirst(job, t, refs[1..], transpose, used);
      }
    }
  }

  /** By shape and value: the first free tensor in the order of the files. */
  lemma ByShapeIs(job: Job, t: Tensor, transpose: bool, used: set<Ref>)
    ensures var r := ByShape(job, t, Refs(job.sources), transpose, used);
            (r.None? ==> forall b :: !Free(job, t, used, b, transpose)) &&
            (r.Some? ==> r.value.transpose == transpose && FirstFree(job, t, used, r.value.at, transpose))
  {
    RefsInOrder(job.sources);
    ByShapeFirst(job, t, Refs(job.sources), transpose, used);
    assert forall at :: Free(job, t, used, at, transpose) ==> at in Refs(job.sources);
    hide ByShape, Refs, SameTransposed, Same;
  }

  // ---------------------------------------------------------------- the decision

  /** With `verify`: where an initializer goes, given the tensors in use; None keeps it inline. */
  ghost predicate Verified(job: Job, init: Initializer, used: set<Ref>, found: Option<Found>) {
    var keys := job.candidates(init.name) + [init.name];
    match found
    case None =>
      IsByName(job, init.value, keys, None) &&
      (|init.value.data| <= 4096 || forall b, turned :: !Free(job, init.value, used, b, turned))
    case Some(Found(at, transpose)) =>
      IsByName(job, init.value, keys, found) ||
      (IsByName(job, init.value, keys, None) && |init.value.data| > 4096 &&
       FirstFree(job, init.value, used, at, transpose) &&
       (transpose ==> forall b :: !Free(job, init.value, used, b, false)))
  }

  /** Key `k` is the first that any file has. */
  ghost predicate Held(job: Job, keys: seq<string>, k: nat, at: Ref) {
    k < |keys| && FirstOf(job.sources, keys[k], at) &&
    forall j, b :: 0 <= j < k && ValidRef(job.sources, b) ==> At(job.sources, b).key != keys[j]
  }

  /** Without `verify`: the first key any file has decides; no key, and the initializer stays inline. */
  ghost predicate Trusted(job: Job, init: Initializer, used: set<Ref>, found: Option<Found>) {
    var keys := job.candidates(init.name) + [init.name];
    match found
    case None => forall k, b :: 0 <= k < |keys| && ValidRef(job.sources, b) ==> At(job.sources, b).key != keys[k]
    case Some(Found(at, transpose)) =>
      !transpose && at !in used && (exists k: nat :: Held(job, keys, k, at)) && At(job.sources, at).shape == init.value.shape
  }

  /** The ValueError: that tensor has another shape or is in use already. */
  ghost predicate Misfit(job: Job, init: Initializer, used: set<Ref>) {
    var keys := job.candidates(init.name) + [init.name];
    exists k: nat, at :: Held(job, keys, k, at) && (At(job.sources, at).shape != init.value.shape || at in used)
  }

  lemma {:induction false} FirstHitIs(job: Job, keys: seq<string>) returns (k: nat)
    ensures
      match FirstHit(job.sources, keys)
      case None => true
      case Some(at) => Held(job, keys, k, at)
  {
    k := 0;
    if keys != [] {
      var at := LookupKey(job.sources, keys[0], 0);
      if at.Some? {
        LookupIs(job.sources, keys[0], at.value);
      } else {
        k := FirstHitIs(job, keys[1..]);
        k := k + 1;
        assert forall j :: 0 < j < |keys| ==> keys[j] == keys[1..][j - 1];
      }
      hide LookupKey;
    }
  }

  ghost predicate Decided(job: Job, init: Initializer, used: set<Ref>, found: Option<Found>) {
    if job.verify then Verified(job, init, used, found) else Trusted(job, init, used, found)
  }

  lemma ChooseVerified(job: Job, init: Initializer, used: set<Ref>)
    requires job.verify
    ensures Choose(job, init, used).Some? && Verified(job, init, used, Choose(job, init, used).value)
  {
    var keys := job.candidates(init.name) + [init.name];
    ByNameIs(job, init.value, keys);
    ByShapeIs(job, init.value, false, used);
    ByShapeIs(job, init.value, true, used);
    hide ByName, ByShape, Refs, IsByName, Matches, Free, FirstFree;
  }

  /** Where an initializer goes. */
  lemma ChooseIs(job: Job, init: Initializer, used: set<Ref>)
    ensures
      match Choose(job, init, used)
      case Some(found) => Decided(job, init, used, found)
      case None => !job.verify && Misfit(job, init, used)
  {
    if job.verify {
      ChooseVerified(job, init, used);
    } else {
      var k := FirstHitIs(job, job.candidates(init.name) + [init.name]);
      hide FirstHit, FirstOf;
    }
  }

  // ---------------------------------------------------------------- the nodes and initializers

  /** The tensors in use after these decisions. */
  function InUse(found: seq<Option<Found>>): set<Ref> {
    set i | 0 <= i < |found| && found[i].Some? :: found[i].value.at
  }

  /** The file's tensor under its external name. */
  ghost predicate IsExternal(sources: seq<Source>, at: Ref, x: Initializer)
    requires ValidRef(sources, at)
  {
    var e := sources[at.si].entries[at.ei];
    x.name == "w:" + sources[at.si].location + ":" + e.key && x.external && x.value.dtype == e.dtype && x.value.shape == e.shape &&
    forall i :: 0 <= i < |e.bits| ==> x.value.data[i] == Decode(e.dtype, e.bits[i])
  }

  /** What one decision adds to the initializers `kept` so far. */
  ghost predicate Keeps(sources: seq<Source>, init: Initializer, found: Option<Found>, kept: seq<Initializer>,
                        piece: seq<Initializer>) {
    match found
    case None => piece == [Initializer(init.name, init.value, false)]
    case Some(Found(at, _)) =>
      ValidRef(sources, at) &&
      if exists x <- kept :: x.name == "w:" + sources[at.si].location + ":" + sources[at.si].entries[at.ei].key then piece == []
      else |piece| == 1 && IsExternal(sources, at, piece[0])
  }

  /** The nodes one decision adds. */
  predicate Adds(sources: seq<Source>, init: Initializer, found: Option<Found>, piece: seq<Node>) {
    match found
    case None => piece == []
    case Some(Found(at, transpose)) =>
      ValidRef(sources, at) &&
      var e := sources[at.si].entries[at.ei];
      var ext := "w:" + sources[at.si].location + ":" + e.key;
      var last := if transpose then Transpose(Some([1, 0])) else Identity;
      piece ==
      if e.dtype == init.value.dtype then [Node(last, [ext], [init.name])]
      else [Node(Cast(init.value.dtype), [ext], [init.name + ":cast"]), Node(last, [init.name + ":cast"], [init.name])]
  }

  /** The decisions, initializers and nodes of the whole rewrite so far. */
  ghost predicate Lists(job: Job, inits: seq<Initializer>, found: seq<Option<Found>>, kept: seq<seq<Initializer>>,
                        nodes: seq<seq<Node>>) {
    |found| == |kept| == |nodes| <= |inits| &&
    forall i :: 0 <= i < |found| ==> ListsOne(job, inits[i], found[..i], found[i], kept[..i], kept[i], nodes[i])
  }

  ghost predicate ListsOne(job: Job, init: Initializer, before: seq<Option<Found>>, found: Option<Found>, kept: seq<seq<Initializer>>,
                           piece: seq<Initializer>, nodes: seq<Node>) {
    Decided(job, init, InUse(before), found) && Keeps(job.sources, init, found, Joined(kept), piece) &&
    Adds(job.sources, init, found, nodes)
  }

  lemma PlaceAdds(sources: seq<Source>, p: Placed, init: Initializer, found: Option<Found>)
    returns (kept: seq<Initializer>, nodes: seq<Node>)
    requires found.Some? ==> ValidRef(sources, found.value.at)
    ensures Keeps(sources, init, found, p.kept, kept) && Adds(sources, init, found, nodes)
    ensures Place(sources, p, init, found) ==
            Placed(p.kept + kept, p.nodes + nodes, if found.Some? then p.used + {found.value.at} else p.used)
  {
    match found {
      case None =>
        kept, nodes := [Initializer(init.name, init.value, false)], [];
        assert p.nodes + nodes == p.nodes;
      case Some(Found(at, transpose)) =>
        var e := At(sources, at);
        var ext := NameOf(sources, at);
        nodes := Restore(e, ext, init, transpose);
        kept := if ext in Names(p.kept) then [] else [Initializer(ext, Stored(e), true)];
        assert p.kept + [] == p.kept;
    }
  }

  lemma InUseSnoc(found: seq<Option<Found>>, last: Option<Found>)
    ensures InUse(found + [last]) == if last.Some? then InUse(found) + {last.value.at} else InUse(found)
  {
    var long := found + [last];
    assert forall i :: 0 <= i < |found| ==> long[i] == found[i];
    assert long[|found|] == last;
    forall at ensures at in InUse(long) <==> at in InUse(found) || (last.Some? && at == last.value.at) {
      if at in InUse(found) {
        var i :| 0 <= i < |found| && found[i].Some? && found[i].value.at == at;
        assert long[i].value.at == at;
      }
    }
  }

  lemma ListsPrefix(job: Job, inits: seq<Initializer>, k: nat, found: seq<Option<Found>>, kept: seq<seq<Initializer>>,
                    nodes: seq<seq<Node>>)
    requires k <= |inits| && Lists(job, inits[..k], found, kept, nodes)
    ensures Lists(job, inits, found, kept, nodes)
    ensures |found| < k ==> inits[..k][|found|] == inits[|found|]
  {
    hide ListsOne;
    forall i | 0 <= i < |found|
      ensures ListsOne(job, inits[i], found[..i], found[i], kept[..i], kept[i], nodes[i])
    {
      assert inits[..k][i] == inits[i];
    }
  }

  lemma ListsSnoc(job: Job, inits: seq<Initializer>, found: seq<Option<Found>>, kept: seq<seq<Initializer>>, nodes: seq<seq<Node>>,
                  last: Option<Found>, piece: seq<Initializer>, added: seq<Node>)
    requires Lists(job, inits, found, kept, nodes) && |found| < |inits|
    requires ListsOne(job, inits[|found|], found, last, kept, piece, added)
    ensures Lists(job, inits, found + [last], kept + [piece], nodes + [added])
  {
    hide ListsOne;
    var (founds, kepts, nodess) := (found + [last], kept + [piece], nodes + [added]);
    forall i | 0 <= i < |founds|
      ensures ListsOne(job, inits[i], founds[..i], founds[i], kepts[..i], kepts[i], nodess[i])
    {
      assert founds[..i] == found[..i] && kepts[..i] == kept[..i];
      assert found[..|found|] == found && kept[..|kept|] == kept;
    }
  }

  /** A rewrite that stopped (fewer decisions than initializers) stopped at a tensor that does not fit. */
  ghost predicate Says(job: Job, inits: seq<Initializer>, found: seq<Option<Found>>, kept: seq<seq<Initializer>>,
                       nodes: seq<seq<Node>>, answer: Option<Placed>) {
    Lists(job, inits, found, kept, nodes) &&
    if |found| == |inits| then answer == Some(Placed(Joined(kept), Joined(nodes), InUse(found)))
    else answer.None? && !job.verify && Misfit(job, inits[|found|], InUse(found))
  }

  /**
   Every initializer in turn is decided with the tensors of the earlier ones in use. An inline one is kept as it is; another
   adds its tensor under the external name, unless the name is there, and the Cast and Transpose or Identity that give the
   initializer's name its value.
   */
  lemma {:induction false} PlacedSays(job: Job, inits: seq<Initializer>)
    returns (found: seq<Option<Found>>, kept: seq<seq<Initializer>>, nodes: seq<seq<Node>>)
    ensures Says(job, inits, found, kept, nodes, PlaceAll(job, inits))
  {
    hide Decided, Misfit, Choose, Place, Keeps, Adds;
    if inits == [] {
      found, kept, nodes := [], [], [];
      assert InUse([]) == {};
    } else {
      var k := |inits| - 1;
      found, kept, nodes := PlacedSays(job, inits[..k]);
      ListsPrefix(job, inits, k, found, kept, nodes);
      if |found| == k {
        var p := PlaceAll(job, inits[..k]).value;
        ChooseIs(job, inits[k], p.used);
        var choice := Choose(job, inits[k], p.used);
        if choice.Some? {
          var piece, added := PlaceAdds(job.sources, p, inits[k], choice.value);
          ListsSnoc(job, inits, found, kept, nodes, choice.value, piece, added);
          InUseSnoc(found, choice.value);
          JoinedSnoc(kept, piece);
          JoinedSnoc(nodes, added);
          found, kept, nodes := found + [choice.value], kept + [piece], nodes + [added];
        }
      }
    }
  }

  /** With `sink` the new node list is what `SinkChains.SinkSays` says of the inserted and the old nodes; without, it is those. */
  lemma RewiredSays(base: set<string>, p: Placed, nodes: seq<Node>, outputs: seq<string>) returns (parts: seq<seq<Node>>)
    requires WellFormed(base, p.nodes + nodes) && Arities(p.nodes + nodes)
    requires SinkCasts.Fresh(base, p.nodes + nodes) && Names(p.kept) <= base
    ensures Rewired(p, nodes, outputs, false) == p.nodes + nodes
    ensures
      var (all, r) := (p.nodes + nodes, Rewired(p, nodes, outputs, true));
      |parts| == |all| &&
      (forall i :: 0 <= i < |all| ==> Arity(all[i]) && SinkChains.StandsFor(all, p.kept, all[i], parts[i])) &&
      !SinkChains.LeftToSink(r, p.kept) &&
      (r == all ||
       (SinkChains.Others(r) == SinkChains.Others(Joined(parts)) &&
        forall n <- r :: n in Joined(parts) && (SinkChains.InChain(n) ==> SinkChains.IsRead(r, outputs, n))))
  {
    parts := SinkChains.SinkSays(base, p.nodes + nodes, p.kept, outputs);
  }

  // ---------------------------------------------------------------- the stored numbers

  lemma Doubling(n: int)
    ensures Exp2(0) == 1.0 && Exp2(n + 1) == 2.0 * Exp2(n)
  {
  }

  lemma FiniteIs(negative: bool, exponent: nat, fraction: real, bias: nat)
    ensures
      var size := if exponent == 0 then fraction * Exp2(1 - bias) else (1.0 + fraction) * Exp2(exponent - bias);
      Finite(negative, exponent, fraction, bias) == if negative then -size else size
  {
    hide Exp2;
  }

  lemma SingleFields(sign: nat, exponent: nat, fraction: nat)
    requires sign < 2 && exponent < 256 && fraction < 0x80_0000
    ensures
      var b := sign * 0x8000_0000 + exponent * 0x80_0000 + fraction;
      b < 0x1_0000_0000 && b / 0x80_0000 % 256 == exponent &&
      Float32(b) == Finite(sign == 1, exponent, fraction as real / 8388608.0, 127)
  {
    var b := sign * 0x8000_0000 + exponent * 0x80_0000 + fraction;
    DivUnique(b, 0x8000_0000, sign, exponent * 0x80_0000 + fraction);
    DivUnique(b, 0x80_0000, sign * 256 + exponent, fraction);
    DivUnique(sign * 256 + exponent, 256, sign, exponent);
    hide Finite;
  }

  /** A binary32 pattern: sign, eight bits of exponent (bias 127), 23 of fraction; with exponent 0, no leading one. */
  lemma SinglesAre(sign: nat, exponent: nat, fraction: nat)
    requires sign < 2 && exponent < 255 && fraction < 0x80_0000
    ensures Proper(FLOAT, sign * 0x8000_0000 + exponent * 0x80_0000 + fraction)
    ensures
      var size := if exponent == 0 then fraction as real / 8388608.0 * Exp2(-126)
                  else (1.0 + fraction as real / 8388608.0) * Exp2(exponent - 127);
      Decode(FLOAT, sign * 0x8000_0000 + exponent * 0x80_0000 + fraction) == Real(if sign == 1 then -size else size)
  {
    hide Exp2, Float32, Finite;
    SingleFields(sign, exponent, fraction);
    FiniteIs(sign == 1, exponent, fraction as real / 8388608.0, 127);
  }

  lemma HalfFields(sign: nat, exponent: nat, fraction: nat)
    requires sign < 2 && exponent < 32 && fraction < 1024
    ensures
      var b := sign * 0x8000 + exponent * 1024 + fraction;
      b < 0x1_0000 && b / 0x400 % 32 == exponent && Float16(b) == Finite(sign == 1, exponent, fraction as real / 1024.0, 15)
  {
    var b := sign * 0x8000 + exponent * 1024 + fraction;
    DivUnique(b, 0x8000, sign, exponent * 1024 + fraction);
    DivUnique(b, 1024, sign * 32 + exponent, fraction);
    DivUnique(sign * 32 + exponent, 32, sign, exponent);
    hide Finite;
  }

  /** A binary16 pattern: five bits of exponent (bias 15) and ten of fraction. */
  lemma HalvesAre(sign: nat, exponent: nat, fraction: nat)
    requires sign < 2 && exponent < 31 && fraction < 1024
    ensures Proper(FLOAT16, sign * 0x8000 + exponent * 1024 + fraction)
    ensures
      var size := if exponent == 0 then fraction as real / 1024.0 * Exp2(-14)
                  else (1.0 + fraction as real / 1024.0) * Exp2(exponent - 15);
      Decode(FLOAT16, sign * 0x8000 + exponent * 1024 + fraction) == Real(if sign == 1 then -size else size)
  {
    hide Exp2, Float16, Finite;
    HalfFields(sign, exponent, fraction);
    FiniteIs(sign == 1, exponent, fraction as real / 1024.0, 15);
  }

  /** A bfloat16 is the upper half of a binary32. */
  lemma BrainFloatsAre(b: nat)
    requires b < 0x1_0000
    ensures Decode(BFLOAT16, b) == Decode(FLOAT, b * 0x1_0000) && (Proper(BFLOAT16, b) <==> Proper(FLOAT, b * 0x1_0000))
  {
    Widening(b);
    DivUnique(b * 0x1_0000, 0x80_0000, b / 128, b % 128 * 0x1_0000);
  }

  /** Signed integers are stored modulo the width. */
  lemma IntegersAre(i: int)
    ensures -0x8000_0000_0000_0000 <= i < 0x8000_0000_0000_0000 ==> Decode(INT64, i % 0x1_0000_0000_0000_0000) == Int(i)
    ensures -0x8000_0000 <= i < 0x8000_0000 ==> Decode(INT32, i % 0x1_0000_0000) == Int(i)
    ensures 0 <= i < 256 ==> Decode(UINT8, i) == Int(i)
  {
  }
}
