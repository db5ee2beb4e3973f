/**
 Which locations of checkpoint files keep the promises of `make_weightless`
 (convert/ollaya_convert/weightless_sharded.py): when initializers always get their values back, and when a normal return always
 means a bijection.
 */
module Locations {
  import opened Wrappers
  import opened Collections
  import opened Onnx
  import opened Shapes
  import opened Weightless
  import opened WeightlessProofs

  // ---------------------------------------------------------------- when initializers get their values back

  /** Checkpoint files at these locations; a file has no key twice. */
  predicate Over(job: Job, locations: seq<string>) {
    |job.sources| == |locations| &&
    forall i :: 0 <= i < |locations| ==> job.sources[i].location == locations[i] && DistinctKeys(job.sources[i].entries)
  }

  predicate DistinctKeys(entries: seq<Entry>) {
    forall j, k :: 0 <= j < k < |entries| ==> entries[j].key != entries[k].key
  }

  /** Every rewrite over files at these locations, with `verify`, gives all initializers their values back. */
  ghost predicate AlwaysRestores(locations: seq<string>) {
    forall job: Job, env: Env, inits: seq<Initializer> ::
      Over(job, locations) && job.verify && Exact(job.s) && Fresh(job.sources, env.Keys, inits) && PlaceAll(job, inits).Some? ==>
        Restored(job, env, inits)
  }

  /** Two locations that never give one external name. */
  predicate Apart(a: string, b: string) {
    a != b && !(a + ":" <= b) && !(b + ":" <= a)
  }

  /** They do exactly when every two locations differ and neither starts the other up to a colon. */
  lemma LocationsDecide(locations: seq<string>)
    ensures AlwaysRestores(locations) <==> forall i, j :: 0 <= i < j < |locations| ==> Apart(locations[i], locations[j])
  {
    hide Over, Fresh, Exact, Restored, PlaceAll, Apart;
    if i: nat, j: nat :| i < j < |locations| && !Apart(locations[i], locations[j]) {
      var k1, k2 := Colliding(locations[i], locations[j]);
      CollisionLosesAValue(locations, i, j, k1, k2);
      var env: Env := map[];
      assert env.Keys == {};
    } else {
      forall job: Job, env: Env, inits: seq<Initializer>
        | Over(job, locations) && job.verify && Exact(job.s) && Fresh(job.sources, env.Keys, inits) && PlaceAll(job, inits).Some?
        ensures Restored(job, env, inits)
      {
        ApartUnambiguous(job, locations);
        InitializersRestored(job, env, inits);
      }
    }
  }

  lemma Colliding(a: string, b: string) returns (k1: string, k2: string)
    requires !Apart(a, b)
    ensures ExtName(a, k1) == ExtName(b, k2)
  {
    if a == b {
      k1, k2 := "", "";
    } else {
      NamesApart(a, b);
      k1, k2 :| ExtName(a, k1) == ExtName(b, k2);
    }
  }

  lemma ApartUnambiguous(job: Job, locations: seq<string>)
    requires Over(job, locations) && forall i, j :: 0 <= i < j < |locations| ==> Apart(locations[i], locations[j])
    ensures Unambiguous(job.sources)
  {
    forall x, y | ValidRef(job.sources, x) && ValidRef(job.sources, y) && NameOf(job.sources, x) == NameOf(job.sources, y)
      ensures x == y
    {
      if x.si < y.si {
        NeverOneName(locations[x.si], At(job.sources, x).key, locations[y.si], At(job.sources, y).key);
      } else if y.si < x.si {
        NeverOneName(locations[y.si], At(job.sources, y).key, locations[x.si], At(job.sources, x).key);
      }
      SameKey(locations[x.si], At(job.sources, x).key, At(job.sources, y).key);
    }
  }

  lemma NeverOneName(a: string, k1: string, b: string, k2: string)
    requires Apart(a, b)
    ensures ExtName(a, k1) != ExtName(b, k2)
  {
    NamesApart(a, b);
  }

  lemma SameKey(l: string, k1: string, k2: string)
    requires ExtName(l, k1) == ExtName(l, k2)
    ensures k1 == k2
  {
    StripName(l, k1);
    StripName(l, k2);
    assert (l + ":" + k1)[|l| + 1..] == k1 && (l + ":" + k2)[|l| + 1..] == k2;
  }

  // ---------------------------------------------------------------- two tensors with one external name

  const PLAIN := Semantics((d, e) => e, x => x, (a, b) => Real(0.0), (op, args) => None)

  function Copy(ext: string, name: string): Node {
    Node(Identity, [ext], [name])
  }

  /** Initializers `x` and `y`, found at `r0` and `r1`, whose tensors have one external name. */
  ghost predicate Collide(job: Job, x: Initializer, y: Initializer, r0: Ref, r1: Ref) {
    job.s == PLAIN && x.name == "x" && y.name == "y" && ValidRef(job.sources, r0) && ValidRef(job.sources, r1) &&
    Choose(job, x, {}) == Some(Some(Found(r0, false))) && Choose(job, y, {r0}) == Some(Some(Found(r1, false))) &&
    NameOf(job.sources, r0) == NameOf(job.sources, r1) && Stored(At(job.sources, r0)) == x.value &&
    At(job.sources, r1).dtype == y.value.dtype
  }

  /** Only the first tensor is kept, and the second initializer gets the first one's value. */
  lemma SharedNameLoses(job: Job, x: Initializer, y: Initializer, r0: Ref, r1: Ref)
    requires Collide(job, x, y, r0, r1) && x.value != y.value
    ensures PlaceAll(job, [x, y]).Some? && !Restored(job, map[], [x, y])
  {
    var ext, t := NameOf(job.sources, r0), x.value;
    assert ext[0] == 'w' && "x"[0] == 'x' && "y"[0] == 'y';
    assert ext != "x" && ext != "y";
    hide *;
    PlaceTwo(job, x, y, r0, r1);
    RunBoth(ext, t);
    assert y.name == "y" && job.s == PLAIN by { SharedNames(job, x, y, r0, r1); }
    NotRestored(job, [x, y], 1, map[ext := t, "x" := t, "y" := t]);
  }

  lemma SharedNames(job: Job, x: Initializer, y: Initializer, r0: Ref, r1: Ref)
    requires Collide(job, x, y, r0, r1)
    ensures job.s == PLAIN && x.name == "x" && y.name == "y" && ValidRef(job.sources, r0)
  {
    hide Choose;
  }

  lemma PlaceTwo(job: Job, x: Initializer, y: Initializer, r0: Ref, r1: Ref)
    requires Collide(job, x, y, r0, r1)
    ensures var ext := NameOf(job.sources, r0);
            PlaceAll(job, [x, y]) == Some(Placed([Initializer(ext, x.value, true)], [Copy(ext, "x"), Copy(ext, "y")], {r0, r1}))
  {
    hide Choose, NameOf, DecodeAll;
    var ext := NameOf(job.sources, r0);
    var kept := [Initializer(ext, x.value, true)];
    PlaceSnoc(job, [], x);
    PlaceSnoc(job, [x], y);
    assert [] + [x] == [x] && [x] + [y] == [x, y];
    PlaceCopy(job, Placed([], [], {}), x, r0);
    hide PlaceAll, Place;
    assert [] + kept == kept && [] + [Copy(ext, "x")] == [Copy(ext, "x")] && {} + {r0} == {r0};
    assert PlaceAll(job, [x]) == Some(Placed(kept, [Copy(ext, "x")], {r0}));
    assert ext in Names(kept) by { assert kept[0] in kept; }
    PlaceCopy(job, Placed(kept, [Copy(ext, "x")], {r0}), y, r1);
    assert [Copy(ext, "x")] + [Copy(ext, "y")] == [Copy(ext, "x"), Copy(ext, "y")] && {r0} + {r1} == {r0, r1};
  }

  lemma PlaceSnoc(job: Job, inits: seq<Initializer>, init: Initializer)
    ensures PlaceAll(job, []) == Some(Placed([], [], {}))
    ensures PlaceAll(job, inits).Some? ==>
              var p := PlaceAll(job, inits).value;
              PlaceAll(job, inits + [init]) ==
              if Choose(job, init, p.used).None? then None else Some(Place(job.sources, p, init, Choose(job, init, p.used).value))
  {
    hide Choose, Place;
    assert (inits + [init])[..|inits|] == inits;
  }

  lemma PlaceCopy(job: Job, p: Placed, init: Initializer, at: Ref)
    requires ValidRef(job.sources, at) && At(job.sources, at).dtype == init.value.dtype
    ensures
      var ext := NameOf(job.sources, at);
      Place(job.sources, p, init, Some(Found(at, false))) ==
      Placed(if ext in Names(p.kept) then p.kept else p.kept + [Initializer(ext, Stored(At(job.sources, at)), true)],
             p.nodes + [Copy(ext, init.name)], p.used + {at})
  {
    assert [] + [Copy(NameOf(job.sources, at), init.name)] == [Copy(NameOf(job.sources, at), init.name)];
  }

  // ---------------------------------------------------------------- the graph of two copies

  lemma NotRestored(job: Job, inits: seq<Initializer>, i: nat, e: Env)
    requires PlaceAll(job, inits).Some? && i < |inits|
    requires var p := PlaceAll(job, inits).value; Run(job.s, p.nodes, InitEnv(map[], p.kept)) == Some(e)
    requires inits[i].name in e && e[inits[i].name] != inits[i].value
    ensures !Restored(job, map[], inits)
  {
    assert inits[i] in inits;
  }

  lemma RunBoth(ext: string, t: Tensor)
    requires ext != "x" && ext != "y"
    ensures Run(PLAIN, [Copy(ext, "x"), Copy(ext, "y")], InitEnv(map[], [Initializer(ext, t, true)])) ==
            Some(map[ext := t, "x" := t, "y" := t])
  {
    var env: Env := map[ext := t];
    var kept := [Initializer(ext, t, true)];
    assert kept[..0] == [];
    assert InitEnv(map[], kept) == env;
    CopyScalar(ext, "x", t, env);
    CopyScalar(ext, "y", t, env["x" := t]);
    RunConcat(PLAIN, [Copy(ext, "x")], [Copy(ext, "y")], env);
    assert [Copy(ext, "x")] + [Copy(ext, "y")] == [Copy(ext, "x"), Copy(ext, "y")];
  }

  lemma CopyScalar(ext: string, name: string, t: Tensor, env: Env)
    requires ext in env && env[ext] == t
    ensures Run(PLAIN, [Copy(ext, name)], env) == Some(env[name := t])
  {
    RunOne(PLAIN, Copy(ext, name), env);
    assert Lookup(env, [ext]).value == [t];
    BindOne(env, name, t);
  }

  // ---------------------------------------------------------------- such tensors over any locations

  /** The patterns of 0.0 and 2.0. */
  type Pattern = b: nat | b in {0, 0x4000_0000} witness 0

  const TWO: Pattern := 0x4000_0000

  /** The least size of an initializer that is looked for by shape. */
  const LARGE := 4097

  lemma LargeSize()
    ensures Size([LARGE]) == LARGE
  {
    assert [LARGE][1..] == [] && Size([LARGE]) == LARGE * Size([LARGE][1..]);
  }

  /** A large tensor of one repeated number. */
  function Large(key: string, bits: Pattern): Entry {
    LargeSize();
    EntryData(key, FLOAT, [LARGE], seq(LARGE, _ => bits))
  }

  function Wanted(name: string, bits: Pattern): Initializer {
    Initializer(name, Stored(Large("", bits)), true)
  }

  /** Key `k1` of file `i`, 2.0 throughout, and key `k2` of file `j`, 0.0 throughout; the other files are empty. */
  function Clash(locations: seq<string>, i: nat, j: nat, k1: string, k2: string): Job {
    Job(PLAIN,
        seq(|locations|, n requires 0 <= n < |locations| =>
          Source(locations[n], if n == i then [Large(k1, TWO)] else if n == j then [Large(k2, 0)] else [])),
        name => [], true)
  }

  /**
   Two tensors of different files with one external name: only the first is kept, and the second initializer silently gets
   the first one's value, although both were found and compared.
   */
  lemma CollisionLosesAValue(locations: seq<string>, i: nat, j: nat, k1: string, k2: string)
    requires i < j < |locations| && ExtName(locations[i], k1) == ExtName(locations[j], k2)
    ensures
      var job, inits := Clash(locations, i, j, k1, k2), [Wanted("x", TWO), Wanted("y", 0)];
      Over(job, locations) && job.verify && Exact(job.s) && Fresh(job.sources, {}, inits) && PlaceAll(job, inits).Some? &&
      !Restored(job, map[], inits)
  {
    var job, x, y := Clash(locations, i, j, k1, k2), Wanted("x", TWO), Wanted("y", 0);
    ClashOver(locations, i, j, k1, k2);
    ClashFresh(locations, i, j, k1, k2);
    ClashCollides(locations, i, j, k1, k2);
    WantedDiffer();
    hide *;
    SharedNameLoses(job, x, y, Ref(i, 0), Ref(j, 0));
  }

  lemma ClashOver(locations: seq<string>, i: nat, j: nat, k1: string, k2: string)
    ensures var job := Clash(locations, i, j, k1, k2); Over(job, locations) && job.verify && Exact(job.s)
  {
    hide Large;
  }

  /** As for files at `a` and `a:b`, with keys `b:c` and `c`. */
  lemma ColonLosesAValue()
    ensures
      var job, inits := Clash(["a", "a:b"], 0, 1, "b:c", "c"), [Wanted("x", TWO), Wanted("y", 0)];
      Exact(job.s) && Fresh(job.sources, {}, inits) && PlaceAll(job, inits).Some? && !Restored(job, map[], inits)
  {
    assert ExtName("a", "b:c") == "w:a:b:c" == ExtName("a:b", "c");
    hide *;
    CollisionLosesAValue(["a", "a:b"], 0, 1, "b:c", "c");
  }

  lemma WantedDiffer()
    ensures Wanted("x", TWO).value != Wanted("y", 0).value
  {
    TwoIsNotZero();
    assert Wanted("x", TWO).value.data[0] == Decode(FLOAT, TWO) && Wanted("y", 0).value.data[0] == Decode(FLOAT, 0);
  }

  lemma TwoIsNotZero()
    ensures Decode(FLOAT, TWO) != Decode(FLOAT, 0)
  {
    assert Float32(TWO) == 2.0 by { assert Exp2(1) == 2.0 * Exp2(0); }
    assert Float32(0) == 0.0;
  }

  /** The two tensors are the only ones. */
  lemma ClashRefs(locations: seq<string>, i: nat, j: nat, k1: string, k2: string)
    requires i < j < |locations|
    ensures var sources := Clash(locations, i, j, k1, k2).sources;
            (forall at :: ValidRef(sources, at) <==> at == Ref(i, 0) || at == Ref(j, 0)) &&
            At(sources, Ref(i, 0)) == Large(k1, TWO) && At(sources, Ref(j, 0)) == Large(k2, 0)
  {
    hide Large;
  }

  lemma ClashFresh(locations: seq<string>, i: nat, j: nat, k1: string, k2: string)
    requires i < j < |locations| && ExtName(locations[i], k1) == ExtName(locations[j], k2)
    ensures Fresh(Clash(locations, i, j, k1, k2).sources, {}, [Wanted("x", TWO), Wanted("y", 0)])
  {
    var sources, ext := Clash(locations, i, j, k1, k2).sources, ExtName(locations[i], k1);
    assert ext[0] == 'w';
    ClashRefs(locations, i, j, k1, k2);
    assert sources[i].location == locations[i] && sources[j].location == locations[j];
    hide ExtName, Fresh;
    assert ExtNames(sources) <= {ext} by {
      forall at | ValidRef(sources, at) ensures NameOf(sources, at) == ext {
      }
    }
    OneNameFresh(sources, [Wanted("x", TWO), Wanted("y", 0)], ext);
  }

  lemma ClashCollides(locations: seq<string>, i: nat, j: nat, k1: string, k2: string)
    requires i < j < |locations| && ExtName(locations[i], k1) == ExtName(locations[j], k2)
    ensures Collide(Clash(locations, i, j, k1, k2), Wanted("x", TWO), Wanted("y", 0), Ref(i, 0), Ref(j, 0))
  {
    var job, x, y := Clash(locations, i, j, k1, k2), Wanted("x", TWO), Wanted("y", 0);
    ClashRefs(locations, i, j, k1, k2);
    WantedDiffer();
    SameData(k1, TWO);
    SameData(k2, 0);
    hide Large, Stored, ExtName, DecodeAll;
    OnlyMatch(job, x, {}, Ref(i, 0));
    OnlyMatch(job, y, {Ref(i, 0)}, Ref(j, 0));
    hide Choose;
  }

  lemma SameData(key: string, bits: Pattern)
    ensures Stored(Large(key, bits)) == Wanted("", bits).value && |Wanted("", bits).value.data| == LARGE
  {
  }

  /** A large initializer whose value only one tensor has is placed there. */
  lemma OnlyMatch(job: Job, init: Initializer, used: set<Ref>, at: Ref)
    requires job.verify && job.s == PLAIN && |init.value.data| > 4096 && |init.value.shape| == 1 && init.value.dtype == FLOAT
    requires ValidRef(job.sources, at) && at !in used && Stored(At(job.sources, at)) == init.value
    requires forall b :: ValidRef(job.sources, b) && b != at ==> At(job.sources, b).dtype == FLOAT && Stored(At(job.sources, b)) != init.value
    ensures Choose(job, init, used) == Some(Some(Found(at, false)))
  {
    forall b | ValidRef(job.sources, b) ensures Matches(job.s, At(job.sources, b), init.value, false) <==> b == at {
      PlainMatches(At(job.sources, b), init.value);
    }
  }

  /** Without conversion, a tensor matches exactly the initializers of its own stored value. */
  lemma PlainMatches(e: Entry, t: Tensor)
    requires e.dtype == FLOAT && t.dtype == FLOAT
    ensures Matches(PLAIN, e, t, false) <==> Stored(e) == t
  {
    assert CastData(PLAIN, t.dtype, Value(e).data) == Value(e).data;
  }

  /** The names `x` and `y` are fresh over files whose tensors have one external name. */
  lemma OneNameFresh(sources: seq<Source>, inits: seq<Initializer>, ext: string)
    requires |inits| == 2 && inits[0].name == "x" && inits[1].name == "y" && ExtNames(sources) <= {ext}
    requires ext != [] && ext[0] == 'w'
    ensures Fresh(sources, {}, inits)
  {
    ClashNames(inits);
    hide *;
    assert "x"[0] == "x:cast"[0] == 'x' && "y"[0] == "y:cast"[0] == 'y';
    assert ext !in {"x", "y"} && ext !in {"x:cast", "y:cast"};
    assert |"x"| == |"y"| == 1 && |"x:cast"| == |"y:cast"| == 6;
    assert {"x:cast", "y:cast"} !! {"x", "y"};
    FreshOf(sources, inits, ext, {"x", "y"}, {"x:cast", "y:cast"});
  }

  lemma FreshOf(sources: seq<Source>, inits: seq<Initializer>, ext: string, names: set<string>, casts: set<string>)
    requires Unique(inits) && Names(inits) == names && CastNames(inits) == casts && ExtNames(sources) <= {ext}
    requires ext !in names && ext !in casts && casts !! names
    ensures Fresh(sources, {}, inits)
  {
  }

  lemma ClashNames(inits: seq<Initializer>)
    requires |inits| == 2 && inits[0].name == "x" && inits[1].name == "y"
    ensures Unique(inits) && Names(inits) == {"x", "y"} && CastNames(inits) == {"x:cast", "y:cast"}
  {
    assert Unique(inits) by { assert "x"[0] != "y"[0]; }
    TwoNames(inits[0], inits[1]);
    hide Names, CastNames, Unique;
    assert inits == [inits[0], inits[1]];
    assert CastName("x") == "x:cast" && CastName("y") == "y:cast";
  }

  lemma TwoNames(x: Initializer, y: Initializer)
    ensures Names([x, y]) == {x.name, y.name} && CastNames([x, y]) == {CastName(x.name), CastName(y.name)}
  {
    assert Names([]) == {} && CastNames([]) == {};
    assert [x, y] == ([] + [x]) + [y];
    hide Names, CastNames, CastName;
    AllNamesSnoc([], x);
    AllNamesSnoc([] + [x], y);
  }

  // ---------------------------------------------------------------- when a normal return means a bijection

  /** Without `verify`, a rewrite of a graph over these files that raises nothing. */
  ghost predicate Returns(sources: seq<Source>, job: Job, inits: seq<Initializer>) {
    job.sources == sources && !job.verify && Unique(inits) && PlaceAll(job, inits).Some? &&
    NoneReported(Unused(sources, PlaceAll(job, inits).value.used))
  }

  ghost predicate CanReturn(sources: seq<Source>) {
    exists job: Job, inits: seq<Initializer> :: Returns(sources, job, inits)
  }

  ghost predicate AlwaysBijection(sources: seq<Source>) {
    forall job: Job, inits: seq<Initializer> :: Returns(sources, job, inits) ==> Bijection(job, inits)
  }

  /** No earlier tensor has the key of this one. */
  predicate FirstOfKey(sources: seq<Source>, at: Ref)
    requires ValidRef(sources, at)
  {
    LookupKey(sources, At(sources, at).key, 0) == Some(at)
  }

  /**
   Over given files: some rewrite returns normally exactly when every tensor of a source whose location no later one repeats is
   the first of its key; and then every normal return is a bijection exactly when no source that has a tensor has its location
   repeated.
   */
  lemma FilesDecide(sources: seq<Source>)
    ensures CanReturn(sources) <==>
            forall at :: ValidRef(sources, at) && !RepeatedLater(sources, at.si) ==> FirstOfKey(sources, at)
    ensures CanReturn(sources) ==>
            (AlwaysBijection(sources) <==> forall at :: ValidRef(sources, at) ==> !RepeatedLater(sources, at.si))
  {
    hide RepeatedLater, FirstOfKey, PlaceAll, NoneReported, Unused, Bijection;
    forall job, inits | Returns(sources, job, inits)
      ensures forall at :: ValidRef(sources, at) && !RepeatedLater(sources, at.si) ==> FirstOfKey(sources, at)
      ensures (forall at :: ValidRef(sources, at) ==> !RepeatedLater(sources, at.si)) ==> Bijection(job, inits)
    {
      ReturnFacts(sources, job, inits);
    }
    if forall at :: ValidRef(sources, at) && !RepeatedLater(sources, at.si) ==> FirstOfKey(sources, at) {
      var job, inits := LeastReturn(sources);
    }
  }

  lemma ReturnFacts(sources: seq<Source>, job: Job, inits: seq<Initializer>)
    requires Returns(sources, job, inits)
    ensures forall at :: ValidRef(sources, at) && !RepeatedLater(sources, at.si) ==> FirstOfKey(sources, at)
    ensures (forall at :: ValidRef(sources, at) ==> !RepeatedLater(sources, at.si)) ==> Bijection(job, inits)
  {
    hide RepeatedLater, FirstOfKey, PlaceAll, Bijection, NoneReported, Unused;
    ReportedIff(sources, PlaceAll(job, inits).value.used);
    UsedFirst(job, inits);
    BijectionWithoutVerify(job, inits);
  }

  lemma {:induction false} UsedFirst(job: Job, inits: seq<Initializer>)
    requires !job.verify && PlaceAll(job, inits).Some?
    ensures forall at <- PlaceAll(job, inits).value.used :: ValidRef(job.sources, at) && FirstOfKey(job.sources, at)
  {
    if inits != [] {
      var k := |inits| - 1;
      UsedFirst(job, inits[..k]);
      var keys := job.candidates(inits[k].name) + [inits[k].name];
      HitIsFirst(job.sources, keys);
      hide FirstHit, FirstOfKey, LookupKey;
    }
  }

  lemma {:induction false} HitIsFirst(sources: seq<Source>, keys: seq<string>)
    ensures FirstHit(sources, keys).Some? ==> FirstOfKey(sources, FirstHit(sources, keys).value)
  {
    if keys != [] {
      HitIsFirst(sources, keys[1..]);
    }
  }

  /** A normal return that uses no tensor of a source whose location is repeated. */
  lemma LeastReturn(sources: seq<Source>) returns (job: Job, inits: seq<Initializer>)
    requires forall at :: ValidRef(sources, at) && !RepeatedLater(sources, at.si) ==> FirstOfKey(sources, at)
    ensures Returns(sources, job, inits)
    ensures (exists at :: ValidRef(sources, at) && RepeatedLater(sources, at.si)) ==> !Bijection(job, inits)
  {
    hide RepeatedLater, FirstOfKey;
    job := Job(PLAIN, sources, name => [], false);
    var refs := Listed(set at | at in Refs(sources) && !RepeatedLater(sources, at.si));
    inits := InitsOf(sources, refs);
    PlacesThem(job, refs);
    InitsUnique(sources, refs);
    hide PlaceAll, NoneReported, Unused, Bijection;
    ReportedIff(sources, PlaceAll(job, inits).value.used);
    BijectionWithoutVerify(job, inits);
  }

  /** An initializer for each of these tensors, of its name and value. */
  function InitsOf(sources: seq<Source>, refs: seq<Ref>): (r: seq<Initializer>)
    requires forall at <- refs :: ValidRef(sources, at)
    ensures |r| == |refs|
  {
    if refs == [] then []
    else
      var e := At(sources, refs[|refs| - 1]);
      InitsOf(sources, refs[..|refs| - 1]) + [Initializer(e.key, Stored(e), true)]
  }

  lemma {:induction false} PlacesThem(job: Job, refs: seq<Ref>)
    requires !job.verify && (forall name :: job.candidates(name) == []) && Distinct(refs)
    requires forall at <- refs :: ValidRef(job.sources, at) && FirstOfKey(job.sources, at)
    ensures PlaceAll(job, InitsOf(job.sources, refs)).Some?
    ensures forall at :: at in PlaceAll(job, InitsOf(job.sources, refs)).value.used <==> at in refs
  {
    if refs != [] {
      var k := |refs| - 1;
      DistinctLast(refs);
      hide Distinct;
      PlacesThem(job, refs[..k]);
      var inits := InitsOf(job.sources, refs);
      assert inits[..k] == InitsOf(job.sources, refs[..k]);
      var p := PlaceAll(job, inits[..k]).value;
      ChooseByKey(job, refs[k], inits[k], p.used);
      hide Choose, FirstOfKey, InitsOf;
      assert PlaceAll(job, inits) == Some(Place(job.sources, p, inits[k], Some(Found(refs[k], false))));
    }
  }

  lemma ChooseByKey(job: Job, at: Ref, init: Initializer, used: set<Ref>)
    requires !job.verify && job.candidates(init.name) == [] && ValidRef(job.sources, at) && FirstOfKey(job.sources, at) && at !in used
    requires init.name == At(job.sources, at).key && init.value.shape == At(job.sources, at).shape
    ensures Choose(job, init, used) == Some(Some(Found(at, false)))
  {
    hide LookupKey;
    assert [] + [init.name] == [init.name];
    assert FirstHit(job.sources, [init.name]) == Some(at);
  }

  lemma {:induction false} InitsUnique(sources: seq<Source>, refs: seq<Ref>)
    requires Distinct(refs) && forall at <- refs :: ValidRef(sources, at) && FirstOfKey(sources, at)
    ensures Unique(InitsOf(sources, refs))
    ensures forall i :: 0 <= i < |refs| ==> InitsOf(sources, refs)[i].name == At(sources, refs[i]).key
  {
    hide FirstOfKey, Distinct, At, Stored;
    if refs != [] {
      var k := |refs| - 1;
      DistinctLast(refs);
      InitsUnique(sources, refs[..k]);
      forall i | 0 <= i < k ensures At(sources, refs[i]).key != At(sources, refs[k]).key {
        assert refs[i] == refs[..k][i];
        KeysApart(sources, refs[i], refs[k]);
      }
    }
  }

  lemma KeysApart(sources: seq<Source>, a: Ref, b: Ref)
    requires a != b && ValidRef(sources, a) && ValidRef(sources, b) && FirstOfKey(sources, a) && FirstOfKey(sources, b)
    ensures At(sources, a).key != At(sources, b).key
  {
    hide LookupKey;
  }
}
