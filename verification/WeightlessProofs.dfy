/** What `make_weightless` promises: the weightless graph computes what the exported one did. */
module WeightlessProofs {
  import opened Wrappers
  import opened Arithmetic
  import opened Onnx
  import opened Weightless
  import SinkCasts

  // ---------------------------------------------------------------- assumptions on names

  function ExtNames(sources: seq<Source>): set<string> {
    set at | at in Refs(sources) :: NameOf(sources, at)
  }

  function CastNames(inits: seq<Initializer>): set<string> {
    set t | t in inits :: CastName(t.name)
  }

  lemma AllNamesSnoc(inits: seq<Initializer>, t: Initializer)
    ensures Names(inits + [t]) == Names(inits) + {t.name}
    ensures CastNames(inits + [t]) == CastNames(inits) + {CastName(t.name)}
  {
    assert forall u :: u in inits + [t] <==> u in inits || u == t;
  }

  /** The names the rewrite generates (`w:…`, `:cast`) are new, and initializers are not graph inputs. */
  predicate Fresh(sources: seq<Source>, inputs: set<string>, inits: seq<Initializer>) {
    Unique(inits) && inputs !! Names(inits) &&
    ExtNames(sources) !! inputs + Names(inits) + CastNames(inits) &&
    CastNames(inits) !! inputs + Names(inits)
  }

  /** Checkpoint tensors that share an external name are the same tensor. */
  ghost predicate Unambiguous(sources: seq<Source>) {
    forall a, b :: ValidRef(sources, a) && ValidRef(sources, b) && NameOf(sources, a) == NameOf(sources, b) ==>
      Stored(At(sources, a)) == Stored(At(sources, b))
  }

  /**
   The names of two files' tensors can coincide, for some pair of keys, exactly when one location is the start of the
   other up to a colon.
   */
  lemma NamesApart(a: string, b: string)
    requires a != b
    ensures (forall k1: string, k2: string :: ExtName(a, k1) != ExtName(b, k2)) <==> !(a + ":" <= b || b + ":" <= a)
  {
    if a + ":" <= b {
      var rest := b[|a| + 1..];
      assert b == a + ":" + rest;
      assert ExtName(a, rest + ":") == ExtName(b, "");
    }
    if b + ":" <= a {
      var rest := a[|b| + 1..];
      assert a == b + ":" + rest;
      assert ExtName(b, rest + ":") == ExtName(a, "");
    }
    if k1: string, k2: string :| ExtName(a, k1) == ExtName(b, k2) {
      StripName(a, k1);
      StripName(b, k2);
      var x := a + ":" + k1;
      assert x == b + ":" + k2;
      PrefixesCompare(a, k1, b, k2);
    }
  }

  lemma StripName(a: string, k: string)
    ensures ExtName(a, k)[2..] == a + ":" + k
  {
  }

  lemma PrefixesCompare(a: string, k1: string, b: string, k2: string)
    requires a + ":" + k1 == b + ":" + k2 && a != b
    ensures a + ":" <= b || b + ":" <= a
  {
    var x := a + ":" + k1;
    assert x[..|a| + 1] == a + ":" && x[..|b| + 1] == b + ":" && x[..|a|] == a && x[..|b|] == b;
    if |a| < |b| {
      assert b[..|a| + 1] == x[..|a| + 1];
    } else if |b| < |a| {
      assert a[..|b| + 1] == x[..|b| + 1];
    }
  }

  /** Files whose locations are different and contain no colon never share a name. */
  lemma PlainLocationsUnambiguous(sources: seq<Source>)
    requires forall i, j :: 0 <= i < j < |sources| ==> sources[i].location != sources[j].location
    requires forall i :: 0 <= i < |sources| ==> ':' !in sources[i].location
    requires forall i, j, k :: 0 <= i < |sources| && 0 <= j < k < |sources[i].entries| ==>
               sources[i].entries[j].key != sources[i].entries[k].key
    ensures forall a, b :: ValidRef(sources, a) && ValidRef(sources, b) && NameOf(sources, a) == NameOf(sources, b) ==> a == b
    ensures Unambiguous(sources)
  {
    forall a, b | ValidRef(sources, a) && ValidRef(sources, b) && NameOf(sources, a) == NameOf(sources, b)
      ensures a == b
    {
      var la, lb := sources[a.si].location, sources[b.si].location;
      StripName(la, At(sources, a).key);
      StripName(lb, At(sources, b).key);
      assert (la + ":")[|la|] == ':' && (lb + ":")[|lb|] == ':';
      if la != lb {
        PrefixesCompare(la, At(sources, a).key, lb, At(sources, b).key);
        assert false;
      }
      assert a.si == b.si;
      assert (la + ":" + At(sources, a).key)[|la| + 1..] == At(sources, a).key;
      assert (la + ":" + At(sources, b).key)[|la| + 1..] == At(sources, b).key;
    }
  }

  // ---------------------------------------------------------------- one initializer

  lemma TransposeCast(s: Semantics, to: DType, rows: nat, cols: nat, data: seq<Elem>)
    requires |data| == rows * cols
    ensures TransposeData(rows, cols, CastData(s, to, data)) == CastData(s, to, TransposeData(rows, cols, data))
  {
    forall i | 0 <= i < cols * rows
      ensures TransposeData(rows, cols, CastData(s, to, data))[i] == CastData(s, to, TransposeData(rows, cols, data))[i]
    {
      Split2(cols, rows, i);
      Index2(rows, cols, i % rows, i / rows);
    }
  }

  /** What the Cast (if any) leaves under `cur`: the tensor as the exporter saw it, in the initializer's type. */
  lemma CastStored(s: Semantics, e: Entry, to: DType)
    requires Exact(s)
    ensures CastData(s, to, Stored(e).data) == CastData(s, to, Value(e).data)
    ensures e.dtype == to ==> CastData(s, to, Value(e).data) == Stored(e).data
  {
    ValueIsExact(e);
  }

  lemma LastNode(s: Semantics, e: Entry, init: Initializer, transpose: bool, cur: string, env: Env)
    requires Exact(s) && Matches(s, e, init.value, transpose) && cur in env
    requires env[cur] == TensorData(init.value.dtype, e.shape, CastData(s, init.value.dtype, Value(e).data))
    ensures Step(s, Node(if transpose then Transpose(Some([1, 0])) else Identity, [cur], [init.name]), env) ==
            Some(env[init.name := init.value])
  {
    var t: Tensor := env[cur];
    var n := Node(if transpose then Transpose(Some([1, 0])) else Identity, [cur], [init.name]);
    assert Lookup(env, [cur]).value == [t];
    BindOne(env, init.name, init.value);
    if transpose {
      SizeOf2(e.shape);
      TransposeCast(s, init.value.dtype, e.shape[0], e.shape[1], Value(e).data);
      assert init.value.shape == [e.shape[1], e.shape[0]];
      assert !OrderKeeping([1, 0]) by { assert seq(2, i => i)[0] == 0; assert |[1, 0]| == 2; }
      assert EvalTranspose([1, 0], t) == Some(init.value);
    } else {
      assert EvalOp(s, n.op, [t]) == Some([init.value]);
    }
  }

  /** The nodes inserted for one initializer compute its value from the checkpoint tensor. */
  lemma RestoreMeaning(s: Semantics, e: Entry, ext: string, init: Initializer, transpose: bool, env: Env)
    requires Exact(s) && Matches(s, e, init.value, transpose) && ext in env && env[ext] == Stored(e)
    ensures
      Run(s, Restore(e, ext, init, transpose), env) ==
      Some((if e.dtype == init.value.dtype then env
            else env[CastName(init.name) := CastTensor(s, init.value.dtype, Stored(e))])[init.name := init.value])
  {
    CastStored(s, e, init.value.dtype);
    ValueIsExact(e);
    var last := Node(if transpose then Transpose(Some([1, 0])) else Identity,
                     [if e.dtype == init.value.dtype then ext else CastName(init.name)], [init.name]);
    if e.dtype == init.value.dtype {
      LastNode(s, e, init, transpose, ext, env);
      assert Restore(e, ext, init, transpose) == [last];
      RunOne(s, last, env);
    } else {
      var cast := Node(Cast(init.value.dtype), [ext], [CastName(init.name)]);
      var env' := env[CastName(init.name) := CastTensor(s, init.value.dtype, Stored(e))];
      SinkCasts.CastStep(s, cast, env, Stored(e), init.value.dtype);
      BindOne(env, CastName(init.name), CastTensor(s, init.value.dtype, Stored(e)));
      LastNode(s, e, init, transpose, CastName(init.name), env');
      assert Restore(e, ext, init, transpose) == [cast, last];
      RunPair(s, cast, last, env);
    }
  }

  // ---------------------------------------------------------------- all of them

  /** One more initializer, under a new name, changes nothing else a run computes. */
  lemma AddInitializer(s: Semantics, nodes: seq<Node>, env: Env, x: string, t: Tensor)
    requires Run(s, nodes, env).Some? && x !in env && x !in Defined({}, nodes)
    ensures
      var e := Run(s, nodes, env).value;
      Run(s, nodes, env[x := t]).Some? && var e' := Run(s, nodes, env[x := t]).value;
      e'.Keys == e.Keys + {x} && e'[x] == t && forall y :: y in e ==> e'[y] == e[y]
  {
    RunAgrees(s, nodes, env, env[x := t], {});
    RunDefines(s, nodes, env);
    RunDefines(s, nodes, env[x := t]);
    RunKeeps(s, nodes, env[x := t], x);
    BaseDefined(env.Keys, nodes);
    BaseDefined(env.Keys + {x}, nodes);
    assert env[x := t].Keys == env.Keys + {x};
  }

  /** `e` gives the inputs, every initializer and every checkpoint tensor it mentions their right values. */
  ghost predicate Right(job: Job, env: Env, inits: seq<Initializer>, e: Env) {
    e.Keys <= env.Keys + ExtNames(job.sources) + Names(inits) + CastNames(inits) &&
    (forall x :: x in env ==> x in e && e[x] == env[x]) &&
    (forall t <- inits :: t.name in e && e[t.name] == t.value) &&
    ExternalsHeld(job.sources, e)
  }

  lemma RightOne(job: Job, env: Env, inits: seq<Initializer>, init: Initializer, e: Env, e': Env)
    requires Right(job, env, inits, e) && Fresh(job.sources, env.Keys, inits + [init])
    requires e'.Keys <= e.Keys + {init.name, CastName(init.name)} && init.name in e' && e'[init.name] == init.value
    requires forall x :: x in e && x !in {init.name, CastName(init.name)} ==> x in e' && e'[x] == e[x]
    ensures Right(job, env, inits + [init], e')
  {
    AllNamesSnoc(inits, init);
    assert init.name in Names(inits + [init]) && CastName(init.name) in CastNames(inits + [init]) by { assert init in inits + [init]; }
    RightInits(inits, init, e, e');
    RightExternals(job.sources, init.name, CastName(init.name), e, e');
  }

  /** Every external name holds its tensor. */
  ghost predicate ExternalsHeld(sources: seq<Source>, e: Env) {
    forall at :: ValidRef(sources, at) && NameOf(sources, at) in e ==> e[NameOf(sources, at)] == Stored(At(sources, at))
  }

  lemma RightExternals(sources: seq<Source>, x: string, cast: string, e: Env, e': Env)
    requires {x, cast} !! ExtNames(sources) && e'.Keys <= e.Keys + {x, cast} && ExternalsHeld(sources, e)
    requires forall y :: y in e && y !in {x, cast} ==> y in e' && e'[y] == e[y]
    ensures ExternalsHeld(sources, e')
  {
    forall at | ValidRef(sources, at) && NameOf(sources, at) in e'
      ensures e'[NameOf(sources, at)] == Stored(At(sources, at))
    {
      assert NameOf(sources, at) in ExtNames(sources);
    }
  }

  lemma RightInits(inits: seq<Initializer>, init: Initializer, e: Env, e': Env)
    requires Unique(inits + [init]) && CastNames(inits + [init]) !! Names(inits + [init])
    requires init.name in e' && e'[init.name] == init.value && forall t <- inits :: t.name in e && e[t.name] == t.value
    requires forall x :: x in e && x !in {init.name, CastName(init.name)} ==> x in e' && e'[x] == e[x]
    ensures forall t <- inits + [init] :: t.name in e' && e'[t.name] == t.value
  {
    AllNamesSnoc(inits, init);
    assert init in inits + [init];
    forall t | t in inits
      ensures t.name in e' && e'[t.name] == t.value
    {
      NameApart(inits, init, t);
      assert CastName(init.name) in CastNames(inits + [init]) && t.name in Names(inits + [init]);
    }
  }

  lemma NameApart(inits: seq<Initializer>, init: Initializer, t: Initializer)
    requires Unique(inits + [init]) && t in inits
    ensures t.name != init.name
  {
    var i :| 0 <= i < |inits| && inits[i] == t;
    assert (inits + [init])[i] == t && (inits + [init])[|inits|] == init;
  }

  lemma FreshPrefix(sources: seq<Source>, inputs: set<string>, inits: seq<Initializer>, init: Initializer)
    requires Fresh(sources, inputs, inits + [init])
    ensures Fresh(sources, inputs, inits) && init.name !in inputs + Names(inits) + CastNames(inits) + ExtNames(sources)
    ensures CastName(init.name) !in inputs + Names(inits) + ExtNames(sources) + {init.name}
  {
    AllNamesSnoc(inits, init);
    assert forall i :: 0 <= i < |inits| ==> (inits + [init])[i] == inits[i];
    if init.name in Names(inits) {
      var t :| t in inits && t.name == init.name;
      NameApart(inits, init, t);
    }
  }

  /** What the rewrite has placed so far runs, and gives every initializer so far its value. */
  ghost predicate Placement(job: Job, env: Env, inits: seq<Initializer>, p: Placed) {
    Run(job.s, p.nodes, InitEnv(env, p.kept)).Some? &&
    Right(job, env, inits, Run(job.s, p.nodes, InitEnv(env, p.kept)).value) &&
    Defined({}, p.nodes) <= Names(inits) + CastNames(inits) &&
    Names(p.kept) <= Names(inits) + ExtNames(job.sources)
  }

  lemma {:induction false} PlaceMeaning(job: Job, env: Env, inits: seq<Initializer>)
    requires job.verify && Exact(job.s) && Unambiguous(job.sources) && Fresh(job.sources, env.Keys, inits)
    requires PlaceAll(job, inits).Some?
    ensures Placement(job, env, inits, PlaceAll(job, inits).value)
  {
    if inits != [] {
      var prefix, init := inits[..|inits| - 1], inits[|inits| - 1];
      assert inits == prefix + [init];
      FreshPrefix(job.sources, env.Keys, prefix, init);
      PlaceMeaning(job, env, prefix);
      var p := PlaceAll(job, prefix).value;
      var found := Choose(job, init, p.used).value;
      if found.None? {
        PlaceInline(job, env, prefix, init, p);
      } else {
        PlaceMapped(job, env, prefix, init, p, found.value);
      }
    }
  }

  lemma PlaceInline(job: Job, env: Env, inits: seq<Initializer>, init: Initializer, p: Placed)
    requires Fresh(job.sources, env.Keys, inits + [init]) && Placement(job, env, inits, p)
    ensures Placement(job, env, inits + [init], Place(job.sources, p, init, None))
  {
    FreshPrefix(job.sources, env.Keys, inits, init);
    var t := init.(external := false);
    assert (p.kept + [t])[..|p.kept|] == p.kept;
    AddInitializer(job.s, p.nodes, InitEnv(env, p.kept), init.name, init.value);
    var e := Run(job.s, p.nodes, InitEnv(env, p.kept)).value;
    RunDefines(job.s, p.nodes, InitEnv(env, p.kept));
    RightOne(job, env, inits, init, e, Run(job.s, p.nodes, InitEnv(env, p.kept + [t])).value);
    AllNamesSnoc(p.kept, t);
    AllNamesSnoc(inits, init);
  }

  /** The kept initializers after an external reference is added, and what the nodes so far compute from them. */
  lemma AddExternal(job: Job, env: Env, inits: seq<Initializer>, p: Placed, at: Ref) returns (kept: seq<Initializer>, e: Env)
    requires ValidRef(job.sources, at) && Fresh(job.sources, env.Keys, inits) && Unambiguous(job.sources) && Placement(job, env, inits, p)
    ensures kept == if NameOf(job.sources, at) in Names(p.kept) then p.kept
                    else p.kept + [Initializer(NameOf(job.sources, at), Stored(At(job.sources, at)), true)]
    ensures Run(job.s, p.nodes, InitEnv(env, kept)) == Some(e) && Right(job, env, inits, e)
    ensures NameOf(job.sources, at) in e && Names(kept) <= Names(inits) + ExtNames(job.sources)
  {
    var ext := NameOf(job.sources, at);
    var t := Initializer(ext, Stored(At(job.sources, at)), true);
    hide ExternalsHeld, Unambiguous;
    var e0 := Run(job.s, p.nodes, InitEnv(env, p.kept)).value;
    RunDefines(job.s, p.nodes, InitEnv(env, p.kept));
    BaseDefined(InitEnv(env, p.kept).Keys, p.nodes);
    assert ext in ExtNames(job.sources);
    if ext in Names(p.kept) {
      kept, e := p.kept, e0;
    } else {
      kept := p.kept + [t];
      assert kept[..|p.kept|] == p.kept;
      AddInitializer(job.s, p.nodes, InitEnv(env, p.kept), ext, t.value);
      e := Run(job.s, p.nodes, InitEnv(env, kept)).value;
      AllNamesSnoc(p.kept, t);
      RightMore(job, env, inits, at, e0, e);
    }
  }

  lemma RightMore(job: Job, env: Env, inits: seq<Initializer>, at: Ref, e: Env, e': Env)
    requires ValidRef(job.sources, at) && Unambiguous(job.sources) && Right(job, env, inits, e)
    requires var ext := NameOf(job.sources, at); e'.Keys == e.Keys + {ext} && e'[ext] == Stored(At(job.sources, at))
    requires forall y :: y in e ==> e'[y] == e[y]
    ensures Right(job, env, inits, e')
  {
    assert NameOf(job.sources, at) in ExtNames(job.sources);
    forall b | ValidRef(job.sources, b) && NameOf(job.sources, b) in e'
      ensures e'[NameOf(job.sources, b)] == Stored(At(job.sources, b))
    {
      assert NameOf(job.sources, b) == NameOf(job.sources, at) ==> Stored(At(job.sources, b)) == Stored(At(job.sources, at));
    }
  }

  lemma PlaceMapped(job: Job, env: Env, inits: seq<Initializer>, init: Initializer, p: Placed, found: Found)
    requires Exact(job.s) && Unambiguous(job.sources)
    requires Fresh(job.sources, env.Keys, inits + [init]) && Placement(job, env, inits, p)
    requires ValidRef(job.sources, found.at) && Matches(job.s, At(job.sources, found.at), init.value, found.transpose)
    ensures Placement(job, env, inits + [init], Place(job.sources, p, init, Some(found)))
  {
    FreshPrefix(job.sources, env.Keys, inits, init);
    var entry, ext := At(job.sources, found.at), NameOf(job.sources, found.at);
    var kept, e := AddExternal(job, env, inits, p, found.at);
    RestoreRight(job, env, inits, init, found, e);
    RunConcat(job.s, p.nodes, Restore(entry, ext, init, found.transpose), InitEnv(env, kept));
    PlaceDefines(inits, init, p.nodes, entry, ext, found.transpose);
    AllNamesSnoc(inits, init);
    assert Place(job.sources, p, init, Some(found)).kept == kept;
  }

  lemma RestoreRight(job: Job, env: Env, inits: seq<Initializer>, init: Initializer, found: Found, e: Env)
    requires Exact(job.s) && Fresh(job.sources, env.Keys, inits + [init]) && Right(job, env, inits, e)
    requires ValidRef(job.sources, found.at) && Matches(job.s, At(job.sources, found.at), init.value, found.transpose)
    requires NameOf(job.sources, found.at) in e
    ensures
      var r := Run(job.s, Restore(At(job.sources, found.at), NameOf(job.sources, found.at), init, found.transpose), e);
      r.Some? && Right(job, env, inits + [init], r.value)
  {
    var e' := RestoreChanges(job.s, At(job.sources, found.at), NameOf(job.sources, found.at), init, found.transpose, e);
    RightOne(job, env, inits, init, e, e');
  }

  lemma RestoreChanges(s: Semantics, e: Entry, ext: string, init: Initializer, transpose: bool, env: Env) returns (env': Env)
    requires Exact(s) && Matches(s, e, init.value, transpose) && ext in env && env[ext] == Stored(e)
    ensures Run(s, Restore(e, ext, init, transpose), env) == Some(env')
    ensures env'.Keys <= env.Keys + {init.name, CastName(init.name)} && init.name in env' && env'[init.name] == init.value
    ensures forall x :: x in env && x !in {init.name, CastName(init.name)} ==> x in env' && env'[x] == env[x]
  {
    RestoreMeaning(s, e, ext, init, transpose, env);
    env' := Run(s, Restore(e, ext, init, transpose), env).value;
  }

  lemma PlaceDefines(inits: seq<Initializer>, init: Initializer, nodes: seq<Node>, e: Entry, ext: string, transpose: bool)
    requires Defined({}, nodes) <= Names(inits) + CastNames(inits)
    ensures Defined({}, nodes + Restore(e, ext, init, transpose)) <= Names(inits + [init]) + CastNames(inits + [init])
  {
    RestoreDefines({}, e, ext, init, transpose);
    DefinedConcat({}, nodes, Restore(e, ext, init, transpose));
    BaseDefined(Defined({}, nodes), Restore(e, ext, init, transpose));
    AllNamesSnoc(inits, init);
  }

  lemma RestoreDefines(base: set<string>, e: Entry, ext: string, init: Initializer, transpose: bool)
    ensures Defined(base, Restore(e, ext, init, transpose)) ==
            base + {init.name} + if e.dtype == init.value.dtype then {} else {CastName(init.name)}
    ensures Arities(Restore(e, ext, init, transpose))
    ensures ext in base && init.name !in base && CastName(init.name) !in base + {init.name} ==>
              WellFormed(base, Restore(e, ext, init, transpose))
  {
    var cur := if e.dtype == init.value.dtype then ext else CastName(init.name);
    var last := Node(if transpose then Transpose(Some([1, 0])) else Identity, [cur], [init.name]);
    assert Set([init.name]) == {init.name} && Set([cur]) == {cur} && Set([ext]) == {ext};
    AritiesOf(last);
    if e.dtype == init.value.dtype {
      assert Restore(e, ext, init, transpose) == [last];
      DefinedOne(base, last);
    } else {
      var cast := Node(Cast(init.value.dtype), [ext], [cur]);
      assert Restore(e, ext, init, transpose) == [cast] + [last];
      AritiesOf(cast);
      AritiesConcat([cast], [last]);
      DefinedOne(base, cast);
      DefinedOne(base + {cur}, last);
      DefinedConcat(base, [cast], [last]);
      WellFormedConcat(base, [cast], [last]);
    }
  }

  /** The inserted nodes give every initializer its value, and leave every graph input alone. */
  ghost predicate Restored(job: Job, env: Env, inits: seq<Initializer>)
    requires PlaceAll(job, inits).Some?
  {
    var p := PlaceAll(job, inits).value;
    Run(job.s, p.nodes, InitEnv(env, p.kept)).Some? && var e := Run(job.s, p.nodes, InitEnv(env, p.kept)).value;
    (forall t <- inits :: t.name in e && e[t.name] == t.value) && forall x :: x in env ==> x in e && e[x] == env[x]
  }

  /**
   With `verify`, whatever the checkpoints hold and however values convert: every original initializer name gets its
   original value back from the external tensors and the inserted nodes, and every graph input keeps its own.
   */
  lemma InitializersRestored(job: Job, env: Env, inits: seq<Initializer>)
    requires job.verify && Exact(job.s) && Unambiguous(job.sources) && Fresh(job.sources, env.Keys, inits)
    requires PlaceAll(job, inits).Some?
    ensures Restored(job, env, inits)
  {
    PlaceMeaning(job, env, inits);
  }

  lemma {:induction false} InitEnvAgrees(env: Env, inits: seq<Initializer>, e: Env)
    requires forall t <- inits :: t.name in e && e[t.name] == t.value
    requires forall x :: x in env ==> x in e && e[x] == env[x]
    ensures Agree(InitEnv(env, inits), e, {})
  {
    if inits != [] {
      var k := |inits| - 1;
      assert inits[k] in inits;
      InitEnvAgrees(env, inits[..k], e);
    }
  }

  /** Wherever the exported graph runs, the weightless one does, and every name keeps its value. */
  lemma WeightlessMeaning(job: Job, env: Env, inits: seq<Initializer>, nodes: seq<Node>)
    requires job.verify && Exact(job.s) && Unambiguous(job.sources) && Fresh(job.sources, env.Keys, inits)
    requires PlaceAll(job, inits).Some? && Run(job.s, nodes, InitEnv(env, inits)).Some?
    ensures
      var p := PlaceAll(job, inits).value;
      var r := Run(job.s, p.nodes + nodes, InitEnv(env, p.kept));
      r.Some? && Agree(Run(job.s, nodes, InitEnv(env, inits)).value, r.value, {})
  {
    InitializersRestored(job, env, inits);
    var p := PlaceAll(job, inits).value;
    var e := Run(job.s, p.nodes, InitEnv(env, p.kept)).value;
    InitEnvAgrees(env, inits, e);
    RunAgrees(job.s, nodes, InitEnv(env, inits), e, {});
    RunConcat(job.s, p.nodes, nodes, InitEnv(env, p.kept));
  }

  // ---------------------------------------------------------------- the new node list is valid

  lemma {:induction false} GrowBase(base: set<string>, base': set<string>, nodes: seq<Node>)
    requires WellFormed(base, nodes) && base <= base' && (base' - base) !! Defined({}, nodes)
    ensures WellFormed(base', nodes)
  {
    if nodes != [] {
      var k := |nodes| - 1;
      GrowBase(base, base', nodes[..k]);
      BaseDefined(base, nodes[..k]);
      BaseDefined(base', nodes[..k]);
    }
  }

  /** What has been placed so far is a valid node list that defines every initializer so far. */
  predicate Valid(job: Job, inputs: set<string>, inits: seq<Initializer>, p: Placed) {
    WellFormed(inputs + Names(p.kept), p.nodes) && Arities(p.nodes) &&
    Names(p.kept) <= Names(inits) + ExtNames(job.sources) &&
    Defined({}, p.nodes) <= Names(inits) + CastNames(inits) &&
    Names(inits) <= Defined(inputs + Names(p.kept), p.nodes)
  }

  lemma {:induction false} PlaceWellFormed(job: Job, inputs: set<string>, inits: seq<Initializer>)
    requires Fresh(job.sources, inputs, inits) && PlaceAll(job, inits).Some?
    ensures Valid(job, inputs, inits, PlaceAll(job, inits).value)
  {
    if inits != [] {
      var prefix, init := inits[..|inits| - 1], inits[|inits| - 1];
      assert inits == prefix + [init];
      FreshPrefix(job.sources, inputs, prefix, init);
      PlaceWellFormed(job, inputs, prefix);
      var p := PlaceAll(job, prefix).value;
      match Choose(job, init, p.used).value {
        case None => InlineWellFormed(job, inputs, prefix, init, p);
        case Some(found) => MappedWellFormed(job, inputs, prefix, init, p, found);
      }
    }
  }

  lemma InlineWellFormed(job: Job, inputs: set<string>, inits: seq<Initializer>, init: Initializer, p: Placed)
    requires Fresh(job.sources, inputs, inits + [init]) && Valid(job, inputs, inits, p)
    ensures Valid(job, inputs, inits + [init], Place(job.sources, p, init, None))
  {
    FreshPrefix(job.sources, inputs, inits, init);
    AllNamesSnoc(inits, init);
    AllNamesSnoc(p.kept, init.(external := false));
    GrowNames(inputs + Names(p.kept), init.name, p.nodes);
    assert inputs + Names(p.kept) + {init.name} == inputs + Names(p.kept + [init.(external := false)]);
  }

  /** One more initializer, under a new name, leaves the node list valid. */
  lemma GrowNames(base: set<string>, x: string, nodes: seq<Node>)
    requires WellFormed(base, nodes) && x !in Defined({}, nodes)
    ensures WellFormed(base + {x}, nodes) && Defined(base + {x}, nodes) == Defined(base, nodes) + {x}
  {
    GrowBase(base, base + {x}, nodes);
    BaseDefined(base, nodes);
    BaseDefined(base + {x}, nodes);
  }

  lemma MappedWellFormed(job: Job, inputs: set<string>, inits: seq<Initializer>, init: Initializer, p: Placed, found: Found)
    requires Fresh(job.sources, inputs, inits + [init]) && Valid(job, inputs, inits, p) && ValidRef(job.sources, found.at)
    ensures Valid(job, inputs, inits + [init], Place(job.sources, p, init, Some(found)))
  {
    var ext, e := NameOf(job.sources, found.at), At(job.sources, found.at);
    var base := inputs + Names(p.kept) + {ext};
    NewNames(job, inputs, inits, init, p, found.at);
    GrowNames(inputs + Names(p.kept), ext, p.nodes);
    BaseDefined(base, p.nodes);
    AppendRestore(base, p.nodes, e, ext, init, found.transpose);
    PlaceDefines(inits, init, p.nodes, e, ext, found.transpose);
    PlaceNames(job.sources, p, init, found);
    assert base == inputs + (Names(p.kept) + {ext});
    AllNamesSnoc(inits, init);
  }

  lemma PlaceNames(sources: seq<Source>, p: Placed, init: Initializer, found: Found)
    requires ValidRef(sources, found.at)
    ensures Names(Place(sources, p, init, Some(found)).kept) == Names(p.kept) + {NameOf(sources, found.at)}
    ensures NameOf(sources, found.at) in ExtNames(sources)
  {
    AllNamesSnoc(p.kept, Initializer(NameOf(sources, found.at), Stored(At(sources, found.at)), true));
  }

  lemma NewNames(job: Job, inputs: set<string>, inits: seq<Initializer>, init: Initializer, p: Placed, at: Ref)
    requires Fresh(job.sources, inputs, inits + [init]) && Valid(job, inputs, inits, p) && ValidRef(job.sources, at)
    ensures
      var taken := inputs + Names(p.kept) + {NameOf(job.sources, at)} + Defined({}, p.nodes);
      init.name !in taken && CastName(init.name) !in taken + {init.name} && NameOf(job.sources, at) !in Defined({}, p.nodes)
  {
    FreshPrefix(job.sources, inputs, inits, init);
    AllNamesSnoc(inits, init);
    assert NameOf(job.sources, at) in ExtNames(job.sources);
    CastNameNew(inits, init);
  }

  lemma CastNameNew(inits: seq<Initializer>, init: Initializer)
    ensures CastName(init.name) in CastNames(inits) ==> init.name in Names(inits)
  {
    if CastName(init.name) in CastNames(inits) {
      var t :| t in inits && CastName(t.name) == CastName(init.name);
      assert CastName(t.name)[..|t.name|] == t.name && CastName(init.name)[..|init.name|] == init.name;
    }
  }

  lemma AppendRestore(base: set<string>, nodes: seq<Node>, e: Entry, ext: string, init: Initializer, transpose: bool)
    requires WellFormed(base, nodes) && Arities(nodes) && ext in base
    requires init.name !in Defined(base, nodes) && CastName(init.name) !in Defined(base, nodes) + {init.name}
    ensures
      var r := nodes + Restore(e, ext, init, transpose);
      WellFormed(base, r) && Arities(r) && Defined(base, nodes) + {init.name} <= Defined(base, r)
  {
    BaseDefined(base, nodes);
    RestoreDefines(Defined(base, nodes), e, ext, init, transpose);
    AppendWellFormed(base, nodes, Restore(e, ext, init, transpose));
  }

  /** The rewritten node list is again valid: this is what the method asks of its caller, and what the sinking pass needs. */
  lemma WeightlessWellFormed(job: Job, inputs: seq<string>, inits: seq<Initializer>, nodes: seq<Node>)
    requires Fresh(job.sources, Set(inputs), inits) && PlaceAll(job, inits).Some?
    requires WellFormed(Base(inputs, inits), nodes) && Arities(nodes)
    requires ExtNames(job.sources) + CastNames(inits) !! Defined({}, nodes)
    ensures
      var p := PlaceAll(job, inits).value;
      WellFormed(Base(inputs, p.kept), p.nodes + nodes) && Arities(p.nodes + nodes)
  {
    PlaceWellFormed(job, Set(inputs), inits);
    var p := PlaceAll(job, inits).value;
    var base := Set(inputs) + Names(p.kept);
    BaseDefined(base, p.nodes);
    BaseApart(Base(inputs, inits), nodes);
    GrowBase(Base(inputs, inits), Defined(base, p.nodes), nodes);
    AppendWellFormed(base, p.nodes, nodes);
  }

  /** The whole rewrite, casts sunk or not: wherever the exported graph runs, every graph output keeps its value. */
  lemma OutputsKept(job: Job, env: Env, inputs: seq<string>, outputs: seq<string>, inits: seq<Initializer>, nodes: seq<Node>, sink: bool)
    requires job.verify && Exact(job.s) && Unambiguous(job.sources)
    requires Set(inputs) == env.Keys && Fresh(job.sources, env.Keys, inits) && PlaceAll(job, inits).Some?
    requires WellFormed(Base(inputs, inits), nodes) && Arities(nodes)
    requires ExtNames(job.sources) + CastNames(inits) !! Defined({}, nodes)
    requires sink ==> var p := PlaceAll(job, inits).value; SinkCasts.Fresh(Base(inputs, p.kept), p.nodes + nodes)
    requires Run(job.s, nodes, InitEnv(env, inits)).Some?
    ensures
      var p := PlaceAll(job, inits).value;
      Arities(p.nodes + nodes) &&
      var e1, r := Run(job.s, nodes, InitEnv(env, inits)).value, Run(job.s, Rewired(p, nodes, outputs, sink), InitEnv(env, p.kept));
      r.Some? && forall o :: o in outputs && o in e1 ==> o in r.value && r.value[o] == e1[o]
  {
    WeightlessWellFormed(job, inputs, inits, nodes);
    WeightlessMeaning(job, env, inits, nodes);
    var p := PlaceAll(job, inits).value;
    if sink {
      var ext := SinkCasts.ExternalTypes(p.kept);
      SinkCasts.SinkKeepsOutputs(job.s, Base(inputs, p.kept), p.nodes + nodes, ext, outputs, InitEnv(env, p.kept));
    }
  }

  // ---------------------------------------------------------------- without `verify`

  /** The checkpoint tensor each initializer is mapped to, if any. */
  function Mapping(job: Job, inits: seq<Initializer>): (r: seq<Option<Ref>>)
    requires PlaceAll(job, inits).Some?
    ensures |r| == |inits|
  {
    if inits == [] then []
    else
      var k := |inits| - 1;
      var found := Choose(job, inits[k], PlaceAll(job, inits[..k]).value.used).value;
      Mapping(job, inits[..k]) + [if found.Some? then Some(found.value.at) else None]
  }

  predicate OneToOne(m: seq<Option<Ref>>) {
    forall i, j :: 0 <= i < j < |m| && m[i].Some? ==> m[i] != m[j]
  }

  /** Mapped to a tensor of its own shape that has one of its names, or inline because no checkpoint has any of them. */
  predicate MappedByName(job: Job, init: Initializer, at: Option<Ref>) {
    var keys := job.candidates(init.name) + [init.name];
    match at
    case Some(at) => ValidRef(job.sources, at) && At(job.sources, at).shape == init.value.shape && At(job.sources, at).key in keys
    case None => forall b <- Refs(job.sources) :: At(job.sources, b).key !in keys
  }

  lemma MappedSnoc(m: seq<Option<Ref>>, last: Option<Ref>, used: set<Ref>)
    requires OneToOne(m) && (forall at :: at in used <==> Some(at) in m) && (last.Some? ==> last.value !in used)
    ensures OneToOne(m + [last])
    ensures forall at :: at in (if last.Some? then used + {last.value} else used) <==> Some(at) in m + [last]
  {
    forall i | 0 <= i < |m| && m[i].Some? ensures m[i] != last {
      assert m[i].value in used;
    }
  }

  lemma SomePrefix(job: Job, inits: seq<Initializer>)
    requires inits != [] && PlaceAll(job, inits).Some?
    ensures PlaceAll(job, inits[..|inits| - 1]).Some?
  {
  }

  lemma MappingStep(job: Job, inits: seq<Initializer>)
    requires !job.verify && inits != [] && PlaceAll(job, inits).Some?
    ensures
      var k := |inits| - 1;
      var (m, used) := (Mapping(job, inits[..k]), PlaceAll(job, inits[..k]).value.used);
      var last := Mapping(job, inits)[k];
      Mapping(job, inits) == m + [last] && MappedByName(job, inits[k], last) &&
      (last.Some? ==> last.value !in used) &&
      PlaceAll(job, inits).value.used == (if last.Some? then used + {last.value} else used)
  {
  }

  lemma {:induction false} MappingFacts(job: Job, inits: seq<Initializer>)
    requires !job.verify && PlaceAll(job, inits).Some?
    ensures forall at :: at in PlaceAll(job, inits).value.used <==> Some(at) in Mapping(job, inits)
    ensures OneToOne(Mapping(job, inits))
    ensures forall i :: 0 <= i < |inits| ==> MappedByName(job, inits[i], Mapping(job, inits)[i])
  {
    if inits != [] {
      hide *;
      var k := |inits| - 1;
      SomePrefix(job, inits);
      MappingFacts(job, inits[..k]);
      MappingStep(job, inits);
      var m, r := Mapping(job, inits[..k]), Mapping(job, inits);
      MappedSnoc(m, r[k], PlaceAll(job, inits[..k]).value.used);
      forall i | 0 <= i < |inits| ensures MappedByName(job, inits[i], r[i]) {
        if i < k { assert r[i] == m[i] && inits[i] == inits[..k][i]; }
      }
    }
  }

  /** A later source has the same location. */
  predicate RepeatedLater(sources: seq<Source>, si: nat)
    requires si < |sources|
  {
    exists j :: si < j < |sources| && sources[j].location == sources[si].location
  }

  /** Externalized initializers and checkpoint tensors correspond one to one. */
  ghost predicate Bijection(job: Job, inits: seq<Initializer>)
    requires PlaceAll(job, inits).Some?
  {
    OneToOne(Mapping(job, inits)) && forall at :: ValidRef(job.sources, at) <==> Some(at) in Mapping(job, inits)
  }

  lemma {:induction false} UnusedOfLast(sources: seq<Source>, used: set<Ref>, si: nat)
    requires si < |sources| && !RepeatedLater(sources, si)
    ensures sources[si].location in Unused(sources, used)
    ensures Unused(sources, used)[sources[si].location] == UnusedKeys(sources[si].entries, si, used)
  {
    var k := |sources| - 1;
    if si < k {
      assert sources[k].location != sources[si].location;
      forall j | si < j < k ensures sources[..k][j].location != sources[..k][si].location {
        assert sources[..k][j] == sources[j];
      }
      UnusedOfLast(sources[..k], used, si);
    }
  }

  lemma {:induction false} UnusedIsOfLast(sources: seq<Source>, used: set<Ref>, x: string) returns (si: nat)
    requires x in Unused(sources, used)
    ensures si < |sources| && !RepeatedLater(sources, si) && sources[si].location == x
  {
    var k := |sources| - 1;
    if sources[k].location == x {
      si := k;
    } else {
      si := UnusedIsOfLast(sources[..k], used, x);
      forall j | si < j < |sources| ensures sources[j].location != x {
        if j < k { assert sources[..k][j] == sources[j] && sources[..k][si] == sources[si]; }
      }
    }
  }

  lemma NoUnusedKeys(entries: seq<Entry>, si: nat, used: set<Ref>)
    ensures UnusedKeys(entries, si, used) == {} <==> forall ei :: 0 <= ei < |entries| ==> Ref(si, ei) in used
  {
    if ei :| 0 <= ei < |entries| && Ref(si, ei) !in used {
      assert entries[ei].key in UnusedKeys(entries, si, used);
    }
  }

  /** Nothing unused is reported exactly when every tensor is used of each source whose location no later one repeats. */
  lemma ReportedIff(sources: seq<Source>, used: set<Ref>)
    ensures NoneReported(Unused(sources, used)) <==>
            forall at :: ValidRef(sources, at) && !RepeatedLater(sources, at.si) ==> at in used
  {
    hide RepeatedLater, UnusedKeys;
    if NoneReported(Unused(sources, used)) {
      forall at | ValidRef(sources, at) && !RepeatedLater(sources, at.si) ensures at in used {
        UnusedOfLast(sources, used, at.si);
        NoUnusedKeys(sources[at.si].entries, at.si, used);
        assert at == Ref(at.si, at.ei);
      }
    }
    if forall at :: ValidRef(sources, at) && !RepeatedLater(sources, at.si) ==> at in used {
      forall x <- Unused(sources, used) ensures Unused(sources, used)[x] == {} {
        var si := UnusedIsOfLast(sources, used, x);
        UnusedOfLast(sources, used, si);
        forall ei | 0 <= ei < |sources[si].entries| ensures Ref(si, ei) in used {
          assert ValidRef(sources, Ref(si, ei));
        }
        NoUnusedKeys(sources[si].entries, si, used);
      }
    }
  }

  /**
   Without `verify`, when the rewrite returns normally: externalized initializers and checkpoint tensors are in bijection
   exactly when every tensor is used of each source whose location a later one repeats. Each pair is of one shape and matched
   by name.
   */
  lemma BijectionWithoutVerify(job: Job, inits: seq<Initializer>)
    requires !job.verify && PlaceAll(job, inits).Some? && NoneReported(Unused(job.sources, PlaceAll(job, inits).value.used))
    ensures Bijection(job, inits) <==>
            forall at :: ValidRef(job.sources, at) && RepeatedLater(job.sources, at.si) ==> at in PlaceAll(job, inits).value.used
    ensures forall i :: 0 <= i < |inits| ==> MappedByName(job, inits[i], Mapping(job, inits)[i])
  {
    hide RepeatedLater, Unused, PlaceAll, OneToOne, Mapping;
    var m, used := Mapping(job, inits), PlaceAll(job, inits).value.used;
    MappingFacts(job, inits);
    ReportedIff(job.sources, used);
    forall at | Some(at) in m ensures ValidRef(job.sources, at) {
      var i :| 0 <= i < |m| && m[i] == Some(at);
      assert MappedByName(job, inits[i], m[i]);
    }
  }

  /** So it is a bijection whenever the locations differ. */
  lemma BijectionOfLocations(job: Job, inits: seq<Initializer>)
    requires !job.verify && PlaceAll(job, inits).Some? && NoneReported(Unused(job.sources, PlaceAll(job, inits).value.used))
    requires forall i, j :: 0 <= i < j < |job.sources| ==> job.sources[i].location != job.sources[j].location
    ensures Bijection(job, inits)
  {
    hide Bijection;
    BijectionWithoutVerify(job, inits);
  }

  /** Two sources at one location, the second empty: the first one's tensor is unused, and nothing is reported. */
  lemma SharedLocationHidesATensor(s: Semantics, a: Entry)
    ensures
      var job := Job(s, [Source("f", [a]), Source("f", [])], name => [], false);
      var p := PlaceAll(job, []);
      p.Some? && NoneReported(Unused(job.sources, p.value.used)) && !Bijection(job, [])
  {
    var sources := [Source("f", [a]), Source("f", [])];
    var job := Job(s, sources, name => [], false);
    var used: set<Ref> := {};
    ReportedIff(sources, used);
    assert sources[1].location == sources[0].location;
    assert RepeatedLater(sources, 0);
    assert ValidRef(sources, Ref(0, 0));
    assert Mapping(job, []) == [];
  }
}
