/** `length_batches` (train/sura.py): rows of similar length in batches within a padded-token budget. */
module Batches {
  import opened Arithmetic
  import opened Collections

  const CHUNK: nat := 4096

  /** The token estimate of every row. */
  type Estimates = seq<nat>

  predicate InRange(est: Estimates, xs: seq<nat>) {
    forall i :: 0 <= i < |xs| ==> xs[i] < |est|
  }

  // ---------------------------------------------------------------- sorting

  /** `x` after every row whose estimate is not larger. */
  function Insert(est: Estimates, sorted: seq<nat>, x: nat): (r: seq<nat>)
    requires InRange(est, sorted) && x < |est|
    ensures InRange(est, r) && multiset(r) == multiset(sorted) + multiset{x}
  {
    if sorted == [] then [x]
    else if est[sorted[|sorted| - 1]] <= est[x] then sorted + [x]
    else
      assert sorted == sorted[..|sorted| - 1] + [sorted[|sorted| - 1]];
      Insert(est, sorted[..|sorted| - 1], x) + [sorted[|sorted| - 1]]
  }

  /** `sorted(xs, key=est)`: stable. */
  function Sorted(est: Estimates, xs: seq<nat>): (r: seq<nat>)
    requires InRange(est, xs)
    ensures InRange(est, r) && multiset(r) == multiset(xs)
  {
    if xs == [] then []
    else
      assert xs == xs[..|xs| - 1] + [xs[|xs| - 1]];
      Insert(est, Sorted(est, xs[..|xs| - 1]), xs[|xs| - 1])
  }

  predicate Ascending(est: Estimates, xs: seq<nat>)
    requires InRange(est, xs)
  {
    forall i, j :: 0 <= i <= j < |xs| ==> est[xs[i]] <= est[xs[j]]
  }

  predicate AtMost(est: Estimates, xs: seq<nat>, e: nat)
    requires InRange(est, xs)
  {
    forall i :: 0 <= i < |xs| ==> est[xs[i]] <= e
  }

  lemma Loosen(est: Estimates, xs: seq<nat>, a: nat, b: nat)
    requires InRange(est, xs) && AtMost(est, xs, a) && a <= b
    ensures AtMost(est, xs, b)
  {
  }

  lemma AppendAtMost(est: Estimates, xs: seq<nat>, x: nat, e: nat)
    requires InRange(est, xs) && x < |est| && AtMost(est, xs, e) && est[x] <= e
    ensures InRange(est, xs + [x]) && AtMost(est, xs + [x], e)
  {
  }

  lemma {:induction false} InsertAscends(est: Estimates, sorted: seq<nat>, x: nat, e: nat)
    requires InRange(est, sorted) && x < |est| && Ascending(est, sorted) && AtMost(est, sorted, e) && est[x] <= e
    ensures Ascending(est, Insert(est, sorted, x)) && AtMost(est, Insert(est, sorted, x), e)
  {
    if sorted == [] {
      assert Insert(est, sorted, x) == [x];
    } else {
      var init, last := sorted[..|sorted| - 1], sorted[|sorted| - 1];
      if est[last] <= est[x] {
        Loosen(est, sorted, est[last], est[x]);
      }
      hide Ascending, AtMost, InRange;
      if est[last] <= est[x] {
        AppendAtMost(est, sorted, x, e);
      } else {
        InsertAscends(est, init, x, est[last]);
        Loosen(est, Insert(est, init, x), est[last], e);
        AppendAtMost(est, Insert(est, init, x), last, e);
      }
    }
  }

  lemma {:induction false} SortedAscends(est: Estimates, xs: seq<nat>)
    requires InRange(est, xs)
    ensures Ascending(est, Sorted(est, xs))
  {
    if xs != [] {
      SortedAscends(est, xs[..|xs| - 1]);
      var init := Sorted(est, xs[..|xs| - 1]);
      var last := if init == [] then 0 else est[init[|init| - 1]];
      InsertAscends(est, init, xs[|xs| - 1], Max(last, est[xs[|xs| - 1]]));
    }
  }

  // ---------------------------------------------------------------- batches of one sorted chunk

  /** Padded tokens of `n` rows of estimate `e`. */
  function Padded(n: nat, e: nat): (r: nat) {
    NonNegative(n, e);
    n * e
  }

  /** Where the batch that starts at `p` and holds the rows up to `q` ends. */
  function End(est: Estimates, budget: int, xs: seq<nat>, p: nat, q: nat): (e: nat)
    requires InRange(est, xs) && p < q <= |xs|
    ensures q <= e <= |xs|
    decreases |xs| - q
  {
    if q < |xs| && Padded(q - p + 1, est[xs[q]]) <= budget then End(est, budget, xs, p, q + 1) else q
  }

  /** The batches from `p` on. */
  function BatchesOf(est: Estimates, budget: int, xs: seq<nat>, p: nat): seq<seq<nat>>
    requires InRange(est, xs) && p <= |xs|
    decreases |xs| - p
  {
    if p == |xs| then []
    else
      var q := End(est, budget, xs, p, p + 1);
      [xs[p..q]] + BatchesOf(est, budget, xs, q)
  }

  /** The batches of every chunk from `c` on. */
  function ChunksOf(est: Estimates, budget: int, order: seq<nat>, c: nat): seq<seq<nat>>
    requires InRange(est, order)
    decreases |order| - c
  {
    if c >= |order| then []
    else BatchesOf(est, budget, ChunkAt(est, order, c), 0) + ChunksOf(est, budget, order, c + CHUNK)
  }

  function ChunkAt(est: Estimates, order: seq<nat>, c: nat): (r: seq<nat>)
    requires InRange(est, order) && c < |order|
    ensures InRange(est, r)
  {
    Sorted(est, order[c..(if c + CHUNK < |order| then c + CHUNK else |order|)])
  }

  // ---------------------------------------------------------------- the code

  lemma EndStep(est: Estimates, budget: int, xs: seq<nat>, p: nat, k: nat)
    requires InRange(est, xs) && p < k < |xs|
    ensures End(est, budget, xs, p, k) == if Padded(k - p + 1, est[xs[k]]) <= budget then End(est, budget, xs, p, k + 1) else k
  {
  }

  lemma BatchesEnd(est: Estimates, budget: int, xs: seq<nat>)
    requires InRange(est, xs)
    ensures BatchesOf(est, budget, xs, |xs|) == []
  {
  }

  lemma BatchDone(est: Estimates, budget: int, xs: seq<nat>, p: nat, k: nat, before: seq<seq<nat>>)
    requires InRange(est, xs) && p < k <= |xs| && End(est, budget, xs, p, p + 1) == k
    ensures before + BatchesOf(est, budget, xs, p) == before + [xs[p..k]] + BatchesOf(est, budget, xs, k)
  {
    var rest := BatchesOf(est, budget, xs, k);
    assert before + ([xs[p..k]] + rest) == before + [xs[p..k]] + rest;
  }

  /** One chunk, greedily. */
  method BatchChunk(est: Estimates, budget: int, xs: seq<nat>) returns (batches: seq<seq<nat>>)
    requires InRange(est, xs)
    ensures batches == BatchesOf(est, budget, xs, 0)
  {
    hide Padded, BatchesOf, End;
    batches := [];
    var group: seq<nat> := [];
    ghost var p: nat := 0;
    for k := 0 to |xs|
      invariant p <= k && group == xs[p..k] && (k > 0 ==> p < k)
      invariant batches + BatchesOf(est, budget, xs, p) == BatchesOf(est, budget, xs, 0)
      invariant k > 0 ==> End(est, budget, xs, p, p + 1) == End(est, budget, xs, p, k)
    {
      var i := xs[k];
      if k > 0 { EndStep(est, budget, xs, p, k); }
      if group != [] && Padded(|group| + 1, est[i]) > budget {
        BatchDone(est, budget, xs, p, k, batches);
        batches := batches + [group];
        group := [];
        p := k;
      }
      group := group + [i];
      assert group == xs[p..k + 1];
    }
    BatchesEnd(est, budget, xs);
    if group != [] {
      BatchDone(est, budget, xs, p, |xs|, batches);
      assert batches + [group] + [] == batches + [group];
      batches := batches + [group];
    }
  }

  lemma ChunksStep(est: Estimates, budget: int, order: seq<nat>, c: nat, before: seq<seq<nat>>, more: seq<seq<nat>>)
    requires InRange(est, order) && c < |order| && more == BatchesOf(est, budget, ChunkAt(est, order, c), 0)
    ensures before + ChunksOf(est, budget, order, c) == before + more + ChunksOf(est, budget, order, c + CHUNK)
  {
    hide BatchesOf, ChunkAt;
    var rest := ChunksOf(est, budget, order, c + CHUNK);
    assert before + (more + rest) == before + more + rest;
  }

  /** `shuffle` gives the batches in another order. */
  method LengthBatches(est: Estimates, budget: int, order: seq<nat>, shuffle: seq<seq<nat>> -> seq<seq<nat>>)
    returns (batches: seq<seq<nat>>)
    requires InRange(est, order)
    ensures batches == shuffle(ChunksOf(est, budget, order, 0))
  {
    batches := [];
    var c: nat := 0;
    hide BatchesOf, ChunkAt;
    while c < |order|
      invariant batches + ChunksOf(est, budget, order, c) == ChunksOf(est, budget, order, 0)
      decreases |order| - c
    {
      var more := BatchChunk(est, budget, ChunkAt(est, order, c));
      ChunksStep(est, budget, order, c, batches, more);
      batches := batches + more;
      c := c + CHUNK;
    }
    assert batches + [] == batches;
    batches := shuffle(batches);
  }

  // ---------------------------------------------------------------- every row once, within the budget

  lemma {:induction false} FlattenConcat(a: seq<seq<nat>>, b: seq<seq<nat>>)
    ensures Joined(a + b) == Joined(a) + Joined(b)
  {
    if a == [] {
      assert a + b == b;
    } else {
      FlattenConcat(a[1..], b);
      assert (a + b)[1..] == a[1..] + b;
      Associative(a[0], Joined(a[1..]), Joined(b));
    }
  }

  /** The batches of a chunk are the chunk, cut into pieces. */
  lemma {:induction false} BatchesAreChunk(est: Estimates, budget: int, xs: seq<nat>, p: nat)
    requires InRange(est, xs) && p <= |xs|
    ensures Joined(BatchesOf(est, budget, xs, p)) == xs[p..]
    decreases |xs| - p
  {
    if p < |xs| {
      var q := End(est, budget, xs, p, p + 1);
      BatchesAreChunk(est, budget, xs, q);
      assert BatchesOf(est, budget, xs, p)[1..] == BatchesOf(est, budget, xs, q);
      assert xs[p..q] + xs[q..] == xs[p..];
    }
  }

  lemma {:induction false} ChunksAreOrder(est: Estimates, budget: int, order: seq<nat>, c: nat)
    requires InRange(est, order)
    ensures c <= |order| ==> multiset(Joined(ChunksOf(est, budget, order, c))) == multiset(order[c..])
    decreases |order| - c
  {
    if c < |order| {
      var end := if c + CHUNK < |order| then c + CHUNK else |order|;
      var batches, later := BatchesOf(est, budget, ChunkAt(est, order, c), 0), ChunksOf(est, budget, order, c + CHUNK);
      ChunkRows(est, budget, order, c, end);
      assert ChunksOf(est, budget, order, c) == batches + later;
      FlattenConcat(batches, later);
      hide Joined, ChunksOf, BatchesOf, ChunkAt, InRange;
      ChunksAreOrder(est, budget, order, c + CHUNK);
      if end == |order| {
        assert Joined<nat>([]) == [] by { FlattenNone(); }
        assert ChunksOf(est, budget, order, c + CHUNK) == [] by { NoChunks(est, budget, order, c + CHUNK); }
      }
      SameRows(Joined(batches), Joined(later), order, c, end);
    }
  }

  lemma FlattenNone()
    ensures Joined<nat>([]) == []
  {
  }

  lemma NoChunks(est: Estimates, budget: int, order: seq<nat>, c: nat)
    requires InRange(est, order) && |order| <= c
    ensures ChunksOf(est, budget, order, c) == []
  {
  }

  lemma SameRows(a: seq<nat>, b: seq<nat>, order: seq<nat>, c: nat, end: nat)
    requires c <= end <= |order| && multiset(a) == multiset(order[c..end]) && multiset(b) == multiset(order[end..])
    ensures multiset(a + b) == multiset(order[c..])
  {
    assert order[c..] == order[c..end] + order[end..];
  }

  lemma ChunkRows(est: Estimates, budget: int, order: seq<nat>, c: nat, end: nat)
    requires InRange(est, order) && c < |order| && end == if c + CHUNK < |order| then c + CHUNK else |order|
    ensures multiset(Joined(BatchesOf(est, budget, ChunkAt(est, order, c), 0))) == multiset(order[c..end])
  {
    var xs := ChunkAt(est, order, c);
    BatchesAreChunk(est, budget, xs, 0);
    assert xs[0..] == xs;
  }

  lemma FlattenOne(batch: seq<nat>)
    ensures Joined([batch]) == batch
  {
    var one := [batch];
    assert one[1..] == [];
  }

  function Without(b: seq<seq<nat>>, k: nat): seq<seq<nat>>
    requires k < |b|
  {
    b[..k] + b[k + 1..]
  }

  lemma WithoutOne(b: seq<seq<nat>>, k: nat)
    requires k < |b|
    ensures multiset(b) == multiset(Without(b, k)) + multiset{b[k]}
  {
    var x, y := b[..k], b[k + 1..];
    assert b == x + ([b[k]] + y);
  }

  lemma FlattenWithout(b: seq<seq<nat>>, k: nat)
    requires k < |b|
    ensures multiset(Joined(b)) == multiset(Joined(Without(b, k))) + multiset(b[k])
  {
    hide Joined;
    var x, y := b[..k], b[k + 1..];
    assert b == x + ([b[k]] + y);
    FlattenConcat(x, [b[k]] + y);
    FlattenConcat([b[k]], y);
    FlattenConcat(x, y);
    FlattenOne(b[k]);
    assert Joined(b) == Joined(x) + (b[k] + Joined(y));
  }

  lemma {:induction false} FlattenPermuted(a: seq<seq<nat>>, b: seq<seq<nat>>)
    requires multiset(a) == multiset(b)
    ensures multiset(Joined(a)) == multiset(Joined(b))
  {
    if a == [] {
      assert |multiset(b)| == 0;
    } else {
      assert a[0] in multiset(b);
      var k :| 0 <= k < |b| && b[k] == a[0];
      WithoutOne(a, 0);
      WithoutOne(b, k);
      FlattenWithout(a, 0);
      FlattenWithout(b, k);
      assert Without(a, 0) == a[1..];
      Cancel(multiset(a[1..]), multiset(Without(b, k)), multiset{a[0]});
      FlattenPermuted(a[1..], Without(b, k));
    }
  }

  /** Every row of the order is in exactly one batch, as often as in the order. */
  lemma EveryRowOnce(est: Estimates, budget: int, order: seq<nat>, batches: seq<seq<nat>>)
    requires InRange(est, order) && multiset(batches) == multiset(ChunksOf(est, budget, order, 0))
    ensures multiset(Joined(batches)) == multiset(order)
  {
    FlattenPermuted(batches, ChunksOf(est, budget, order, 0));
    ChunksAreOrder(est, budget, order, 0);
    assert order[0..] == order;
  }

  /** One row, or rows that all fit the budget when padded to any of them. */
  predicate Fits(est: Estimates, budget: int, batch: seq<nat>) {
    batch != [] && InRange(est, batch) &&
    (|batch| == 1 || forall i :: 0 <= i < |batch| ==> Padded(|batch|, est[batch[i]]) <= budget)
  }

  lemma {:induction false} EndFits(est: Estimates, budget: int, xs: seq<nat>, p: nat, q: nat)
    requires InRange(est, xs) && p < q <= |xs| && (q == p + 1 || Padded(q - p, est[xs[q - 1]]) <= budget)
    ensures var e := End(est, budget, xs, p, q); e == p + 1 || Padded(e - p, est[xs[e - 1]]) <= budget
    ensures var e := End(est, budget, xs, p, q); e < |xs| ==> Padded(e - p + 1, est[xs[e]]) > budget
    decreases |xs| - q
  {
    if q < |xs| && Padded(q - p + 1, est[xs[q]]) <= budget {
      EndFits(est, budget, xs, p, q + 1);
    }
  }

  lemma {:induction false} ChunkBatchesFit(est: Estimates, budget: int, xs: seq<nat>, p: nat)
    requires InRange(est, xs) && p <= |xs| && Ascending(est, xs)
    ensures forall k :: 0 <= k < |BatchesOf(est, budget, xs, p)| ==> Fits(est, budget, BatchesOf(est, budget, xs, p)[k])
    decreases |xs| - p
  {
    if p < |xs| {
      var q := End(est, budget, xs, p, p + 1);
      EndFits(est, budget, xs, p, p + 1);
      ChunkBatchesFit(est, budget, xs, q);
      forall i | 0 <= i < q - p && q - p > 1 ensures Padded(q - p, est[xs[p..q][i]]) <= budget {
        MulMono(est[xs[p..q][i]], est[xs[q - 1]], q - p);
      }
    }
  }

  /** Every batch is one row, or fits the budget at its longest row's length. */
  lemma {:induction false} AllFit(est: Estimates, budget: int, order: seq<nat>, c: nat)
    requires InRange(est, order)
    ensures forall k :: 0 <= k < |ChunksOf(est, budget, order, c)| ==> Fits(est, budget, ChunksOf(est, budget, order, c)[k])
    decreases |order| - c
  {
    if c < |order| {
      SortedAscends(est, order[c..(if c + CHUNK < |order| then c + CHUNK else |order|)]);
      ChunkBatchesFit(est, budget, ChunkAt(est, order, c), 0);
      AllFit(est, budget, order, c + CHUNK);
    }
  }

  // ---------------------------------------------------------------- greedy is optimal

  /** Where the first `m` batches of a chunk end. */
  function Cover(est: Estimates, budget: int, xs: seq<nat>, m: nat): (p: nat)
    requires InRange(est, xs)
    ensures p <= |xs|
  {
    if m == 0 then 0
    else
      var p := Cover(est, budget, xs, m - 1);
      if p == |xs| then p else End(est, budget, xs, p, p + 1)
  }

  /** Before the last batch some rows are left. */
  lemma {:induction false} CoverShort(est: Estimates, budget: int, xs: seq<nat>, m: nat)
    requires InRange(est, xs) && m < |BatchesOf(est, budget, xs, 0)|
    ensures Cover(est, budget, xs, m) < |xs|
    ensures |BatchesOf(est, budget, xs, Cover(est, budget, xs, m))| + m == |BatchesOf(est, budget, xs, 0)|
  {
    if m > 0 {
      CoverShort(est, budget, xs, m - 1);
    }
  }

  /** Rows in groups, no row in two. */
  predicate Disjoint(groups: seq<set<nat>>) {
    forall i, j :: 0 <= i < j < |groups| ==> groups[i] !! groups[j]
  }

  function Union(groups: seq<set<nat>>): set<nat> {
    if groups == [] then {} else groups[0] + Union(groups[1..])
  }

  function Count(groups: seq<set<nat>>): nat {
    if groups == [] then 0 else |groups[0]| + Count(groups[1..])
  }

  /** A group that could be a batch: at most one row, or rows that all fit the budget when padded to any of them. */
  predicate CanBatch(est: Estimates, budget: int, group: set<nat>) {
    (forall r <- group :: r < |est|) && (|group| <= 1 || forall r <- group :: Padded(|group|, est[r]) <= budget)
  }

  lemma {:induction false} InUnion(groups: seq<set<nat>>, k: nat)
    requires k < |groups|
    ensures groups[k] <= Union(groups)
  {
    if k > 0 { InUnion(groups[1..], k - 1); }
  }

  lemma {:induction false} OfUnion(groups: seq<set<nat>>, r: nat) returns (k: nat)
    requires r in Union(groups)
    ensures k < |groups| && r in groups[k]
  {
    if r in groups[0] {
      k := 0;
    } else {
      var j := OfUnion(groups[1..], r);
      k := j + 1;
    }
  }

  lemma {:induction false} UnionSize(groups: seq<set<nat>>)
    requires Disjoint(groups)
    ensures |Union(groups)| == Count(groups)
  {
    if groups != [] {
      UnionSize(groups[1..]);
      forall r | r in Union(groups[1..]) ensures r !in groups[0] {
        var k := OfUnion(groups[1..], r);
        assert groups[0] !! groups[k + 1];
      }
      assert groups[0] !! Union(groups[1..]);
    }
  }

  function Others(groups: seq<set<nat>>, k: nat): seq<set<nat>>
    requires k < |groups|
  {
    groups[..k] + groups[k + 1..]
  }

  lemma {:induction false} CountOthers(groups: seq<set<nat>>, k: nat)
    requires k < |groups|
    ensures Count(groups) == Count(Others(groups, k)) + |groups[k]|
  {
    if k == 0 {
      assert Others(groups, 0) == groups[1..];
    } else {
      CountOthers(groups[1..], k - 1);
      assert Others(groups, k)[1..] == Others(groups[1..], k - 1);
    }
  }

  /** The rows of a sequence. */
  function Rows(xs: seq<nat>): set<nat> {
    set r | r in xs
  }

  lemma {:induction false} RowsSize(xs: seq<nat>)
    ensures |Rows(xs)| <= |xs|
  {
    if xs != [] {
      RowsSize(xs[1..]);
      assert Rows(xs) <= Rows(xs[1..]) + {xs[0]};
      SubsetSize(Rows(xs), Rows(xs[1..]) + {xs[0]});
    }
  }

  /** More than `q` rows of an ascending chunk: one of them is at least as long as the row at `q`. */
  lemma LongRow(est: Estimates, xs: seq<nat>, rows: set<nat>, q: nat) returns (r: nat)
    requires InRange(est, xs) && Ascending(est, xs) && q < |xs| && rows <= Rows(xs) && |rows| > q
    ensures r in rows && r < |est| && est[r] >= est[xs[q]]
  {
    if forall r <- rows :: r in xs[..q] {
      RowsSize(xs[..q]);
      SubsetSize(rows, Rows(xs[..q]));
      assert false;
    }
    r :| r in rows && r !in xs[..q];
    var i :| 0 <= i < |xs| && xs[i] == r;
    assert forall k :: 0 <= k < q ==> xs[..q][k] == xs[k];
  }

  /** No `m` disjoint groups that could be batches hold more rows of a chunk than its first `m` batches. */
  lemma {:induction false} GreedyStaysAhead(est: Estimates, budget: int, xs: seq<nat>, groups: seq<set<nat>>)
    requires InRange(est, xs) && Ascending(est, xs)
    requires Disjoint(groups) && Union(groups) <= Rows(xs) && forall g <- groups :: CanBatch(est, budget, g)
    ensures Count(groups) <= Cover(est, budget, xs, |groups|)
    decreases |groups|
  {
    hide Disjoint, Union, CanBatch, Ascending, Rows, Others;
    var m := |groups|;
    var q := Cover(est, budget, xs, m);
    if groups != [] && Count(groups) > q {
      UnionSize(groups);
      RowsSize(xs);
      SubsetSize(Union(groups), Rows(xs));
      var r := LongRow(est, xs, Union(groups), q);
      var k := OfUnion(groups, r);
      OthersKeep(groups, k);
      OthersLength(groups, k);
      GreedyStaysAhead(est, budget, xs, Others(groups, k));
      CountOthers(groups, k);
      TooBig(est, budget, xs, m, groups[k], r);
      assert false;
    }
  }

  lemma OthersLength(groups: seq<set<nat>>, k: nat)
    requires k < |groups|
    ensures |Others(groups, k)| == |groups| - 1
  {
  }

  lemma OthersKeep(groups: seq<set<nat>>, k: nat)
    requires k < |groups| && Disjoint(groups)
    ensures Disjoint(Others(groups, k)) && Union(Others(groups, k)) <= Union(groups)
    ensures forall g <- Others(groups, k) :: g in groups
  {
    var rest := Others(groups, k);
    forall i | 0 <= i < |rest| ensures rest[i] <= Union(groups) {
      InUnion(groups, if i < k then i else i + 1);
    }
    forall r | r in Union(rest) ensures r in Union(groups) {
      var i := OfUnion(rest, r);
      assert rest[i] <= Union(groups);
    }
  }

  /** A group larger than batch `m`, with a row as long as the one that batch `m` refused, is not a batch. */
  lemma TooBig(est: Estimates, budget: int, xs: seq<nat>, m: nat, group: set<nat>, r: nat)
    requires InRange(est, xs) && 0 < m && Cover(est, budget, xs, m) < |xs| && r in group && r < |est|
    requires est[r] >= est[xs[Cover(est, budget, xs, m)]]
    requires |group| > Cover(est, budget, xs, m) - Cover(est, budget, xs, m - 1)
    ensures !CanBatch(est, budget, group)
  {
    var p, q := Cover(est, budget, xs, m - 1), Cover(est, budget, xs, m);
    EndFits(est, budget, xs, p, p + 1);
    MulMono(q - p + 1, |group|, est[r]);
    MulMono(est[xs[q]], est[r], q - p + 1);
  }

  /** No way of putting the rows of a chunk into groups that could be batches needs fewer groups than the greedy batches. */
  lemma GreedyIsOptimal(est: Estimates, budget: int, order: seq<nat>, c: nat, groups: seq<set<nat>>)
    requires InRange(est, order) && c < |order|
    requires Disjoint(groups) && Union(groups) == Rows(ChunkAt(est, order, c)) && forall g <- groups :: CanBatch(est, budget, g)
    requires Distinct(order)
    ensures |groups| >= |BatchesOf(est, budget, ChunkAt(est, order, c), 0)|
  {
    var xs := ChunkAt(est, order, c);
    SortedAscends(est, order[c..(if c + CHUNK < |order| then c + CHUNK else |order|)]);
    DistinctChunk(est, order, c);
    GreedyStaysAhead(est, budget, xs, groups);
    UnionSize(groups);
    DistinctSize(xs);
    if |groups| < |BatchesOf(est, budget, xs, 0)| {
      CoverShort(est, budget, xs, |groups|);
    }
  }

  lemma {:induction false} DistinctSize(xs: seq<nat>)
    requires Distinct(xs)
    ensures |Rows(xs)| == |xs|
  {
    if xs != [] {
      DistinctSize(xs[1..]);
      assert Rows(xs) == Rows(xs[1..]) + {xs[0]};
    }
  }

  lemma DistinctChunk(est: Estimates, order: seq<nat>, c: nat)
    requires InRange(est, order) && c < |order| && Distinct(order)
    ensures Distinct(ChunkAt(est, order, c))
  {
    var part := order[c..(if c + CHUNK < |order| then c + CHUNK else |order|)];
    var xs := ChunkAt(est, order, c);
    forall i, j | 0 <= i < j < |xs| ensures xs[i] != xs[j] {
      if xs[i] == xs[j] {
        Twice(xs, i, j);
        Once(part, xs[i]);
      }
    }
  }

  lemma Twice(xs: seq<nat>, i: nat, j: nat)
    requires i < j < |xs| && xs[i] == xs[j]
    ensures multiset(xs)[xs[i]] >= 2
  {
    assert xs == xs[..i] + [xs[i]] + xs[i + 1..j] + [xs[j]] + xs[j + 1..];
  }

  lemma {:induction false} Once(xs: seq<nat>, x: nat)
    requires Distinct(xs)
    ensures multiset(xs)[x] <= 1
  {
    if xs != [] {
      Once(xs[1..], x);
      assert xs == [xs[0]] + xs[1..];
      assert x == xs[0] ==> x !in xs[1..];
    }
  }
}
