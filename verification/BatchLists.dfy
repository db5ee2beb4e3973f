/** What `length_batches` (train/sura.py) builds before the last shuffle, written out. */
module BatchLists {
  import opened Arithmetic
  import opened Collections
  import opened Batches

  /** The rows of estimate `e`, in order. */
  function Alike(est: Estimates, xs: seq<nat>, e: nat): seq<nat>
    requires InRange(est, xs)
  {
    if xs == [] then []
    else
      var last := xs[|xs| - 1];
      Alike(est, xs[..|xs| - 1], e) + if est[last] == e then [last] else []
  }

  /** `xs` is `rows` by estimate, rows of equal estimates in the order they had. */
  ghost predicate Ordered(est: Estimates, rows: seq<nat>, xs: seq<nat>) {
    InRange(est, rows) && InRange(est, xs) && (forall i, j :: 0 <= i < j < |xs| ==> est[xs[i]] <= est[xs[j]]) &&
    forall e :: Alike(est, xs, e) == Alike(est, rows, e)
  }

  /** A batch takes the next row as long as the rows, with it, padded to it, fit the budget. */
  predicate Grows(est: Estimates, budget: int, batch: seq<nat>) {
    batch != [] && InRange(est, batch) && forall j :: 1 <= j < |batch| ==> (j + 1) * est[batch[j]] <= budget
  }

  /** The row after a batch no longer fits. */
  predicate Full(est: Estimates, budget: int, batch: seq<nat>, next: nat) {
    next < |est| && (|batch| + 1) * est[next] > budget
  }

  predicate Greedy(est: Estimates, budget: int, xs: seq<nat>, batches: seq<seq<nat>>) {
    Joined(batches) == xs && (forall k :: 0 <= k < |batches| ==> Grows(est, budget, batches[k])) &&
    forall k :: 0 < k < |batches| ==> StartsAfter(est, budget, batches, k)
  }

  predicate StartsAfter(est: Estimates, budget: int, batches: seq<seq<nat>>, k: nat)
    requires 0 < k < |batches|
  {
    batches[k] != [] && Full(est, budget, batches[k - 1], batches[k][0])
  }

  lemma {:induction false} InsertAlike(est: Estimates, sorted: seq<nat>, x: nat, e: nat)
    requires InRange(est, sorted) && x < |est|
    ensures Alike(est, Insert(est, sorted, x), e) == Alike(est, sorted, e) + if est[x] == e then [x] else []
  {
    var r := Insert(est, sorted, x);
    if sorted == [] {
      assert r[..0] == [];
    } else {
      var init, last := sorted[..|sorted| - 1], sorted[|sorted| - 1];
      if est[last] <= est[x] {
        assert r[..|r| - 1] == sorted;
      } else {
        InsertAlike(est, init, x, e);
        assert r[..|r| - 1] == Insert(est, init, x);
      }
    }
  }

  lemma {:induction false} SortedAlike(est: Estimates, xs: seq<nat>, e: nat)
    requires InRange(est, xs)
    ensures Alike(est, Sorted(est, xs), e) == Alike(est, xs, e)
  {
    if xs != [] {
      SortedAlike(est, xs[..|xs| - 1], e);
      InsertAlike(est, Sorted(est, xs[..|xs| - 1]), xs[|xs| - 1], e);
    }
  }

  lemma SortedIs(est: Estimates, rows: seq<nat>)
    requires InRange(est, rows)
    ensures Ordered(est, rows, Sorted(est, rows))
  {
    SortedAscends(est, rows);
    forall e ensures Alike(est, Sorted(est, rows), e) == Alike(est, rows, e) {
      SortedAlike(est, rows, e);
    }
    hide Sorted, Alike;
  }

  lemma {:induction false} EndGrows(est: Estimates, budget: int, xs: seq<nat>, p: nat, q: nat)
    requires InRange(est, xs) && p < q <= |xs| && Grows(est, budget, xs[p..q])
    ensures
      var e := End(est, budget, xs, p, q);
      Grows(est, budget, xs[p..e]) && (e < |xs| ==> Full(est, budget, xs[p..e], xs[e]))
    decreases |xs| - q
  {
    if q < |xs| && Padded(q - p + 1, est[xs[q]]) <= budget {
      assert xs[p..q + 1] == xs[p..q] + [xs[q]];
      EndGrows(est, budget, xs, p, q + 1);
    }
  }

  lemma {:induction false} BatchesGreedy(est: Estimates, budget: int, xs: seq<nat>, p: nat)
    requires InRange(est, xs) && p <= |xs|
    ensures Greedy(est, budget, xs[p..], BatchesOf(est, budget, xs, p))
    ensures p < |xs| ==> BatchesOf(est, budget, xs, p) != [] && BatchesOf(est, budget, xs, p)[0][..1] == xs[p..p + 1]
    decreases |xs| - p
  {
    if p < |xs| {
      var q := End(est, budget, xs, p, p + 1);
      EndGrows(est, budget, xs, p, p + 1);
      BatchesGreedy(est, budget, xs, q);
      var rest := BatchesOf(est, budget, xs, q);
      assert xs[p..] == xs[p..q] + xs[q..];
      GreedyCons(est, budget, xs[p..q], xs[q..], rest);
    }
  }

  lemma GreedyCons(est: Estimates, budget: int, batch: seq<nat>, xs: seq<nat>, rest: seq<seq<nat>>)
    requires Grows(est, budget, batch) && Greedy(est, budget, xs, rest)
    requires rest != [] ==> rest[0] != [] && Full(est, budget, batch, rest[0][0])
    ensures Greedy(est, budget, batch + xs, [batch] + rest)
  {
    hide Grows, Full;
    var all := [batch] + rest;
    assert all[1..] == rest;
    assert forall k :: 0 < k < |all| ==> all[k] == rest[k - 1];
    forall k | 0 < k < |all| ensures StartsAfter(est, budget, all, k) {
      if k > 1 {
        assert StartsAfter(est, budget, rest, k - 1);
      }
    }
  }

  /** Chunk `i`: 4096 rows, or what is left. */
  function Chunk(order: seq<nat>, i: nat): seq<nat>
    requires 4096 * i < |order|
  {
    if 4096 * (i + 1) < |order| then order[4096 * i..4096 * (i + 1)] else order[4096 * i..]
  }

  ghost predicate ChunkBatched(est: Estimates, budget: int, rows: seq<nat>, batches: seq<seq<nat>>) {
    exists xs :: Ordered(est, rows, xs) && Greedy(est, budget, xs, batches)
  }

  /** The batches, chunk after chunk of 4096 rows: each chunk sorted stably by estimate and batched greedily. */
  lemma {:induction false} BatchesSay(est: Estimates, budget: int, order: seq<nat>, first: nat) returns (chunks: seq<seq<seq<nat>>>)
    requires InRange(est, order)
    ensures ChunksOf(est, budget, order, 4096 * first) == Joined(chunks)
    ensures 4096 * (first + |chunks|) >= |order| && (chunks != [] ==> 4096 * (first + |chunks| - 1) < |order|)
    ensures forall i :: 0 <= i < |chunks| ==> ChunkBatched(est, budget, Chunk(order, first + i), chunks[i])
    decreases |order| - 4096 * first
  {
    hide ChunkBatched, BatchesOf, ChunkAt, Chunk;
    if 4096 * first >= |order| {
      chunks := [];
    } else {
      var rest := BatchesSay(est, budget, order, first + 1);
      ChunkSays(est, budget, order, first);
      chunks := [BatchesOf(est, budget, ChunkAt(est, order, 4096 * first), 0)] + rest;
      assert chunks[1..] == rest;
      forall i | 0 <= i < |chunks| ensures ChunkBatched(est, budget, Chunk(order, first + i), chunks[i]) {
        if i > 0 {
          assert chunks[i] == rest[i - 1] && first + i == (first + 1) + (i - 1);
        }
      }
    }
  }

  lemma ChunkSays(est: Estimates, budget: int, order: seq<nat>, i: nat)
    requires InRange(est, order) && 4096 * i < |order|
    ensures ChunkBatched(est, budget, Chunk(order, i), BatchesOf(est, budget, ChunkAt(est, order, 4096 * i), 0))
  {
    var rows := Chunk(order, i);
    var xs := ChunkAt(est, order, 4096 * i);
    var c := 4096 * i;
    assert 4096 * (i + 1) == c + 4096;
    assert rows == order[c..(if c + CHUNK < |order| then c + CHUNK else |order|)];
    assert InRange(est, rows) && xs == Sorted(est, rows) by { hide Sorted; }
    SortedIs(est, rows);
    BatchesGreedy(est, budget, xs, 0);
    assert xs[0..] == xs;
    hide Ordered, Greedy, BatchesOf, Sorted, Chunk, ChunkAt;
  }
}
