/** How the training set is sampled (train/data/build.py): a water-filled cap on questions per source. */
module Sampling {
  import opened Arithmetic
  import opened Collections

  const CAP_QUESTIONS: nat := 400_000
  /** A quarter of them. */
  const SHARE: nat := 100_000
  const WHOLE: set<string> := {"tasksource-synthetic", "n4ze3m", "fastino", "tasksource-procedural"}

  function Total(s: seq<nat>): nat {
    if s == [] then 0 else Total(s[..|s| - 1]) + s[|s| - 1]
  }

  /** The questions that a cap per source leaves. */
  function Capped(counts: seq<nat>, c: nat): nat {
    if counts == [] then 0 else Capped(counts[..|counts| - 1], c) + Min(counts[|counts| - 1], c)
  }

  function Largest(counts: seq<nat>): (n: nat)
    ensures forall i :: 0 <= i < |counts| ==> counts[i] <= n
    ensures counts != [] ==> n in counts
  {
    if counts == [] then 0
    else
      var n := Largest(counts[..|counts| - 1]);
      if counts[|counts| - 1] > n then counts[|counts| - 1] else n
  }

  lemma {:induction false} CappedMonotone(counts: seq<nat>, c: nat, d: nat)
    requires c <= d
    ensures Capped(counts, c) <= Capped(counts, d) <= Total(counts)
  {
    if counts != [] {
      CappedMonotone(counts[..|counts| - 1], c, d);
    }
  }

  lemma {:induction false} CappedZero(counts: seq<nat>)
    ensures Capped(counts, 0) == 0
  {
    if counts != [] {
      CappedZero(counts[..|counts| - 1]);
    }
  }

  /** `sum(min(n, c) for n in counts)`. */
  method SumCapped(counts: seq<nat>, c: nat) returns (n: nat)
    ensures n == Capped(counts, c)
  {
    n := 0;
    for i := 0 to |counts|
      invariant n == Capped(counts[..i], c)
    {
      assert counts[..i + 1][..i] == counts[..i];
      n := n + Min(counts[i], c);
    }
    assert counts[..|counts|] == counts;
  }

  /** The largest cap, up to the largest count, whose capped sum fits the budget. */
  method Waterfill(counts: seq<nat>, budget: int) returns (c: nat)
    ensures c <= Largest(counts)
    ensures budget >= 0 ==> Capped(counts, c) <= budget
    ensures forall d :: c < d <= Largest(counts) ==> Capped(counts, d) > budget
  {
    var lo: nat, hi: nat := 0, Largest(counts);
    CappedZero(counts);
    while lo < hi
      invariant lo <= hi <= Largest(counts)
      invariant budget >= 0 ==> Capped(counts, lo) <= budget
      invariant forall d :: hi < d <= Largest(counts) ==> Capped(counts, d) > budget
    {
      var mid := (lo + hi + 1) / 2;
      var sum := SumCapped(counts, mid);
      if sum <= budget {
        lo := mid;
      } else {
        forall d | mid <= d <= Largest(counts) ensures Capped(counts, d) > budget {
          CappedMonotone(counts, mid, d);
        }
        hi := mid - 1;
      }
    }
    return lo;
  }

  // ---------------------------------------------------------------- sampling

  /** A source: its name and how many questions each of its rows has. */
  datatype Source = Source(key: string, rows: seq<nat>)

  predicate DistinctKeys(sources: seq<Source>) {
    forall i, j :: 0 <= i < j < |sources| ==> sources[i].key != sources[j].key
  }

  /** The rows that are taken leave no row that would still fit. */
  ghost predicate Sampled(rows: seq<nat>, limit: int, picked: seq<nat>) {
    Total(picked) <= limit &&
    exists left: seq<nat> :: Leaves(rows, limit, picked, left)
  }

  ghost predicate Leaves(rows: seq<nat>, limit: int, picked: seq<nat>, left: seq<nat>) {
    multiset(rows) == multiset(picked) + multiset(left) && forall i :: 0 <= i < |left| ==> Total(picked) + left[i] > limit
  }

  lemma RowLeft(rows: seq<nat>, i: nat, limit: int, picked: seq<nat>, left: seq<nat>)
    requires i < |rows| && Leaves(rows[..i], limit, picked, left) && Total(picked) + rows[i] > limit
    ensures Leaves(rows[..i + 1], limit, picked, left + [rows[i]])
  {
    assert rows[..i + 1] == rows[..i] + [rows[i]];
  }

  lemma RowTaken(rows: seq<nat>, i: nat, limit: int, picked: seq<nat>, left: seq<nat>)
    requires i < |rows| && Leaves(rows[..i], limit, picked, left)
    ensures Leaves(rows[..i + 1], limit, picked + [rows[i]], left) && Total(picked + [rows[i]]) == Total(picked) + rows[i]
  {
    assert rows[..i + 1] == rows[..i] + [rows[i]];
    assert (picked + [rows[i]])[..|picked|] == picked;
  }

  /** One source: every row that still fits under the limit, in order. */
  method SampleSource(rows: seq<nat>, limit: nat) returns (picked: seq<nat>)
    ensures Sampled(rows, limit, picked)
  {
    picked := [];
    var taken: nat := 0;
    ghost var left: seq<nat> := [];
    for i := 0 to |rows|
      invariant taken == Total(picked) <= limit
      invariant Leaves(rows[..i], limit, picked, left)
    {
      hide Leaves;
      if taken + rows[i] > limit {
        RowLeft(rows, i, limit, picked, left);
        left := left + [rows[i]];
        continue;
      }
      RowTaken(rows, i, limit, picked, left);
      taken := taken + rows[i];
      picked := picked + [rows[i]];
    }
    assert rows[..|rows|] == rows;
    assert Leaves(rows, limit, picked, left);
  }

  function Questions(s: Source): nat { Total(s.rows) }

  /** The questions of the sources that are taken whole, each at most its share. */
  function WholeSum(sources: seq<Source>): nat {
    if sources == [] then 0
    else
      var s := sources[|sources| - 1];
      if s.key in WHOLE then WholeSum(sources[..|sources| - 1]) + Min(Questions(s), SHARE) else WholeSum(sources[..|sources| - 1])
  }

  /** The question counts of the other sources. */
  function OtherCounts(sources: seq<Source>): seq<nat> {
    if sources == [] then []
    else
      var s := sources[|sources| - 1];
      if s.key in WHOLE then OtherCounts(sources[..|sources| - 1]) else OtherCounts(sources[..|sources| - 1]) + [Questions(s)]
  }

  function Limit(s: Source, cap: nat): nat {
    if s.key in WHOLE then Min(Questions(s), SHARE) else cap
  }

  /** The cap that the code computes for the sources that are not taken whole. */
  predicate IsCap(sources: seq<Source>, cap: nat) {
    var others := OtherCounts(sources);
    cap <= SHARE && cap <= Largest(others) && Capped(others, cap) <= CAP_QUESTIONS - WholeSum(sources) &&
    (cap == SHARE || cap == Largest(others) ||
     forall d :: cap < d <= Largest(others) ==> Capped(others, d) > CAP_QUESTIONS - WholeSum(sources))
  }

  method Sample(sources: seq<Source>, shuffle: (nat, seq<nat>) -> seq<nat>) returns (cap: nat, picked: seq<seq<nat>>)
    requires DistinctKeys(sources)
    requires forall i: nat, rows: seq<nat> :: multiset(shuffle(i, rows)) == multiset(rows)
    ensures IsCap(sources, cap)
    ensures |picked| == |sources| && forall i :: 0 <= i < |sources| ==> Sampled(sources[i].rows, Limit(sources[i], cap), picked[i])
  {
    WholeFits(sources);
    var others := OtherCounts(sources);
    var sum := Total(others);
    var budget := Min(CAP_QUESTIONS - WholeSum(sources), sum);
    var c := Waterfill(others, budget);
    cap := Min(c, SHARE);
    CappedMonotone(others, cap, c);
    CapChosen(sources, c, cap, budget);
    picked := [];
    for i := 0 to |sources|
      invariant |picked| == i && forall k :: 0 <= k < i ==> Sampled(sources[k].rows, Limit(sources[k], cap), picked[k])
    {
      hide Sampled, Limit, IsCap;
      var rows := shuffle(i, sources[i].rows);
      var one := SampleSource(rows, Limit(sources[i], cap));
      SampledPermuted(rows, sources[i].rows, Limit(sources[i], cap), one);
      picked := picked + [one];
    }
  }

  lemma SampledPermuted(a: seq<nat>, b: seq<nat>, limit: nat, picked: seq<nat>)
    requires multiset(a) == multiset(b) && Sampled(a, limit, picked)
    ensures Sampled(b, limit, picked)
  {
    var left :| Leaves(a, limit, picked, left);
    assert Leaves(b, limit, picked, left);
  }

  lemma CapChosen(sources: seq<Source>, c: nat, cap: nat, budget: int)
    requires WholeSum(sources) <= CAP_QUESTIONS && cap == Min(c, SHARE) && c <= Largest(OtherCounts(sources))
    requires budget == Min(CAP_QUESTIONS - WholeSum(sources), Total(OtherCounts(sources)))
    requires Capped(OtherCounts(sources), c) <= budget
    requires Capped(OtherCounts(sources), cap) <= Capped(OtherCounts(sources), c)
    requires forall d :: c < d <= Largest(OtherCounts(sources)) ==> Capped(OtherCounts(sources), d) > budget
    ensures IsCap(sources, cap)
  {
    var others := OtherCounts(sources);
    forall d: nat ensures Capped(others, d) <= Total(others) {
      CappedMonotone(others, d, d);
    }
  }

  /** The four sources that are taken whole never exceed the budget. */
  lemma WholeFits(sources: seq<Source>)
    requires DistinctKeys(sources)
    ensures WholeSum(sources) <= CAP_QUESTIONS
  {
    WholeBound(sources);
    var keys := WholeKeys(sources);
    assert keys <= WHOLE;
    SubsetSize(keys, WHOLE);
    assert |WHOLE| == 4 by { FourNames(); }
  }

  lemma FourNames()
    ensures |WHOLE| == 4
  {
    var s: set<string> := {"tasksource-synthetic"};
    assert |s| == 1;
    assert "n4ze3m"[0] != "tasksource-synthetic"[0];
    var t := s + {"n4ze3m"};
    assert |t| == 2;
    assert "fastino"[0] != "n4ze3m"[0] && "fastino"[0] != "tasksource-synthetic"[0];
    var u := t + {"fastino"};
    assert |u| == 3;
    assert "tasksource-procedural"[11] != "tasksource-synthetic"[11];
    assert "tasksource-procedural"[0] != "n4ze3m"[0] && "tasksource-procedural"[0] != "fastino"[0];
    assert WHOLE == u + {"tasksource-procedural"};
  }

  function WholeKeys(sources: seq<Source>): set<string> {
    set s | s in sources && s.key in WHOLE :: s.key
  }

  lemma WholeKeysSnoc(init: seq<Source>, s: Source)
    requires s.key in WHOLE && forall i :: 0 <= i < |init| ==> init[i].key != s.key
    ensures |WholeKeys(init + [s])| == |WholeKeys(init)| + 1
  {
    hide Questions;
    assert s.key !in WholeKeys(init);
    assert WholeKeys(init + [s]) == WholeKeys(init) + {s.key};
  }

  lemma {:induction false} WholeBound(sources: seq<Source>)
    requires DistinctKeys(sources)
    ensures WholeSum(sources) <= |WholeKeys(sources)| * SHARE
  {
    if sources != [] {
      var init, s := sources[..|sources| - 1], sources[|sources| - 1];
      WholeBound(init);
      if s.key in WHOLE {
        WholeKeysSnoc(init, s);
        assert sources == init + [s];
      } else {
        assert WholeKeys(sources) == WholeKeys(init);
      }
    }
  }

  // ---------------------------------------------------------------- the promise

  function AllPicked(picked: seq<seq<nat>>): nat {
    if picked == [] then 0 else AllPicked(picked[..|picked| - 1]) + Total(picked[|picked| - 1])
  }

  lemma {:induction false} TotalPermuted(a: seq<nat>, b: seq<nat>)
    requires multiset(a) == multiset(b)
    ensures Total(a) == Total(b)
  {
    if a == [] {
      assert |multiset(b)| == 0;
    } else {
      var last := a[|a| - 1];
      assert a == a[..|a| - 1] + [last];
      assert last in multiset(b);
      var k :| 0 <= k < |b| && b[k] == last;
      var rest := b[..k] + b[k + 1..];
      assert b == b[..k] + [last] + b[k + 1..];
      assert multiset(a[..|a| - 1]) + multiset{last} == multiset(rest) + multiset{last};
      Cancel(multiset(a[..|a| - 1]), multiset(rest), multiset{last});
      TotalPermuted(a[..|a| - 1], rest);
      TotalConcat(b[..k], b[k + 1..]);
      TotalConcat(b[..k] + [last], b[k + 1..]);
      TotalConcat(b[..k], [last]);
    }
  }

  lemma {:induction false} TotalConcat(a: seq<nat>, b: seq<nat>)
    ensures Total(a + b) == Total(a) + Total(b)
  {
    if b == [] {
      assert a + b == a;
    } else {
      TotalConcat(a, b[..|b| - 1]);
      assert (a + b)[..|a + b| - 1] == a + b[..|b| - 1];
    }
  }

  /** A sample has at most the questions of its source. */
  lemma SampleWithinSource(rows: seq<nat>, limit: int, picked: seq<nat>)
    requires Sampled(rows, limit, picked)
    ensures Total(picked) <= Min(Total(rows), limit)
  {
    var left :| Leaves(rows, limit, picked, left);
    TotalPermuted(rows, picked + left);
    TotalConcat(picked, left);
  }

  lemma {:induction false} AllWithin(sources: seq<Source>, cap: nat, picked: seq<seq<nat>>)
    requires |picked| == |sources|
    requires forall i :: 0 <= i < |sources| ==> Sampled(sources[i].rows, Limit(sources[i], cap), picked[i])
    ensures AllPicked(picked) <= WholeSum(sources) + Capped(OtherCounts(sources), cap)
  {
    if sources != [] {
      hide Sampled, Total;
      var n := |sources| - 1;
      AllWithin(sources[..n], cap, picked[..n]);
      SampleWithinSource(sources[n].rows, Limit(sources[n], cap), picked[n]);
      if sources[n].key !in WHOLE {
        var before := OtherCounts(sources[..n]);
        assert (before + [Questions(sources[n])])[..|before|] == before;
      }
    }
  }

  /** However the rows fall: at most `CAP_QUESTIONS` questions in all, and at most the share of them from any source. */
  lemma SampleFits(sources: seq<Source>, cap: nat, picked: seq<seq<nat>>)
    requires DistinctKeys(sources) && IsCap(sources, cap) && |picked| == |sources|
    requires forall i :: 0 <= i < |sources| ==> Sampled(sources[i].rows, Limit(sources[i], cap), picked[i])
    ensures AllPicked(picked) <= CAP_QUESTIONS
    ensures forall i :: 0 <= i < |sources| ==> Total(picked[i]) <= SHARE
  {
    AllWithin(sources, cap, picked);
  }
}
