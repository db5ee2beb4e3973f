/** The caps of the training set (train/data/build.py), written out: 400 000 questions, at most a quarter from one source. */
module SampleLimits {
  import opened Arithmetic
  import opened Sampling

  predicate TakenWhole(key: string) {
    key == "tasksource-synthetic" || key == "n4ze3m" || key == "fastino" || key == "tasksource-procedural"
  }

  /** The sum of the first `n` values of `f`. */
  function SumOf(n: nat, f: nat -> nat): nat {
    if n == 0 then 0 else SumOf(n - 1, f) + f(n - 1)
  }

  function Smaller(a: nat, b: nat): nat { if a < b then a else b }

  /** What a source may give under a cap: a whole one at most 100 000 of its own questions, another at most the cap. */
  function Allowance(s: Source, cap: nat): nat {
    Smaller(Asked(s), if TakenWhole(s.key) then 100_000 else cap)
  }

  function Asked(s: Source): nat {
    SumOf(|s.rows|, (i: nat) => if i < |s.rows| then s.rows[i] else 0)
  }

  function Allowed(sources: seq<Source>, cap: nat): nat {
    SumOf(|sources|, (i: nat) => if i < |sources| then Allowance(sources[i], cap) else 0)
  }

  lemma {:induction false} TotalIs(s: seq<nat>, f: nat -> nat)
    requires forall i :: 0 <= i < |s| ==> f(i) == s[i]
    ensures SumOf(|s|, f) == Total(s)
  {
    if s != [] {
      TotalIs(s[..|s| - 1], f);
    }
  }

  lemma AllowanceIs(s: Source, cap: nat)
    ensures Asked(s) == Questions(s) && (TakenWhole(s.key) <==> s.key in WHOLE)
    ensures Allowance(s, cap) == if s.key in WHOLE then Min(Questions(s), SHARE) else Min(Questions(s), cap)
    ensures Limit(s, cap) == if TakenWhole(s.key) then Allowance(s, cap) else cap
  {
    TotalIs(s.rows, (i: nat) => if i < |s.rows| then s.rows[i] else 0);
  }

  lemma {:induction false} AllowedIs(sources: seq<Source>, cap: nat, f: nat -> nat)
    requires forall i :: 0 <= i < |sources| ==> f(i) == Allowance(sources[i], cap)
    ensures SumOf(|sources|, f) == WholeSum(sources) + Capped(OtherCounts(sources), cap)
  {
    if sources != [] {
      var (init, s) := (sources[..|sources| - 1], sources[|sources| - 1]);
      AllowedIs(init, cap, f);
      AllowanceIs(s, cap);
      hide Allowance, Questions;
      var before := OtherCounts(init);
      assert (before + [Questions(s)])[..|before|] == before;
    }
  }

  lemma AllowedSum(sources: seq<Source>, cap: nat)
    ensures Allowed(sources, cap) == WholeSum(sources) + Capped(OtherCounts(sources), cap)
  {
    AllowedIs(sources, cap, (i: nat) => if i < |sources| then Allowance(sources[i], cap) else 0);
  }

  lemma {:induction false} OthersAre(sources: seq<Source>, n: nat)
    ensures n in OtherCounts(sources) <==> exists s :: s in sources && s.key !in WHOLE && Questions(s) == n
  {
    if sources != [] {
      var (init, s) := (sources[..|sources| - 1], sources[|sources| - 1]);
      OthersAre(init, n);
      assert sources == init + [s];
      hide Questions;
      assert forall x :: x in sources <==> x in init || x == s;
    }
  }

  /** `cap` is at most 100 000 and the largest source, keeps all sources within 400 000 questions, and one more would not. */
  ghost predicate IsLargestCap(sources: seq<Source>, cap: nat) {
    cap <= 100_000 && (cap == 0 || exists s :: s in sources && !TakenWhole(s.key) && Asked(s) >= cap) &&
    Allowed(sources, cap) <= 400_000 &&
    (cap == 100_000 || (forall s :: s in sources && !TakenWhole(s.key) ==> Asked(s) <= cap) || Allowed(sources, cap + 1) > 400_000)
  }

  lemma CapSays(sources: seq<Source>, cap: nat)
    requires IsCap(sources, cap)
    ensures IsLargestCap(sources, cap)
  {
    var others := OtherCounts(sources);
    var top := Largest(others);
    AllowedSum(sources, cap);
    AllowedSum(sources, cap + 1);
    forall s | s in sources ensures Asked(s) == Questions(s) && (TakenWhole(s.key) <==> s.key in WHOLE) {
      AllowanceIs(s, cap);
    }
    forall n ensures n in others <==> exists s :: s in sources && s.key !in WHOLE && Questions(s) == n {
      OthersAre(sources, n);
    }
    hide Allowed, Questions, Asked, TakenWhole, OtherCounts, WholeSum, Capped;
    if others != [] {
      assert top in others;
    }
    if cap == top {
      forall s | s in sources && !TakenWhole(s.key) ensures Asked(s) <= cap {
        assert Questions(s) in others;
      }
    }
  }
}
