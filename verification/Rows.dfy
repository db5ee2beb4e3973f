/** Token rows put together from pieces, as the layouts build them. */
module Rows {
  import opened TokenIds
  import opened Wrappers

  /** The tokenizer; None: an error. */
  type Encoder = string -> Option<seq<Token>>

  /** At most the first `n` elements. */
  function Take<T>(s: seq<T>, n: nat): (r: seq<T>)
    ensures |r| <= n && r <= s && (|s| <= n ==> r == s) && (|r| < n ==> r == s)
  {
    if |s| <= n then s else s[..n]
  }

  /** The first `n` pieces, one after the other. */
  function Flat(opts: seq<seq<Token>>, n: nat): seq<Token>
    requires n <= |opts|
  {
    if n == 0 then [] else Flat(opts, n - 1) + opts[n - 1]
  }

  function All(opts: seq<seq<Token>>): seq<Token> { Flat(opts, |opts|) }

  /** `part` lies at place `at`, as far as the row goes. */
  predicate Lies(ids: seq<Token>, at: nat, part: seq<Token>) {
    forall k :: 0 <= k < |part| && at + k < |ids| ==> ids[at + k] == part[k]
  }

  /** The sum of the first `n`. */
  function SumTo(lengths: seq<nat>, n: nat): nat
    requires n <= |lengths|
  {
    if n == 0 then 0 else SumTo(lengths, n - 1) + lengths[n - 1]
  }

  predicate Lengths(opts: seq<seq<Token>>, lengths: seq<nat>) {
    |opts| == |lengths| && forall i :: 0 <= i < |opts| ==> |opts[i]| == lengths[i]
  }

  lemma {:induction false} FlatLength(opts: seq<seq<Token>>, lengths: seq<nat>, n: nat)
    requires Lengths(opts, lengths) && n <= |opts|
    ensures |Flat(opts, n)| == SumTo(lengths, n)
  {
    if n > 0 {
      FlatLength(opts, lengths, n - 1);
    }
  }

  /** What lies in a row lies in every row that starts with it. */
  lemma LiesInPrefix(ids: seq<Token>, before: seq<Token>, part: seq<Token>, after: seq<Token>)
    requires ids <= before + part + after
    ensures Lies(ids, |before|, part)
  {
    var whole := before + part + after;
    assert forall k :: 0 <= k < |part| ==> whole[|before| + k] == part[k];
  }

  /** So does each of its pieces. */
  lemma PieceLies(ids: seq<Token>, front: seq<Token>, pieces: seq<seq<Token>>, after: seq<Token>, j: nat)
    requires j < |pieces| && ids <= front + All(pieces) + after
    ensures Lies(ids, |front| + |Flat(pieces, j)|, pieces[j])
  {
    var rest := FlatSplit(pieces, j);
    hide *;
    Regroup(front, Flat(pieces, j), pieces[j], rest, after);
    LiesInPrefix(ids, front + Flat(pieces, j), pieces[j], rest + after);
  }

  lemma FlatSplit(pieces: seq<seq<Token>>, j: nat) returns (rest: seq<Token>)
    requires j < |pieces|
    ensures All(pieces) == Flat(pieces, j) + pieces[j] + rest
  {
    FlatPrefix(pieces, j + 1, |pieces|);
    rest := All(pieces)[|Flat(pieces, j + 1)|..];
  }

  lemma Regroup(a: seq<Token>, b: seq<Token>, c: seq<Token>, d: seq<Token>, e: seq<Token>)
    ensures a + (b + c + d) + e == (a + b) + c + (d + e)
  {
  }

  lemma FlatStep(front: seq<Token>, opts: seq<seq<Token>>, i: nat)
    requires i < |opts|
    ensures front + Flat(opts, i + 1) == front + Flat(opts, i) + opts[i]
  {
  }

  lemma {:induction false} FlatPrefix(opts: seq<seq<Token>>, i: nat, n: nat)
    requires i <= n <= |opts|
    ensures Flat(opts, i) <= Flat(opts, n)
    decreases n
  {
    if i < n {
      FlatPrefix(opts, i, n - 1);
    }
  }
}
