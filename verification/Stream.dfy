/** The growing buffer of a download (web/ollaya.js). */
module Stream {
  import opened Arithmetic
  import opened ByteStrings
  import opened Collections

  /** The buffer's size where no length is announced. */
  const DEFAULT_SIZE: nat := 0x10_0000

  /** `target.set(source, at)`. */
  method Set(target: array<Byte>, source: seq<Byte>, at: nat)
    requires at + |source| <= target.Length
    modifies target
    ensures target[..at] == old(target[..at]) && target[at..at + |source|] == source
    ensures target[at + |source|..] == old(target[at + |source|..])
  {
    for i := 0 to |source|
      invariant forall k :: 0 <= k < i ==> target[at + k] == source[k]
      invariant forall k :: 0 <= k < at || at + i <= k < target.Length ==> target[k] == old(target[k])
    {
      target[at + i] := source[i];
    }
  }

  /** A larger buffer with the first `n` bytes. */
  method Grow(out: array<Byte>, n: nat, needed: nat) returns (grown: array<Byte>)
    requires n <= out.Length < needed
    ensures fresh(grown) && grown.Length == Max(2 * out.Length, needed) && grown[..n] == out[..n]
  {
    grown := new Byte[Max(2 * out.Length, needed)](_ => 0);
    Set(grown, out[..n], 0);
    assert grown[..n] == grown[0..n];
  }

  lemma Adjacent(a: array<Byte>, n: nat, k: nat)
    requires n + k <= a.Length
    ensures a[..n + k] == a[..n] + a[n..n + k]
  {
  }

  /**
   `stream`: the chunks of a response, put together. `copied` counts the bytes moved to larger buffers; `announced` is the
   Content-Length, 0 where it is missing.
   */
  method Receive(announced: nat, chunks: seq<seq<Byte>>) returns (bytes: seq<Byte>, ghost copied: nat)
    ensures bytes == Joined(chunks)
    ensures copied <= 2 * |bytes|
    ensures |bytes| <= (if announced == 0 then 0x10_0000 else announced) ==> copied == 0
  {
    assert Joined(chunks[..0]) == [];
    hide Joined;
    var size := if announced == 0 then DEFAULT_SIZE else announced;
    var out := new Byte[size](_ => 0);
    var n: nat := 0;
    copied := 0;
    ghost var got: seq<Byte> := [];
    for i := 0 to |chunks|
      invariant fresh(out) && 0 < out.Length && n <= out.Length
      invariant out[..n] == got == Joined(chunks[..i])
      invariant copied <= 2 * n && copied <= out.Length - size
      invariant copied > 0 ==> n > size
    {
      var value := chunks[i];
      if n + |value| > out.Length {
        out := Grow(out, n, n + |value|);
        copied := copied + n;
      }
      Set(out, value, n);
      Adjacent(out, n, |value|);
      n, got := n + |value|, got + value;
      assert chunks[..i + 1] == chunks[..i] + [value];
      JoinedSnoc(chunks[..i], value);
    }
    assert chunks[..|chunks|] == chunks;
    bytes := out[..n];
  }
}
