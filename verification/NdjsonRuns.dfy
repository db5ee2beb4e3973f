/** What a progress stream yields, said of its lines alone (crates/ollaya-api/src/client.rs). */
module NdjsonRuns {
  import opened Wrappers
  import opened ByteStrings
  import opened Collections
  import opened Ndjson

  /** Tab, newline, form feed, carriage return and space. */
  predicate White(b: Byte) { b == 9 || b == 10 || b == 12 || b == 13 || b == 32 }

  predicate AllWhite(line: seq<Byte>) {
    forall i :: 0 <= i < |line| ==> White(line[i])
  }

  /** The lines that are not all white space. */
  function Solid(lines: seq<seq<Byte>>): seq<seq<Byte>> {
    if lines == [] then [] else (if AllWhite(lines[0]) then [] else [lines[0]]) + Solid(lines[1..])
  }

  /** A line that ends the stream: it does not parse, or is the success line. */
  predicate Stops(parse: Parser, line: seq<Byte>) {
    parse(line).Failure? || parse(line).value.isSuccess
  }

  function Parsed(parse: Parser, line: seq<Byte>): Item {
    match parse(line)
    case Success(p) => Success(p)
    case Failure(e) => Failure(Line(e))
  }

  /** The item of a connection's end: a last line without a newline counts when it ends the stream. */
  function AtEnd(parse: Parser, tail: seq<Byte>, broken: bool): Item {
    if broken then Failure(Http)
    else if AllWhite(tail) || !Stops(parse, tail) then Failure(Incomplete)
    else Parsed(parse, tail)
  }

  predicate GoesOn(parse: Parser, line: seq<Byte>, item: Item) {
    !Stops(parse, line) && item == Parsed(parse, line)
  }

  /** One item for each of the first `k` lines, none of which ends the stream, and one for line `k`, which does, or for the end. */
  predicate Run(parse: Parser, lines: seq<seq<Byte>>, tail: seq<Byte>, broken: bool, items: seq<Item>, k: nat) {
    k <= |lines| && |items| == k + 1 &&
    (forall j :: 0 <= j < k ==> GoesOn(parse, lines[j], items[j])) &&
    if k < |lines| then Stops(parse, lines[k]) && items[k] == Parsed(parse, lines[k]) else items[k] == AtEnd(parse, tail, broken)
  }

  /** Lines that end at their only newline, and a tail without one. */
  predicate AreLines(lines: seq<seq<Byte>>, tail: seq<Byte>) {
    10 !in tail &&
    forall i :: 0 <= i < |lines| ==> lines[i] != [] && lines[i][|lines[i]| - 1] == 10 && 10 !in lines[i][..|lines[i]| - 1]
  }

  lemma BlankIs(line: seq<Byte>)
    ensures Blank(line) <==> AllWhite(line)
  {
    assert forall b :: IsSpace(b) <==> White(b);
  }

  lemma EndIs(parse: Parser, tail: seq<Byte>, broken: bool)
    ensures EndItem(parse, tail, broken) == AtEnd(parse, tail, broken)
  {
    BlankIs(tail);
    hide Blank, AllWhite;
  }

  lemma FirstLine(line: seq<Byte>, more: seq<Byte>)
    requires line != [] && line[|line| - 1] == 10 && 10 !in line[..|line| - 1]
    ensures FirstNewline(line + more) == |line| - 1 && (line + more)[..|line|] == line && (line + more)[|line|..] == more
  {
    hide FirstNewline;
    var (s, n) := (line + more, |line| - 1);
    assert s[n] == 10 && s[..n] == line[..n];
  }

  lemma NoLine(tail: seq<Byte>)
    requires 10 !in tail
    ensures FirstNewline(tail) == |tail|
  {
    hide FirstNewline;
  }

  /** What the items of a stream are, whatever the chunks its bytes arrive in. */
  lemma {:induction false} RunSays(parse: Parser, lines: seq<seq<Byte>>, tail: seq<Byte>, broken: bool) returns (k: nat)
    requires AreLines(lines, tail)
    ensures Run(parse, Solid(lines), tail, broken, Items(parse, Joined(lines) + tail, broken), k)
  {
    hide AllWhite, Blank, FirstNewline, EndItem, AtEnd;
    k := 0;
    if lines == [] {
      assert [] + tail == tail;
      NoLine(tail);
      EndIs(parse, tail, broken);
    } else {
      var (line, rest) := (lines[0], Joined(lines[1..]) + tail);
      Associative(line, Joined(lines[1..]), tail);
      FirstLine(line, rest);
      BlankIs(line);
      k := RunSays(parse, lines[1..], tail, broken);
      assert !AllWhite(line) ==> Solid(lines)[1..] == Solid(lines[1..]);
      k := OneMore(parse, lines, tail, broken, Items(parse, rest, broken), k);
    }
  }

  lemma OneMore(parse: Parser, lines: seq<seq<Byte>>, tail: seq<Byte>, broken: bool, items: seq<Item>, k: nat) returns (n: nat)
    requires lines != [] && Run(parse, Solid(lines[1..]), tail, broken, items, k)
    ensures Run(parse, Solid(lines), tail, broken,
                if AllWhite(lines[0]) then items
                else if Stops(parse, lines[0]) then [Parsed(parse, lines[0])]
                else [Parsed(parse, lines[0])] + items, n)
  {
    hide AllWhite, AtEnd, Parsed;
    var rest := Solid(lines[1..]);
    if AllWhite(lines[0]) {
      assert Solid(lines) == rest;
      n := k;
    } else {
      assert Solid(lines) == [lines[0]] + rest;
      n := if Stops(parse, lines[0]) then 0 else k + 1;
      if !Stops(parse, lines[0]) {
        RunCons(parse, lines[0], rest, tail, broken, items, k);
      }
    }
  }

  lemma RunCons(parse: Parser, line: seq<Byte>, lines: seq<seq<Byte>>, tail: seq<Byte>, broken: bool, items: seq<Item>, k: nat)
    requires !Stops(parse, line) && Run(parse, lines, tail, broken, items, k)
    ensures Run(parse, [line] + lines, tail, broken, [Parsed(parse, line)] + items, k + 1)
  {
    var (longer, more) := ([line] + lines, [Parsed(parse, line)] + items);
    assert GoesOn(parse, line, more[0]);
    hide AtEnd, Stops, Parsed, GoesOn;
    forall j | 0 <= j < k + 1 ensures GoesOn(parse, longer[j], more[j]) {
      if j > 0 {
        assert longer[j] == lines[j - 1] && more[j] == items[j - 1];
      }
    }
  }

  // ---------------------------------------------------------------- draining

  /** What `drain` reports: every item's progress line, the terminal one's when it is the success line. */
  lemma {:induction false} ReportedIs(items: seq<Item>)
    requires items != [] && forall j :: 0 <= j < |items| - 1 ==> items[j].Success?
    ensures |Reported(items)| == if items[|items| - 1].Success? then |items| else |items| - 1
    ensures forall j :: 0 <= j < |Reported(items)| ==> items[j] == Success(Reported(items)[j])
  {
    if |items| > 1 {
      ReportedIs(items[1..]);
      assert Reported(items) == [items[0].value] + Reported(items[1..]);
    } else {
      assert items == [items[0]] && Reported(items[1..]) == [];
    }
  }

  /** Whatever arrives after a connection broke is not read. */
  lemma {:induction false} NothingAfterBreak(pieces: seq<seq<Byte>>, more: seq<Chunk>)
    ensures var chunks := Delivered(pieces, true) + more; Bytes(chunks) == Joined(pieces) && Breaks(chunks)
  {
    if pieces != [] {
      NothingAfterBreak(pieces[1..], more);
      var chunks := Delivered(pieces, true) + more;
      assert chunks[1..] == Delivered(pieces[1..], true) + more;
    }
  }
}
