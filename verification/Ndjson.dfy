/** The progress stream of a pull (crates/ollaya-api/src/client.rs): NDJSON lines out of arbitrary chunks, up to one terminal item. */
module Ndjson {
  import opened Wrappers
  import opened ByteStrings
  import opened Collections

  const NEWLINE: Byte := 10

  /** A progress line: its text, and whether it is the `success` line. */
  datatype Progress = Progress(status: string, isSuccess: bool)

  datatype LineError = Api(status: nat, message: string) | Decode(message: string)

  datatype ClientError = Line(error: LineError) | Http | Incomplete

  type Item = Result<Progress, ClientError>

  /** What the connection delivers: some bytes, or a transport error. */
  datatype Chunk = Data(bytes: seq<Byte>) | Broken

  /** What the line parser makes of one line, taken from elsewhere. */
  type Parser = seq<Byte> -> Result<Progress, LineError>

  predicate IsSpace(b: Byte) { b == 9 || b == 10 || b == 12 || b == 13 || b == 32 }

  predicate Blank(line: seq<Byte>) {
    forall i :: 0 <= i < |line| ==> IsSpace(line[i])
  }

  /** Where the first newline is, or the length. */
  function FirstNewline(s: seq<Byte>): (i: nat)
    ensures i <= |s| && NEWLINE !in s[..i] && (i < |s| ==> s[i] == NEWLINE)
  {
    if s == [] || s[0] == NEWLINE then 0 else 1 + FirstNewline(s[1..])
  }

  function ParseLine(parse: Parser, line: seq<Byte>): Item {
    match parse(line)
    case Success(p) => Success(p)
    case Failure(e) => Failure(Line(e))
  }

  predicate Terminal(item: Item) {
    item.Failure? || item.value.isSuccess
  }

  /** What the bytes after the last newline give, once the connection is at its end or broken. */
  function EndItem(parse: Parser, rest: seq<Byte>, broken: bool): Item {
    if broken then Failure(Http)
    else if Blank(rest) then Failure(Incomplete)
    else
      var item := ParseLine(parse, rest);
      if Terminal(item) then item else Failure(Incomplete)
  }

  /** The items of a connection that delivers `bytes` and then ends, or breaks. */
  function Items(parse: Parser, bytes: seq<Byte>, broken: bool): seq<Item>
    decreases |bytes|
  {
    var i := FirstNewline(bytes);
    if i == |bytes| then [EndItem(parse, bytes, broken)]
    else
      var line, rest := bytes[..i + 1], bytes[i + 1..];
      if Blank(line) then Items(parse, rest, broken)
      else
        var item := ParseLine(parse, line);
        if Terminal(item) then [item] else [item] + Items(parse, rest, broken)
  }

  /** The bytes that arrive before the connection ends or breaks. */
  function Bytes(chunks: seq<Chunk>): seq<Byte> {
    if chunks == [] || chunks[0].Broken? then [] else chunks[0].bytes + Bytes(chunks[1..])
  }

  predicate Breaks(chunks: seq<Chunk>) {
    chunks != [] && (chunks[0].Broken? || Breaks(chunks[1..]))
  }

  // ---------------------------------------------------------------- the reader

  class LineReader {
    const parse: Parser
    /** What the connection still delivers. */
    var chunks: seq<Chunk>
    var buf: seq<Byte>
    var finished: bool

    constructor (parse: Parser, chunks: seq<Chunk>)
      ensures this.parse == parse && Left() == Items(parse, Bytes(chunks), Breaks(chunks))
    {
      this.parse, this.chunks, this.buf, this.finished := parse, chunks, [], false;
      new;
      assert [] + Bytes(chunks) == Bytes(chunks);
    }

    /** The items still to come. */
    ghost function Left(): seq<Item>
      reads this
    {
      if finished then [] else Items(parse, buf + Bytes(chunks), Breaks(chunks))
    }

    /** The stream's next item. */
    method Next() returns (item: Option<Item>)
      modifies this
      ensures old(Left()) == [] ==> item == None && Left() == []
      ensures old(Left()) != [] ==> item == Some(old(Left())[0]) && Left() == old(Left())[1..]
      ensures finished || |Left()| < |old(Left())|
    {
      while true
        invariant Left() == old(Left())
        decreases |chunks|, |buf|
      {
        if finished { return None; }
        var i := FirstNewline(buf);
        LineFirst(parse, buf, Bytes(chunks), Breaks(chunks));
        if i < |buf| {
          var line := buf[..i + 1];
          buf := buf[i + 1..];
          if !Blank(line) {
            var one := ParseLine(parse, line);
            finished := Terminal(one);
            return Some(one);
          }
        } else if chunks == [] {
          finished := true;
          assert buf + [] == buf;
          if !Blank(buf) {
            var line := buf;
            buf := [];
            var one := ParseLine(parse, line);
            return Some(if Terminal(one) then one else Failure(Incomplete));
          }
          return Some(Failure(Incomplete));
        } else if chunks[0].Broken? {
          finished := true;
          assert buf + [] == buf;
          return Some(Failure(Http));
        } else {
          assert buf + (chunks[0].bytes + Bytes(chunks[1..])) == buf + chunks[0].bytes + Bytes(chunks[1..]);
          buf, chunks := buf + chunks[0].bytes, chunks[1..];
        }
      }
    }
  }

  lemma CutInFront(a: seq<Byte>, b: seq<Byte>, n: nat)
    requires n <= |a|
    ensures (a + b)[..n] == a[..n] && (a + b)[n..] == a[n..] + b
  {
  }

  /** A line that is complete in the buffer is the first line whatever follows. */
  lemma LineFirst(parse: Parser, buf: seq<Byte>, more: seq<Byte>, broken: bool)
    ensures
      var i := FirstNewline(buf);
      i < |buf| ==>
        var line, rest := buf[..i + 1], buf[i + 1..] + more;
        Items(parse, buf + more, broken) ==
        if Blank(line) then Items(parse, rest, broken)
        else if Terminal(ParseLine(parse, line)) then [ParseLine(parse, line)]
        else [ParseLine(parse, line)] + Items(parse, rest, broken)
  {
    var i := FirstNewline(buf);
    if i < |buf| {
      hide FirstNewline, Blank, Terminal, ParseLine;
      NewlineKept(buf, more);
      CutInFront(buf, more, i + 1);
    }
  }

  lemma {:induction false} NewlineKept(buf: seq<Byte>, more: seq<Byte>)
    requires FirstNewline(buf) < |buf|
    ensures FirstNewline(buf + more) == FirstNewline(buf)
  {
    if buf[0] != NEWLINE {
      NewlineKept(buf[1..], more);
      assert (buf + more)[1..] == buf[1..] + more;
    }
  }

  /** Every item of a connection, one after the other, until the stream ends. */
  method Collect(parse: Parser, chunks: seq<Chunk>) returns (items: seq<Item>)
    ensures items == Items(parse, Bytes(chunks), Breaks(chunks))
  {
    hide Items, Bytes, Breaks;
    var r := new LineReader(parse, chunks);
    ghost var all := r.Left();
    items := [];
    var next := r.Next();
    while next.Some?
      invariant items + (if next.Some? then [next.value] + r.Left() else []) == all
      decreases next.Some?, |r.Left()|
    {
      ghost var done, left := items, r.Left();
      items := items + [next.value];
      Associative(done, [next.value], left);
      next := r.Next();
    }
  }

  // ---------------------------------------------------------------- what a run is

  /** Every run is not empty: its last item is terminal, and no other is. */
  lemma {:induction false} OneTerminalItem(parse: Parser, bytes: seq<Byte>, broken: bool)
    ensures
      var items := Items(parse, bytes, broken);
      items != [] && forall k :: 0 <= k < |items| ==> (Terminal(items[k]) <==> k == |items| - 1)
    decreases |bytes|
  {
    var i := FirstNewline(bytes);
    if i < |bytes| {
      OneTerminalItem(parse, bytes[i + 1..], broken);
    }
  }

  /** A connection that delivers these pieces, and then ends or breaks. */
  function Delivered(pieces: seq<seq<Byte>>, broken: bool): seq<Chunk> {
    if pieces != [] then [Data(pieces[0])] + Delivered(pieces[1..], broken)
    else if broken then [Broken]
    else []
  }

  lemma {:induction false} DeliveredBytes(pieces: seq<seq<Byte>>, broken: bool)
    ensures Bytes(Delivered(pieces, broken)) == Joined(pieces) && Breaks(Delivered(pieces, broken)) == broken
  {
    if pieces != [] {
      DeliveredBytes(pieces[1..], broken);
      assert Delivered(pieces, broken)[1..] == Delivered(pieces[1..], broken);
    }
  }

  /** Two ways of cutting the same bytes into chunks give the same items. */
  lemma ChunksDoNotMatter(parse: Parser, a: seq<seq<Byte>>, b: seq<seq<Byte>>, broken: bool)
    requires Joined(a) == Joined(b)
    ensures
      var (x, y) := (Delivered(a, broken), Delivered(b, broken));
      Items(parse, Bytes(x), Breaks(x)) == Items(parse, Bytes(y), Breaks(y))
  {
    DeliveredBytes(a, broken);
    DeliveredBytes(b, broken);
  }

  // ---------------------------------------------------------------- lines

  /** The complete lines, newlines included. */
  function Lines(bytes: seq<Byte>): seq<seq<Byte>>
    decreases |bytes|
  {
    var i := FirstNewline(bytes);
    if i == |bytes| then [] else [bytes[..i + 1]] + Lines(bytes[i + 1..])
  }

  /** What follows the last newline. */
  function Tail(bytes: seq<Byte>): seq<Byte>
    decreases |bytes|
  {
    var i := FirstNewline(bytes);
    if i == |bytes| then bytes else Tail(bytes[i + 1..])
  }

  /** The lines that are not blank, parsed. */
  function Parses(parse: Parser, lines: seq<seq<Byte>>): seq<Item> {
    if lines == [] then []
    else if Blank(lines[0]) then Parses(parse, lines[1..])
    else [ParseLine(parse, lines[0])] + Parses(parse, lines[1..])
  }

  /** Items up to the first terminal one; `end` where there is none. */
  function Through(items: seq<Item>, end: Item): seq<Item> {
    if items == [] then [end]
    else if Terminal(items[0]) then [items[0]]
    else [items[0]] + Through(items[1..], end)
  }

  /** A run is the parses of the complete lines that are not blank, up to the first terminal one, or else the end item. */
  lemma {:induction false} ItemsAreLines(parse: Parser, bytes: seq<Byte>, broken: bool)
    ensures Items(parse, bytes, broken) == Through(Parses(parse, Lines(bytes)), EndItem(parse, Tail(bytes), broken))
    decreases |bytes|
  {
    hide Blank, EndItem;
    var i := FirstNewline(bytes);
    if i < |bytes| {
      ItemsAreLines(parse, bytes[i + 1..], broken);
      assert Lines(bytes)[1..] == Lines(bytes[i + 1..]);
    }
  }

  /** A line ends at its only newline. */
  predicate EndsOnce(line: seq<Byte>) {
    line != [] && line[|line| - 1] == NEWLINE && NEWLINE !in line[..|line| - 1]
  }

  predicate AllEndOnce(lines: seq<seq<Byte>>) {
    lines == [] || (EndsOnce(lines[0]) && AllEndOnce(lines[1..]))
  }

  /** The lines and the tail are the bytes; a line ends at its only newline, the tail has none. */
  lemma {:induction false} LinesAreBytes(bytes: seq<Byte>)
    ensures Joined(Lines(bytes)) + Tail(bytes) == bytes && NEWLINE !in Tail(bytes) && AllEndOnce(Lines(bytes))
    decreases |bytes|
  {
    hide EndsOnce;
    var i := FirstNewline(bytes);
    if i == |bytes| {
      assert bytes[..i] == bytes;
    } else {
      hide *;
      var line, rest := bytes[..i + 1], bytes[i + 1..];
      LinesAreBytes(rest);
      FirstLineEnds(bytes);
      FirstLineSplit(bytes);
      LinesCons(line, Lines(rest));
      Associative(line, Joined(Lines(rest)), Tail(rest));
    }
  }

  lemma FirstLineSplit(bytes: seq<Byte>)
    requires FirstNewline(bytes) < |bytes|
    ensures
      var i := FirstNewline(bytes);
      bytes == bytes[..i + 1] + bytes[i + 1..] && Tail(bytes) == Tail(bytes[i + 1..]) &&
      Lines(bytes) == [bytes[..i + 1]] + Lines(bytes[i + 1..])
  {
    hide FirstNewline;
  }

  lemma LinesCons(line: seq<Byte>, lines: seq<seq<Byte>>)
    ensures Joined([line] + lines) == line + Joined(lines)
    ensures AllEndOnce([line] + lines) <==> EndsOnce(line) && AllEndOnce(lines)
  {
    assert ([line] + lines)[1..] == lines;
  }

  lemma FirstLineEnds(bytes: seq<Byte>)
    requires FirstNewline(bytes) < |bytes|
    ensures EndsOnce(bytes[..FirstNewline(bytes) + 1])
  {
    var i := FirstNewline(bytes);
    assert bytes[..i + 1][..i] == bytes[..i];
  }

  // ---------------------------------------------------------------- draining

  /** The progress lines among the items. */
  function Reported(items: seq<Item>): seq<Progress> {
    if items == [] then []
    else if items[0].Success? then [items[0].value] + Reported(items[1..])
    else Reported(items[1..])
  }

  function Last(items: seq<Item>): Item
    requires items != []
  {
    items[|items| - 1]
  }

  /**
   `drain`: reads a run, reporting every progress line; it succeeds exactly when the run's terminal item is the success line,
   and fails with that item's error otherwise.
   */
  method Drain(parse: Parser, chunks: seq<Chunk>) returns (r: Result<(), ClientError>, reported: seq<Progress>)
    ensures
      var items := Items(parse, Bytes(chunks), Breaks(chunks));
      items != [] && reported == Reported(items) &&
      r == (match Last(items) case Success(_) => Success(()) case Failure(e) => Failure(e))
  {
    hide Items, Bytes, Breaks, Reported;
    var reader := new LineReader(parse, chunks);
    ghost var items := reader.Left();
    NoneReported(items);
    OneTerminalItem(parse, Bytes(chunks), Breaks(chunks));
    reported := [];
    var next := reader.Next();
    ghost var k: nat := 0;
    while next.Some?
      invariant k < |items| && next == Some(items[k]) && reader.Left() == items[k + 1..]
      invariant reported == Reported(items[..k])
      decreases |items| - k
    {
      ReportedSnoc(items, k);
      if next.value.Failure? {
        assert items[..k + 1] == items;
        return Failure(next.value.error), reported;
      }
      reported := reported + [next.value.value];
      if next.value.value.isSuccess {
        assert items[..k + 1] == items;
        return Success(()), reported;
      }
      next := reader.Next();
      k := k + 1;
    }
    return Success(()), reported;
  }

  lemma NoneReported(items: seq<Item>)
    ensures Reported(items[..0]) == []
  {
  }

  lemma {:induction false} ReportedSnoc(items: seq<Item>, k: nat)
    requires k < |items|
    ensures Reported(items[..k + 1]) == if items[k].Success? then Reported(items[..k]) + [items[k].value] else Reported(items[..k])
  {
    if k == 0 {
      assert items[..1] == [items[0]] && [items[0]][1..] == [];
    } else {
      ReportedSnoc(items[1..], k - 1);
      assert items[..k + 1][1..] == items[1..][..k] && items[..k][1..] == items[1..][..k - 1];
    }
  }
}
