/** What a `laya-markers-v1` row says, token by token (crates/ollaya-decision/src/layout.rs). */
module LayaRows {
  import opened TokenIds
  import opened Wrappers
  import opened Arithmetic
  import opened Collections
  import opened Rows
  import opened Substrings
  import opened Laya

  /** How many tokens each option takes, its mask included, by how many its text has. */
  function Sizes(headMax: nat, counts: seq<nat>): (r: seq<nat>)
    ensures |r| == |counts| && forall j :: 0 <= j < |r| ==> r[j] <= 1 + counts[j]
  {
    var wanted: seq<nat> := seq(|counts|, j requires 0 <= j < |counts| => 1 + if counts[j] < 48 then counts[j] else 48);
    if headMax - SumTo(wanted, |wanted|) >= 16 then wanted
    else
      var share := if headMax < 16 || counts == [] then 0 else (headMax - 16) / |counts|;
      var per := if share < 4 then 4 else share;
      seq(|counts|, j requires 0 <= j < |counts| => if wanted[j] < per then wanted[j] else per)
  }

  function Counts(texts: seq<seq<Token>>): (r: seq<nat>)
    ensures |r| == |texts|
  {
    seq(|texts|, j requires 0 <= j < |texts| => |texts[j]|)
  }

  /** How many tokens of the instructions stay. */
  function HeadSize(headMax: nat, head: nat, taken: nat): nat {
    var room := if headMax - taken < 8 then 8 else headMax - taken;
    if head < room then head else room
  }

  /** How many tokens of the state stay, of a row whose other tokens are `others`. */
  function StateSize(maxLen: nat, others: nat, state: nat): nat {
    var room := if maxLen < others then 0 else maxLen - others;
    if state < room then state else room
  }

  /**
   [CLS] instructions [SEP] ([MASK] option)* [SEP] state [SEP], each part at its place and cut as far as said, all cut at
   `max_len`.
   */
  predicate Says(l: Layout, row: Encoded, head: seq<Token>, texts: seq<seq<Token>>, state: seq<Token>) {
    var sizes := Sizes(l.headMaxLen, Counts(texts));
    var taken := SumTo(sizes, |sizes|);
    var h := HeadSize(l.headMaxLen, |head|, taken);
    var kept := StateSize(l.maxLen, 4 + h + taken, |state|);
    var full := 4 + h + taken + kept;
    |row.ids| == (if full < l.maxLen then full else l.maxLen) && (row.stateTruncated <==> kept < |state|) &&
    Lies(row.ids, 0, [l.special.cls]) && Lies(row.ids, 1, head[..h]) && Lies(row.ids, 1 + h, [l.special.sep]) &&
    |row.markers| == |texts| &&
    (forall j :: 0 <= j < |texts| ==>
       row.markers[j] == 2 + h + SumTo(sizes, j) && Lies(row.ids, row.markers[j], ([l.special.mask] + texts[j])[..sizes[j]])) &&
    Lies(row.ids, 2 + h + taken, [l.special.sep]) && Lies(row.ids, 3 + h + taken, state[..kept]) &&
    Lies(row.ids, 3 + h + taken + kept, [l.special.sep])
  }

  /** The row has its last option's mask. */
  predicate HasRoom(l: Layout, head: nat, counts: seq<nat>) {
    counts == [] ||
    var sizes := Sizes(l.headMaxLen, counts);
    2 + HeadSize(l.headMaxLen, head, SumTo(sizes, |sizes|)) + SumTo(sizes, |sizes| - 1) < l.maxLen
  }

  /** The tokens of the option texts, each after a space. */
  ghost predicate Tokenize(l: Layout, enc: Encoder, options: seq<string>, texts: seq<seq<Token>>) {
    |texts| == |options| &&
    forall j :: 0 <= j < |options| ==> enc(" " + Replace(options[j], l.special.maskText)) == Some(texts[j])
  }

  lemma {:induction false} OptionsTokens(l: Layout, enc: Encoder, options: seq<string>, texts: seq<seq<Token>>, n: nat)
    requires Tokenize(l, enc, options, texts) && n <= |options|
    ensures OptionsOf(l, enc, options, n).Some?
    ensures forall j :: 0 <= j < n ==>
              OptionsOf(l, enc, options, n).value[j] == [l.special.mask] + texts[j][..if |texts[j]| < 48 then |texts[j]| else 48]
  {
    if n > 0 {
      OptionsTokens(l, enc, options, texts, n - 1);
    }
  }

  lemma SizesAreShared(headMax: nat, counts: seq<nat>)
    ensures Sizes(headMax, counts) == Shared(headMax, counts)
  {
    var wanted: seq<nat> := seq(|counts|, j requires 0 <= j < |counts| => 1 + if counts[j] < 48 then counts[j] else 48);
    assert wanted == Wanted(counts);
    if counts != [] {
      var share := if headMax < 16 then 0 else (headMax - 16) / |counts|;
      assert Per(headMax, |counts|) == if share < 4 then 4 else share;
    }
  }

  /** Each option within the budget is the start of what it was. */
  lemma BudgetedPrefix(headMax: nat, opts: seq<seq<Token>>, j: nat)
    requires j < |opts|
    ensures Budgeted(headMax, opts)[j] <= opts[j]
  {
    hide Per;
  }

  lemma BudgetedSizes(headMax: nat, mask: Token, opts: seq<seq<Token>>, texts: seq<seq<Token>>)
    requires |opts| == |texts|
    requires forall j :: 0 <= j < |texts| ==> opts[j] == [mask] + texts[j][..if |texts[j]| < 48 then |texts[j]| else 48]
    ensures
      var kept, sizes := Budgeted(headMax, opts), Sizes(headMax, Counts(texts));
      Lengths(kept, sizes) && forall j :: 0 <= j < |texts| ==> kept[j] == ([mask] + texts[j])[..sizes[j]]
  {
    SizesAreShared(headMax, Counts(texts));
    assert Lengths(opts, Wanted(Counts(texts)));
    hide Shared, Sizes, Wanted, Budgeted;
    BudgetLengths(headMax, opts, Counts(texts));
    forall j | 0 <= j < |texts| ensures Budgeted(headMax, opts)[j] == ([mask] + texts[j])[..Sizes(headMax, Counts(texts))[j]] {
      BudgetedPrefix(headMax, opts, j);
      assert opts[j] <= [mask] + texts[j];
    }
  }

  /** The row of given instructions and options says what they are. */
  lemma RowSays(l: Layout, head: seq<Token>, opts: seq<seq<Token>>, texts: seq<seq<Token>>, state: seq<Token>)
    requires Lengths(opts, Sizes(l.headMaxLen, Counts(texts)))
    requires forall j :: 0 <= j < |texts| ==> opts[j] == ([l.special.mask] + texts[j])[..|opts[j]|]
    ensures
      var r := RowOf(l, HeadCut(l.headMaxLen, head, opts), opts, state);
      if HasRoom(l, |head|, Counts(texts)) then r.Success? && Says(l, r.value, head, texts, state)
      else r == Failure(TooManyOptions(|texts|, l.headMaxLen))
  {
    hide Sizes, IdsOf, Lies, Flat, SumTo;
    var sizes := Sizes(l.headMaxLen, Counts(texts));
    var cut := HeadCut(l.headMaxLen, head, opts);
    forall j | 0 <= j <= |opts| ensures |Flat(opts, j)| == SumTo(sizes, j) {
      FlatLength(opts, sizes, j);
    }
    var r := RowOf(l, cut, opts, state);
    if r.Success? {
      hide Body;
      RowLies(l, cut, opts, state);
      var row := r.value;
      var taken := SumTo(sizes, |sizes|);
      var h := HeadSize(l.headMaxLen, |head|, taken);
      var kept := StateSize(l.maxLen, 4 + h + taken, |state|);
      assert cut == head[..h] && |cut| == h;
      assert Take(state, Room(l, Body(l, cut, opts))) == state[..kept];
      assert row.stateTruncated <==> kept < |state|;
      forall j | 0 <= j < |texts|
        ensures row.markers[j] == 2 + h + SumTo(sizes, j) && Lies(row.ids, row.markers[j], ([l.special.mask] + texts[j])[..sizes[j]])
      {
        assert |opts[j]| == sizes[j] && Lies(row.ids, 2 + h + |Flat(opts, j)|, opts[j]);
      }
    }
  }

  lemma RowLies(l: Layout, head: seq<Token>, opts: seq<seq<Token>>, state: seq<Token>)
    requires RowOf(l, head, opts, state).Success?
    ensures
      var row, body := RowOf(l, head, opts, state).value, Body(l, head, opts);
      var kept := Take(state, Room(l, body));
      |body| == 3 + |head| + |All(opts)| && |row.ids| == Min(|body| + |kept| + 1, l.maxLen) &&
      Lies(row.ids, 0, [l.special.cls]) && Lies(row.ids, 1, head) && Lies(row.ids, 1 + |head|, [l.special.sep]) &&
      (forall j :: 0 <= j < |opts| ==> Lies(row.ids, 2 + |head| + |Flat(opts, j)|, opts[j])) &&
      Lies(row.ids, |body| - 1, [l.special.sep]) && Lies(row.ids, |body|, kept) && Lies(row.ids, |body| + |kept|, [l.special.sep])
  {
    hide Lies;
    var ids, body := RowOf(l, head, opts, state).value.ids, Body(l, head, opts);
    var kept := Take(state, Room(l, body));
    PartsLie(ids, [l.special.cls], head, [l.special.sep], All(opts), kept);
    PiecesLie(ids, Front(l, head), opts, [l.special.sep], kept);
  }

  lemma PiecesLie(ids: seq<Token>, front: seq<Token>, opts: seq<seq<Token>>, sep: seq<Token>, kept: seq<Token>)
    requires ids <= front + All(opts) + sep + kept + sep
    ensures forall j :: 0 <= j < |opts| ==> Lies(ids, |front| + |Flat(opts, j)|, opts[j])
  {
    hide *;
    Associative(front + All(opts), sep, kept);
    Associative(front + All(opts), sep + kept, sep);
    forall j | 0 <= j < |opts| ensures Lies(ids, |front| + |Flat(opts, j)|, opts[j]) {
      PieceLies(ids, front, opts, sep + kept + sep, j);
    }
  }

  lemma PartsLie(ids: seq<Token>, cls: seq<Token>, head: seq<Token>, sep: seq<Token>, all: seq<Token>, kept: seq<Token>)
    requires |cls| == |sep| == 1 && ids <= cls + head + sep + all + sep + kept + sep
    ensures Lies(ids, 0, cls) && Lies(ids, 1, head) && Lies(ids, 1 + |head|, sep) && Lies(ids, 2 + |head| + |all|, sep)
    ensures Lies(ids, 3 + |head| + |all|, kept) && Lies(ids, 3 + |head| + |all| + |kept|, sep)
  {
    hide Lies;
    var whole := cls + head + sep + all + sep + kept + sep;
    assert whole == [] + cls + (head + sep + all + sep + kept + sep);
    LiesInPrefix(ids, [], cls, head + sep + all + sep + kept + sep);
    assert whole == cls + head + (sep + all + sep + kept + sep);
    LiesInPrefix(ids, cls, head, sep + all + sep + kept + sep);
    assert whole == (cls + head) + sep + (all + sep + kept + sep);
    LiesInPrefix(ids, cls + head, sep, all + sep + kept + sep);
    assert whole == (cls + head + sep + all) + sep + (kept + sep);
    LiesInPrefix(ids, cls + head + sep + all, sep, kept + sep);
    LiesInPrefix(ids, cls + head + sep + all + sep, kept, sep);
    assert whole == (cls + head + sep + all + sep + kept) + sep + [];
    LiesInPrefix(ids, cls + head + sep + all + sep + kept, sep, []);
  }

  /**
   What `encode` returns, from the texts it tokenizes: the type, the word "question", and the instructions; and each option
   after a space. The row says all of it, or there is no room for the last option's mask.
   */
  lemma EncodeSays(l: Layout, enc: Encoder, state: seq<Token>, q: Question, head: seq<Token>, texts: seq<seq<Token>>)
    requires enc(q.qtype + " question: " + Replace(q.instructions, l.special.maskText)) == Some(head)
    requires Tokenize(l, enc, q.options, texts)
    ensures
      var r := EncodeOf(l, enc, state, q);
      if HasRoom(l, |head|, Counts(texts)) then r.Success? && Says(l, r.value, head, texts, state)
      else r == Failure(TooManyOptions(|q.options|, l.headMaxLen))
  {
    OptionsTokens(l, enc, q.options, texts, |q.options|);
    var opts := OptionsOf(l, enc, q.options, |q.options|).value;
    BudgetedSizes(l.headMaxLen, l.special.mask, opts, texts);
    EncodesTo(l, enc, state, q);
    hide *;
    RowSays(l, head, Budgeted(l.headMaxLen, opts), texts, state);
  }

  /** And it fails when one of these texts cannot be tokenized. */
  lemma EncodeFails(l: Layout, enc: Encoder, state: seq<Token>, q: Question)
    requires enc(q.qtype + " question: " + Replace(q.instructions, l.special.maskText)).None? ||
             exists j :: 0 <= j < |q.options| && enc(" " + Replace(q.options[j], l.special.maskText)).None?
    ensures EncodeOf(l, enc, state, q) == Failure(Tokenizer)
  {
    if j :| 0 <= j < |q.options| && enc(" " + Replace(q.options[j], l.special.maskText)).None? {
      OptionsFail(l, enc, q.options, j + 1);
    }
  }

  /** The state is tokenized as it is, but for the mask's text; text without it is read as it is. */
  lemma TextsAsTheyAre(l: Layout, enc: Encoder, q: Question, text: string)
    requires l.special.maskText != []
    requires NoneBefore(q.instructions, l.special.maskText, |q.instructions|) && NoneBefore(text, l.special.maskText, |text|)
    requires forall j :: 0 <= j < |q.options| ==> NoneBefore(q.options[j], l.special.maskText, |q.options[j]|)
    ensures EncodeState(l, enc, text) == enc(text)
    ensures Replace(q.instructions, l.special.maskText) == q.instructions
    ensures forall j :: 0 <= j < |q.options| ==> Replace(q.options[j], l.special.maskText) == q.options[j]
  {
    PlainKept(text, l.special.maskText);
    PlainKept(q.instructions, l.special.maskText);
    forall j | 0 <= j < |q.options| ensures Replace(q.options[j], l.special.maskText) == q.options[j] {
      PlainKept(q.options[j], l.special.maskText);
    }
  }
}
