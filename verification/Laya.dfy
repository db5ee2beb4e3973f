/** `laya-markers-v1` (crates/ollaya-decision/src/layout.rs): one question and the state as a token row with a mask token per option. */
module Laya {
  import opened TokenIds
  import opened Wrappers
  import opened Arithmetic
  import opened Rows
  import opened Substrings

  const MAX_OPTION_TOKENS: nat := 48
  const MIN_HEAD_ROOM: nat := 16
  const MIN_INSTRUCTION_TOKENS: nat := 8
  const MIN_TOKENS_PER_OPTION: nat := 4

  datatype Special = Special(cls: Token, sep: Token, mask: Token, maskText: string)

  datatype Layout = Layout(maxLen: nat, headMaxLen: nat, special: Special)

  /** A question: its type's name, its instructions and its rendered options. */
  datatype Question = Question(qtype: string, instructions: string, options: seq<string>)

  datatype Encoded = Encoded(ids: seq<Token>, markers: seq<nat>, stateTruncated: bool)

  datatype Error = Tokenizer | TooManyOptions(options: nat, headMaxLen: nat)

  // ---------------------------------------------------------------- texts

  function HeadText(l: Layout, q: Question): string {
    q.qtype + " question: " + Replace(q.instructions, l.special.maskText)
  }

  function OptionText(l: Layout, option: string): string {
    " " + Replace(option, l.special.maskText)
  }

  /** `encode_state`. */
  function EncodeState(l: Layout, enc: Encoder, text: string): Option<seq<Token>> {
    enc(Replace(text, l.special.maskText))
  }

  /** The first `n` options: the mask token, then at most 48 tokens of the text. */
  function OptionsOf(l: Layout, enc: Encoder, options: seq<string>, n: nat): (r: Option<seq<seq<Token>>>)
    requires n <= |options|
    ensures r.Some? ==> |r.value| == n
  {
    if n == 0 then Some([])
    else
      var rest :- OptionsOf(l, enc, options, n - 1);
      var tokens :- enc(OptionText(l, options[n - 1]));
      Some(rest + [[l.special.mask] + Take(tokens, MAX_OPTION_TOKENS)])
  }

  // ---------------------------------------------------------------- budgets

  /** The tokens each option keeps when all together take too much of the head. */
  function Per(headMax: nat, k: nat): (per: nat)
    ensures per >= MIN_TOKENS_PER_OPTION
  {
    var share := Max(headMax - MIN_HEAD_ROOM, 0) / Max(k, 1);
    Max(share, MIN_TOKENS_PER_OPTION)
  }

  function CutAll(opts: seq<seq<Token>>, per: nat): (r: seq<seq<Token>>)
    ensures |r| == |opts|
  {
    seq(|opts|, i requires 0 <= i < |opts| => Take(opts[i], per))
  }

  /** The options within their budget. */
  function Budgeted(headMax: nat, opts: seq<seq<Token>>): (r: seq<seq<Token>>)
    ensures |r| == |opts|
  {
    if headMax - |All(opts)| < MIN_HEAD_ROOM then CutAll(opts, Per(headMax, |opts|)) else opts
  }

  /** The instructions within what the options leave. */
  function HeadCut(headMax: nat, head: seq<Token>, opts: seq<seq<Token>>): seq<Token> {
    Take(head, Max(headMax - |All(opts)|, MIN_INSTRUCTION_TOKENS))
  }

  // ---------------------------------------------------------------- the row

  function Front(l: Layout, head: seq<Token>): seq<Token> {
    [l.special.cls] + head + [l.special.sep]
  }

  /** Everything before the state. */
  function Body(l: Layout, head: seq<Token>, opts: seq<seq<Token>>): seq<Token> {
    Front(l, head) + All(opts) + [l.special.sep]
  }

  /** Where option `j` starts. */
  function Marker(l: Layout, head: seq<Token>, opts: seq<seq<Token>>, j: nat): nat
    requires j < |opts|
  {
    |Front(l, head)| + |Flat(opts, j)|
  }

  function Markers(l: Layout, head: seq<Token>, opts: seq<seq<Token>>): (r: seq<nat>)
    ensures |r| == |opts|
  {
    seq(|opts|, j requires 0 <= j < |opts| => Marker(l, head, opts, j))
  }

  function Room(l: Layout, body: seq<Token>): nat {
    Max(l.maxLen - (|body| + 1), 0)
  }

  function IdsOf(l: Layout, body: seq<Token>, state: seq<Token>): seq<Token> {
    Take(body + Take(state, Room(l, body)) + [l.special.sep], l.maxLen)
  }

  /** The row of instructions and options that are already within their budgets. */
  function RowOf(l: Layout, head: seq<Token>, opts: seq<seq<Token>>, state: seq<Token>): Result<Encoded, Error> {
    if opts != [] && Marker(l, head, opts, |opts| - 1) >= l.maxLen then Failure(TooManyOptions(|opts|, l.headMaxLen))
    else
      var body := Body(l, head, opts);
      Success(Encoded(IdsOf(l, body, state), Markers(l, head, opts), Room(l, body) < |state|))
  }

  function EncodeOf(l: Layout, enc: Encoder, state: seq<Token>, q: Question): Result<Encoded, Error> {
    match enc(HeadText(l, q))
    case None => Failure(Tokenizer)
    case Some(head) =>
      match OptionsOf(l, enc, q.options, |q.options|)
      case None => Failure(Tokenizer)
      case Some(opts) =>
        var kept := Budgeted(l.headMaxLen, opts);
        RowOf(l, HeadCut(l.headMaxLen, head, kept), kept, state)
  }

  // ---------------------------------------------------------------- the code

  method EncodeOptions(l: Layout, enc: Encoder, options: seq<string>) returns (r: Option<seq<seq<Token>>>)
    ensures r == OptionsOf(l, enc, options, |options|)
  {
    var optIds: seq<seq<Token>> := [];
    for i := 0 to |options|
      invariant OptionsOf(l, enc, options, i) == Some(optIds)
    {
      var ids := [l.special.mask];
      var toks := enc(OptionText(l, options[i]));
      if toks.None? {
        OptionsFail(l, enc, options, i + 1);
        return None;
      }
      ids := ids + Take(toks.value, MAX_OPTION_TOKENS);
      optIds := optIds + [ids];
    }
    return Some(optIds);
  }

  lemma {:induction false} OptionsFail(l: Layout, enc: Encoder, options: seq<string>, i: nat)
    requires i <= |options| && OptionsOf(l, enc, options, i).None?
    ensures OptionsOf(l, enc, options, |options|).None?
    decreases |options| - i
  {
    if i < |options| {
      OptionsFail(l, enc, options, i + 1);
    }
  }

  method TotalLength(opts: seq<seq<Token>>) returns (n: nat)
    ensures n == |All(opts)|
  {
    n := 0;
    for i := 0 to |opts|
      invariant n == |Flat(opts, i)|
    {
      n := n + |opts[i]|;
    }
  }

  method ApplyBudget(headMax: nat, opts: seq<seq<Token>>) returns (optIds: seq<seq<Token>>, optBudget: int)
    ensures optIds == Budgeted(headMax, opts) && optBudget == headMax - |All(optIds)|
  {
    optIds := opts;
    var total := TotalLength(optIds);
    optBudget := headMax - total;
    if optBudget < MIN_HEAD_ROOM {
      var per := Max(Max(headMax - MIN_HEAD_ROOM, 0) / Max(|optIds|, 1), MIN_TOKENS_PER_OPTION);
      for i := 0 to |opts|
        invariant |optIds| == |opts|
        invariant forall k :: 0 <= k < |opts| ==> optIds[k] == if k < i then Take(opts[k], per) else opts[k]
      {
        optIds := optIds[i := Take(optIds[i], per)];
      }
      assert optIds == CutAll(opts, Per(headMax, |opts|));
      total := TotalLength(optIds);
      optBudget := headMax - total;
    }
  }

  /** The row, built from its pieces. */
  method Arrange(l: Layout, head: seq<Token>, opts: seq<seq<Token>>, state: seq<Token>) returns (r: Result<Encoded, Error>)
    ensures r == RowOf(l, head, opts, state)
  {
    var ids := [l.special.cls];
    ids := ids + head;
    ids := ids + [l.special.sep];
    var markers: seq<nat> := [];
    for i := 0 to |opts|
      invariant ids == Front(l, head) + Flat(opts, i)
      invariant |markers| == i && forall k :: 0 <= k < i ==> markers[k] == Marker(l, head, opts, k)
    {
      markers := markers + [|ids|];
      FlatStep(Front(l, head), opts, i);
      ids := ids + opts[i];
    }
    ids := ids + [l.special.sep];
    assert markers == Markers(l, head, opts);
    ghost var body := ids;
    assert body == Body(l, head, opts);
    var room := Max(l.maxLen - (|ids| + 1), 0);
    ids := ids + Take(state, room);
    ids := ids + [l.special.sep];
    ids := Take(ids, l.maxLen);
    assert ids == IdsOf(l, body, state);
    var retained: seq<nat> := [];
    for i := 0 to |markers|
      invariant forall k :: 0 <= k < i ==> markers[k] == Marker(l, head, opts, k)
      invariant if i > 0 && markers[i - 1] >= l.maxLen then |retained| < i else retained == markers[..i]
    {
      if i > 0 { MarkersIncrease(l, head, opts, i - 1, i); }
      if markers[i] < l.maxLen {
        retained := retained + [markers[i]];
      }
    }
    assert markers[..|markers|] == markers;
    if |retained| != |opts| {
      return Failure(TooManyOptions(|opts|, l.headMaxLen));
    }
    return Success(Encoded(ids, retained, room < |state|));
  }

  method Encode(l: Layout, enc: Encoder, state: seq<Token>, q: Question) returns (r: Result<Encoded, Error>)
    ensures r == EncodeOf(l, enc, state, q)
  {
    var headIds := enc(HeadText(l, q));
    if headIds.None? { return Failure(Tokenizer); }
    var options := EncodeOptions(l, enc, q.options);
    if options.None? { return Failure(Tokenizer); }
    var optIds, optBudget := ApplyBudget(l.headMaxLen, options.value);
    var head := Take(headIds.value, Max(optBudget, MIN_INSTRUCTION_TOKENS));
    r := Arrange(l, head, optIds, state);
  }

  // ---------------------------------------------------------------- markers

  lemma MarkersIncrease(l: Layout, head: seq<Token>, opts: seq<seq<Token>>, i: nat, j: nat)
    requires i < j < |opts|
    ensures Marker(l, head, opts, i) + |opts[i]| <= Marker(l, head, opts, j)
  {
    FlatPrefix(opts, i + 1, j);
  }

  /** Every option starts with the mask token, within the budget too. */
  predicate AllMasked(mask: Token, opts: seq<seq<Token>>) {
    forall i :: 0 <= i < |opts| ==> opts[i] != [] && opts[i][0] == mask
  }

  lemma {:induction false} OptionsMasked(l: Layout, enc: Encoder, options: seq<string>, n: nat)
    requires n <= |options| && OptionsOf(l, enc, options, n).Some?
    ensures AllMasked(l.special.mask, OptionsOf(l, enc, options, n).value)
  {
    if n > 0 {
      OptionsMasked(l, enc, options, n - 1);
    }
  }

  /** The token at an option's marker is the option's first. */
  lemma MarkerHolds(l: Layout, head: seq<Token>, opts: seq<seq<Token>>, j: nat)
    requires j < |opts| && opts[j] != []
    ensures Marker(l, head, opts, j) < |Body(l, head, opts)| && Body(l, head, opts)[Marker(l, head, opts, j)] == opts[j][0]
  {
    var front, before := Front(l, head), Flat(opts, j);
    FlatPrefix(opts, j + 1, |opts|);
    assert All(opts)[|before|] == Flat(opts, j + 1)[|before|] == opts[j][0];
  }

  /** The options of the row: the question's, within their budget. */
  function OptionsPart(l: Layout, enc: Encoder, q: Question): seq<seq<Token>>
    requires OptionsOf(l, enc, q.options, |q.options|).Some?
  {
    Budgeted(l.headMaxLen, OptionsOf(l, enc, q.options, |q.options|).value)
  }

  /** The instructions of the row: what the options leave of them. */
  function HeadPart(l: Layout, enc: Encoder, q: Question): seq<Token>
    requires enc(HeadText(l, q)).Some? && OptionsOf(l, enc, q.options, |q.options|).Some?
  {
    HeadCut(l.headMaxLen, enc(HeadText(l, q)).value, OptionsPart(l, enc, q))
  }

  /** What `encode` does with its pieces: the budgeted options and the head cut to what they leave. */
  lemma Encodes(l: Layout, enc: Encoder, state: seq<Token>, q: Question) returns (head: seq<Token>, opts: seq<seq<Token>>)
    requires EncodeOf(l, enc, state, q).Success?
    ensures |opts| == |q.options| && AllMasked(l.special.mask, opts)
    ensures EncodeOf(l, enc, state, q) == RowOf(l, head, opts, state)
    ensures enc(HeadText(l, q)).Some? && head <= enc(HeadText(l, q)).value
    ensures OptionsOf(l, enc, q.options, |q.options|).Some?
    ensures opts == Budgeted(l.headMaxLen, OptionsOf(l, enc, q.options, |q.options|).value)
    ensures opts == OptionsPart(l, enc, q) && head == HeadPart(l, enc, q)
  {
    var all := OptionsOf(l, enc, q.options, |q.options|).value;
    OptionsMasked(l, enc, q.options, |q.options|);
    opts := Budgeted(l.headMaxLen, all);
    head := HeadCut(l.headMaxLen, enc(HeadText(l, q)).value, opts);
  }

  /**
   On success: at most `max_len` tokens; one marker per option, in order, each in range and on a mask token; a prefix of the
   state, which is the whole state exactly when it is not reported as cut.
   */
  lemma RowIsSound(l: Layout, enc: Encoder, state: seq<Token>, q: Question)
    requires EncodeOf(l, enc, state, q).Success?
    ensures
      var row := EncodeOf(l, enc, state, q).value;
      Sound(l, row, |q.options|) && enc(HeadText(l, q)).Some? && OptionsOf(l, enc, q.options, |q.options|).Some? &&
      exists kept: nat :: KeepsState(l, row, Body(l, HeadPart(l, enc, q), OptionsPart(l, enc, q)), kept, state)
  {
    hide *;
    var head, opts := Encodes(l, enc, state, q);
    RowOfIsSound(l, head, opts, state);
  }

  predicate Sound(l: Layout, row: Encoded, options: nat) {
    |row.ids| <= l.maxLen && |row.markers| == options &&
    (forall j :: 0 <= j < |row.markers| ==> row.markers[j] < |row.ids| && row.ids[row.markers[j]] == l.special.mask) &&
    forall i, j :: 0 <= i < j < |row.markers| ==> row.markers[i] < row.markers[j]
  }

  lemma RowOfIsSound(l: Layout, head: seq<Token>, opts: seq<seq<Token>>, state: seq<Token>)
    requires RowOf(l, head, opts, state).Success? && AllMasked(l.special.mask, opts)
    ensures var row := RowOf(l, head, opts, state).value;
            Sound(l, row, |opts|) && exists kept: nat :: KeepsState(l, row, Body(l, head, opts), kept, state)
  {
    hide KeepsState;
    var row := RowOf(l, head, opts, state).value;
    var body := Body(l, head, opts);
    forall j | 0 <= j < |opts| ensures row.markers[j] < |row.ids| && row.ids[row.markers[j]] == l.special.mask {
      hide Body, IdsOf;
      MarkerHolds(l, head, opts, j);
      if j < |opts| - 1 { MarkersIncrease(l, head, opts, j, |opts| - 1); }
    }
    forall i, j | 0 <= i < j < |opts| ensures row.markers[i] < row.markers[j] {
      MarkersIncrease(l, head, opts, i, j);
    }
    RowKeepsState(l, body, state);
    assert KeepsState(l, row, body, |Take(state, Room(l, body))|, state) by { RowKept(l, row, body, state); }
  }

  lemma RowKept(l: Layout, row: Encoded, body: seq<Token>, state: seq<Token>)
    requires row.ids == IdsOf(l, body, state) && (row.stateTruncated <==> Room(l, body) < |state|)
    ensures KeepsState(l, row, body, |Take(state, Room(l, body))|, state)
  {
    RowKeepsState(l, body, state);
  }

  /** The row is `body`, `kept` tokens of the state and a separator, cut at `max_len`; a state that is there pushes nothing out. */
  predicate KeepsState(l: Layout, row: Encoded, body: seq<Token>, kept: nat, state: seq<Token>) {
    kept <= |state| && row.ids == Take(body + state[..kept] + [l.special.sep], l.maxLen) &&
    (row.stateTruncated <==> kept < |state|) &&
    (row.stateTruncated ==> |row.ids| == l.maxLen) &&
    (kept > 0 ==> |body| + kept + 1 <= l.maxLen)
  }

  lemma RowKeepsState(l: Layout, body: seq<Token>, state: seq<Token>)
    ensures
      var kept := |Take(state, Room(l, body))|;
      Take(state, Room(l, body)) == state[..kept] && (Room(l, body) < |state| <==> kept < |state|) &&
      (kept < |state| ==> |IdsOf(l, body, state)| == l.maxLen)
  {
  }

  // ---------------------------------------------------------------- when options are refused

  /** What options whose texts have these numbers of tokens take before they share the head. */
  function Wanted(counts: seq<nat>): (r: seq<nat>)
    ensures |r| == |counts|
  {
    seq(|counts|, i requires 0 <= i < |counts| => 1 + if counts[i] < MAX_OPTION_TOKENS then counts[i] else MAX_OPTION_TOKENS)
  }

  /** What they keep: all of it when 16 tokens of the head are left, else at most an even share. */
  function Shared(headMax: nat, counts: seq<nat>): (r: seq<nat>)
    ensures |r| == |counts|
  {
    var wanted := Wanted(counts);
    var per := Per(headMax, |counts|);
    if headMax - SumTo(wanted, |wanted|) >= MIN_HEAD_ROOM then wanted
    else seq(|counts|, i requires 0 <= i < |counts| => if wanted[i] < per then wanted[i] else per)
  }

  /** Too many options for the row: by the numbers of tokens of the instructions and of the option texts. */
  predicate TooMany(maxLen: nat, headMax: nat, head: nat, counts: seq<nat>) {
    counts != [] &&
    var shared := Shared(headMax, counts);
    var room := Max(headMax - SumTo(shared, |shared|), MIN_INSTRUCTION_TOKENS);
    2 + (if head < room then head else room) + SumTo(shared, |shared| - 1) >= maxLen
  }

  /** `counts` are the numbers of tokens of the option texts. */
  ghost predicate TokenCounts(l: Layout, enc: Encoder, options: seq<string>, counts: seq<nat>) {
    |counts| == |options| &&
    forall i :: 0 <= i < |options| ==> enc(OptionText(l, options[i])).Some? && |enc(OptionText(l, options[i])).value| == counts[i]
  }

  lemma {:induction false} OptionLengths(l: Layout, enc: Encoder, options: seq<string>, counts: seq<nat>, n: nat)
    requires TokenCounts(l, enc, options, counts) && n <= |options|
    ensures OptionsOf(l, enc, options, n).Some?
    ensures Lengths(OptionsOf(l, enc, options, n).value, Wanted(counts)[..n])
  {
    if n > 0 {
      OptionLengths(l, enc, options, counts, n - 1);
    }
  }

  lemma BudgetLengths(headMax: nat, opts: seq<seq<Token>>, counts: seq<nat>)
    requires Lengths(opts, Wanted(counts))
    ensures Lengths(Budgeted(headMax, opts), Shared(headMax, counts))
  {
    hide Per, Wanted;
    FlatLength(opts, Wanted(counts), |opts|);
  }

  /** Whatever the texts: once they tokenize, the options are refused exactly when their numbers of tokens are too many. */
  lemma RefusedIff(l: Layout, enc: Encoder, state: seq<Token>, q: Question, head: nat, counts: seq<nat>)
    requires enc(HeadText(l, q)).Some? && |enc(HeadText(l, q)).value| == head && TokenCounts(l, enc, q.options, counts)
    ensures EncodeOf(l, enc, state, q) == Failure(TooManyOptions(|q.options|, l.headMaxLen)) <==> TooMany(l.maxLen, l.headMaxLen, head, counts)
    ensures !TooMany(l.maxLen, l.headMaxLen, head, counts) ==> EncodeOf(l, enc, state, q).Success?
  {
    OptionLengths(l, enc, q.options, counts, |q.options|);
    var opts := OptionsOf(l, enc, q.options, |q.options|).value;
    assert Wanted(counts)[..|counts|] == Wanted(counts);
    BudgetLengths(l.headMaxLen, opts, counts);
    hide *;
    EncodesTo(l, enc, state, q);
    RowRefusedIff(l, enc(HeadText(l, q)).value, Budgeted(l.headMaxLen, opts), state, counts);
  }

  lemma EncodesTo(l: Layout, enc: Encoder, state: seq<Token>, q: Question)
    requires enc(HeadText(l, q)).Some? && OptionsOf(l, enc, q.options, |q.options|).Some?
    ensures
      var kept := Budgeted(l.headMaxLen, OptionsOf(l, enc, q.options, |q.options|).value);
      EncodeOf(l, enc, state, q) == RowOf(l, HeadCut(l.headMaxLen, enc(HeadText(l, q)).value, kept), kept, state)
  {
    hide Budgeted, HeadCut, RowOf;
  }

  lemma RowRefusedIff(l: Layout, head: seq<Token>, kept: seq<seq<Token>>, state: seq<Token>, counts: seq<nat>)
    requires Lengths(kept, Shared(l.headMaxLen, counts))
    ensures
      var r := RowOf(l, HeadCut(l.headMaxLen, head, kept), kept, state);
      (r == Failure(TooManyOptions(|counts|, l.headMaxLen)) <==> TooMany(l.maxLen, l.headMaxLen, |head|, counts)) &&
      (!TooMany(l.maxLen, l.headMaxLen, |head|, counts) ==> r.Success?)
  {
    hide Shared;
    var shared := Shared(l.headMaxLen, counts);
    FlatLength(kept, shared, |kept|);
    if kept != [] { FlatLength(kept, shared, |kept| - 1); }
  }

  // ---------------------------------------------------------------- the budget

  lemma {:induction false} CutBound(opts: seq<seq<Token>>, per: nat, n: nat)
    requires n <= |opts|
    ensures |Flat(CutAll(opts, per), n)| <= n * per
  {
    if n > 0 {
      CutBound(opts, per, n - 1);
      assert |CutAll(opts, per)[n - 1]| <= per;
      OneMore(n - 1, per);
    }
  }

  lemma PerBound(headMax: nat, k: nat)
    requires 0 < k
    ensures k * Per(headMax, k) <= Max(headMax - MIN_HEAD_ROOM, 4 * k)
  {
    var room: nat := Max(headMax - MIN_HEAD_ROOM, 0);
    assert room / k * k <= room;
    assert room / k * k == k * (room / k);
  }

  /** Instructions and options together: at most `head_max_len`, or four tokens an option and eight instruction tokens. */
  lemma HeadBound(headMax: nat, head: seq<Token>, opts: seq<seq<Token>>)
    requires opts != []
    ensures var kept := Budgeted(headMax, opts); |HeadCut(headMax, head, kept)| + |All(kept)| <= Max(headMax, 4 * |opts| + 8)
  {
    hide Per;
    if headMax - |All(opts)| < MIN_HEAD_ROOM {
      CutBound(opts, Per(headMax, |opts|), |opts|);
      PerBound(headMax, |opts|);
    }
  }

  /** With room for that many tokens and two more, a question is never refused for its options. */
  lemma NeverRefused(l: Layout, enc: Encoder, state: seq<Token>, q: Question)
    requires l.maxLen >= Max(l.headMaxLen, 4 * |q.options| + 8) + 2
    ensures EncodeOf(l, enc, state, q) != Failure(TooManyOptions(|q.options|, l.headMaxLen))
    ensures EncodeOf(l, enc, state, q).Success? <==> enc(HeadText(l, q)).Some? && OptionsOf(l, enc, q.options, |q.options|).Some?
  {
    var tokens, read := enc(HeadText(l, q)), OptionsOf(l, enc, q.options, |q.options|);
    if tokens.Some? && read.Some? && q.options != [] {
      var opts := read.value;
      HeadBound(l.headMaxLen, tokens.value, opts);
      OptionsMasked(l, enc, q.options, |q.options|);
      var kept := Budgeted(l.headMaxLen, opts);
    }
  }

  // ---------------------------------------------------------------- no other mask token

  /** The tokenizer gives the mask token only for text that contains the mask text. */
  ghost predicate MaskOnlyForItsText(special: Special, enc: Encoder) {
    forall text :: enc(text).Some? && special.mask in enc(text).value ==> Contains(text, special.maskText)
  }

  /** A mask text that the replacement removes, and that no fixed text of the row holds. */
  predicate Removable(maskText: string, qtype: string) {
    maskText != [] && ' ' !in maskText && !Contains(qtype, maskText) && !Contains("question:", maskText)
  }

  lemma HeadTextClean(l: Layout, q: Question)
    requires Removable(l.special.maskText, q.qtype)
    ensures !Contains(HeadText(l, q), l.special.maskText)
  {
    hide Contains, Replace;
    var m := l.special.maskText;
    var tail := Replace(q.instructions, m);
    Removed(q.instructions, m);
    AcrossSpace("question:", tail, m);
    AcrossSpace(q.qtype, "question:" + " " + tail, m);
    HeadTextParts(q.qtype, tail);
  }

  lemma HeadTextParts(qtype: string, tail: string)
    ensures qtype + " question: " + tail == qtype + " " + ("question:" + " " + tail)
  {
    assert " question: " == " " + "question:" + " ";
  }

  lemma OptionTextClean(l: Layout, option: string)
    requires l.special.maskText != [] && ' ' !in l.special.maskText
    ensures !Contains(OptionText(l, option), l.special.maskText)
  {
    var m := l.special.maskText;
    Removed(option, m);
    AcrossSpace([], Replace(option, m), m);
    assert [] + " " + Replace(option, m) == OptionText(l, option);
  }

  /** The mask token is an option's first token and no other. */
  predicate OnlyFirst(mask: Token, opts: seq<seq<Token>>) {
    forall i, k :: 0 <= i < |opts| && 0 < k < |opts[i]| ==> opts[i][k] != mask
  }

  lemma {:induction false} OptionsOnlyFirst(l: Layout, enc: Encoder, options: seq<string>, n: nat)
    requires n <= |options| && OptionsOf(l, enc, options, n).Some?
    requires MaskOnlyForItsText(l.special, enc) && l.special.maskText != [] && ' ' !in l.special.maskText
    ensures OnlyFirst(l.special.mask, OptionsOf(l, enc, options, n).value)
  {
    if n > 0 {
      OptionsOnlyFirst(l, enc, options, n - 1);
      OptionTextClean(l, options[n - 1]);
      var tokens := enc(OptionText(l, options[n - 1])).value;
      assert l.special.mask !in tokens;
      assert forall k :: 0 < k < |[l.special.mask] + Take(tokens, 48)| ==> ([l.special.mask] + Take(tokens, 48))[k] == tokens[k - 1];
    }
  }

  /** The markers are the only places of the row that hold the mask token, whatever the texts contain. */
  lemma MarkersAreTheMasks(l: Layout, enc: Encoder, stateText: string, q: Question)
    requires MaskOnlyForItsText(l.special, enc) && Removable(l.special.maskText, q.qtype)
    requires l.special.mask != l.special.cls && l.special.mask != l.special.sep
    requires EncodeState(l, enc, stateText).Some? && EncodeOf(l, enc, EncodeState(l, enc, stateText).value, q).Success?
    ensures
      var row := EncodeOf(l, enc, EncodeState(l, enc, stateText).value, q).value;
      forall p :: 0 <= p < |row.ids| ==> (row.ids[p] == l.special.mask <==> p in row.markers)
  {
    hide *;
    var state := EncodeState(l, enc, stateText).value;
    RemovableText(l.special.maskText, q.qtype);
    StateClean(l, enc, stateText);
    RowIsSound(l, enc, state, q);
    var head, opts := Encodes(l, enc, state, q);
    HeadTextClean(l, q);
    HeadClean(l, enc, HeadText(l, q), head);
    OptionsOnlyFirst(l, enc, q.options, |q.options|);
    BudgetOnlyFirst(l.special.mask, l.headMaxLen, OptionsOf(l, enc, q.options, |q.options|).value);
    RowMasks(l, head, opts, state);
  }

  lemma RemovableText(maskText: string, qtype: string)
    requires Removable(maskText, qtype)
    ensures maskText != [] && ' ' !in maskText
  {
  }

  lemma StateClean(l: Layout, enc: Encoder, text: string)
    requires MaskOnlyForItsText(l.special, enc) && EncodeState(l, enc, text).Some?
    requires l.special.maskText != [] && ' ' !in l.special.maskText
    ensures l.special.mask !in EncodeState(l, enc, text).value
  {
    Removed(text, l.special.maskText);
  }

  lemma HeadClean(l: Layout, enc: Encoder, text: string, head: seq<Token>)
    requires MaskOnlyForItsText(l.special, enc) && !Contains(text, l.special.maskText)
    requires enc(text).Some? && head <= enc(text).value
    ensures l.special.mask !in head
  {
    assert forall i :: 0 <= i < |head| ==> head[i] == enc(text).value[i];
  }

  lemma BudgetOnlyFirst(mask: Token, headMax: nat, opts: seq<seq<Token>>)
    requires OnlyFirst(mask, opts)
    ensures OnlyFirst(mask, Budgeted(headMax, opts))
  {
    hide Per;
  }

  lemma RowMasks(l: Layout, head: seq<Token>, opts: seq<seq<Token>>, state: seq<Token>)
    requires RowOf(l, head, opts, state).Success? && AllMasked(l.special.mask, opts) && OnlyFirst(l.special.mask, opts)
    requires l.special.mask !in head && l.special.mask !in state
    requires l.special.mask != l.special.cls && l.special.mask != l.special.sep
    ensures
      var row := RowOf(l, head, opts, state).value;
      forall p :: 0 <= p < |row.ids| ==> (row.ids[p] == l.special.mask <==> p in row.markers)
  {
    var row := RowOf(l, head, opts, state).value;
    RowOfIsSound(l, head, opts, state);
    var body := Body(l, head, opts);
    hide Body, IdsOf, Marker;
    forall p | 0 <= p < |row.ids| && row.ids[p] == l.special.mask ensures p in row.markers {
      if p >= |body| {
      } else {
        MaskInBody(l, head, opts, p);
        var j :| 0 <= j < |opts| && p == Marker(l, head, opts, j);
        assert row.markers[j] == p;
      }
    }
  }

  lemma MaskInBody(l: Layout, head: seq<Token>, opts: seq<seq<Token>>, p: nat)
    requires p < |Body(l, head, opts)| && Body(l, head, opts)[p] == l.special.mask
    requires l.special.mask !in head && l.special.mask != l.special.cls && l.special.mask != l.special.sep
    requires OnlyFirst(l.special.mask, opts)
    ensures exists j :: 0 <= j < |opts| && p == Marker(l, head, opts, j)
  {
    var front := Front(l, head);
    assert p >= |front|;
    assert All(opts)[p - |front|] == l.special.mask;
    var j := FlatMask(l.special.mask, opts, |opts|, p - |front|);
    assert p == Marker(l, head, opts, j);
  }

  lemma {:induction false} FlatMask(mask: Token, opts: seq<seq<Token>>, n: nat, p: nat) returns (j: nat)
    requires n <= |opts| && p < |Flat(opts, n)| && Flat(opts, n)[p] == mask && OnlyFirst(mask, opts)
    ensures j < n && p == |Flat(opts, j)|
  {
    var before := |Flat(opts, n - 1)|;
    if p < before {
      j := FlatMask(mask, opts, n - 1, p);
    } else {
      assert opts[n - 1][p - before] == mask;
      j := n - 1;
    }
  }
}
