/** What a `d1-omni-markers-v1` row says, token by token (crates/ollaya-decision/src/d1_omni.rs). */
module D1OmniRows {
  import opened TokenIds
  import opened Wrappers
  import opened Arithmetic
  import opened Rows
  import opened D1Omni

  /** The budget for `k` options. */
  function Budgeted(b: Budget, maxLen: nat, k: nat): nat {
    var wanted := k * b.perOption + b.extra;
    var capped := if wanted < maxLen / 2 then wanted else maxLen / 2;
    if b.minBudget < capped then capped else b.minBudget
  }

  /** The text tokens an option keeps at most: an even share of the budget, its three delimiters taken off. */
  function Share(b: Budget, maxLen: nat, k: nat): nat
    requires 0 < k
  {
    var budget := Budgeted(b, maxLen, k);
    var share := if budget < 3 * k then 0 else (budget - 3 * k) / k;
    if share < b.minPer then b.minPer else share
  }

  /** How many tokens of the question's token and the instructions stay. */
  function AskedSize(b: Budget, maxLen: nat, k: nat, tokens: nat): (r: nat)
    ensures r <= 1 + tokens
  {
    var budget := Budgeted(b, maxLen, k);
    var room := if b.minQuestion < budget then budget else b.minQuestion;
    if 1 + tokens < room then 1 + tokens else room
  }

  /** How many tokens each option takes, delimiters included. */
  function Sizes(per: nat, texts: seq<seq<Token>>): (r: seq<nat>)
    ensures |r| == |texts| && forall j :: 0 <= j < |r| ==> 3 <= r[j] <= 3 + |texts[j]|
  {
    seq(|texts|, j requires 0 <= j < |texts| => 3 + if |texts[j]| < per then |texts[j]| else per)
  }

  function StateSize(maxLen: nat, others: nat, state: nat): (r: nat)
    ensures r <= state
  {
    var room := if maxLen < others then 0 else maxLen - others;
    if state < room then state else room
  }

  /**
   <bos> <state> state <q> instructions (<opt> <mask> option <opt_end>)* <decide>, each part at its place and cut as far as said,
   all cut at `max_len`.
   */
  predicate Says(l: Layout, row: Row, tokens: seq<Token>, texts: seq<seq<Token>>, state: seq<Token>)
    requires texts != []
  {
    var k := |texts|;
    var sizes := Sizes(Share(l.budget, l.maxLen, k), texts);
    var h := AskedSize(l.budget, l.maxLen, k, |tokens|);
    var kept := StateSize(l.maxLen, 2 + h + SumTo(sizes, k) + 1, |state|);
    (row.stateTruncated <==> kept < |state|) && Parts(l, row, ([l.special.question] + tokens)[..h], texts, sizes, state[..kept])
  }

  /** The parts of a row, given the tokens that stay of the question, of each option and of the state. */
  predicate Parts(l: Layout, row: Row, asked: seq<Token>, texts: seq<seq<Token>>, sizes: seq<nat>, state: seq<Token>)
    requires |sizes| == |texts| && forall j :: 0 <= j < |sizes| ==> 3 <= sizes[j] <= 3 + |texts[j]|
  {
    var k, front := |texts|, 2 + |state| + |asked|;
    var full := front + SumTo(sizes, k) + 1;
    |row.ids| == (if full < l.maxLen then full else l.maxLen) &&
    Lies(row.ids, 0, [l.special.bos, l.special.state]) && Lies(row.ids, 2, state) && Lies(row.ids, 2 + |state|, asked) &&
    |row.markers| == k &&
    (forall j :: 0 <= j < k ==>
       row.markers[j] == front + SumTo(sizes, j) + 1 &&
       Lies(row.ids, front + SumTo(sizes, j),
            [l.special.option, l.special.mask] + texts[j][..sizes[j] - 3] + [l.special.optionEnd])) &&
    Lies(row.ids, full - 1, [l.special.decide])
  }

  /** The row has its last option's mask. */
  predicate HasRoom(l: Layout, tokens: nat, texts: seq<seq<Token>>, state: nat)
    requires texts != []
  {
    var k := |texts|;
    var sizes := Sizes(Share(l.budget, l.maxLen, k), texts);
    var h := AskedSize(l.budget, l.maxLen, k, tokens);
    2 + StateSize(l.maxLen, 2 + h + SumTo(sizes, k) + 1, state) + h + SumTo(sizes, k - 1) + 1 < l.maxLen
  }

  /** The tokens of the option texts, each after a space. */
  ghost predicate Tokenize(enc: Encoder, options: seq<string>, texts: seq<seq<Token>>) {
    |texts| == |options| && forall j :: 0 <= j < |options| ==> enc(" " + options[j]) == Some(texts[j])
  }

  lemma {:induction false} PiecesTokens(l: Layout, enc: Encoder, per: nat, options: seq<string>, texts: seq<seq<Token>>, n: nat)
    requires Tokenize(enc, options, texts) && n <= |options|
    ensures Pieces(l, enc, per, options, n).Some?
    ensures forall j :: 0 <= j < n ==>
              Pieces(l, enc, per, options, n).value[j] ==
              [l.special.option, l.special.mask] + texts[j][..if |texts[j]| < per then |texts[j]| else per] + [l.special.optionEnd]
  {
    if n > 0 {
      PiecesTokens(l, enc, per, options, texts, n - 1);
    }
  }

  lemma BudgetsAgree(l: Layout, k: nat, tokens: seq<Token>)
    requires 0 < k
    ensures Per(l, k) == Share(l.budget, l.maxLen, k)
    ensures Asked(l, k, tokens) == ([l.special.question] + tokens)[..AskedSize(l.budget, l.maxLen, k, |tokens|)]
  {
    assert BudgetFor(l, k) == Budgeted(l.budget, l.maxLen, k);
  }

  /** Where the parts of a row lie. */
  lemma RowLies(l: Layout, asked: seq<Token>, pieces: seq<seq<Token>>, state: seq<Token>)
    requires RowOf(l, asked, pieces, state).Success?
    ensures
      var row, question := RowOf(l, asked, pieces, state).value, QuestionIds(l, asked, pieces);
      var kept := Kept(l, question, state);
      |question| == |asked| + |All(pieces)| + 1 && |row.ids| == Min(2 + kept + |question|, l.maxLen) && kept <= |state| &&
      Lies(row.ids, 0, [l.special.bos, l.special.state]) && Lies(row.ids, 2, state[..kept]) && Lies(row.ids, 2 + kept, asked) &&
      (forall j :: 0 <= j < |pieces| ==> Lies(row.ids, 2 + kept + |asked| + |Flat(pieces, j)|, pieces[j])) &&
      Lies(row.ids, 2 + kept + |asked| + |All(pieces)|, [l.special.decide])
  {
    hide Lies;
    var row, question := RowOf(l, asked, pieces, state).value, QuestionIds(l, asked, pieces);
    var kept := Kept(l, question, state);
    PartsLie(row.ids, [l.special.bos, l.special.state], state[..kept], asked, pieces, [l.special.decide]);
  }

  lemma RowMarkers(l: Layout, asked: seq<Token>, pieces: seq<seq<Token>>, state: seq<Token>)
    requires RowOf(l, asked, pieces, state).Success?
    ensures
      var row, kept := RowOf(l, asked, pieces, state).value, Kept(l, QuestionIds(l, asked, pieces), state);
      |row.markers| == |pieces| && (row.stateTruncated <==> kept < |state|) &&
      forall j :: 0 <= j < |pieces| ==> row.markers[j] == |asked| + |Flat(pieces, j)| + 1 + 2 + kept
  {
    hide Kept, QuestionIds;
  }

  lemma PartsLie(ids: seq<Token>, open: seq<Token>, state: seq<Token>, asked: seq<Token>, pieces: seq<seq<Token>>, end: seq<Token>)
    requires |open| == 2 && ids <= open + state + (asked + All(pieces) + end)
    ensures Lies(ids, 0, open) && Lies(ids, 2, state) && Lies(ids, 2 + |state|, asked)
    ensures forall j :: 0 <= j < |pieces| ==> Lies(ids, 2 + |state| + |asked| + |Flat(pieces, j)|, pieces[j])
    ensures Lies(ids, 2 + |state| + |asked| + |All(pieces)|, end)
  {
    hide *;
    var all := All(pieces);
    var front := open + state + asked;
    var whole := open + state + (asked + all + end);
    assert whole == [] + open + (state + (asked + all + end));
    LiesInPrefix(ids, [], open, state + (asked + all + end));
    LiesInPrefix(ids, open, state, asked + all + end);
    assert whole == (open + state) + asked + (all + end);
    LiesInPrefix(ids, open + state, asked, all + end);
    assert whole == front + all + end;
    forall j | 0 <= j < |pieces| ensures Lies(ids, 2 + |state| + |asked| + |Flat(pieces, j)|, pieces[j]) {
      PieceLies(ids, front, pieces, end, j);
    }
    assert whole == (front + all) + end + [];
    LiesInPrefix(ids, front + all, end, []);
  }

  /** The lengths of a row's parts. */
  lemma RowLengths(l: Layout, tokens: seq<Token>, pieces: seq<seq<Token>>, texts: seq<seq<Token>>, state: seq<Token>)
    requires texts != [] && Lengths(pieces, Sizes(Share(l.budget, l.maxLen, |texts|), texts))
    ensures
      var k := |texts|;
      var sizes, asked := Sizes(Share(l.budget, l.maxLen, k), texts), Asked(l, k, tokens);
      var h := AskedSize(l.budget, l.maxLen, k, |tokens|);
      var question := QuestionIds(l, asked, pieces);
      asked == ([l.special.question] + tokens)[..h] && |asked| == h && |All(pieces)| == SumTo(sizes, k) &&
      |question| == h + SumTo(sizes, k) + 1 && Kept(l, question, state) == StateSize(l.maxLen, 2 + |question|, |state|) &&
      forall j :: 0 <= j < k ==> |Flat(pieces, j)| == SumTo(sizes, j)
  {
    var k := |texts|;
    BudgetsAgree(l, k, tokens);
    hide Share, Sizes, Flat, SumTo, AskedSize, Asked;
    var sizes := Sizes(Share(l.budget, l.maxLen, k), texts);
    forall j | 0 <= j <= k ensures |Flat(pieces, j)| == SumTo(sizes, j) {
      FlatLength(pieces, sizes, j);
    }
  }

  lemma RowAccepted(l: Layout, tokens: seq<Token>, pieces: seq<seq<Token>>, texts: seq<seq<Token>>, state: seq<Token>)
    requires texts != [] && Lengths(pieces, Sizes(Share(l.budget, l.maxLen, |texts|), texts))
    ensures
      var r := RowOf(l, Asked(l, |texts|, tokens), pieces, state);
      if HasRoom(l, |tokens|, texts, |state|) then r.Success? else r == Failure(DoesNotFit)
  {
    hide Share, Sizes, Flat, SumTo, AskedSize, Asked, QuestionIds, StateSize, Kept, RowOf;
    RowLengths(l, tokens, pieces, texts, state);
    RefusedWhen(l, Asked(l, |texts|, tokens), pieces, state);
  }

  lemma RefusedWhen(l: Layout, asked: seq<Token>, pieces: seq<seq<Token>>, state: seq<Token>)
    requires pieces != []
    ensures
      var last := |asked| + |Flat(pieces, |pieces| - 1)| + 1 + 2 + Kept(l, QuestionIds(l, asked, pieces), state);
      if last < l.maxLen then RowOf(l, asked, pieces, state).Success? else RowOf(l, asked, pieces, state) == Failure(DoesNotFit)
  {
    hide Flat, Kept, QuestionIds;
  }

  lemma RowSays(l: Layout, tokens: seq<Token>, pieces: seq<seq<Token>>, texts: seq<seq<Token>>, state: seq<Token>)
    requires texts != [] && Lengths(pieces, Sizes(Share(l.budget, l.maxLen, |texts|), texts))
    requires forall j :: 0 <= j < |texts| ==>
               pieces[j] == [l.special.option, l.special.mask] + texts[j][..|pieces[j]| - 3] + [l.special.optionEnd]
    requires RowOf(l, Asked(l, |texts|, tokens), pieces, state).Success?
    ensures Says(l, RowOf(l, Asked(l, |texts|, tokens), pieces, state).value, tokens, texts, state)
  {
    hide Share, Sizes, Lies, Flat, SumTo, AskedSize, Asked, QuestionIds, StateSize, Kept, RowOf, Parts;
    var k, asked := |texts|, Asked(l, |texts|, tokens);
    var row, question := RowOf(l, asked, pieces, state).value, QuestionIds(l, asked, pieces);
    var sizes, kept := Sizes(Share(l.budget, l.maxLen, k), texts), Kept(l, question, state);
    RowLengths(l, tokens, pieces, texts, state);
    RowLies(l, asked, pieces, state);
    RowMarkers(l, asked, pieces, state);
    PartsSaid(l, row, asked, pieces, texts, sizes, state[..kept]);
  }

  lemma PartsSaid(l: Layout, row: Row, asked: seq<Token>, pieces: seq<seq<Token>>, texts: seq<seq<Token>>, sizes: seq<nat>,
                  state: seq<Token>)
    requires Lengths(pieces, sizes) && |sizes| == |texts| == |row.markers|
    requires forall j :: 0 <= j < |sizes| ==> 3 <= sizes[j] <= 3 + |texts[j]|
    requires forall j :: 0 <= j < |texts| ==>
               pieces[j] == [l.special.option, l.special.mask] + texts[j][..|pieces[j]| - 3] + [l.special.optionEnd]
    requires forall j :: 0 <= j < |texts| ==>
               row.markers[j] == |asked| + |Flat(pieces, j)| + 1 + 2 + |state| &&
               Lies(row.ids, 2 + |state| + |asked| + |Flat(pieces, j)|, pieces[j])
    requires |row.ids| == Min(2 + |state| + |asked| + |All(pieces)| + 1, l.maxLen)
    requires Lies(row.ids, 0, [l.special.bos, l.special.state]) && Lies(row.ids, 2, state) && Lies(row.ids, 2 + |state|, asked)
    requires Lies(row.ids, 2 + |state| + |asked| + |All(pieces)|, [l.special.decide])
    ensures Parts(l, row, asked, texts, sizes, state)
  {
    hide Lies, Flat, SumTo;
    forall j | 0 <= j <= |pieces| ensures |Flat(pieces, j)| == SumTo(sizes, j) {
      FlatLength(pieces, sizes, j);
    }
  }

  /**
   What `encode` returns, from the texts it tokenizes: the instructions, and each option after a space. The row says all of it,
   or there is no room for the last option's mask.
   */
  lemma EncodeSays(l: Layout, enc: Encoder, state: seq<Token>, instructions: string, c: Criteria, options: seq<string>,
                   tokens: seq<Token>, texts: seq<seq<Token>>)
    requires Options(c) == Success(options) && enc(instructions) == Some(tokens) && Tokenize(enc, options, texts)
    ensures
      var r := EncodeOf(l, enc, state, instructions, c);
      texts != [] &&
      if HasRoom(l, |tokens|, texts, |state|) then r.Success? && Says(l, r.value, tokens, texts, state)
      else r == Failure(DoesNotFit)
  {
    var k := |options|;
    var pieces := EncodesTo(l, enc, state, instructions, c, options, tokens, texts);
    hide *;
    RowAccepted(l, tokens, pieces, texts, state);
    if HasRoom(l, |tokens|, texts, |state|) {
      RowSays(l, tokens, pieces, texts, state);
    }
  }

  lemma EncodesTo(l: Layout, enc: Encoder, state: seq<Token>, instructions: string, c: Criteria, options: seq<string>,
                  tokens: seq<Token>, texts: seq<seq<Token>>) returns (pieces: seq<seq<Token>>)
    requires Options(c) == Success(options) && enc(instructions) == Some(tokens) && Tokenize(enc, options, texts)
    ensures |texts| == |options| >= 2 && EncodeOf(l, enc, state, instructions, c) == RowOf(l, Asked(l, |texts|, tokens), pieces, state)
    ensures Lengths(pieces, Sizes(Share(l.budget, l.maxLen, |texts|), texts))
    ensures forall j :: 0 <= j < |texts| ==>
              pieces[j] == [l.special.option, l.special.mask] + texts[j][..|pieces[j]| - 3] + [l.special.optionEnd]
  {
    var k := |options|;
    BudgetsAgree(l, k, tokens);
    PiecesTokens(l, enc, Per(l, k), options, texts, k);
    pieces := Pieces(l, enc, Per(l, k), options, k).value;
    EncodeIs(l, enc, state, instructions, c, tokens, pieces);
    hide Per, Share, RowOf, Asked, Tokenize, Pieces, EncodeOf, Options;
  }

  lemma EncodeIs(l: Layout, enc: Encoder, state: seq<Token>, instructions: string, c: Criteria, tokens: seq<Token>,
                 pieces: seq<seq<Token>>)
    requires Options(c).Success? && enc(instructions) == Some(tokens)
    requires var options := Options(c).value; Pieces(l, enc, Per(l, |options|), options, |options|) == Some(pieces)
    ensures EncodeOf(l, enc, state, instructions, c) == RowOf(l, Asked(l, |Options(c).value|, tokens), pieces, state)
  {
    hide Per, RowOf, Pieces, Asked, Options;
  }

  /** And it fails when the count is wrong, or when one of these texts cannot be tokenized. */
  lemma EncodeFails(l: Layout, enc: Encoder, state: seq<Token>, instructions: string, c: Criteria)
    ensures Options(c).Failure? ==> EncodeOf(l, enc, state, instructions, c) == Failure(Options(c).error)
    ensures Options(c).Success? &&
            (enc(instructions).None? || exists j :: 0 <= j < |Options(c).value| && enc(" " + Options(c).value[j]).None?) ==>
              EncodeOf(l, enc, state, instructions, c) == Failure(Tokenizer)
  {
    if Options(c).Success? {
      var options := Options(c).value;
      if j :| 0 <= j < |options| && enc(" " + options[j]).None? {
        PiecesFail(l, enc, Per(l, |options|), options, j + 1);
      }
    }
  }
}
