/** `d1-omni-markers-v1` (crates/ollaya-decision/src/d1_omni.rs): a row per question, its options scored at their mask tokens. */
module D1Omni {
  import opened TokenIds
  import opened Wrappers
  import opened Arithmetic
  import opened Rows

  datatype Tokens = Tokens(bos: Token, mask: Token, state: Token, question: Token, option: Token, optionEnd: Token, decide: Token)

  datatype Budget = Budget(perOption: nat, extra: nat, minBudget: nat, minQuestion: nat, minPer: nat)

  datatype Layout = Layout(maxLen: nat, special: Tokens, budget: Budget)

  /** What a question asks to choose from: rendered labels, rendered levels, or the texts for false and true. */
  datatype Criteria = Choice(labels: seq<string>) | Score(levels: seq<string>) | Noul(no: string, yes: string)

  datatype Error = TooFewLabels | LevelCount | Tokenizer | DoesNotFit

  datatype Row = Row(ids: seq<Token>, markers: seq<nat>, stateTruncated: bool)

  /** `options`: the option texts, for the counts the model takes. */
  function Options(c: Criteria): (r: Result<seq<string>, Error>)
    ensures r == Failure(TooFewLabels) <==> c.Choice? && |c.labels| < 2
    ensures r == Failure(LevelCount) <==> c.Score? && (|c.levels| < 2 || |c.levels| > 10)
    ensures r.Failure? ==> r.error == TooFewLabels || r.error == LevelCount
    ensures r.Success? ==> |r.value| >= 2 && (c.Noul? ==> r.value == [c.no, c.yes]) &&
                           (c.Choice? ==> r.value == c.labels) && (c.Score? ==> r.value == c.levels)
  {
    match c
    case Choice(labels) => if |labels| < 2 then Failure(TooFewLabels) else Success(labels)
    case Score(levels) => if 2 <= |levels| <= 10 then Success(levels) else Failure(LevelCount)
    case Noul(no, yes) => Success([no, yes])
  }

  // ---------------------------------------------------------------- budgets

  /** The tokens for all options, delimiters included. */
  function BudgetFor(l: Layout, k: nat): nat {
    Max(l.budget.minBudget, Min(k * l.budget.perOption + l.budget.extra, l.maxLen / 2))
  }

  /** The text tokens each option keeps. */
  function Per(l: Layout, k: nat): nat
    requires 0 < k
  {
    var share := Max(BudgetFor(l, k) - 3 * k, 0) / k;
    Max(l.budget.minPer, share)
  }

  // ---------------------------------------------------------------- the row

  function Asked(l: Layout, k: nat, instructions: seq<Token>): seq<Token> {
    Take([l.special.question] + instructions, Max(l.budget.minQuestion, BudgetFor(l, k)))
  }

  function Piece(l: Layout, per: nat, tokens: seq<Token>): seq<Token> {
    [l.special.option, l.special.mask] + Take(tokens, per) + [l.special.optionEnd]
  }

  /** The first `n` options; None: the tokenizer failed. */
  function Pieces(l: Layout, enc: Encoder, per: nat, options: seq<string>, n: nat): (r: Option<seq<seq<Token>>>)
    requires n <= |options|
    ensures r.Some? ==> |r.value| == n
  {
    if n == 0 then Some([])
    else
      var rest :- Pieces(l, enc, per, options, n - 1);
      var tokens :- enc(" " + options[n - 1]);
      Some(rest + [Piece(l, per, tokens)])
  }

  function QuestionIds(l: Layout, asked: seq<Token>, pieces: seq<seq<Token>>): seq<Token> {
    asked + All(pieces) + [l.special.decide]
  }

  function Kept(l: Layout, question: seq<Token>, state: seq<Token>): nat {
    Min(Max(l.maxLen - (|question| + 2), 0), |state|)
  }

  /** Everything, before it is cut at `max_len`. */
  function Uncut(l: Layout, question: seq<Token>, state: seq<Token>): seq<Token> {
    [l.special.bos, l.special.state] + state[..Kept(l, question, state)] + question
  }

  /** Where option `j`'s mask is in the row. */
  function Marker(l: Layout, asked: seq<Token>, pieces: seq<seq<Token>>, state: seq<Token>, j: nat): nat
    requires j < |pieces|
  {
    |asked| + |Flat(pieces, j)| + 1 + 2 + Kept(l, QuestionIds(l, asked, pieces), state)
  }

  function RowOf(l: Layout, asked: seq<Token>, pieces: seq<seq<Token>>, state: seq<Token>): Result<Row, Error> {
    var question := QuestionIds(l, asked, pieces);
    if pieces != [] && Marker(l, asked, pieces, state, |pieces| - 1) >= l.maxLen then Failure(DoesNotFit)
    else
      Success(Row(Take(Uncut(l, question, state), l.maxLen),
                  seq(|pieces|, j requires 0 <= j < |pieces| => Marker(l, asked, pieces, state, j)),
                  Kept(l, question, state) < |state|))
  }

  function EncodeOf(l: Layout, enc: Encoder, state: seq<Token>, instructions: string, c: Criteria): Result<Row, Error> {
    var options :- Options(c);
    match enc(instructions)
    case None => Failure(Tokenizer)
    case Some(tokens) =>
      match Pieces(l, enc, Per(l, |options|), options, |options|)
      case None => Failure(Tokenizer)
      case Some(pieces) => RowOf(l, Asked(l, |options|, tokens), pieces, state)
  }

  // ---------------------------------------------------------------- the code

  /** One option, appended to the question; None: the tokenizer failed. */
  method AddOption(l: Layout, enc: Encoder, per: nat, text: string, question0: seq<Token>) returns (r: Option<seq<Token>>)
    ensures r == match enc(" " + text) case None => None case Some(tokens) => Some(question0 + Piece(l, per, tokens))
  {
    var question := question0;
    question := question + [l.special.option];
    question := question + [l.special.mask];
    var ids := enc(" " + text);
    if ids.None? { return None; }
    question := question + Take(ids.value, per);
    question := question + [l.special.optionEnd];
    assert question == question0 + Piece(l, per, ids.value);
    return Some(question);
  }

  method Encode(l: Layout, enc: Encoder, state: seq<Token>, instructions: string, c: Criteria) returns (r: Result<Row, Error>)
    ensures r == EncodeOf(l, enc, state, instructions, c)
  {
    hide RowOf, QuestionIds, Pieces, LocalMarkers;
    var options := Options(c);
    if options.Failure? { return Failure(options.error); }
    var opts := options.value;
    var k := |opts|;
    var budget := Max(l.budget.minBudget, Min(k * l.budget.perOption + l.budget.extra, l.maxLen / 2));
    var per := Max(l.budget.minPer, Max(budget - 3 * k, 0) / k);
    assert budget == BudgetFor(l, k) && per == Per(l, k);
    hide BudgetFor, Per;
    var question := [l.special.question];
    var tokens := enc(instructions);
    if tokens.None? { return Failure(Tokenizer); }
    question := question + tokens.value;
    question := Take(question, Max(l.budget.minQuestion, budget));
    ghost var asked := question;
    var added := AddOptions(l, enc, per, opts, question);
    if added.None? { return Failure(Tokenizer); }
    var markers: seq<nat>;
    question, markers := added.value.0, added.value.1;
    question := question + [l.special.decide];
    WithDecide(l, asked, Pieces(l, enc, per, opts, k).value);
    r := Finish(l, asked, Pieces(l, enc, per, opts, k).value, question, markers, state);
  }

  lemma WithDecide(l: Layout, asked: seq<Token>, pieces: seq<seq<Token>>)
    ensures QuestionIds(l, asked, pieces) == asked + All(pieces) + [l.special.decide]
  {
  }

  /** Where the options' masks are in the question. */
  function LocalMarkers(asked: seq<Token>, pieces: seq<seq<Token>>): (r: seq<nat>)
    ensures |r| == |pieces|
  {
    seq(|pieces|, j requires 0 <= j < |pieces| => |asked| + |Flat(pieces, j)| + 1)
  }

  /** The options, appended to the question, and their markers in it; None: the tokenizer failed. */
  method AddOptions(l: Layout, enc: Encoder, per: nat, opts: seq<string>, asked: seq<Token>) returns (r: Option<(seq<Token>, seq<nat>)>)
    ensures r == match Pieces(l, enc, per, opts, |opts|)
                 case None => None
                 case Some(pieces) => Some((asked + All(pieces), LocalMarkers(asked, pieces)))
  {
    var question, markers: seq<nat> := asked, [];
    ghost var pieces: seq<seq<Token>> := [];
    assert asked + [] == asked;
    for i := 0 to |opts|
      invariant Pieces(l, enc, per, opts, i) == Some(pieces)
      invariant question == asked + All(pieces) && markers == LocalMarkers(asked, pieces)
    {
      hide Piece, Flat, LocalMarkers;
      markers := markers + [|question| + 1];
      var added := AddOption(l, enc, per, opts[i], question);
      if added.None? {
        PiecesFail(l, enc, per, opts, i + 1);
        return None;
      }
      ghost var piece := Piece(l, per, enc(" " + opts[i]).value);
      PieceAdded(asked, pieces, piece);
      pieces := pieces + [piece];
      question := added.value;
    }
    return Some((question, markers));
  }

  /** The end of `encode`: how much of the state fits, the markers moved, the row put together and checked. */
  method Finish(l: Layout, ghost asked: seq<Token>, ghost pieces: seq<seq<Token>>, question: seq<Token>,
                markers0: seq<nat>, state: seq<Token>)
    returns (r: Result<Row, Error>)
    requires question == QuestionIds(l, asked, pieces)
    requires markers0 == LocalMarkers(asked, pieces)
    ensures r == RowOf(l, asked, pieces, state)
  {
    var room := Max(l.maxLen - (|question| + 2), 0);
    var kept := Min(room, |state|);
    var ids := [l.special.bos];
    ids := ids + [l.special.state];
    ids := ids + state[..kept];
    ids := ids + question;
    assert ids == Uncut(l, question, state);
    ids := Take(ids, l.maxLen);
    var markers := seq(|markers0|, j requires 0 <= j < |markers0| => markers0[j] + 2 + kept);
    assert forall j :: 0 <= j < |pieces| ==> markers[j] == Marker(l, asked, pieces, state, j);
    assert markers == seq(|pieces|, j requires 0 <= j < |pieces| => Marker(l, asked, pieces, state, j));
    if markers != [] && markers[|markers| - 1] >= l.maxLen { return Failure(DoesNotFit); }
    return Success(Row(ids, markers, room < |state|));
  }

  lemma {:induction false} PiecesFail(l: Layout, enc: Encoder, per: nat, options: seq<string>, i: nat)
    requires i <= |options| && Pieces(l, enc, per, options, i).None?
    ensures Pieces(l, enc, per, options, |options|).None?
    decreases |options| - i
  {
    if i < |options| {
      PiecesFail(l, enc, per, options, i + 1);
    }
  }

  lemma PieceAdded(asked: seq<Token>, pieces: seq<seq<Token>>, piece: seq<Token>)
    ensures asked + All(pieces + [piece]) == asked + All(pieces) + piece
    ensures LocalMarkers(asked, pieces + [piece]) == LocalMarkers(asked, pieces) + [|asked + All(pieces)| + 1]
  {
    FlatSame(pieces, piece, |pieces|);
    var all := All(pieces);
    assert All(pieces + [piece]) == all + piece;
    assert asked + (all + piece) == asked + all + piece;
    forall j | 0 <= j <= |pieces| ensures Flat(pieces + [piece], j) == Flat(pieces, j) {
      FlatSame(pieces, piece, j);
    }
  }

  lemma {:induction false} FlatSame(pieces: seq<seq<Token>>, piece: seq<Token>, j: nat)
    requires j <= |pieces|
    ensures Flat(pieces + [piece], j) == Flat(pieces, j)
  {
    if j > 0 {
      FlatSame(pieces, piece, j - 1);
    }
  }

  // ---------------------------------------------------------------- accepted rows

  predicate AllPieces(l: Layout, per: nat, pieces: seq<seq<Token>>) {
    forall i :: 0 <= i < |pieces| ==> 3 <= |pieces[i]| <= 3 + per && pieces[i][1] == l.special.mask
  }

  lemma {:induction false} PiecesShape(l: Layout, enc: Encoder, per: nat, options: seq<string>, n: nat)
    requires n <= |options| && Pieces(l, enc, per, options, n).Some?
    ensures AllPieces(l, per, Pieces(l, enc, per, options, n).value)
  {
    if n > 0 {
      PiecesShape(l, enc, per, options, n - 1);
    }
  }

  lemma MarkersIncrease(l: Layout, asked: seq<Token>, pieces: seq<seq<Token>>, state: seq<Token>, i: nat, j: nat)
    requires i < j < |pieces|
    ensures Marker(l, asked, pieces, state, i) + |pieces[i]| <= Marker(l, asked, pieces, state, j)
  {
    FlatPrefix(pieces, i + 1, j);
  }

  lemma MarkerHolds(l: Layout, asked: seq<Token>, pieces: seq<seq<Token>>, state: seq<Token>, j: nat)
    requires j < |pieces| && |pieces[j]| >= 3
    ensures
      var m, uncut := Marker(l, asked, pieces, state, j), Uncut(l, QuestionIds(l, asked, pieces), state);
      m < |uncut| && uncut[m] == pieces[j][1]
  {
    var before := Flat(pieces, j);
    FlatPrefix(pieces, j + 1, |pieces|);
    assert All(pieces)[|before| + 1] == Flat(pieces, j + 1)[|before| + 1] == pieces[j][1];
    assert QuestionIds(l, asked, pieces)[|asked| + |before| + 1] == pieces[j][1];
  }

  /** At most `max_len` tokens; a marker per option, in order, each in range and on a mask token. */
  predicate Sound(l: Layout, row: Row, options: nat) {
    |row.ids| <= l.maxLen && |row.markers| == options &&
    (forall j :: 0 <= j < |row.markers| ==> row.markers[j] < |row.ids| && row.ids[row.markers[j]] == l.special.mask) &&
    forall i, j :: 0 <= i < j < |row.markers| ==> row.markers[i] < row.markers[j]
  }

  /**
   The row is the opening tokens, `kept` tokens of the state and the question; as much of the state as fits, and no more: a
   state that is there pushes nothing out.
   */
  predicate KeepsState(l: Layout, row: Row, question: seq<Token>, kept: nat, state: seq<Token>) {
    kept <= |state| && row.ids == Take([l.special.bos, l.special.state] + state[..kept] + question, l.maxLen) &&
    (row.stateTruncated <==> kept < |state|) && (row.stateTruncated ==> |row.ids| == l.maxLen) &&
    (kept > 0 ==> 2 + kept + |question| <= l.maxLen)
  }

  lemma RowOfIsSound(l: Layout, asked: seq<Token>, pieces: seq<seq<Token>>, state: seq<Token>, per: nat)
    requires RowOf(l, asked, pieces, state).Success? && AllPieces(l, per, pieces)
    ensures
      var row, question := RowOf(l, asked, pieces, state).value, QuestionIds(l, asked, pieces);
      Sound(l, row, |pieces|) && KeepsState(l, row, question, Kept(l, question, state), state)
  {
    var row, question := RowOf(l, asked, pieces, state).value, QuestionIds(l, asked, pieces);
    forall j | 0 <= j < |pieces| ensures row.markers[j] < |row.ids| && row.ids[row.markers[j]] == l.special.mask {
      hide QuestionIds, Uncut;
      MarkerHolds(l, asked, pieces, state, j);
      if j < |pieces| - 1 { MarkersIncrease(l, asked, pieces, state, j, |pieces| - 1); }
    }
    forall i, j | 0 <= i < j < |pieces| ensures row.markers[i] < row.markers[j] {
      MarkersIncrease(l, asked, pieces, state, i, j);
    }
  }

  lemma Encodes(l: Layout, enc: Encoder, state: seq<Token>, instructions: string, c: Criteria)
    returns (options: seq<string>, asked: seq<Token>, pieces: seq<seq<Token>>)
    requires EncodeOf(l, enc, state, instructions, c).Success?
    ensures Options(c) == Success(options) && |pieces| == |options| >= 2 && AllPieces(l, Per(l, |options|), pieces)
    ensures EncodeOf(l, enc, state, instructions, c) == RowOf(l, asked, pieces, state)
    ensures enc(instructions).Some? && asked == Asked(l, |options|, enc(instructions).value)
    ensures Pieces(l, enc, Per(l, |options|), options, |options|) == Some(pieces)
  {
    options := Options(c).value;
    asked := Asked(l, |options|, enc(instructions).value);
    pieces := Pieces(l, enc, Per(l, |options|), options, |options|).value;
    PiecesShape(l, enc, Per(l, |options|), options, |options|);
  }

  /** In every accepted row each marker, after the shift past the state, holds the mask token. */
  lemma RowIsSound(l: Layout, enc: Encoder, state: seq<Token>, instructions: string, c: Criteria)
    requires EncodeOf(l, enc, state, instructions, c).Success?
    ensures
      var row := EncodeOf(l, enc, state, instructions, c).value;
      Options(c).Success? && var options := Options(c).value;
      var pieces := Pieces(l, enc, Per(l, |options|), options, |options|);
      Sound(l, row, |options|) && enc(instructions).Some? && pieces.Some? &&
      var question := QuestionIds(l, Asked(l, |options|, enc(instructions).value), pieces.value);
      exists kept: nat :: KeepsState(l, row, question, kept, state)
  {
    hide *;
    var options, asked, pieces := Encodes(l, enc, state, instructions, c);
    RowOfIsSound(l, asked, pieces, state, Per(l, |options|));
  }

  // ---------------------------------------------------------------- questions always fit

  /** The budgets that the model's `decision.json` declares. */
  predicate Declared(l: Layout) {
    l.budget == Budget(24, 32, 96, 16, 2)
  }

  lemma {:induction false} FlatBound(l: Layout, per: nat, pieces: seq<seq<Token>>, n: nat)
    requires n <= |pieces| && AllPieces(l, per, pieces)
    ensures |Flat(pieces, n)| <= n * (3 + per)
  {
    if n > 0 {
      FlatBound(l, per, pieces, n - 1);
      OneMore(n - 1, 3 + per);
    }
  }

  /** The question and the opening tokens: at most three more than the context holds. */
  lemma QuestionBound(l: Layout, k: nat, tokens: seq<Token>, pieces: seq<seq<Token>>)
    requires Declared(l) && k >= 2 && |pieces| == k && AllPieces(l, Per(l, k), pieces) && l.maxLen >= Max(192, 10 * k)
    ensures |QuestionIds(l, Asked(l, k, tokens), pieces)| + 2 <= l.maxLen + 3
    ensures |Asked(l, k, tokens)| + |Flat(pieces, k - 1)| + 3 < l.maxLen
  {
    var asked, per := Asked(l, k, tokens), Per(l, k);
    assert |asked| <= BudgetFor(l, k);
    Shortened(l, asked, pieces, k, per, BudgetFor(l, k));
  }

  lemma Shortened(l: Layout, asked: seq<Token>, pieces: seq<seq<Token>>, k: nat, per: nat, budget: nat)
    requires k >= 2 && |pieces| == k && AllPieces(l, per, pieces)
    requires |asked| <= budget <= l.maxLen / 2 && k * (3 + per) <= Max(budget, 5 * k) && 10 * k <= l.maxLen
    ensures |QuestionIds(l, asked, pieces)| + 2 <= l.maxLen + 3
    ensures |asked| + |Flat(pieces, k - 1)| + 3 < l.maxLen
  {
    FlatBound(l, per, pieces, k);
    FlatBound(l, per, pieces, k - 1);
    OneMore(k - 1, 3 + per);
  }

  /**
   With the declared budgets and `max_len` at least 192 and ten tokens an option, the options of a question are never refused,
   and of the opening tokens, the state that fits and the whole question, at most the last three tokens are cut.
   */
  lemma AlwaysFits(l: Layout, enc: Encoder, state: seq<Token>, instructions: string, c: Criteria)
    requires Declared(l) && Options(c).Success? && l.maxLen >= Max(192, 10 * |Options(c).value|)
    ensures
      var options := Options(c).value;
      EncodeOf(l, enc, state, instructions, c) != Failure(DoesNotFit) &&
      (EncodeOf(l, enc, state, instructions, c).Success? <==>
         enc(instructions).Some? && Pieces(l, enc, Per(l, |options|), options, |options|).Some?)
    ensures EncodeOf(l, enc, state, instructions, c).Success? ==>
              var options := Options(c).value;
              var pieces := Pieces(l, enc, Per(l, |options|), options, |options|).value;
              var question := QuestionIds(l, Asked(l, |options|, enc(instructions).value), pieces);
              CutBy(EncodeOf(l, enc, state, instructions, c).value, Uncut(l, question, state), 3)
  {
    var options := Options(c).value;
    var k := |options|;
    var read := Pieces(l, enc, Per(l, k), options, k);
    if enc(instructions).Some? && read.Some? {
      PiecesShape(l, enc, Per(l, k), options, k);
      var asked, pieces := Asked(l, k, enc(instructions).value), read.value;
      QuestionBound(l, k, enc(instructions).value, pieces);
      Fits(l, asked, pieces, state);
    }
  }

  /** The row is `uncut` without at most `n` of its last tokens. */
  predicate CutBy(row: Row, uncut: seq<Token>, n: nat) {
    row.ids <= uncut && |uncut| <= |row.ids| + n
  }

  lemma Fits(l: Layout, asked: seq<Token>, pieces: seq<seq<Token>>, state: seq<Token>)
    requires pieces != [] && |QuestionIds(l, asked, pieces)| + 2 <= l.maxLen + 3 && |asked| + |Flat(pieces, |pieces| - 1)| + 3 < l.maxLen
    requires |pieces[|pieces| - 1]| >= 3
    ensures RowOf(l, asked, pieces, state).Success?
    ensures CutBy(RowOf(l, asked, pieces, state).value, Uncut(l, QuestionIds(l, asked, pieces), state), 3)
  {
  }
}
