/**
 `clef-joint-v1` (crates/ollaya-decision/src/clef.rs): one token sequence per request, the state cut to what the
 questions leave, and the token spans of every instruction and option.
 */
module Clef {
  import opened TokenIds
  import opened Wrappers
  import opened Arithmetic
  import opened Collections
  import opened QuestionTypes
  import opened Text
  import opened ClefSpans

  /** JSON, an object's members in the caller's order. */
  datatype Value = Null | Bool(b: bool) | Num(text: string) | Str(s: string) | Arr(items: seq<Value>) | Obj(members: seq<(string, Value)>)

  datatype Prompt = Prompt(prefix: string, schema: string, field: string, options: string, option: string,
                           optionEnd: string, fieldEnd: string, suffix: string)

  datatype Layout = Layout(prompt: Prompt, noulTrue: Value, noulFalse: Value, maxTokens: nat, typeIndex: QType -> int)

  /** What the layout takes from elsewhere: the tokenizer (None: an error) and canonical JSON. */
  datatype Tools = Tools(tok: string -> Option<seq<Token>>, dumps: Value -> string)

  datatype Question = Question(qid: string, qtype: QType, typeIndex: int, span: Span, options: seq<Span>, optionIds: seq<string>)

  datatype Row = Row(ids: seq<Token>, questions: seq<Question>, stateTokens: nat, stateTruncated: bool)

  datatype Error = NoQuestions | BadQuestion(qid: string) | EmptyInstructions(qid: string) | TooLong(fixed: nat) | Tokenizer

  type Described = (string, Option<Value>)

  // ---------------------------------------------------------------- JSON

  function Get(members: seq<(string, Value)>, key: string): Option<Value> {
    if members == [] then None
    else if members[0].0 == key then Some(members[0].1)
    else Get(members[1..], key)
  }

  function Member(v: Value, key: string): Option<Value> {
    if v.Obj? then Get(v.members, key) else None
  }

  function Render(t: Tools, v: Value): string {
    if v.Str? then v.s else t.dumps(v)
  }

  function DescribedOf(v: Value): Option<Value> {
    if v.Null? then None else Some(v)
  }

  // ---------------------------------------------------------------- template substitution

  /** The first variable whose name starts `rest`. */
  function FirstVar(rest: string, vars: seq<(string, string)>): (r: Option<(string, string)>)
    ensures r.Some? ==> r.value in vars && r.value.0 <= rest
    ensures r.None? ==> forall v <- vars :: !(v.0 <= rest)
  {
    if vars == [] then None else if vars[0].0 <= rest then Some(vars[0]) else FirstVar(rest, vars[1..])
  }

  predicate Named(vars: seq<(string, string)>) {
    forall v <- vars :: v.0 != []
  }

  function Filled(rest: string, vars: seq<(string, string)>): string
    requires Named(vars)
    decreases |rest|
  {
    if rest == [] then []
    else
      match FirstVar(rest, vars)
      case Some((name, value)) => value + Filled(rest[|name|..], vars)
      case None => [rest[0]] + Filled(rest[1..], vars)
  }

  method Fill(template: string, vars: seq<(string, string)>) returns (out: string)
    requires Named(vars)
    ensures out == Filled(template, vars)
  {
    out := [];
    var rest := template;
    while rest != []
      invariant out + Filled(rest, vars) == Filled(template, vars)
      decreases |rest|
    {
      var hit := FirstVar(rest, vars);
      ghost var done, left := out, rest;
      if hit.Some? {
        out, rest := out + hit.value.1, rest[|hit.value.0|..];
        Associative(done, hit.value.1, Filled(rest, vars));
      } else {
        out, rest := out + [rest[0]], rest[1..];
        Associative(done, [left[0]], Filled(rest, vars));
      }
    }
  }

  /** A template read as text and variables, by index. */
  datatype Piece = Text(text: string) | Var(k: nat)

  predicate Indexed(pieces: seq<Piece>, vars: seq<(string, string)>) {
    forall p <- pieces :: p.Var? ==> p.k < |vars|
  }

  function Template(pieces: seq<Piece>, vars: seq<(string, string)>): string
    requires Indexed(pieces, vars)
  {
    if pieces == [] then []
    else (match pieces[0] case Text(t) => t case Var(k) => vars[k].0) + Template(pieces[1..], vars)
  }

  function Substituted(pieces: seq<Piece>, vars: seq<(string, string)>): string
    requires Indexed(pieces, vars)
  {
    if pieces == [] then []
    else (match pieces[0] case Text(t) => t case Var(k) => vars[k].1) + Substituted(pieces[1..], vars)
  }

  /** Variable `k` is the first of the list that starts `s`. */
  predicate Starts(k: nat, s: string, vars: seq<(string, string)>) {
    k < |vars| && vars[k].0 <= s && forall j: nat :: j < k ==> !(vars[j].0 <= s)
  }

  /** No variable starts in the first `n` places of `s`. */
  predicate Plain(s: string, n: nat, vars: seq<(string, string)>)
    requires n <= |s|
  {
    forall i, v | 0 <= i < n && v in vars :: !(v.0 <= s[i..])
  }

  /** The leftmost reading: no variable starts inside a text, and each variable is the first of the list at its place. */
  predicate Reading(pieces: seq<Piece>, vars: seq<(string, string)>)
    requires Indexed(pieces, vars)
  {
    pieces == [] || (ReadsFirst(pieces[0], Template(pieces[1..], vars), vars) && Reading(pieces[1..], vars))
  }

  predicate ReadsFirst(p: Piece, rest: string, vars: seq<(string, string)>)
    requires p.Var? ==> p.k < |vars|
  {
    match p
    case Text(t) => Plain(t + rest, |t|, vars)
    case Var(k) => Starts(k, vars[k].0 + rest, vars)
  }

  lemma {:induction false} FirstVarStarts(k: nat, s: string, vars: seq<(string, string)>)
    requires Starts(k, s, vars)
    ensures FirstVar(s, vars) == Some(vars[k])
  {
    if k > 0 {
      assert !(vars[0].0 <= s);
      assert forall j: nat :: j < k - 1 ==> vars[1..][j] == vars[j + 1];
      FirstVarStarts(k - 1, s, vars[1..]);
    }
  }

  lemma {:induction false} PlainIsCopied(s: string, n: nat, vars: seq<(string, string)>)
    requires Named(vars) && n <= |s| && Plain(s, n, vars)
    ensures Filled(s, vars) == s[..n] + Filled(s[n..], vars)
  {
    if n == 0 {
      assert s[0..] == s;
    } else {
      hide Filled;
      PlainIsCopied(s, n - 1, vars);
      CharacterCopied(s, n - 1, vars);
      assert s[..n] == s[..n - 1] + [s[n - 1]];
      Associative(s[..n - 1], [s[n - 1]], Filled(s[n..], vars));
    }
  }

  lemma CharacterCopied(s: string, i: nat, vars: seq<(string, string)>)
    requires Named(vars) && i < |s| && Plain(s, i + 1, vars)
    ensures Filled(s[i..], vars) == [s[i]] + Filled(s[i + 1..], vars)
  {
    assert s[i..][1..] == s[i + 1..];
    assert FirstVar(s[i..], vars).None?;
  }

  /**
   Every variable of a template is replaced, by its value as it is: a value that looks like a variable is never replaced
   in turn, and neither is a name that a value and the text around it make up.
   */
  lemma {:induction false} FilledOnce(pieces: seq<Piece>, vars: seq<(string, string)>)
    requires Named(vars) && Indexed(pieces, vars) && Reading(pieces, vars)
    ensures Filled(Template(pieces, vars), vars) == Substituted(pieces, vars)
  {
    if pieces != [] {
      FilledOnce(pieces[1..], vars);
      var s, rest := Template(pieces, vars), Template(pieces[1..], vars);
      match pieces[0] {
        case Text(t) =>
          assert s[..|t|] == t && s[|t|..] == rest;
          PlainIsCopied(s, |t|, vars);
        case Var(k) =>
          assert s[|vars[k].0|..] == rest;
          FirstVarStarts(k, s, vars);
      }
    }
  }

  lemma {:induction false} SomeStarts(s: string, vars: seq<(string, string)>) returns (k: nat)
    requires FirstVar(s, vars).Some?
    ensures Starts(k, s, vars)
  {
    if vars[0].0 <= s {
      k := 0;
    } else {
      var k' := SomeStarts(s, vars[1..]);
      k := k' + 1;
      assert forall j: nat :: 0 < j < k ==> vars[j] == vars[1..][j - 1];
    }
  }

  lemma ReadingCons(p: Piece, pieces: seq<Piece>, vars: seq<(string, string)>)
    requires Indexed(pieces, vars) && Reading(pieces, vars) && (p.Var? ==> p.k < |vars|)
    requires ReadsFirst(p, Template(pieces, vars), vars)
    ensures Indexed([p] + pieces, vars) && Reading([p] + pieces, vars)
    ensures Template([p] + pieces, vars) == (if p.Text? then p.text else vars[p.k].0) + Template(pieces, vars)
  {
    hide ReadsFirst;
    assert ([p] + pieces)[1..] == pieces;
  }

  lemma NoPieces(vars: seq<(string, string)>) returns (pieces: seq<Piece>)
    ensures Indexed(pieces, vars) && Reading(pieces, vars) && Template(pieces, vars) == []
  {
    pieces := [];
  }

  /** Every template has such a reading. */
  lemma {:induction false} TemplateReads(template: string, vars: seq<(string, string)>) returns (pieces: seq<Piece>)
    requires Named(vars)
    ensures Indexed(pieces, vars) && Reading(pieces, vars) && Template(pieces, vars) == template
    decreases |template|
  {
    hide Indexed, Reading;
    if template == [] {
      pieces := NoPieces(vars);
    } else if FirstVar(template, vars).Some? {
      var k := SomeStarts(template, vars);
      var rest := TemplateReads(template[|vars[k].0|..], vars);
      assert vars[k].0 + Template(rest, vars) == template;
      ReadingCons(Var(k), rest, vars);
      pieces := [Var(k)] + rest;
    } else {
      var rest := TemplateReads(template[1..], vars);
      assert template[..1] + Template(rest, vars) == template && template[0..] == template;
      ReadingCons(Text(template[..1]), rest, vars);
      pieces := [Text(template[..1])] + rest;
    }
  }

  /** At most one variable of a field starts at a place. */
  lemma FieldVarsApart(i: nat, qid: string, qtype: QType, s: string)
    ensures var vars := FieldVars(i, qid, qtype);
            forall a, b :: 0 <= a < |vars| && 0 <= b < |vars| && vars[a].0 <= s && vars[b].0 <= s ==> a == b
  {
    var vars := FieldVars(i, qid, qtype);
    assert vars[0].0[1] == 'n' && vars[1].0[1] == 'i' && vars[2].0[1] == 't';
    forall a, b | 0 <= a < |vars| && 0 <= b < |vars| && vars[a].0 <= s && vars[b].0 <= s ensures a == b {
      assert vars[a].0[1] == s[1] == vars[b].0[1];
    }
  }

  // ---------------------------------------------------------------- a question's options

  function Insert(o: Described, sorted: seq<Described>): seq<Described> {
    if sorted == [] then [o]
    else if Lexicographic(o.0, sorted[0].0) then [o] + sorted
    else [sorted[0]] + Insert(o, sorted[1..])
  }

  /** `sort_by` option id, in code-point order. */
  function Sorted(opts: seq<Described>): seq<Described> {
    if opts == [] then [] else Insert(opts[0], Sorted(opts[1..]))
  }

  lemma {:induction false} InsertSorts(o: Described, sorted: seq<Described>)
    requires forall i, j :: 0 <= i < j < |sorted| ==> Lexicographic(sorted[i].0, sorted[j].0)
    ensures var r := Insert(o, sorted); forall i, j :: 0 <= i < j < |r| ==> Lexicographic(r[i].0, r[j].0)
  {
    if sorted != [] {
      LexicographicTotal(o.0, sorted[0].0);
      if Lexicographic(o.0, sorted[0].0) {
        forall j | 0 <= j < |sorted| ensures Lexicographic(o.0, sorted[j].0) {
          if j > 0 { LexicographicTransitive(o.0, sorted[0].0, sorted[j].0); }
        }
      } else {
        InsertSorts(o, sorted[1..]);
        hide Lexicographic;
        var r := Insert(o, sorted[1..]);
        forall j | 0 <= j < |r| ensures Lexicographic(sorted[0].0, r[j].0) {
          InsertPermutes(o, sorted[1..]);
          assert r[j] in multiset(r);
          assert r[j] == o || r[j] in sorted[1..];
        }
      }
    }
  }

  lemma {:induction false} InsertPermutes(o: Described, sorted: seq<Described>)
    ensures multiset(Insert(o, sorted)) == multiset{o} + multiset(sorted)
  {
    if sorted != [] {
      assert sorted == [sorted[0]] + sorted[1..];
      InsertPermutes(o, sorted[1..]);
    }
  }

  lemma {:induction false} SortedSorts(opts: seq<Described>)
    ensures var r := Sorted(opts); forall i, j :: 0 <= i < j < |r| ==> Lexicographic(r[i].0, r[j].0)
    ensures multiset(Sorted(opts)) == multiset(opts)
  {
    if opts != [] {
      SortedSorts(opts[1..]);
      InsertSorts(opts[0], Sorted(opts[1..]));
      InsertPermutes(opts[0], Sorted(opts[1..]));
      assert opts == [opts[0]] + opts[1..];
    }
  }

  function Described1(members: seq<(string, Value)>): seq<Described> {
    seq(|members|, i requires 0 <= i < |members| => (members[i].0, DescribedOf(members[i].1)))
  }

  function Or(v: Option<Value>, default: Value): Value {
    if v.Some? then v.value else default
  }

  /** `ClefLayout::options`: a question's type and its options, noul as true and false, a choice's labels sorted, levels in order. */
  function Options(l: Layout, def: Value): Option<(QType, seq<Described>)> {
    if !def.Obj? then None
    else
      var crit := Or(Get(def.members, "criteria"), Null);
      match Get(def.members, "type")
      case Some(Str("noul")) =>
        if crit.Null? || crit.Obj? then
          var yes, no := Or(Member(crit, "true"), l.noulTrue), Or(Member(crit, "false"), l.noulFalse);
          Some((Noul, [("true", DescribedOf(yes)), ("false", DescribedOf(no))]))
        else None
      case Some(Str("choice")) =>
        if crit.Obj? && crit.members != [] then Some((Choice, Sorted(Described1(crit.members)))) else None
      case Some(Str("score")) =>
        if crit.Arr? && crit.items != [] then
          Some((Score, seq(|crit.items|, i requires 0 <= i < |crit.items| => (Decimal(i), DescribedOf(crit.items[i])))))
        else None
      case _ => None
  }

  // ---------------------------------------------------------------- the texts of a question, and their tokens

  function FieldVars(i: nat, qid: string, qtype: QType): (r: seq<(string, string)>)
    ensures Named(r)
  {
    [("{n}", Decimal(i + 1)), ("{id}", qid), ("{type}", qtype.Name())]
  }

  function OptionVars(j: nat): (r: seq<(string, string)>)
    ensures Named(r)
  {
    [("{n}", Decimal(j + 1))]
  }

  function Instructions(t: Tools, qid: string, def: Value): string {
    match Member(def, "instructions")
    case None => qid
    case Some(Null) => qid
    case Some(Str("")) => qid
    case Some(v) => Render(t, v)
  }

  function SemanticsText(t: Tools, o: Described): string {
    Render(t, Obj([("option_id", Str(o.0))] + if o.1.Some? then [("description", o.1.value)] else []))
  }

  /** A question's texts, before they are tokenized. */
  datatype Parts = Parts(qid: string, qtype: QType, options: seq<Described>, field: string, instructions: string)

  /** Question `i`'s texts; None: its definition is not valid. */
  function PartsOf(l: Layout, t: Tools, defs: seq<(string, Value)>, i: nat): (r: Option<Parts>)
    requires i < |defs|
    ensures r.Some? ==> r.value.qid == defs[i].0
  {
    var (qid, def) := defs[i];
    var (qtype, opts) :- Options(l, def);
    Some(Parts(qid, qtype, opts, Filled(l.prompt.field, FieldVars(i, qid, qtype)), Instructions(t, qid, def)))
  }

  function OptionTokensOf(l: Layout, t: Tools, o: Described, j: nat): Option<OptionTokens> {
    var lead :- t.tok(Filled(l.prompt.option, OptionVars(j)));
    var body :- t.tok(SemanticsText(t, o));
    var end :- t.tok(l.prompt.optionEnd);
    Some(OptionTokens(lead, body, end))
  }

  /** The first `n` options' tokens; None: the tokenizer failed. */
  function OptionsTokensOf(l: Layout, t: Tools, opts: seq<Described>, n: nat): (r: Option<seq<OptionTokens>>)
    requires n <= |opts|
    ensures r.Some? ==> |r.value| == n
  {
    if n == 0 then Some([])
    else
      var rest :- OptionsTokensOf(l, t, opts, n - 1);
      var o :- OptionTokensOf(l, t, opts[n - 1], n - 1);
      Some(rest + [o])
  }

  function Tokenized(t: Tools, text: string): Result<seq<Token>, Error> {
    match t.tok(text) case Some(ids) => Success(ids) case None => Failure(Tokenizer)
  }

  /** A question's tokens, or the first error in the order they are needed. */
  function TokensOf(l: Layout, t: Tools, q: Parts): Result<QuestionTokens, Error>
  {
    var field :- Tokenized(t, q.field);
    var instructions :- Tokenized(t, q.instructions);
    if instructions == [] then Failure(EmptyInstructions(q.qid))
    else
      var header :- Tokenized(t, l.prompt.options);
      match OptionsTokensOf(l, t, q.options, |q.options|)
      case None => Failure(Tokenizer)
      case Some(options) =>
        var end :- Tokenized(t, l.prompt.fieldEnd);
        Success(QuestionTokens(field, instructions, header, options, end))
  }

  datatype Questions = Questions(parts: seq<Parts>, tokens: seq<QuestionTokens>)

  /** The first `n` questions, or the first error. */
  function ReadAll(l: Layout, t: Tools, defs: seq<(string, Value)>, n: nat): (r: Result<Questions, Error>)
    requires n <= |defs|
    ensures r.Success? ==> |r.value.parts| == |r.value.tokens| == n
  {
    if n == 0 then Success(Questions([], []))
    else
      var qs :- ReadAll(l, t, defs, n - 1);
      match PartsOf(l, t, defs, n - 1)
      case None => Failure(BadQuestion(defs[n - 1].0))
      case Some(q) =>
        var tokens :- TokensOf(l, t, q);
        Success(Questions(qs.parts + [q], qs.tokens + [tokens]))
  }

  function Ids(opts: seq<Described>): (r: seq<string>)
    ensures |r| == |opts|
  {
    seq(|opts|, j requires 0 <= j < |opts| => opts[j].0)
  }

  function QuestionOf(l: Layout, q: Parts, at: Place): Question {
    Question(q.qid, q.qtype, l.typeIndex(q.qtype), at.span, at.options, Ids(q.options))
  }

  function QuestionsOf(l: Layout, parts: seq<Parts>, at: seq<Place>): (r: seq<Question>)
    requires |parts| == |at|
    ensures |r| == |parts|
  {
    seq(|parts|, i requires 0 <= i < |parts| => QuestionOf(l, parts[i], at[i]))
  }

  function Moved(qs: seq<Question>, off: nat): (r: seq<Question>)
    ensures |r| == |qs|
  {
    seq(|qs|, i requires 0 <= i < |qs| => qs[i].(span := Shift(qs[i].span, off), options := ShiftAll(qs[i].options, off)))
  }

  /** What a row is made of. */
  datatype Pieces = Pieces(prefix: seq<Token>, state: seq<Token>, open: seq<Token>, qs: Questions, suffix: seq<Token>)

  /** The row the documentation describes: prefix, as much of the state as fits, schema, suffix. */
  function RowOf(max: nat, prefix: seq<Token>, state: seq<Token>, schema: seq<Token>, questions: seq<Question>, suffix: seq<Token>): Row
    requires |prefix| + |schema| + |suffix| <= max
  {
    var kept := Min(|state|, max - (|prefix| + |schema| + |suffix|));
    Row(prefix + state[..kept] + schema + suffix, Moved(questions, |prefix| + kept), |state|, kept < |state|)
  }

  function Schema(open: seq<Token>, qs: Questions): seq<Token> {
    SchemaUpTo(open, qs.tokens, |qs.tokens|)
  }

  function Placed(l: Layout, open: seq<Token>, qs: Questions): seq<Question>
    requires |qs.parts| == |qs.tokens|
  {
    QuestionsOf(l, qs.parts, Places(open, qs.tokens))
  }

  function PiecesOf(l: Layout, t: Tools, state: Value, defs: seq<(string, Value)>): (r: Result<Pieces, Error>)
    ensures r.Success? ==> |r.value.qs.parts| == |r.value.qs.tokens| == |defs|
  {
    if defs == [] then Failure(NoQuestions)
    else
      var open :- Tokenized(t, l.prompt.schema);
      var qs :- ReadAll(l, t, defs, |defs|);
      var prefix :- Tokenized(t, l.prompt.prefix);
      var suffix :- Tokenized(t, l.prompt.suffix);
      var ids :- Tokenized(t, Render(t, state));
      Success(Pieces(prefix, ids, open, qs, suffix))
  }

  function Assembled(max: nat, prefix: seq<Token>, state: seq<Token>, schema: seq<Token>, questions: seq<Question>, suffix: seq<Token>)
    : Result<Row, Error>
  {
    var fixed := |prefix| + |schema| + |suffix|;
    if fixed > max then Failure(TooLong(fixed)) else Success(RowOf(max, prefix, state, schema, questions, suffix))
  }

  function EncodeOf(l: Layout, t: Tools, state: Value, defs: seq<(string, Value)>): Result<Row, Error> {
    var p :- PiecesOf(l, t, state, defs);
    Assembled(l.maxTokens, p.prefix, p.state, Schema(p.open, p.qs), Placed(l, p.open, p.qs), p.suffix)
  }

  // ---------------------------------------------------------------- one step of each list

  lemma {:induction false} OptionsFail(l: Layout, t: Tools, opts: seq<Described>, j: nat)
    requires j <= |opts| && OptionsTokensOf(l, t, opts, j).None?
    ensures OptionsTokensOf(l, t, opts, |opts|).None?
    decreases |opts| - j
  {
    if j < |opts| {
      OptionsFail(l, t, opts, j + 1);
    }
  }

  lemma {:induction false} OptionBody(l: Layout, t: Tools, opts: seq<Described>, n: nat, j: nat)
    requires j < n <= |opts| && OptionsTokensOf(l, t, opts, n).Some?
    ensures t.tok(SemanticsText(t, opts[j])) == Some(OptionsTokensOf(l, t, opts, n).value[j].body)
  {
    if j < n - 1 {
      OptionBody(l, t, opts, n - 1, j);
    }
  }

  lemma InstructionsTokens(l: Layout, t: Tools, q: Parts)
    requires TokensOf(l, t, q).Success?
    ensures var r := TokensOf(l, t, q).value;
            t.tok(q.instructions) == Some(r.instructions) && r.instructions != [] && |r.options| == |q.options| &&
            OptionsTokensOf(l, t, q.options, |q.options|) == Some(r.options)
  {
  }

  lemma {:induction false} ReadAllFails(l: Layout, t: Tools, defs: seq<(string, Value)>, i: nat)
    requires i <= |defs| && ReadAll(l, t, defs, i).Failure?
    ensures ReadAll(l, t, defs, |defs|) == ReadAll(l, t, defs, i)
    decreases |defs| - i
  {
    if i < |defs| {
      ReadAllFails(l, t, defs, i + 1);
    }
  }

  lemma ReadStep(l: Layout, t: Tools, defs: seq<(string, Value)>, i: nat, qs: Questions)
    requires i < |defs| && ReadAll(l, t, defs, i) == Success(qs)
    ensures ReadAll(l, t, defs, i + 1) ==
            match PartsOf(l, t, defs, i)
            case None => Failure(BadQuestion(defs[i].0))
            case Some(q) =>
              match TokensOf(l, t, q)
              case Failure(e) => Failure(e)
              case Success(tokens) => Success(Questions(qs.parts + [q], qs.tokens + [tokens]))
  {
  }

  lemma {:induction false} ReadAt(l: Layout, t: Tools, defs: seq<(string, Value)>, n: nat, i: nat)
    requires i < n <= |defs| && ReadAll(l, t, defs, n).Success?
    ensures var r := ReadAll(l, t, defs, n).value;
            PartsOf(l, t, defs, i) == Some(r.parts[i]) && TokensOf(l, t, r.parts[i]) == Success(r.tokens[i])
  {
    if i < n - 1 {
      ReadAt(l, t, defs, n - 1, i);
    }
  }

  /** A question's place when its tokens start at `at`. */
  function PlaceAt(tokens: QuestionTokens, at: nat): Place {
    var a := at + |tokens.field|;
    Place((a, a + |tokens.instructions|), OptionSpans(tokens.options, at + |Head(tokens)|))
  }

  /** One more question, given what it encodes to. */
  function Extended(l: Layout, q: Parts, tokens: QuestionTokens, schema: seq<Token>, questions: seq<Question>)
    : (seq<Token>, seq<Question>)
  {
    (schema + Whole(tokens), questions + [QuestionOf(l, q, PlaceAt(tokens, |schema|))])
  }

  function EncodedQs(l: Layout, open: seq<Token>, qs: Questions): (seq<Token>, seq<Question>)
    requires |qs.parts| == |qs.tokens|
  {
    (Schema(open, qs), Placed(l, open, qs))
  }

  /** One more question is placed after the others. */
  lemma PlacedSnoc(l: Layout, open: seq<Token>, qs: Questions, q: Parts, tokens: QuestionTokens)
    requires |qs.parts| == |qs.tokens|
    ensures EncodedQs(l, open, Questions(qs.parts + [q], qs.tokens + [tokens])) ==
            Extended(l, q, tokens, Schema(open, qs), Placed(l, open, qs))
  {
    QuestionSnoc(open, qs.tokens, tokens);
    var places := Places(open, qs.tokens);
    var place := PlaceAt(tokens, |Schema(open, qs)|);
    assert Places(open, qs.tokens + [tokens]) == places + [place];
    assert QuestionsOf(l, qs.parts + [q], places + [place]) == QuestionsOf(l, qs.parts, places) + [QuestionOf(l, q, place)];
  }

  // ---------------------------------------------------------------- the code

  /** One option, appended to the schema; None: the tokenizer failed. */
  method EncodeOption(l: Layout, t: Tools, o: Described, j: nat, schema0: seq<Token>) returns (r: Option<(seq<Token>, Span)>)
    ensures r == match OptionTokensOf(l, t, o, j)
                 case None => None
                 case Some(o) => Some((schema0 + o.lead + o.body + o.end,
                                       (|schema0| + |o.lead|, |schema0| + |o.lead| + |o.body|)))
  {
    var text := Fill(l.prompt.option, OptionVars(j));
    var lead := t.tok(text);
    if lead.None? { return None; }
    var schema := schema0 + lead.value;
    var a := |schema|;
    var body := t.tok(SemanticsText(t, o));
    if body.None? { return None; }
    schema := schema + body.value;
    var span := (a, |schema|);
    var end := t.tok(l.prompt.optionEnd);
    if end.None? { return None; }
    return Some((schema + end.value, span));
  }

  /** Options after `schema`: the tokens so far, the spans, the option ids. */
  function Listed(schema: seq<Token>, o: seq<OptionTokens>, ids: seq<string>): (seq<Token>, seq<Span>, seq<string>) {
    (schema + OptionsUpTo(o, |o|), OptionSpans(o, |schema|), ids)
  }

  lemma ListedSnoc(schema: seq<Token>, done: seq<OptionTokens>, ids: seq<string>, o: OptionTokens, id: string)
    ensures
      var (out, spans, ids) := Listed(schema, done, ids);
      Listed(schema, done + [o], ids + [id]) ==
      (out + o.lead + o.body + o.end, spans + [(|out| + |o.lead|, |out| + |o.lead| + |o.body|)], ids + [id])
  {
    OptionSnoc(done, o, |schema|);
    var d := OptionsUpTo(done, |done|);
    assert schema + (d + o.lead + o.body + o.end) == schema + d + o.lead + o.body + o.end;
  }

  function EncodedOptions(l: Layout, t: Tools, opts: seq<Described>, schema: seq<Token>, n: nat)
    : Option<(seq<Token>, seq<Span>, seq<string>)>
    requires n <= |opts|
  {
    var o :- OptionsTokensOf(l, t, opts, n);
    Some(Listed(schema, o, Ids(opts[..n])))
  }

  lemma EncodedOptionsStep(l: Layout, t: Tools, opts: seq<Described>, schema: seq<Token>, j: nat,
                           out: seq<Token>, spans: seq<Span>, ids: seq<string>)
    requires j < |opts| && EncodedOptions(l, t, opts, schema, j) == Some((out, spans, ids))
    ensures EncodedOptions(l, t, opts, schema, j + 1) ==
            match OptionTokensOf(l, t, opts[j], j)
            case None => None
            case Some(o) =>
              var a := |out| + |o.lead|;
              Some((out + o.lead + o.body + o.end, spans + [(a, a + |o.body|)], ids + [opts[j].0]))
  {
    var done := OptionsTokensOf(l, t, opts, j).value;
    assert Ids(opts[..j + 1]) == Ids(opts[..j]) + [opts[j].0];
    var next := OptionTokensOf(l, t, opts[j], j);
    match next {
      case None =>
      case Some(o) => ListedSnoc(schema, done, Ids(opts[..j]), o, opts[j].0);
    }
  }

  /** One question's options, appended to the schema; None: the tokenizer failed. */
  method EncodeOptions(l: Layout, t: Tools, opts: seq<Described>, schema: seq<Token>)
    returns (r: Option<(seq<Token>, seq<Span>, seq<string>)>)
    ensures r == EncodedOptions(l, t, opts, schema, |opts|)
  {
    var out, spans: seq<Span>, ids: seq<string> := schema, [], [];
    assert schema + [] == schema;
    for j := 0 to |opts|
      invariant EncodedOptions(l, t, opts, schema, j) == Some((out, spans, ids))
    {
      EncodedOptionsStep(l, t, opts, schema, j, out, spans, ids);
      var one := EncodeOption(l, t, opts[j], j, out);
      if one.None? {
        OptionsFail(l, t, opts, j + 1);
        return None;
      }
      out, spans, ids := one.value.0, spans + [one.value.1], ids + [opts[j].0];
    }
    return Some((out, spans, ids));
  }

  /** A question's texts. */
  method ReadQuestion(l: Layout, t: Tools, defs: seq<(string, Value)>, i: nat) returns (q: Option<Parts>)
    requires i < |defs|
    ensures q == PartsOf(l, t, defs, i)
  {
    var (qid, def) := defs[i];
    var options := Options(l, def);
    if options.None? { return None; }
    var (qtype, opts) := options.value;
    var field := Fill(l.prompt.field, FieldVars(i, qid, qtype));
    return Some(Parts(qid, qtype, opts, field, Instructions(t, qid, def)));
  }

  /** One question, appended to the schema, its spans counted from the schema's start. */
  method EncodeQuestion(l: Layout, t: Tools, q: Parts, schema0: seq<Token>) returns (r: Result<(seq<Token>, Question), Error>)
    ensures r == match TokensOf(l, t, q)
                 case Failure(e) => Failure(e)
                 case Success(tokens) => Success((schema0 + Whole(tokens), QuestionOf(l, q, PlaceAt(tokens, |schema0|))))
  {
    var field := t.tok(q.field);
    if field.None? { return Failure(Tokenizer); }
    var schema := schema0 + field.value;
    var start := |schema|;
    var instructions := t.tok(q.instructions);
    if instructions.None? { return Failure(Tokenizer); }
    schema := schema + instructions.value;
    if |schema| == start { return Failure(EmptyInstructions(q.qid)); }
    var span := (start, |schema|);
    var header := t.tok(l.prompt.options);
    if header.None? { return Failure(Tokenizer); }
    schema := schema + header.value;
    var encoded := EncodeOptions(l, t, q.options, schema);
    if encoded.None? { return Failure(Tokenizer); }
    var (rest, spans, optionIds) := encoded.value;
    var end := t.tok(l.prompt.fieldEnd);
    if end.None? { return Failure(Tokenizer); }
    WholeOf(TokensOf(l, t, q).value, schema0);
    assert q.options[..|q.options|] == q.options;
    return Success((rest + end.value, Question(q.qid, q.qtype, l.typeIndex(q.qtype), span, spans, optionIds)));
  }

  lemma WholeOf(q: QuestionTokens, schema0: seq<Token>)
    ensures schema0 + q.field + q.instructions + q.header + OptionsUpTo(q.options, |q.options|) + q.end == schema0 + Whole(q)
    ensures |schema0 + q.field + q.instructions + q.header| == |schema0| + |Head(q)|
  {
  }

  /** The schema of the first `n` questions, and their places in it. */
  function Encoded(l: Layout, t: Tools, defs: seq<(string, Value)>, open: seq<Token>, n: nat): Result<(seq<Token>, seq<Question>), Error>
    requires n <= |defs|
  {
    var qs :- ReadAll(l, t, defs, n);
    Success(EncodedQs(l, open, qs))
  }

  lemma EncodedStep(l: Layout, t: Tools, defs: seq<(string, Value)>, open: seq<Token>, i: nat, schema: seq<Token>, questions: seq<Question>)
    requires i < |defs| && Encoded(l, t, defs, open, i) == Success((schema, questions))
    ensures Encoded(l, t, defs, open, i + 1) ==
            match PartsOf(l, t, defs, i)
            case None => Failure(BadQuestion(defs[i].0))
            case Some(q) =>
              match TokensOf(l, t, q)
              case Failure(e) => Failure(e)
              case Success(tokens) => Success(Extended(l, q, tokens, schema, questions))
  {
    var qs := ReadAll(l, t, defs, i).value;
    ReadStep(l, t, defs, i, qs);
    var part := PartsOf(l, t, defs, i);
    match part {
      case None =>
      case Some(q) =>
        var read := TokensOf(l, t, q);
        match read {
          case Failure(e) =>
          case Success(tokens) => PlacedSnoc(l, open, qs, q, tokens);
        }
    }
  }

  lemma EncodedFails(l: Layout, t: Tools, defs: seq<(string, Value)>, open: seq<Token>, i: nat)
    requires i <= |defs| && Encoded(l, t, defs, open, i).Failure?
    ensures Encoded(l, t, defs, open, |defs|) == Encoded(l, t, defs, open, i)
  {
    ReadAllFails(l, t, defs, i);
  }

  /** All questions, appended to the schema's opening. */
  method EncodeQuestions(l: Layout, t: Tools, defs: seq<(string, Value)>, open: seq<Token>)
    returns (r: Result<(seq<Token>, seq<Question>), Error>)
    ensures r == Encoded(l, t, defs, open, |defs|)
  {
    var schema, questions: seq<Question> := open, [];
    for i := 0 to |defs|
      invariant Encoded(l, t, defs, open, i) == Success((schema, questions))
    {
      var q := ReadQuestion(l, t, defs, i);
      EncodedStep(l, t, defs, open, i, schema, questions);
      if q.None? {
        EncodedFails(l, t, defs, open, i + 1);
        return Failure(BadQuestion(defs[i].0));
      }
      var one := EncodeQuestion(l, t, q.value, schema);
      if one.Failure? {
        EncodedFails(l, t, defs, open, i + 1);
        return Failure(one.error);
      }
      schema, questions := one.value.0, questions + [one.value.1];
    }
    return Success((schema, questions));
  }

  /** Spans counted from the schema's start, moved to the row's. */
  method Rebase(questions: seq<Question>, off: nat) returns (r: seq<Question>)
    ensures r == Moved(questions, off)
  {
    r := questions;
    for i := 0 to |questions|
      invariant |r| == |questions|
      invariant forall k :: 0 <= k < |r| ==> r[k] == if k < i then Moved(questions, off)[k] else questions[k]
    {
      var spans := r[i].options;
      for j := 0 to |spans|
        invariant |spans| == |questions[i].options|
        invariant forall k :: 0 <= k < |spans| ==>
                    spans[k] == if k < j then Shift(questions[i].options[k], off) else questions[i].options[k]
      {
        spans := spans[j := Shift(spans[j], off)];
      }
      assert spans == ShiftAll(questions[i].options, off);
      r := r[i := r[i].(span := Shift(r[i].span, off), options := spans)];
    }
  }

  method Encode(l: Layout, t: Tools, state: Value, defs: seq<(string, Value)>) returns (r: Result<Row, Error>)
    ensures r == EncodeOf(l, t, state, defs)
  {
    if defs == [] { return Failure(NoQuestions); }
    var open := t.tok(l.prompt.schema);
    if open.None? { return Failure(Tokenizer); }
    var encoded := EncodeQuestions(l, t, defs, open.value);
    if encoded.Failure? { return Failure(encoded.error); }
    var (schema, questions) := encoded.value;
    var prefix := t.tok(l.prompt.prefix);
    if prefix.None? { return Failure(Tokenizer); }
    var suffix := t.tok(l.prompt.suffix);
    if suffix.None? { return Failure(Tokenizer); }
    var stateIds := t.tok(Render(t, state));
    if stateIds.None? { return Failure(Tokenizer); }
    r := Assemble(l.maxTokens, prefix.value, stateIds.value, schema, questions, suffix.value);
  }

  /** The end of `encode`: how much of the state fits, the spans moved, the row put together. */
  method Assemble(max: nat, prefix: seq<Token>, stateIds: seq<Token>, schema: seq<Token>, questions: seq<Question>, suffix: seq<Token>)
    returns (r: Result<Row, Error>)
    ensures r == Assembled(max, prefix, stateIds, schema, questions, suffix)
  {
    var fixed := |prefix| + |schema| + |suffix|;
    if fixed > max { return Failure(TooLong(fixed)); }
    var kept := Min(|stateIds|, max - fixed);
    var moved := Rebase(questions, |prefix| + kept);
    var ids := prefix;
    ids := ids + stateIds[..kept];
    ids := ids + schema;
    ids := ids + suffix;
    return Success(Row(ids, moved, |stateIds|, kept < |stateIds|));
  }

  // ---------------------------------------------------------------- what a row guarantees

  /** A row has at most `max_tokens` tokens; the state is cut only as far as it must be, and flagged exactly when it is cut. */
  lemma RowFits(l: Layout, t: Tools, state: Value, defs: seq<(string, Value)>)
    requires EncodeOf(l, t, state, defs).Success?
    ensures
      var row, p := EncodeOf(l, t, state, defs).value, PiecesOf(l, t, state, defs).value;
      t.tok(Render(t, state)) == Some(p.state) && t.tok(l.prompt.prefix) == Some(p.prefix) && t.tok(l.prompt.suffix) == Some(p.suffix) &&
      |row.ids| <= l.maxTokens && row.stateTokens == |p.state| && |row.questions| == |defs| &&
      exists kept ::
        0 <= kept <= |p.state| && row.ids == p.prefix + p.state[..kept] + (Schema(p.open, p.qs) + p.suffix) &&
        (row.stateTruncated <==> kept < |p.state|) && (row.stateTruncated ==> |row.ids| == l.maxTokens)
  {
    var p := PiecesOf(l, t, state, defs).value;
    var schema, questions := Schema(p.open, p.qs), Placed(l, p.open, p.qs);
    var kept := Min(|p.state|, l.maxTokens - (|p.prefix| + |schema| + |p.suffix|));
    Whole3(l.maxTokens, p.prefix, p.state, schema, questions, p.suffix);
  }

  lemma Whole3(max: nat, prefix: seq<Token>, state: seq<Token>, schema: seq<Token>, questions: seq<Question>, suffix: seq<Token>)
    requires |prefix| + |schema| + |suffix| <= max
    ensures
      var row := RowOf(max, prefix, state, schema, questions, suffix);
      var kept := Min(|state|, max - (|prefix| + |schema| + |suffix|));
      |row.ids| <= max && row.ids == prefix + state[..kept] + (schema + suffix) && (row.stateTruncated ==> |row.ids| == max)
  {
  }

  lemma QuestionRead(l: Layout, t: Tools, defs: seq<(string, Value)>, i: nat)
    requires ReadAll(l, t, defs, |defs|).Success? && i < |defs|
    ensures
      var qs := ReadAll(l, t, defs, |defs|).value;
      var q, tokens := qs.parts[i], qs.tokens[i];
      PartsOf(l, t, defs, i) == Some(q) && t.tok(q.instructions) == Some(tokens.instructions) && tokens.instructions != [] &&
      |tokens.options| == |q.options|
  {
    ReadAt(l, t, defs, |defs|, i);
    InstructionsTokens(l, t, ReadAll(l, t, defs, |defs|).value.parts[i]);
  }

  lemma OptionRead(l: Layout, t: Tools, defs: seq<(string, Value)>, i: nat, j: nat)
    requires ReadAll(l, t, defs, |defs|).Success? && i < |defs|
    requires j < |ReadAll(l, t, defs, |defs|).value.parts[i].options| ||
             (PartsOf(l, t, defs, i).Some? && j < |PartsOf(l, t, defs, i).value.options|)
    ensures
      var qs := ReadAll(l, t, defs, |defs|).value;
      var q, tokens := qs.parts[i], qs.tokens[i];
      PartsOf(l, t, defs, i) == Some(q) && j < |tokens.options| == |q.options| &&
      t.tok(SemanticsText(t, q.options[j])) == Some(tokens.options[j].body)
  {
    ReadAt(l, t, defs, |defs|, i);
    var q := ReadAll(l, t, defs, |defs|).value.parts[i];
    InstructionsTokens(l, t, q);
    OptionBody(l, t, q.options, |q.options|, j);
  }

  lemma RowPieces(l: Layout, t: Tools, state: Value, defs: seq<(string, Value)>) returns (p: Pieces)
    requires EncodeOf(l, t, state, defs).Success?
    ensures Fits(l.maxTokens, p) && EncodeOf(l, t, state, defs) == Success(RowFrom(l, p))
    ensures ReadAll(l, t, defs, |defs|) == Success(p.qs) && |p.qs.parts| == |defs|
  {
    p := PiecesOf(l, t, state, defs).value;
  }

  predicate SpanHas(ids: seq<Token>, span: Span, text: Option<seq<Token>>) {
    span.0 <= span.1 <= |ids| && text == Some(ids[span.0..span.1])
  }

  predicate QuestionHas(row: Row, i: nat, text: Option<seq<Token>>) {
    i < |row.questions| && SpanHas(row.ids, row.questions[i].span, text)
  }

  predicate OptionHas(row: Row, i: nat, j: nat, text: Option<seq<Token>>) {
    i < |row.questions| && j < |row.questions[i].options| && SpanHas(row.ids, row.questions[i].options[j], text)
  }

  /** A question's span is in bounds, not empty, and holds exactly the tokens of its instructions. */
  lemma SpanHoldsInstructions(l: Layout, t: Tools, state: Value, defs: seq<(string, Value)>, i: nat)
    requires EncodeOf(l, t, state, defs).Success? && i < |defs|
    ensures
      var row, q := EncodeOf(l, t, state, defs).value, PartsOf(l, t, defs, i);
      q.Some? && |row.questions| == |defs| && QuestionHas(row, i, t.tok(q.value.instructions)) &&
      t.tok(q.value.instructions) != Some([]) && row.questions[i].qid == defs[i].0 &&
      row.questions[i].optionIds == Ids(q.value.options) && |row.questions[i].options| == |q.value.options|
  {
    var p := RowPieces(l, t, state, defs);
    QuestionRead(l, t, defs, i);
    RowSpan(l, p, i);
  }

  /** An option's span is in bounds and holds exactly the tokens of its id and description. */
  lemma OptionSpanHoldsOption(l: Layout, t: Tools, state: Value, defs: seq<(string, Value)>, i: nat, j: nat)
    requires EncodeOf(l, t, state, defs).Success? && i < |defs|
    requires var q := PartsOf(l, t, defs, i); q.Some? && j < |q.value.options|
    ensures OptionHas(EncodeOf(l, t, state, defs).value, i, j, t.tok(SemanticsText(t, PartsOf(l, t, defs, i).value.options[j])))
  {
    var p := RowPieces(l, t, state, defs);
    var q := p.qs.parts[i];
    OptionRead(l, t, defs, i, j);
    RowOptionSpan(l, p, i, j);
    assert PartsOf(l, t, defs, i).value == q;
  }

  predicate Fits(max: nat, p: Pieces) {
    |p.qs.parts| == |p.qs.tokens| && |p.prefix| + |Schema(p.open, p.qs)| + |p.suffix| <= max
  }

  function RowFrom(l: Layout, p: Pieces): Row
    requires Fits(l.maxTokens, p)
  {
    RowOf(l.maxTokens, p.prefix, p.state, Schema(p.open, p.qs), Placed(l, p.open, p.qs), p.suffix)
  }

  lemma RowSpan(l: Layout, p: Pieces, i: nat)
    requires Fits(l.maxTokens, p) && i < |p.qs.parts|
    ensures
      var row := RowFrom(l, p);
      |row.questions| == |p.qs.parts| &&
      var q := row.questions[i];
      q.qid == p.qs.parts[i].qid && q.optionIds == Ids(p.qs.parts[i].options) && |q.options| == |p.qs.tokens[i].options| &&
      QuestionHas(row, i, Some(p.qs.tokens[i].instructions))
  {
    var schema := Schema(p.open, p.qs);
    var kept := Min(|p.state|, l.maxTokens - (|p.prefix| + |schema| + |p.suffix|));
    SpanHolds(p.open, p.qs.tokens, i);
    InRow(p.prefix + p.state[..kept], schema, p.suffix, SpanOf(p.open, p.qs.tokens, i));
  }

  lemma RowOptionSpan(l: Layout, p: Pieces, i: nat, j: nat)
    requires Fits(l.maxTokens, p) && i < |p.qs.parts| && j < |p.qs.tokens[i].options|
    ensures OptionHas(RowFrom(l, p), i, j, Some(p.qs.tokens[i].options[j].body))
  {
    var schema := Schema(p.open, p.qs);
    var kept := Min(|p.state|, l.maxTokens - (|p.prefix| + |schema| + |p.suffix|));
    OptionHolds(p.open, p.qs.tokens, i, j);
    InRow(p.prefix + p.state[..kept], schema, p.suffix, OptionSpan(p.open, p.qs.tokens, i, j));
  }

  /** The spans of a row are disjoint and in the order of the text: instructions, then options, question after question. */
  lemma SpansInOrder(l: Layout, t: Tools, state: Value, defs: seq<(string, Value)>, i: nat)
    requires EncodeOf(l, t, state, defs).Success? && i < |defs|
    ensures
      var qs := EncodeOf(l, t, state, defs).value.questions;
      |qs| == |defs| &&
      (forall j :: 0 <= j < |qs[i].options| ==> qs[i].span.1 <= qs[i].options[j].0) &&
      (forall j, k :: 0 <= j < k < |qs[i].options| ==> qs[i].options[j].1 <= qs[i].options[k].0) &&
      forall k :: i < k < |defs| ==>
        qs[i].span.1 <= qs[k].span.0 && forall j :: 0 <= j < |qs[i].options| ==> qs[i].options[j].1 <= qs[k].span.0
  {
    var p := PiecesOf(l, t, state, defs).value;
    PlacesInOrder(p.open, p.qs.tokens, i);
  }
}
