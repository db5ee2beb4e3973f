/**
 What a `clef-joint-v1` row says (crates/ollaya-decision/src/clef.rs): each question's options as its definition gives them, the
 row's texts in order, and where each instruction and option lies.
 */
module ClefRows {
  import opened TokenIds
  import opened Wrappers
  import opened Collections
  import opened QuestionTypes
  import opened Text
  import opened ClefSpans
  import opened Clef

  // ---------------------------------------------------------------- a question's options

  /** The first member of that name has that value. */
  predicate First(members: seq<(string, Value)>, key: string, i: nat, v: Value) {
    i < |members| && members[i] == (key, v) && forall j :: 0 <= j < i ==> members[j].0 != key
  }

  lemma {:induction false} GetIs(members: seq<(string, Value)>, key: string, v: Value)
    ensures Get(members, key) == Some(v) <==> exists i: nat :: First(members, key, i, v)
    ensures Get(members, key).None? <==> forall i :: 0 <= i < |members| ==> members[i].0 != key
  {
    if members != [] {
      GetIs(members[1..], key, v);
      assert forall i :: 0 < i < |members| ==> members[i] == members[1..][i - 1];
      if members[0].0 == key {
        assert First(members, key, 0, members[0].1);
      } else {
        if i: nat :| First(members[1..], key, i, v) {
          OneFurther(members, key, i, v);
        }
        if i: nat :| First(members, key, i, v) {
          OneFurther(members, key, i - 1, v);
        }
      }
    }
  }

  lemma OneFurther(members: seq<(string, Value)>, key: string, i: nat, v: Value)
    requires members != [] && members[0].0 != key
    ensures First(members, key, i + 1, v) <==> First(members[1..], key, i, v)
  {
    assert forall j :: 0 < j < |members| ==> members[j] == members[1..][j - 1];
    assert forall j :: 0 <= j < |members| - 1 ==> members[1..][j] == members[j + 1];
  }

  /** A null description is left out. */
  function Shown(v: Value): Option<Value> {
    if v == Null then None else Some(v)
  }

  /** The description of a noul option: the criteria's own, else the layout's. */
  function NoulText(members: seq<(string, Value)>, key: string, default: Value): Option<Value> {
    Shown(if Get(members, key).Some? then Get(members, key).value else default)
  }

  /** The options of a valid definition: true before false, a choice's labels in code-point order, levels from 0 in order. */
  predicate Describes(l: Layout, def: Value, qtype: QType, opts: seq<Described>) {
    def.Obj? &&
    var criteria := Get(def.members, "criteria");
    match qtype
    case Noul =>
      Get(def.members, "type") == Some(Str("noul")) && (criteria.None? || criteria.value.Null? || criteria.value.Obj?) &&
      var members := if criteria.Some? && criteria.value.Obj? then criteria.value.members else [];
      opts == [("true", NoulText(members, "true", l.noulTrue)), ("false", NoulText(members, "false", l.noulFalse))]
    case Choice =>
      Get(def.members, "type") == Some(Str("choice")) && criteria.Some? && criteria.value.Obj? && criteria.value.members != [] &&
      var members := criteria.value.members;
      multiset(opts) == multiset(seq(|members|, i requires 0 <= i < |members| => (members[i].0, Shown(members[i].1)))) &&
      forall i, j :: 0 <= i < j < |opts| ==> Lexicographic(opts[i].0, opts[j].0)
    case Score =>
      Get(def.members, "type") == Some(Str("score")) && criteria.Some? && criteria.value.Arr? && criteria.value.items != [] &&
      var items := criteria.value.items;
      |opts| == |items| && forall i :: 0 <= i < |items| ==> opts[i] == (Decimal(i), Shown(items[i]))
  }

  /** The definitions the layout accepts, and the options it takes from them. */
  lemma OptionsAre(l: Layout, def: Value)
    ensures
      match Options(l, def)
      case Some((qtype, opts)) => Describes(l, def, qtype, opts)
      case None => forall qtype, opts :: !Describes(l, def, qtype, opts)
  {
    if def.Obj? {
      var (kind, criteria) := (Get(def.members, "type"), Get(def.members, "criteria"));
      if kind == Some(Str("noul")) {
        NoulIs(l, def);
      } else if kind == Some(Str("choice")) && criteria.Some? && criteria.value.Obj? {
        ChoiceIs(criteria.value.members);
      }
      hide Get, Sorted, Lexicographic, Decimal, NoulText, Described1;
    }
  }

  lemma NoulIs(l: Layout, def: Value)
    requires def.Obj? && Get(def.members, "type") == Some(Str("noul"))
    ensures
      match Options(l, def)
      case Some((qtype, opts)) => qtype == Noul && Describes(l, def, Noul, opts)
      case None => forall opts :: !Describes(l, def, Noul, opts)
  {
    hide Sorted, Lexicographic, Decimal, Described1;
    assert Get([], "true").None? && Get([], "false").None?;
  }

  lemma ChoiceIs(members: seq<(string, Value)>)
    ensures
      var opts := Sorted(Described1(members));
      multiset(opts) == multiset(seq(|members|, i requires 0 <= i < |members| => (members[i].0, Shown(members[i].1)))) &&
      forall i, j :: 0 <= i < j < |opts| ==> Lexicographic(opts[i].0, opts[j].0)
  {
    SortedSorts(Described1(members));
    assert Described1(members) == seq(|members|, i requires 0 <= i < |members| => (members[i].0, Shown(members[i].1)));
  }

  // ---------------------------------------------------------------- texts

  /** The tokens of the texts, one after the other; None: the tokenizer fails on one of them. */
  function Spelled(t: Tools, texts: seq<string>): Option<seq<Token>> {
    if texts == [] then Some([])
    else
      var first :- t.tok(texts[0]);
      var rest :- Spelled(t, texts[1..]);
      Some(first + rest)
  }

  lemma {:induction false} SpelledPlus(t: Tools, a: seq<string>, b: seq<string>)
    ensures Spelled(t, a + b) ==
            if Spelled(t, a).Some? && Spelled(t, b).Some? then Some(Spelled(t, a).value + Spelled(t, b).value) else None
  {
    if a == [] {
      assert a + b == b;
      assert Spelled(t, b).Some? ==> [] + Spelled(t, b).value == Spelled(t, b).value;
    } else {
      assert (a + b)[0] == a[0] && (a + b)[1..] == a[1..] + b;
      SpelledPlus(t, a[1..], b);
      if t.tok(a[0]).Some? && Spelled(t, a[1..]).Some? && Spelled(t, b).Some? {
        Associative(t.tok(a[0]).value, Spelled(t, a[1..]).value, Spelled(t, b).value);
      }
    }
  }

  lemma SpelledOne(t: Tools, text: string)
    ensures Spelled(t, [text]) == t.tok(text)
  {
    assert Spelled(t, [text][1..]) == Some([]);
    assert t.tok(text).Some? ==> t.tok(text).value + [] == t.tok(text).value;
  }

  lemma SpelledSnoc(t: Tools, texts: seq<string>, text: string)
    ensures Spelled(t, texts + [text]) ==
            if Spelled(t, texts).Some? && t.tok(text).Some? then Some(Spelled(t, texts).value + t.tok(text).value) else None
  {
    SpelledPlus(t, texts, [text]);
    SpelledOne(t, text);
  }

  lemma SpelledThree(t: Tools, a: string, b: string, c: string)
    ensures Spelled(t, [a, b, c]) ==
            if t.tok(a).Some? && t.tok(b).Some? && t.tok(c).Some? then Some(t.tok(a).value + t.tok(b).value + t.tok(c).value) else None
  {
    SpelledOne(t, a);
    SpelledSnoc(t, [a], b);
    SpelledSnoc(t, [a, b], c);
    assert [a] + [b] == [a, b] && [a, b] + [c] == [a, b, c];
  }

  function LeadText(l: Layout, j: nat): string {
    Filled(l.prompt.option, [("{n}", Decimal(j + 1))])
  }

  /** The JSON of an option: its id and, unless it is null, its description. */
  function OptionText(t: Tools, o: Described): string {
    t.dumps(Obj([("option_id", Str(o.0))] + if o.1.None? then [] else [("description", o.1.value)]))
  }

  function OptionTexts(l: Layout, t: Tools, o: Described, j: nat): seq<string> {
    [LeadText(l, j), OptionText(t, o), l.prompt.optionEnd]
  }

  /** The texts of the first `n` options. */
  function OptionsTexts(l: Layout, t: Tools, opts: seq<Described>, n: nat): seq<string>
    requires n <= |opts|
  {
    Joined(seq(n, j requires 0 <= j < n => OptionTexts(l, t, opts[j], j)))
  }

  /** A question as it was read. */
  datatype Item = Item(qtype: QType, options: seq<Described>)

  function TypeName(qtype: QType): string {
    match qtype case Noul => "noul" case Choice => "choice" case Score => "score"
  }

  function FieldText(l: Layout, i: nat, qid: string, qtype: QType): string {
    Filled(l.prompt.field, [("{n}", Decimal(i + 1)), ("{id}", qid), ("{type}", TypeName(qtype))])
  }

  /** The definition's own instructions, or the question's id when they are missing, null or empty. */
  function AskedText(t: Tools, qid: string, def: Value): string {
    match if def.Obj? then Get(def.members, "instructions") else None
    case None => qid
    case Some(Null) => qid
    case Some(Str(s)) => if s == "" then qid else s
    case Some(v) => t.dumps(v)
  }

  function HeadTexts(l: Layout, t: Tools, i: nat, qid: string, def: Value, qtype: QType): seq<string> {
    [FieldText(l, i, qid, qtype), AskedText(t, qid, def), l.prompt.options]
  }

  function QuestionTexts(l: Layout, t: Tools, i: nat, qid: string, def: Value, item: Item): seq<string> {
    HeadTexts(l, t, i, qid, def, item.qtype) + OptionsTexts(l, t, item.options, |item.options|) + [l.prompt.fieldEnd]
  }

  /** The texts of the schema's opening and the first `n` questions. */
  function SchemaTexts(l: Layout, t: Tools, defs: seq<(string, Value)>, items: seq<Item>, n: nat): seq<string>
    requires n <= |items| <= |defs|
  {
    [l.prompt.schema] + Joined(seq(n, i requires 0 <= i < n => QuestionTexts(l, t, i, defs[i].0, defs[i].1, items[i])))
  }

  // ---------------------------------------------------------------- one question

  lemma OptionSpelled(l: Layout, t: Tools, o: Described, j: nat)
    ensures
      match OptionTokensOf(l, t, o, j)
      case None => Spelled(t, OptionTexts(l, t, o, j)).None?
      case Some(r) =>
        t.tok(LeadText(l, j)) == Some(r.lead) && t.tok(OptionText(t, o)) == Some(r.body) && t.tok(l.prompt.optionEnd) == Some(r.end) &&
        Spelled(t, OptionTexts(l, t, o, j)) == Some(r.lead + r.body + r.end)
  {
    SpelledThree(t, LeadText(l, j), OptionText(t, o), l.prompt.optionEnd);
    assert SemanticsText(t, o) == OptionText(t, o);
    hide Spelled, Filled, Decimal;
  }

  lemma OptionsTextsSnoc(l: Layout, t: Tools, opts: seq<Described>, n: nat)
    requires n < |opts|
    ensures OptionsTexts(l, t, opts, n + 1) == OptionsTexts(l, t, opts, n) + OptionTexts(l, t, opts[n], n)
  {
    hide OptionTexts;
    var pieces := seq(n, j requires 0 <= j < n => OptionTexts(l, t, opts[j], j));
    var longer := seq(n + 1, j requires 0 <= j < n + 1 => OptionTexts(l, t, opts[j], j));
    assert longer == pieces + [OptionTexts(l, t, opts[n], n)];
    JoinedSnoc(pieces, OptionTexts(l, t, opts[n], n));
  }

  lemma {:induction false} OptionsSpelled(l: Layout, t: Tools, opts: seq<Described>, n: nat)
    requires n <= |opts|
    ensures
      match OptionsTokensOf(l, t, opts, n)
      case None => Spelled(t, OptionsTexts(l, t, opts, n)).None?
      case Some(o) => Spelled(t, OptionsTexts(l, t, opts, n)) == Some(OptionsUpTo(o, n))
  {
    if n == 0 {
      OptionsTextsNone(l, t, opts);
    } else {
      OptionsSpelled(l, t, opts, n - 1);
      OptionsTextsSnoc(l, t, opts, n - 1);
      OptionSpelled(l, t, opts[n - 1], n - 1);
      SpelledPlus(t, OptionsTexts(l, t, opts, n - 1), OptionTexts(l, t, opts[n - 1], n - 1));
      OptionsTokensSnoc(l, t, opts, n - 1);
      hide *;
    }
  }

  lemma OptionsTokensSnoc(l: Layout, t: Tools, opts: seq<Described>, n: nat)
    requires n < |opts|
    ensures
      var rest, one := OptionsTokensOf(l, t, opts, n), OptionTokensOf(l, t, opts[n], n);
      match OptionsTokensOf(l, t, opts, n + 1)
      case None => rest.None? || one.None?
      case Some(o) =>
        rest.Some? && one.Some? &&
        OptionsUpTo(o, n + 1) == OptionsUpTo(rest.value, n) + (one.value.lead + one.value.body + one.value.end)
  {
    var rest, one := OptionsTokensOf(l, t, opts, n), OptionTokensOf(l, t, opts[n], n);
    hide OptionTokensOf, OptionsUpTo;
    if rest.Some? && one.Some? {
      OptionSnoc(rest.value, one.value, 0);
      Three(OptionsUpTo(rest.value, n), one.value.lead, one.value.body, one.value.end);
    }
  }

  lemma Three(a: seq<Token>, b: seq<Token>, c: seq<Token>, d: seq<Token>)
    ensures a + (b + c + d) == a + b + c + d
  {
  }

  lemma OptionsTextsNone(l: Layout, t: Tools, opts: seq<Described>)
    ensures OptionsTexts(l, t, opts, 0) == []
  {
  }

  lemma QuestionSpelled(l: Layout, t: Tools, i: nat, qid: string, def: Value, item: Item)
    ensures
      var head, options := Spelled(t, HeadTexts(l, t, i, qid, def, item.qtype)), OptionsTokensOf(l, t, item.options, |item.options|);
      var end, all := t.tok(l.prompt.fieldEnd), Spelled(t, QuestionTexts(l, t, i, qid, def, item));
      if head.Some? && options.Some? && end.Some?
      then all == Some(head.value + OptionsUpTo(options.value, |item.options|) + end.value)
      else all.None?
  {
    var head, options := HeadTexts(l, t, i, qid, def, item.qtype), OptionsTexts(l, t, item.options, |item.options|);
    OptionsSpelled(l, t, item.options, |item.options|);
    SpelledPlus(t, head, options);
    SpelledSnoc(t, head + options, l.prompt.fieldEnd);
    hide Spelled, HeadTexts, OptionsTexts, OptionsTokensOf, OptionsUpTo;
  }

  /** How a valid question is refused: the tokenizer fails on one of its texts, or its instructions have no tokens. */
  predicate Breaks(l: Layout, t: Tools, i: nat, qid: string, def: Value, item: Item, e: Error) {
    var field, asked := t.tok(FieldText(l, i, qid, item.qtype)), t.tok(AskedText(t, qid, def));
    if field.None? || asked.None? then e == Tokenizer
    else if asked == Some([]) then e == EmptyInstructions(qid)
    else e == Tokenizer && Spelled(t, QuestionTexts(l, t, i, qid, def, item)).None?
  }

  /** The question's definition is valid, the tokenizer fails on none of its texts, and its instructions have tokens. */
  predicate Sound(l: Layout, t: Tools, i: nat, qid: string, def: Value, item: Item) {
    Describes(l, def, item.qtype, item.options) && Spelled(t, QuestionTexts(l, t, i, qid, def, item)).Some? &&
    t.tok(AskedText(t, qid, def)) != Some([])
  }

  /** The tokens of a question are those of its texts. */
  predicate TokensAre(l: Layout, t: Tools, i: nat, qid: string, def: Value, item: Item, tokens: QuestionTokens) {
    t.tok(FieldText(l, i, qid, item.qtype)) == Some(tokens.field) && t.tok(AskedText(t, qid, def)) == Some(tokens.instructions) &&
    t.tok(l.prompt.options) == Some(tokens.header) && OptionsTokensOf(l, t, item.options, |item.options|) == Some(tokens.options) &&
    t.tok(l.prompt.fieldEnd) == Some(tokens.end)
  }

  predicate PartsAre(l: Layout, t: Tools, i: nat, qid: string, def: Value, q: Parts) {
    Describes(l, def, q.qtype, q.options) && q.qid == qid && q.field == FieldText(l, i, qid, q.qtype) &&
    q.instructions == AskedText(t, qid, def)
  }

  lemma PartsSay(l: Layout, t: Tools, defs: seq<(string, Value)>, i: nat)
    requires i < |defs|
    ensures
      match PartsOf(l, t, defs, i)
      case None => forall qtype, opts :: !Describes(l, defs[i].1, qtype, opts)
      case Some(q) => PartsAre(l, t, i, defs[i].0, defs[i].1, q)
  {
    OptionsAre(l, defs[i].1);
    AskedIs(t, defs[i].0, defs[i].1);
    hide Options, Describes, Get, Decimal, Instructions, AskedText;
    var read := Options(l, defs[i].1);
    if read.Some? {
      assert FieldVars(i, defs[i].0, read.value.0) ==
             [("{n}", Decimal(i + 1)), ("{id}", defs[i].0), ("{type}", TypeName(read.value.0))];
    }
    hide Filled, FieldVars;
  }

  lemma AskedIs(t: Tools, qid: string, def: Value)
    ensures Instructions(t, qid, def) == AskedText(t, qid, def)
  {
    hide Get;
  }

  lemma TokensSay(l: Layout, t: Tools, i: nat, qid: string, def: Value, q: Parts)
    requires PartsAre(l, t, i, qid, def, q)
    ensures
      var r, item := TokensOf(l, t, q), Item(q.qtype, q.options);
      (r.Failure? ==> Breaks(l, t, i, qid, def, item, r.error)) &&
      (r.Success? ==> Sound(l, t, i, qid, def, item) && TokensAre(l, t, i, qid, def, item, r.value) &&
                      Spelled(t, QuestionTexts(l, t, i, qid, def, item)) == Some(Whole(r.value)))
  {
    var item := Item(q.qtype, q.options);
    QuestionSpelled(l, t, i, qid, def, item);
    SpelledThree(t, FieldText(l, i, qid, item.qtype), AskedText(t, qid, def), l.prompt.options);
    hide Spelled, FieldText, AskedText, QuestionTexts, Describes, OptionsTokensOf, OptionsUpTo;
  }

  // ---------------------------------------------------------------- all questions

  /** The first `n` questions are sound, and their tokens are these. */
  predicate ReadAs(l: Layout, t: Tools, defs: seq<(string, Value)>, items: seq<Item>, qs: Questions)
  {
    |items| == |qs.parts| == |qs.tokens| <= |defs| &&
    forall i :: 0 <= i < |items| ==> OneRead(l, t, i, defs[i].0, defs[i].1, items[i], qs.parts[i], qs.tokens[i])
  }

  predicate OneRead(l: Layout, t: Tools, i: nat, qid: string, def: Value, item: Item, q: Parts, tokens: QuestionTokens) {
    PartsAre(l, t, i, qid, def, q) && item == Item(q.qtype, q.options) && Sound(l, t, i, qid, def, item) &&
    TokensAre(l, t, i, qid, def, item, tokens) && Spelled(t, QuestionTexts(l, t, i, qid, def, item)) == Some(Whole(tokens))
  }

  /** How reading stops at question `i`: its definition is not valid, or the question is refused. */
  ghost predicate StopsAt(l: Layout, t: Tools, i: nat, qid: string, def: Value, e: Error) {
    if forall qtype, opts :: !Describes(l, def, qtype, opts) then e == BadQuestion(qid)
    else exists item: Item :: Describes(l, def, item.qtype, item.options) && Breaks(l, t, i, qid, def, item, e)
  }

  ghost predicate AllSound(l: Layout, t: Tools, defs: seq<(string, Value)>, items: seq<Item>) {
    |items| <= |defs| && forall i :: 0 <= i < |items| ==> Sound(l, t, i, defs[i].0, defs[i].1, items[i])
  }

  lemma {:induction false} ReadSays(l: Layout, t: Tools, defs: seq<(string, Value)>, n: nat) returns (items: seq<Item>)
    requires n <= |defs|
    ensures |items| <= n && AllSound(l, t, defs, items)
    ensures
      match ReadAll(l, t, defs, n)
      case Success(qs) => |items| == n && ReadAs(l, t, defs, items, qs)
      case Failure(e) => |items| < n && StopsAt(l, t, |items|, defs[|items|].0, defs[|items|].1, e)
  {
    hide PartsAre, Sound, TokensAre, TokensOf, PartsOf, StopsAt, Spelled, QuestionTexts, OneRead;
    if n == 0 {
      items := [];
    } else {
      items := ReadSays(l, t, defs, n - 1);
      if ReadAll(l, t, defs, n - 1).Success? {
        var qs := ReadAll(l, t, defs, n - 1).value;
        ReadStep(l, t, defs, n - 1, qs);
        var item, e, q, tokens := QuestionSays(l, t, defs, n - 1);
        if item.Some? {
          assert ReadAll(l, t, defs, n) == Success(Questions(qs.parts + [q], qs.tokens + [tokens]));
          items := items + [item.value];
        }
      }
    }
  }

  lemma QuestionSays(l: Layout, t: Tools, defs: seq<(string, Value)>, i: nat)
    returns (item: Option<Item>, e: Error, q: Parts, tokens: QuestionTokens)
    requires i < |defs|
    ensures
      match item
      case Some(it) =>
        PartsOf(l, t, defs, i) == Some(q) && TokensOf(l, t, q) == Success(tokens) &&
        OneRead(l, t, i, defs[i].0, defs[i].1, it, q, tokens) && Sound(l, t, i, defs[i].0, defs[i].1, it)
      case None =>
        StopsAt(l, t, i, defs[i].0, defs[i].1, e) &&
        match PartsOf(l, t, defs, i)
        case None => e == BadQuestion(defs[i].0)
        case Some(p) => TokensOf(l, t, p) == Failure(e)
  {
    PartsSay(l, t, defs, i);
    hide Sound, TokensAre, TokensOf, PartsOf, Spelled, QuestionTexts, Describes, Breaks;
    q, tokens, e := Parts("", Noul, [], "", ""), QuestionTokens([], [], [], [], []), Tokenizer;
    if PartsOf(l, t, defs, i).None? {
      item, e := None, BadQuestion(defs[i].0);
    } else {
      q := PartsOf(l, t, defs, i).value;
      TokensSay(l, t, i, defs[i].0, defs[i].1, q);
      var read := Item(q.qtype, q.options);
      if TokensOf(l, t, q).Success? {
        item, tokens := Some(read), TokensOf(l, t, q).value;
      } else {
        item, e := None, TokensOf(l, t, q).error;
        assert Describes(l, defs[i].1, read.qtype, read.options);
      }
    }
  }

  // ---------------------------------------------------------------- where the texts lie

  /** The span holds the text's tokens, after those of the texts before it and `off` others. */
  predicate SpanAfter(t: Tools, off: nat, before: seq<string>, text: string, span: Span) {
    var (front, ids) := (Spelled(t, before), t.tok(text));
    front.Some? && ids.Some? && span == (off + |front.value|, off + |front.value| + |ids.value|)
  }

  lemma SchemaTextsSnoc(l: Layout, t: Tools, defs: seq<(string, Value)>, items: seq<Item>, n: nat)
    requires n < |items| <= |defs|
    ensures SchemaTexts(l, t, defs, items, n + 1) ==
            SchemaTexts(l, t, defs, items, n) + QuestionTexts(l, t, n, defs[n].0, defs[n].1, items[n])
  {
    hide QuestionTexts;
    var last := QuestionTexts(l, t, n, defs[n].0, defs[n].1, items[n]);
    var pieces := seq(n, i requires 0 <= i < n => QuestionTexts(l, t, i, defs[i].0, defs[i].1, items[i]));
    assert seq(n + 1, i requires 0 <= i < n + 1 => QuestionTexts(l, t, i, defs[i].0, defs[i].1, items[i])) == pieces + [last];
    JoinedSnoc(pieces, last);
    Associative([l.prompt.schema], Joined(pieces), last);
  }

  lemma SchemaTextsNone(l: Layout, t: Tools, defs: seq<(string, Value)>, items: seq<Item>)
    requires |items| <= |defs|
    ensures SchemaTexts(l, t, defs, items, 0) == [l.prompt.schema]
  {
    hide QuestionTexts;
  }

  lemma {:induction false} SchemaSpelled(l: Layout, t: Tools, defs: seq<(string, Value)>, items: seq<Item>, qs: Questions,
                                         open: seq<Token>, n: nat)
    requires ReadAs(l, t, defs, items, qs) && n <= |items| && t.tok(l.prompt.schema) == Some(open)
    ensures Spelled(t, SchemaTexts(l, t, defs, items, n)) == Some(SchemaUpTo(open, qs.tokens, n))
  {
    if n == 0 {
      SchemaTextsNone(l, t, defs, items);
      SpelledOne(t, l.prompt.schema);
    } else {
      var i := n - 1;
      SchemaSpelled(l, t, defs, items, qs, open, i);
      SchemaTextsSnoc(l, t, defs, items, i);
      SpelledPlus(t, SchemaTexts(l, t, defs, items, i), QuestionTexts(l, t, i, defs[i].0, defs[i].1, items[i]));
      assert OneRead(l, t, i, defs[i].0, defs[i].1, items[i], qs.parts[i], qs.tokens[i]);
      hide Spelled, SchemaTexts, QuestionTexts, Whole, PartsAre, Sound, TokensAre, ReadAs;
    }
  }

  lemma {:induction false} OptionsUpToOf(l: Layout, t: Tools, opts: seq<Described>, n: nat, j: nat)
    requires j <= n <= |opts| && OptionsTokensOf(l, t, opts, n).Some?
    ensures OptionsTokensOf(l, t, opts, j).Some?
    ensures OptionsUpTo(OptionsTokensOf(l, t, opts, j).value, j) == OptionsUpTo(OptionsTokensOf(l, t, opts, n).value, j)
    ensures j < n ==> OptionTokensOf(l, t, opts[j], j) == Some(OptionsTokensOf(l, t, opts, n).value[j])
  {
    if j < n {
      OptionsUpToOf(l, t, opts, n - 1, j);
      hide OptionTokensOf, OptionsUpTo;
      OptionsSame(OptionsTokensOf(l, t, opts, n - 1).value, OptionTokensOf(l, t, opts[n - 1], n - 1).value, j);
    }
  }

  /** Option `j`'s text follows the question's head, the earlier options and its own lead. */
  predicate OptionLies(l: Layout, t: Tools, off: nat, before: seq<string>, opts: seq<Described>, j: nat, span: Span)
    requires j < |opts|
  {
    SpanAfter(t, off, before + OptionsTexts(l, t, opts, j) + [LeadText(l, j)], OptionText(t, opts[j]), span)
  }

  lemma OptionPlaced(l: Layout, t: Tools, off: nat, before: seq<string>, opts: seq<Described>, j: nat)
    requires j < |opts| && OptionsTokensOf(l, t, opts, |opts|).Some? && Spelled(t, before).Some?
    ensures
      var o := OptionsTokensOf(l, t, opts, |opts|).value;
      OptionLies(l, t, off, before, opts, j, Shift(OptionAt(o, |Spelled(t, before).value|, j), off))
  {
    hide *;
    var o := OptionsTokensOf(l, t, opts, |opts|).value;
    OptionsUpToOf(l, t, opts, |opts|, j);
    OptionsSpelled(l, t, opts, j);
    OptionSpelled(l, t, opts[j], j);
    AfterThree(t, off, before, OptionsTexts(l, t, opts, j), LeadText(l, j), OptionText(t, opts[j]),
               Spelled(t, before).value, OptionsUpTo(o, j), o[j].lead, o[j].body);
    LiesThere(l, t, off, before, opts, j, o, |Spelled(t, before).value|);
  }

  lemma LiesThere(l: Layout, t: Tools, off: nat, before: seq<string>, opts: seq<Described>, j: nat, o: seq<OptionTokens>, base: nat)
    requires j < |opts| == |o|
    requires
      var a := off + (base + |OptionsUpTo(o, j)| + |o[j].lead|);
      SpanAfter(t, off, before + OptionsTexts(l, t, opts, j) + [LeadText(l, j)], OptionText(t, opts[j]), (a, a + |o[j].body|))
    ensures OptionLies(l, t, off, before, opts, j, Shift(OptionAt(o, base, j), off))
  {
    hide SpanAfter, OptionsTexts, LeadText, OptionText, OptionsUpTo;
  }

  lemma AfterThree(t: Tools, off: nat, before: seq<string>, texts: seq<string>, lead: string, text: string,
                   front: seq<Token>, middle: seq<Token>, leadIds: seq<Token>, ids: seq<Token>)
    requires Spelled(t, before) == Some(front) && Spelled(t, texts) == Some(middle)
    requires t.tok(lead) == Some(leadIds) && t.tok(text) == Some(ids)
    ensures var a := off + (|front| + |middle| + |leadIds|); SpanAfter(t, off, before + texts + [lead], text, (a, a + |ids|))
  {
    SpelledPlus(t, before, texts);
    SpelledSnoc(t, before + texts, lead);
    hide Spelled;
    assert |front + middle + leadIds| == |front| + |middle| + |leadIds|;
  }

  /** A question of the row: its id, type, option ids, and where its instructions and options lie. */
  predicate QuestionLies(l: Layout, t: Tools, off: nat, i: nat, qid: string, def: Value, item: Item, before: seq<string>,
                         q: Question) {
    var head := HeadTexts(l, t, i, qid, def, item.qtype);
    q.qid == qid && q.qtype == item.qtype && q.typeIndex == l.typeIndex(item.qtype) &&
    SpanAfter(t, off, before + [FieldText(l, i, qid, item.qtype)], AskedText(t, qid, def), q.span) &&
    |q.options| == |q.optionIds| == |item.options| &&
    forall j :: 0 <= j < |item.options| ==>
      q.optionIds[j] == item.options[j].0 && OptionLies(l, t, off, before + head, item.options, j, q.options[j])
  }

  lemma QuestionPlaced(l: Layout, t: Tools, off: nat, i: nat, qid: string, def: Value, item: Item, before: seq<string>,
                       front: seq<Token>, q: Parts, tokens: QuestionTokens)
    requires OneRead(l, t, i, qid, def, item, q, tokens) && Spelled(t, before) == Some(front)
    ensures
      var at := Place((|front| + |tokens.field|, |front| + |tokens.field| + |tokens.instructions|),
                      OptionSpans(tokens.options, |front| + |Head(tokens)|));
      var placed := QuestionOf(l, q, at);
      QuestionLies(l, t, off, i, qid, def, item, before,
                   placed.(span := Shift(placed.span, off), options := ShiftAll(placed.options, off)))
  {
    hide Spelled, FieldText, AskedText, Sound, OptionLies, HeadTexts, Describes, OptionsTokensOf, OptionAt, QuestionTexts, SpanAfter;
    var lead := before + HeadTexts(l, t, i, qid, def, item.qtype);
    HeadPlaced(l, t, off, i, qid, def, item, before, front, tokens);
    var base := |front| + |Head(tokens)|;
    forall j | 0 <= j < |item.options|
      ensures OptionLies(l, t, off, lead, item.options, j, Shift(OptionAt(tokens.options, base, j), off))
    {
      OptionPlaced(l, t, off, lead, item.options, j);
    }
  }

  lemma HeadPlaced(l: Layout, t: Tools, off: nat, i: nat, qid: string, def: Value, item: Item, before: seq<string>,
                   front: seq<Token>, tokens: QuestionTokens)
    requires TokensAre(l, t, i, qid, def, item, tokens) && Spelled(t, before) == Some(front)
    ensures Spelled(t, before + HeadTexts(l, t, i, qid, def, item.qtype)) == Some(front + Head(tokens))
    ensures
      var a := off + |front| + |tokens.field|;
      SpanAfter(t, off, before + [FieldText(l, i, qid, item.qtype)], AskedText(t, qid, def), (a, a + |tokens.instructions|))
  {
    SpelledThree(t, FieldText(l, i, qid, item.qtype), AskedText(t, qid, def), l.prompt.options);
    SpelledPlus(t, before, HeadTexts(l, t, i, qid, def, item.qtype));
    SpelledSnoc(t, before, FieldText(l, i, qid, item.qtype));
    hide Spelled, FieldText, AskedText, OptionsTokensOf;
  }

  // ---------------------------------------------------------------- the row

  function StateText(t: Tools, state: Value): string {
    if state.Str? then state.s else t.dumps(state)
  }

  /** The tokens of the row's four parts. */
  datatype Four = Four(prefix: seq<Token>, state: seq<Token>, schema: seq<Token>, suffix: seq<Token>) {
    function Fixed(): nat { |prefix| + |schema| + |suffix| }
  }

  predicate FourAre(l: Layout, t: Tools, state: Value, defs: seq<(string, Value)>, items: seq<Item>, four: Four) {
    |items| == |defs| && t.tok(l.prompt.prefix) == Some(four.prefix) && t.tok(StateText(t, state)) == Some(four.state) &&
    Spelled(t, SchemaTexts(l, t, defs, items, |defs|)) == Some(four.schema) && t.tok(l.prompt.suffix) == Some(four.suffix)
  }

  /** Question `i` lies after the texts of the questions before it. */
  predicate LiesAt(l: Layout, t: Tools, off: nat, defs: seq<(string, Value)>, items: seq<Item>, i: nat, q: Question)
    requires i < |items| == |defs|
  {
    QuestionLies(l, t, off, i, defs[i].0, defs[i].1, items[i], SchemaTexts(l, t, defs, items, i), q)
  }

  predicate AllLie(l: Layout, t: Tools, off: nat, defs: seq<(string, Value)>, items: seq<Item>, questions: seq<Question>)
    requires |items| == |defs|
  {
    |questions| == |defs| && forall i :: 0 <= i < |defs| ==> LiesAt(l, t, off, defs, items, i, questions[i])
  }

  /** Prefix, as much of the state as fits, schema, suffix, and the questions at their places. */
  predicate RowSays(l: Layout, t: Tools, defs: seq<(string, Value)>, items: seq<Item>, four: Four, row: Row)
    requires |items| == |defs|
  {
    four.Fixed() <= l.maxTokens &&
    var room := l.maxTokens - four.Fixed();
    var kept := if |four.state| <= room then |four.state| else room;
    row.ids == four.prefix + four.state[..kept] + four.schema + four.suffix &&
    row.stateTokens == |four.state| && (row.stateTruncated <==> kept < |four.state|) &&
    AllLie(l, t, |four.prefix| + kept, defs, items, row.questions)
  }

  /** The first thing that goes wrong, in the order of the texts; prefix, state and suffix come last, then the length. */
  ghost predicate FailSays(l: Layout, t: Tools, state: Value, defs: seq<(string, Value)>, items: seq<Item>, e: Error) {
    if defs == [] then e == NoQuestions
    else if t.tok(l.prompt.schema).None? then e == Tokenizer
    else
      AllSound(l, t, defs, items) &&
      if |items| < |defs| then StopsAt(l, t, |items|, defs[|items|].0, defs[|items|].1, e)
      else if t.tok(l.prompt.prefix).None? || t.tok(l.prompt.suffix).None? || t.tok(StateText(t, state)).None? then e == Tokenizer
      else exists four :: FourAre(l, t, state, defs, items, four) && four.Fixed() > l.maxTokens && e == TooLong(four.Fixed())
  }

  lemma RowPlaced(l: Layout, t: Tools, defs: seq<(string, Value)>, items: seq<Item>, p: Pieces)
    requires ReadAs(l, t, defs, items, p.qs) && |items| == |defs| && t.tok(l.prompt.schema) == Some(p.open)
    requires Fits(l.maxTokens, p)
    ensures RowSays(l, t, defs, items, Four(p.prefix, p.state, Schema(p.open, p.qs), p.suffix), RowFrom(l, p))
  {
    hide AllLie, ReadAs, SchemaUpTo, Moved, Placed;
    var room := l.maxTokens - (|p.prefix| + |Schema(p.open, p.qs)| + |p.suffix|);
    AllPlaced(l, t, |p.prefix| + if |p.state| <= room then |p.state| else room, defs, items, p);
  }

  lemma AllPlaced(l: Layout, t: Tools, off: nat, defs: seq<(string, Value)>, items: seq<Item>, p: Pieces)
    requires ReadAs(l, t, defs, items, p.qs) && |items| == |defs| && t.tok(l.prompt.schema) == Some(p.open)
    ensures |p.qs.parts| == |p.qs.tokens| && AllLie(l, t, off, defs, items, Moved(Placed(l, p.open, p.qs), off))
  {
    var questions := Moved(Placed(l, p.open, p.qs), off);
    forall i | 0 <= i < |defs|
      ensures LiesAt(l, t, off, defs, items, i, questions[i])
    {
      SchemaSpelled(l, t, defs, items, p.qs, p.open, i);
      assert OneRead(l, t, i, defs[i].0, defs[i].1, items[i], p.qs.parts[i], p.qs.tokens[i]);
      hide *;
      Lying(l, t, off, defs, items, i, p);
    }
    hide LiesAt, Spelled, SchemaTexts, SchemaUpTo, OneRead, Moved, Placed;
  }

  lemma Lying(l: Layout, t: Tools, off: nat, defs: seq<(string, Value)>, items: seq<Item>, i: nat, p: Pieces)
    requires i < |items| == |defs| == |p.qs.parts| == |p.qs.tokens|
    requires OneRead(l, t, i, defs[i].0, defs[i].1, items[i], p.qs.parts[i], p.qs.tokens[i])
    requires Spelled(t, SchemaTexts(l, t, defs, items, i)) == Some(SchemaUpTo(p.open, p.qs.tokens, i))
    ensures LiesAt(l, t, off, defs, items, i, Moved(Placed(l, p.open, p.qs), off)[i])
  {
    hide QuestionLies, OneRead, Spelled, SchemaTexts, SchemaUpTo, Moved, Placed;
    OnePlaced(l, t, off, i, defs[i].0, defs[i].1, items[i], SchemaTexts(l, t, defs, items, i), p);
  }

  lemma MovedAt(l: Layout, p: Pieces, off: nat, i: nat)
    requires |p.qs.parts| == |p.qs.tokens| && i < |p.qs.parts|
    ensures
      var (tokens, front) := (p.qs.tokens[i], |SchemaUpTo(p.open, p.qs.tokens, i)|);
      var at := Place((front + |tokens.field|, front + |tokens.field| + |tokens.instructions|),
                      OptionSpans(tokens.options, front + |Head(tokens)|));
      var placed := QuestionOf(l, p.qs.parts[i], at);
      Moved(Placed(l, p.open, p.qs), off)[i] == placed.(span := Shift(placed.span, off), options := ShiftAll(placed.options, off))
  {
    hide SchemaUpTo, Head, OptionSpans;
  }

  lemma OnePlaced(l: Layout, t: Tools, off: nat, i: nat, qid: string, def: Value, item: Item, before: seq<string>, p: Pieces)
    requires |p.qs.parts| == |p.qs.tokens| && i < |p.qs.parts|
    requires OneRead(l, t, i, qid, def, item, p.qs.parts[i], p.qs.tokens[i])
    requires Spelled(t, before) == Some(SchemaUpTo(p.open, p.qs.tokens, i))
    ensures QuestionLies(l, t, off, i, qid, def, item, before, Moved(Placed(l, p.open, p.qs), off)[i])
  {
    hide *;
    MovedAt(l, p, off, i);
    QuestionPlaced(l, t, off, i, qid, def, item, before, SchemaUpTo(p.open, p.qs.tokens, i), p.qs.parts[i], p.qs.tokens[i]);
  }

  /**
   The whole answer. Given a row, every question is sound and the row is made of those texts, each question's spans at its instructions
   and options; given an error, it is the first, `items` being the questions read before it.
   */
  lemma EncodeSays(l: Layout, t: Tools, state: Value, defs: seq<(string, Value)>) returns (items: seq<Item>, four: Four)
    ensures
      var r := EncodeOf(l, t, state, defs);
      (r.Success? ==>
         defs != [] && AllSound(l, t, defs, items) && FourAre(l, t, state, defs, items, four) &&
         RowSays(l, t, defs, items, four, r.value)) &&
      (r.Failure? ==> FailSays(l, t, state, defs, items, r.error))
  {
    hide Sound, StopsAt, Spelled, SchemaTexts, SchemaUpTo, ReadAs, RowSays, RowOf, ReadAll, Placed;
    items, four := [], Four([], [], [], []);
    if defs != [] && t.tok(l.prompt.schema).Some? {
      items := ReadSays(l, t, defs, |defs|);
      if PiecesOf(l, t, state, defs).Success? {
        var p := PiecesOf(l, t, state, defs).value;
        four := Four(p.prefix, p.state, Schema(p.open, p.qs), p.suffix);
        SchemaSpelled(l, t, defs, items, p.qs, p.open, |defs|);
        assert FourAre(l, t, state, defs, items, four);
        if Fits(l.maxTokens, p) {
          RowPlaced(l, t, defs, items, p);
        }
      }
    }
  }
}
