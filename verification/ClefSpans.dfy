/**
 Where the pieces of a `clef-joint-v1` schema lie: a schema is its opening tokens and then, question after question, the
 field, the instructions, the options' header, the options and the field's end.
 */
module ClefSpans {
  import opened TokenIds

  type Span = (nat, nat)

  datatype OptionTokens = OptionTokens(lead: seq<Token>, body: seq<Token>, end: seq<Token>)

  datatype QuestionTokens = QuestionTokens(field: seq<Token>, instructions: seq<Token>, header: seq<Token>,
                                           options: seq<OptionTokens>, end: seq<Token>)

  /** The first `j` options. */
  function OptionsUpTo(options: seq<OptionTokens>, j: nat): seq<Token>
    requires j <= |options|
  {
    if j == 0 then []
    else OptionsUpTo(options, j - 1) + options[j - 1].lead + options[j - 1].body + options[j - 1].end
  }

  function Head(q: QuestionTokens): seq<Token> {
    q.field + q.instructions + q.header
  }

  function Whole(q: QuestionTokens): seq<Token> {
    Head(q) + OptionsUpTo(q.options, |q.options|) + q.end
  }

  /** The schema before question `i`. */
  function SchemaUpTo(open: seq<Token>, qs: seq<QuestionTokens>, i: nat): seq<Token>
    requires i <= |qs|
  {
    if i == 0 then open else SchemaUpTo(open, qs, i - 1) + Whole(qs[i - 1])
  }

  function Shift(s: Span, off: nat): Span { (s.0 + off, s.1 + off) }

  /** Where question `i`'s instructions lie in the schema. */
  function SpanOf(open: seq<Token>, qs: seq<QuestionTokens>, i: nat): Span
    requires i < |qs|
  {
    var a := |SchemaUpTo(open, qs, i)| + |qs[i].field|;
    (a, a + |qs[i].instructions|)
  }

  /** Where option `j` lies, of options that start at `base`. */
  function OptionAt(options: seq<OptionTokens>, base: nat, j: nat): Span
    requires j < |options|
  {
    var a := base + |OptionsUpTo(options, j)| + |options[j].lead|;
    (a, a + |options[j].body|)
  }

  function OptionSpan(open: seq<Token>, qs: seq<QuestionTokens>, i: nat, j: nat): Span
    requires i < |qs| && j < |qs[i].options|
  {
    OptionAt(qs[i].options, |SchemaUpTo(open, qs, i)| + |Head(qs[i])|, j)
  }

  lemma {:induction false} SchemaPrefix(open: seq<Token>, qs: seq<QuestionTokens>, i: nat, n: nat)
    requires i <= n <= |qs|
    ensures SchemaUpTo(open, qs, i) <= SchemaUpTo(open, qs, n)
    decreases n
  {
    if i < n {
      SchemaPrefix(open, qs, i, n - 1);
    }
  }

  lemma {:induction false} OptionsPrefix(options: seq<OptionTokens>, j: nat, n: nat)
    requires j <= n <= |options|
    ensures OptionsUpTo(options, j) <= OptionsUpTo(options, n)
    decreases n
  {
    if j < n {
      OptionsPrefix(options, j, n - 1);
    }
  }

  /** What follows `a` in a sequence that starts with `a + b`. */
  lemma Stretch(a: seq<Token>, b: seq<Token>, s: seq<Token>)
    requires a + b <= s
    ensures |a| + |b| <= |s| && s[|a|..|a| + |b|] == b
  {
    assert s[..|a + b|] == a + b;
    assert s[|a|..|a| + |b|] == s[..|a + b|][|a|..];
  }

  lemma SpanHolds(open: seq<Token>, qs: seq<QuestionTokens>, i: nat)
    requires i < |qs|
    ensures
      var (a, b) := SpanOf(open, qs, i);
      var s := SchemaUpTo(open, qs, |qs|);
      a <= b <= |s| && s[a..b] == qs[i].instructions
  {
    var q, s, before := qs[i], SchemaUpTo(open, qs, |qs|), SchemaUpTo(open, qs, i);
    SchemaPrefix(open, qs, i + 1, |qs|);
    assert Whole(q) == q.field + q.instructions + (q.header + OptionsUpTo(q.options, |q.options|) + q.end);
    assert before + q.field + q.instructions == before + (q.field + q.instructions);
    Stretch(before + q.field, q.instructions, s);
  }

  lemma OptionHolds(open: seq<Token>, qs: seq<QuestionTokens>, i: nat, j: nat)
    requires i < |qs| && j < |qs[i].options|
    ensures
      var (a, b) := OptionSpan(open, qs, i, j);
      var s := SchemaUpTo(open, qs, |qs|);
      a <= b <= |s| && s[a..b] == qs[i].options[j].body
  {
    var q, s, before := qs[i], SchemaUpTo(open, qs, |qs|), SchemaUpTo(open, qs, i);
    var all, o := OptionsUpTo(q.options, |q.options|), q.options[j];
    var lead := OptionsUpTo(q.options, j) + o.lead;
    SchemaPrefix(open, qs, i + 1, |qs|);
    assert before + Whole(q) == (before + Head(q)) + (all + q.end);
    OptionsPrefix(q.options, j + 1, |q.options|);
    assert lead + o.body <= all + q.end;
    assert (before + Head(q)) + (lead + o.body) == (before + Head(q) + lead) + o.body;
    Stretch(before + Head(q) + lead, o.body, s);
  }

  lemma OptionBefore(options: seq<OptionTokens>, base: nat, j: nat, k: nat)
    requires j < k < |options|
    ensures OptionAt(options, base, j).1 <= OptionAt(options, base, k).0
  {
    OptionsPrefix(options, j + 1, k);
  }

  lemma SpanBefore(open: seq<Token>, qs: seq<QuestionTokens>, i: nat, k: nat)
    requires i < k < |qs|
    ensures SpanOf(open, qs, i).1 <= SpanOf(open, qs, k).0
    ensures forall j :: 0 <= j < |qs[i].options| ==> OptionSpan(open, qs, i, j).1 <= SpanOf(open, qs, k).0
  {
    SchemaPrefix(open, qs, i + 1, k);
    assert |SchemaUpTo(open, qs, i)| + |Whole(qs[i])| <= |SchemaUpTo(open, qs, k)|;
    forall j | 0 <= j < |qs[i].options| ensures OptionSpan(open, qs, i, j).1 <= SpanOf(open, qs, k).0 {
      OptionsPrefix(qs[i].options, j + 1, |qs[i].options|);
    }
  }

  /** A span of the schema, moved past what precedes the schema in the row. */
  lemma InRow(lead: seq<Token>, s: seq<Token>, tail: seq<Token>, span: Span)
    requires span.0 <= span.1 <= |s|
    ensures var (a, b) := Shift(span, |lead|); a <= b <= |lead + s + tail| && (lead + s + tail)[a..b] == s[span.0..span.1]
  {
  }

  // ---------------------------------------------------------------- all spans at once

  function OptionSpans(options: seq<OptionTokens>, base: nat): (r: seq<Span>)
    ensures |r| == |options|
  {
    seq(|options|, j requires 0 <= j < |options| => OptionAt(options, base, j))
  }

  datatype Place = Place(span: Span, options: seq<Span>)

  function PlaceOf(open: seq<Token>, qs: seq<QuestionTokens>, i: nat): Place
    requires i < |qs|
  {
    Place(SpanOf(open, qs, i), OptionSpans(qs[i].options, |SchemaUpTo(open, qs, i)| + |Head(qs[i])|))
  }

  function Places(open: seq<Token>, qs: seq<QuestionTokens>): (r: seq<Place>)
    ensures |r| == |qs|
  {
    seq(|qs|, i requires 0 <= i < |qs| => PlaceOf(open, qs, i))
  }

  function ShiftAll(spans: seq<Span>, off: nat): (r: seq<Span>)
    ensures |r| == |spans|
  {
    seq(|spans|, j requires 0 <= j < |spans| => Shift(spans[j], off))
  }

  lemma {:induction false} OptionsSame(a: seq<OptionTokens>, o: OptionTokens, j: nat)
    requires j <= |a|
    ensures OptionsUpTo(a + [o], j) == OptionsUpTo(a, j)
  {
    if j > 0 {
      OptionsSame(a, o, j - 1);
      assert (a + [o])[j - 1] == a[j - 1];
    }
  }

  /** One more option goes after the others. */
  lemma OptionSnoc(a: seq<OptionTokens>, o: OptionTokens, base: nat)
    ensures OptionsUpTo(a + [o], |a| + 1) == OptionsUpTo(a, |a|) + o.lead + o.body + o.end
    ensures var s := base + |OptionsUpTo(a, |a|)| + |o.lead|;
            OptionSpans(a + [o], base) == OptionSpans(a, base) + [(s, s + |o.body|)]
  {
    OptionsSame(a, o, |a|);
    forall j | 0 <= j < |a| ensures OptionAt(a + [o], base, j) == OptionAt(a, base, j) {
      OptionsSame(a, o, j);
    }
  }

  lemma {:induction false} SchemaSame(open: seq<Token>, a: seq<QuestionTokens>, q: QuestionTokens, i: nat)
    requires i <= |a|
    ensures SchemaUpTo(open, a + [q], i) == SchemaUpTo(open, a, i)
  {
    if i > 0 {
      SchemaSame(open, a, q, i - 1);
      assert (a + [q])[i - 1] == a[i - 1];
    }
  }

  /** One more question goes after the others. */
  lemma QuestionSnoc(open: seq<Token>, a: seq<QuestionTokens>, q: QuestionTokens)
    ensures SchemaUpTo(open, a + [q], |a| + 1) == SchemaUpTo(open, a, |a|) + Whole(q)
    ensures var s := |SchemaUpTo(open, a, |a|)|;
            Places(open, a + [q]) ==
            Places(open, a) + [Place((s + |q.field|, s + |q.field| + |q.instructions|), OptionSpans(q.options, s + |Head(q)|))]
  {
    SchemaSame(open, a, q, |a|);
    forall i | 0 <= i < |a| ensures PlaceOf(open, a + [q], i) == PlaceOf(open, a, i) {
      SchemaSame(open, a, q, i);
      assert (a + [q])[i] == a[i];
    }
  }

  /** Instructions come before their options, options in order, and all of a question before the next. */
  lemma PlacesInOrder(open: seq<Token>, qs: seq<QuestionTokens>, i: nat)
    requires i < |qs|
    ensures
      var p := Places(open, qs);
      (forall j :: 0 <= j < |p[i].options| ==> p[i].span.1 <= p[i].options[j].0) &&
      (forall j, k :: 0 <= j < k < |p[i].options| ==> p[i].options[j].1 <= p[i].options[k].0) &&
      forall k :: i < k < |p| ==> p[i].span.1 <= p[k].span.0 && forall j :: 0 <= j < |p[i].options| ==> p[i].options[j].1 <= p[k].span.0
  {
    var options, base := qs[i].options, |SchemaUpTo(open, qs, i)| + |Head(qs[i])|;
    forall j, k | 0 <= j < k < |options| ensures OptionAt(options, base, j).1 <= OptionAt(options, base, k).0 {
      OptionBefore(options, base, j, k);
    }
    forall k | i < k < |qs|
      ensures SpanOf(open, qs, i).1 <= SpanOf(open, qs, k).0
      ensures forall j :: 0 <= j < |options| ==> OptionAt(options, base, j).1 <= SpanOf(open, qs, k).0
    {
      SpanBefore(open, qs, i, k);
      forall j | 0 <= j < |options| ensures OptionAt(options, base, j).1 <= SpanOf(open, qs, k).0 {
        assert OptionSpan(open, qs, i, j) == OptionAt(options, base, j);
      }
    }
  }
}
