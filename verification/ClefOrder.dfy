/**
 From the layout's option order back to the question's (`ClefQuestion::in_question_order`): the layout sorts a choice's
 labels and puts true before false; answers follow the caller's order, and false before true.
 */
module ClefOrder {
  import opened Wrappers
  import opened Collections
  import opened QuestionTypes
  import opened Text
  import opened Clef

  /** A question's criteria, as far as the order of answers goes: a choice's labels as the caller wrote them, the number of levels. */
  datatype Criteria = ChoiceOf(labels: seq<string>) | NoulOf | ScoreOf(levels: nat)

  datatype OrderError = NoLogit(option: string) | Count(logits: nat, levels: nat)

  function Position(ids: seq<string>, name: string): (r: Option<nat>)
    ensures r.Some? ==> r.value < |ids| && ids[r.value] == name && name !in ids[..r.value]
    ensures r.None? ==> name !in ids
  {
    if ids == [] then None
    else if ids[0] == name then Some(0)
    else
      match Position(ids[1..], name)
      case None => None
      case Some(k) => Some(k + 1)
  }

  function LogitOf(ids: seq<string>, logits: seq<real>, name: string): Result<real, OrderError> {
    match Position(ids, name)
    case Some(k) => if k < |logits| then Success(logits[k]) else Failure(NoLogit(name))
    case None => Failure(NoLogit(name))
  }

  /** The logits of `labels`, or the first label that has none. */
  function Collected(ids: seq<string>, logits: seq<real>, labels: seq<string>): Result<seq<real>, OrderError> {
    if labels == [] then Success([])
    else
      var first :- LogitOf(ids, logits, labels[0]);
      var rest :- Collected(ids, logits, labels[1..]);
      Success([first] + rest)
  }

  function InQuestionOrder(ids: seq<string>, c: Criteria, logits: seq<real>): Result<seq<real>, OrderError> {
    match c
    case ChoiceOf(labels) => Collected(ids, logits, labels)
    case NoulOf => Collected(ids, logits, ["false", "true"])
    case ScoreOf(levels) => if levels == |logits| then Success(logits) else Failure(Count(|logits|, levels))
  }

  // ---------------------------------------------------------------- what answers read

  function Keys(members: seq<(string, Value)>): (r: seq<string>)
    ensures |r| == |members|
  {
    seq(|members|, i requires 0 <= i < |members| => members[i].0)
  }

  /** The criteria that `def` declares, when the layout accepts it. */
  function CriteriaOf(l: Layout, def: Value): Criteria
    requires Options(l, def).Some?
  {
    match Options(l, def).value.0
    case Noul => NoulOf
    case Choice => ChoiceOf(Keys(Or(Get(def.members, "criteria"), Null).members))
    case Score => ScoreOf(|Or(Get(def.members, "criteria"), Null).items|)
  }

  /** The option an answer's entry `i` is about. */
  function AnswerOption(c: Criteria, i: nat): string {
    match c
    case ChoiceOf(labels) => if i < |labels| then labels[i] else ""
    case NoulOf => if i == 0 then "false" else "true"
    case ScoreOf(_) => Decimal(i)
  }

  function AnswerCount(c: Criteria): nat {
    match c case ChoiceOf(labels) => |labels| case NoulOf => 2 case ScoreOf(levels) => levels
  }

  /**
   For every question the layout accepts, with the labels of a choice distinct (they are the keys of one object): if `logits`
   holds one value per option, each the value `of` its option id, then entry `i` of the result is the value of the option
   that entry `i` of an answer is about; if there are too few values there is no result, and score levels also refuse extra
   ones.
   */
  lemma OrderRestored(l: Layout, def: Value, logits: seq<real>, of: string -> real)
    requires Options(l, def).Some?
    requires var c := CriteriaOf(l, def); c.ChoiceOf? ==> Distinct(c.labels)
    ensures
      var ids, c := Ids(Options(l, def).value.1), CriteriaOf(l, def);
      var r := InQuestionOrder(ids, c, logits);
      |ids| == AnswerCount(c) &&
      (r.Success? <==> if c.ScoreOf? then |logits| == |ids| else |logits| >= |ids|) &&
      (r.Success? && (forall k :: 0 <= k < |ids| ==> logits[k] == of(ids[k])) ==>
         |r.value| == |ids| && forall i :: 0 <= i < |ids| ==> r.value[i] == of(AnswerOption(c, i)))
  {
    var options, c := Options(l, def).value.1, CriteriaOf(l, def);
    var ids := Ids(options);
    match c {
      case NoulOf =>
        assert ids == ["true", "false"] && Distinct(ids);
        SameElements(ids, ["false", "true"]);
        if |logits| >= |ids| { CollectedAll(ids, logits, ["false", "true"], of); }
        CollectedNone(ids, logits, ["false", "true"]);
      case ChoiceOf(labels) =>
        ChoiceIds(Get(def.members, "criteria").value.members);
        if |logits| >= |ids| { CollectedAll(ids, logits, labels, of); }
        CollectedNone(ids, logits, labels);
      case ScoreOf(levels) =>
    }
  }

  lemma SameElements(a: seq<string>, b: seq<string>)
    requires a == ["true", "false"] && b == ["false", "true"]
    ensures forall s :: s in a <==> s in b
  {
    assert a[0] == b[1] && a[1] == b[0];
  }

  /** Sorting a choice's options keeps each label, once. */
  lemma ChoiceIds(members: seq<(string, Value)>)
    ensures var ids, keys := Ids(Sorted(Described1(members))), Keys(members);
            |ids| == |keys| && (forall s :: s in ids <==> s in keys) && (Distinct(keys) ==> Distinct(ids))
  {
    var opts := Described1(members);
    var sorted := Sorted(opts);
    SortedSorts(opts);
    MultisetSize(sorted, opts);
    forall s ensures s in Ids(sorted) <==> s in Keys(members) {
      SameIds(sorted, opts, s);
      SameIds(opts, sorted, s);
      assert forall i :: 0 <= i < |opts| ==> Keys(members)[i] == Ids(opts)[i];
    }
    if !Distinct(Ids(sorted)) {
      var i, j :| 0 <= i < j < |sorted| && sorted[i].0 == sorted[j].0;
      TwiceIsTwice(opts, sorted, i, j);
      var p, q :| 0 <= p < q < |opts| && opts[p].0 == opts[q].0;
      assert Keys(members)[p] == Keys(members)[q];
    }
  }

  lemma MultisetSize(a: seq<Described>, b: seq<Described>)
    requires multiset(a) == multiset(b)
    ensures |a| == |b|
  {
    assert |multiset(a)| == |a| && |multiset(b)| == |b|;
  }

  lemma SameIds(a: seq<Described>, b: seq<Described>, s: string)
    requires multiset(a) == multiset(b)
    ensures s in Ids(a) ==> s in Ids(b)
  {
    if s in Ids(a) {
      var i :| 0 <= i < |a| && a[i].0 == s;
      assert a[i] in multiset(a);
      assert a[i] in multiset(b);
      var j :| 0 <= j < |b| && b[j] == a[i];
      assert Ids(b)[j] == s;
    }
  }

  /** Two places of a permutation that hold one id come from two places that hold it. */
  lemma TwiceIsTwice(a: seq<Described>, b: seq<Described>, i: nat, j: nat)
    requires multiset(a) == multiset(b) && i < j < |b| && b[i].0 == b[j].0
    ensures exists p, q :: 0 <= p < q < |a| && a[p].0 == a[q].0
  {
    var x, y := b[i], b[j];
    assert x in multiset(b) && y in multiset(b);
    assert x in a && y in a;
    if x == y {
      AtLeastTwice(b, i, j);
      TwoPlaces(a, x);
    } else {
      var p :| 0 <= p < |a| && a[p] == x;
      var q :| 0 <= q < |a| && a[q] == y;
      if p < q { assert a[p].0 == a[q].0; } else { assert a[q].0 == a[p].0; }
    }
  }

  lemma {:induction false} TwoPlaces(a: seq<Described>, x: Described)
    requires multiset(a)[x] >= 2
    ensures exists p, q :: 0 <= p < q < |a| && a[p] == x && a[q] == x
  {
    assert a == [a[0]] + a[1..];
    if a[0] == x {
      assert x in multiset(a[1..]);
      var q :| 0 <= q < |a[1..]| && a[1..][q] == x;
      assert a[q + 1] == x;
    } else {
      TwoPlaces(a[1..], x);
      var p, q :| 0 <= p < q < |a[1..]| && a[1..][p] == x && a[1..][q] == x;
      assert a[p + 1] == x && a[q + 1] == x;
    }
  }

  lemma AtLeastTwice(b: seq<Described>, i: nat, j: nat)
    requires i < j < |b| && b[i] == b[j]
    ensures multiset(b)[b[i]] >= 2
  {
    assert b == b[..i] + [b[i]] + b[i + 1..j] + [b[j]] + b[j + 1..];
  }

  lemma {:induction false} CollectedAll(ids: seq<string>, logits: seq<real>, labels: seq<string>, of: string -> real)
    requires forall s <- labels :: s in ids
    requires |logits| >= |ids|
    ensures Collected(ids, logits, labels).Success?
    ensures |Collected(ids, logits, labels).value| == |labels|
    ensures (forall k :: 0 <= k < |ids| ==> logits[k] == of(ids[k])) ==>
              forall i :: 0 <= i < |labels| ==> Collected(ids, logits, labels).value[i] == of(labels[i])
  {
    if labels != [] {
      assert labels[0] in ids;
      CollectedAll(ids, logits, labels[1..], of);
    }
  }

  /** The label whose option comes last has no logit. */
  lemma CollectedNone(ids: seq<string>, logits: seq<real>, labels: seq<string>)
    requires Distinct(ids) && forall s <- ids :: s in labels
    ensures |logits| < |ids| ==> Collected(ids, logits, labels).Failure?
  {
    if |logits| < |ids| {
      var last := ids[|ids| - 1];
      assert last in labels;
      assert Position(ids, last) == Some(|ids| - 1);
      CollectedFails(ids, logits, labels, last);
    }
  }

  lemma {:induction false} CollectedFails(ids: seq<string>, logits: seq<real>, labels: seq<string>, name: string)
    requires name in labels && LogitOf(ids, logits, name).Failure?
    ensures Collected(ids, logits, labels).Failure?
  {
    if labels[0] != name {
      CollectedFails(ids, logits, labels[1..], name);
    }
  }

  // ---------------------------------------------------------------- the answer, entry by entry

  /** Option `k` is the first with that id, and it has a logit. */
  predicate HasLogit(ids: seq<string>, logits: seq<real>, name: string, k: nat) {
    k < |ids| && k < |logits| && ids[k] == name && name !in ids[..k]
  }

  ghost predicate GetsLogit(ids: seq<string>, logits: seq<real>, name: string, z: real) {
    exists k: nat :: HasLogit(ids, logits, name, k) && z == logits[k]
  }

  /** Each label's logit, or the first label that has none. */
  ghost predicate Ordered(ids: seq<string>, logits: seq<real>, labels: seq<string>, r: Result<seq<real>, OrderError>) {
    match r
    case Success(z) => |z| == |labels| && forall i :: 0 <= i < |z| ==> GetsLogit(ids, logits, labels[i], z[i])
    case Failure(e) => exists i: nat :: FirstWithout(ids, logits, labels, i) && e == NoLogit(labels[i])
  }

  ghost predicate FirstWithout(ids: seq<string>, logits: seq<real>, labels: seq<string>, i: nat) {
    i < |labels| && !SomeLogit(ids, logits, labels[i]) && forall j :: 0 <= j < i ==> SomeLogit(ids, logits, labels[j])
  }

  ghost predicate SomeLogit(ids: seq<string>, logits: seq<real>, name: string) {
    exists k: nat :: HasLogit(ids, logits, name, k)
  }

  lemma LogitIs(ids: seq<string>, logits: seq<real>, name: string)
    ensures
      match LogitOf(ids, logits, name)
      case Success(z) => GetsLogit(ids, logits, name, z) && SomeLogit(ids, logits, name)
      case Failure(e) => e == NoLogit(name) && !SomeLogit(ids, logits, name)
  {
    var at := Position(ids, name);
    if at.Some? {
      assert at.value < |logits| ==> HasLogit(ids, logits, name, at.value);
      forall k: nat | HasLogit(ids, logits, name, k) ensures k == at.value {
      }
    }
    hide Position;
  }

  lemma {:induction false} CollectedSays(ids: seq<string>, logits: seq<real>, labels: seq<string>)
    ensures Ordered(ids, logits, labels, Collected(ids, logits, labels))
  {
    hide LogitOf, GetsLogit, SomeLogit;
    if labels != [] {
      LogitIs(ids, logits, labels[0]);
      CollectedSays(ids, logits, labels[1..]);
      var rest := Collected(ids, logits, labels[1..]);
      if LogitOf(ids, logits, labels[0]).Failure? {
        assert FirstWithout(ids, logits, labels, 0);
      } else if rest.Failure? {
        var i: nat :| FirstWithout(ids, logits, labels[1..], i) && rest.error == NoLogit(labels[1..][i]);
        assert forall j :: 0 < j <= i + 1 ==> labels[j] == labels[1..][j - 1];
        assert FirstWithout(ids, logits, labels, i + 1);
      }
    }
  }

  /** What `in_question_order` returns: score levels as they are, when they are as many; else every label's own logit. */
  lemma OrderSays(ids: seq<string>, c: Criteria, logits: seq<real>)
    ensures c.ScoreOf? ==> InQuestionOrder(ids, c, logits) ==
                           if c.levels == |logits| then Success(logits) else Failure(Count(|logits|, c.levels))
    ensures !c.ScoreOf? ==> Ordered(ids, logits, if c.NoulOf? then ["false", "true"] else c.labels, InQuestionOrder(ids, c, logits))
  {
    match c {
      case ChoiceOf(labels) => CollectedSays(ids, logits, labels);
      case NoulOf => CollectedSays(ids, logits, ["false", "true"]);
      case ScoreOf(_) =>
    }
  }
}
