/** Mechanical scoring of a criterion document against a frozen rubric. */
module Scores {
  import opened Options
  import opened Texts
  import opened Ordering
  import opened Rubrics

  /** One checked criterion score. */
  datatype Item = Item(id: string, score: real, evidence: string, maxScore: Option<real>, errorType: Option<string>)

  datatype Evaluation = Evaluation(score: map<string, Json>, total: real, passed: bool)

  type Row = map<string, Json>

  const ITEM_FIELDS: set<string> := {"id", "score", "evidence", "error_type", "max_score"}
  const TOP_FIELDS: set<string> := {"criteria_scores", "total", "max_total", "summary", "confidence"}
  const ERROR_TYPES: set<string> := {"", "SYNTAX_ERROR", "LOGIC_ERROR", "KNOWLEDGE_GAP"}

  function Maxima(criteria: seq<Criterion>): map<string, real>
  {
    if criteria == [] then map[] else
      var n := |criteria| - 1;
      Maxima(criteria[..n])[criteria[n].id := criteria[n].maxScore]
  }

  /* ---- one item ---- */

  predicate NumberIn(f: Row, name: string)
  {
    name in f && f[name].Num?
  }

  predicate TextIn(f: Row, name: string)
  {
    name in f && f[name].Str?
  }

  function RowId(f: Row): string
  {
    if TextIn(f, "id") then f["id"].text else ""
  }

  predicate RowValid(max: map<string, real>, f: Row)
  {
    && f.Keys <= ITEM_FIELDS
    && RowId(f) in max
    && NumberIn(f, "score") && 0.0 <= f["score"].number <= max[RowId(f)]
    && TextIn(f, "evidence") && !Blank(f["evidence"].text)
    && ("max_score" in f ==> NumberIn(f, "max_score") && f["max_score"].number == max[RowId(f)])
    && ("error_type" in f ==> TextIn(f, "error_type") && f["error_type"].text in ERROR_TYPES)
  }

  function RowItem(f: Row): Item
    requires NumberIn(f, "score") && TextIn(f, "evidence")
    requires ("max_score" in f ==> NumberIn(f, "max_score")) && ("error_type" in f ==> TextIn(f, "error_type"))
  {
    Item(RowId(f), f["score"].number, f["evidence"].text,
         if "max_score" in f then Some(f["max_score"].number) else None,
         if "error_type" in f then Some(f["error_type"].text) else None)
  }

  function ParseItem(max: map<string, real>, f: Row): Option<Item>
  {
    if RowValid(max, f) then Some(RowItem(f)) else None
  }

  /** The normalized form of a checked item. */
  function EncodeItem(it: Item): Row
  {
    var required := map["id" := Str(it.id), "score" := Num(it.score), "evidence" := Str(it.evidence)];
    var limited := if it.maxScore.Some? then required["max_score" := Num(it.maxScore.value)] else required;
    if it.errorType.Some? then limited["error_type" := Str(it.errorType.value)] else limited
  }

  /** Checking a normalized item gives the same item back. */
  lemma ItemRoundTrip(max: map<string, real>, f: Row)
    requires RowValid(max, f)
    ensures ParseItem(max, EncodeItem(RowItem(f))) == Some(RowItem(f))
  {
    var it := RowItem(f);
    var e := EncodeItem(it);
    assert e.Keys <= ITEM_FIELDS;
    assert TextIn(e, "id") && RowId(e) == it.id;
    assert "max_score" in e <==> it.maxScore.Some?;
    assert "error_type" in e <==> it.errorType.Some?;
  }

  /* ---- the rows of a document ---- */

  function KeyedRow(values: map<string, Json>, key: string): Row
    requires key in values
  {
    var f := if values[key].Obj? then values[key].fields else map["score" := values[key]];
    if "id" in f then f else f["id" := Str(key)]
  }

  function KeyedRows(values: map<string, Json>, names: seq<string>): (r: seq<Row>)
    requires forall k :: k in names ==> k in values
    ensures |r| == |names| && forall i :: 0 <= i < |r| ==> r[i] == KeyedRow(values, names[i])
  {
    seq(|names|, i requires 0 <= i < |names| => KeyedRow(values, names[i]))
  }

  predicate AllObjects(items: seq<Json>)
  {
    forall i :: 0 <= i < |items| ==> items[i].Obj?
  }

  function ObjectRows(items: seq<Json>): (r: seq<Row>)
    requires AllObjects(items)
    ensures |r| == |items| && forall i :: 0 <= i < |r| ==> r[i] == items[i].fields
  {
    seq(|items|, i requires 0 <= i < |items| => items[i].fields)
  }

  /** criteria_scores as a list of rows: an array of objects, or an object keyed by criterion id. */
  ghost function Rows(score: map<string, Json>): Option<seq<Row>>
  {
    if "criteria_scores" !in score then None
    else match score["criteria_scores"]
      case Arr(items) => if AllObjects(items) then Some(ObjectRows(items)) else None
      case Obj(values) => Some(KeyedRows(values, SortedNames(values.Keys)))
      case _ => None
  }

  function ParseRows(max: map<string, real>, rows: seq<Row>): (r: seq<Option<Item>>)
    ensures |r| == |rows| && forall i :: 0 <= i < |r| ==> r[i] == ParseItem(max, rows[i])
  {
    seq(|rows|, i requires 0 <= i < |rows| => ParseItem(max, rows[i]))
  }

  /** The checked items by criterion, refusing malformed and duplicate ones. */
  function Index(parsed: seq<Option<Item>>): Option<map<string, Item>>
  {
    if parsed == [] then Some(map[]) else
      var n := |parsed| - 1;
      match Index(parsed[..n])
      case None => None
      case Some(m) =>
        if parsed[n].None? || parsed[n].value.id in m then None
        else Some(m[parsed[n].value.id := parsed[n].value])
  }

  /* ---- totals ---- */

  function ScoreOf(m: map<string, Item>, id: string): real
  {
    if id in m then m[id].score else 0.0
  }

  /** The exact sum of the criterion scores, in the rubric's order. */
  function ExactTotal(criteria: seq<Criterion>, m: map<string, Item>): real
  {
    if criteria == [] then 0.0 else ExactTotal(criteria[..|criteria| - 1], m) + ScoreOf(m, criteria[|criteria| - 1].id)
  }

  function Canonical(criteria: seq<Criterion>, m: map<string, Item>): (r: seq<Json>)
    requires forall i :: 0 <= i < |criteria| ==> criteria[i].id in m
    ensures |r| == |criteria| && forall i :: 0 <= i < |r| ==> r[i] == Obj(EncodeItem(m[criteria[i].id]))
  {
    seq(|criteria|, i requires 0 <= i < |criteria| => Obj(EncodeItem(m[criteria[i].id])))
  }

  predicate AggregateAgrees(score: map<string, Json>, name: string, value: real)
  {
    name in score ==> score[name].Num? && score[name].number == value
  }

  predicate SummaryValid(score: map<string, Json>)
  {
    "summary" in score ==> score["summary"].Str? && !Blank(score["summary"].text)
  }

  predicate ConfidenceValid(score: map<string, Json>)
  {
    "confidence" in score ==> score["confidence"].Num? && 0.0 <= score["confidence"].number <= 1.0
  }

  function Output(score: map<string, Json>, canonical: seq<Json>, total: real, maximum: real): map<string, Json>
  {
    var base := map["criteria_scores" := Arr(canonical), "total" := Num(total), "max_total" := Num(maximum)];
    var summarized := if "summary" in score then base["summary" := score["summary"]] else base;
    if "confidence" in score then summarized["confidence" := score["confidence"]] else summarized
  }

  predicate Covers(criteria: seq<Criterion>, m: map<string, Item>)
  {
    |m| == |criteria| && forall i :: 0 <= i < |criteria| ==> criteria[i].id in m
  }

  /** Scoring of a list of rows; `score` supplies the optional aggregate fields. */
  function EvaluateRows(p: Platform, r: Rubric, rows: seq<Row>, score: map<string, Json>): Option<Evaluation>
  {
    match Index(ParseRows(Maxima(r.criteria), rows))
    case None => None
    case Some(m) =>
      if !Covers(r.criteria, m) then None
      else
        var exact := ExactTotal(r.criteria, m);
        var total := p.round(exact);
        var maximum := p.round(MaxTotal(r.criteria));
        if total.None? || maximum.None? then None
        else if !AggregateAgrees(score, "total", total.value)
          || !AggregateAgrees(score, "max_total", maximum.value) then None
        else if !SummaryValid(score) || !ConfidenceValid(score) then None
        else
          var out := Output(score, Canonical(r.criteria, m), total.value, maximum.value);
          if p.encodedLength(out) > MAX_JSON_BYTES then None
          else Some(Evaluation(out, total.value, exact >= r.passingScore))
  }

  /** All and only the frozen criteria, each once; aggregates are checked, never trusted. */
  ghost function EvaluateSpec(p: Platform, r: Rubric, score: map<string, Json>): Option<Evaluation>
  {
    if !ValidRubric(p, r) || !(score.Keys <= TOP_FIELDS) then None
    else match Rows(score)
      case None => None
      case Some(rows) => EvaluateRows(p, r, rows, score)
  }

  /* ---- order independence ---- */

  function ItemIds(parsed: seq<Option<Item>>): set<string>
  {
    set x | x in parsed && x.Some? :: x.value.id
  }

  lemma ItemIdsStep(init: seq<Option<Item>>, last: Option<Item>)
    ensures ItemIds(init + [last]) == ItemIds(init) + (if last.Some? then {last.value.id} else {})
  {
    assert forall x :: x in init + [last] <==> x in init || x == last;
  }

  /** A new id leaves the indexed items alone. */
  lemma IndexValues(init: seq<Option<Item>>, last: Option<Item>)
    requires Index(init).Some? && Index(init).value.Keys == ItemIds(init)
    requires last.Some? && last.value.id !in Index(init).value
    requires forall it :: Some(it) in init ==> Index(init).value[it.id] == it
    ensures forall it :: Some(it) in init + [last] ==>
      it.id in Index(init).value.Keys + {last.value.id} &&
      Index(init).value[last.value.id := last.value][it.id] == it
  {
    forall it | Some(it) in init + [last]
      ensures it.id in Index(init).value.Keys + {last.value.id}
      ensures Index(init).value[last.value.id := last.value][it.id] == it
    {
      if Some(it) in init { assert it.id in ItemIds(init); }
    }
  }

  /** The index exists exactly when every item is well formed and no two share an id, and then it
      maps each id to its item. */
  lemma {:induction false} IndexMeaning(parsed: seq<Option<Item>>)
    ensures Index(parsed).Some? <==> None !in parsed && |ItemIds(parsed)| == |parsed|
    ensures |ItemIds(parsed)| <= |parsed|
    ensures Index(parsed).Some? ==> Index(parsed).value.Keys == ItemIds(parsed)
    ensures Index(parsed).Some? ==> forall it :: Some(it) in parsed ==> Index(parsed).value[it.id] == it
  {
    if parsed != [] {
      var n := |parsed| - 1;
      var init := parsed[..n];
      assert parsed == init + [parsed[n]];
      IndexMeaning(init);
      ItemIdsStep(init, parsed[n]);
      assert None in parsed <==> None in init || parsed[n] == None;
      if Index(parsed).Some? { IndexValues(init, parsed[n]); }
    }
  }

  /** Two lists of the same length with the same members have the same index. */
  lemma IndexOrder(parsed: seq<Option<Item>>, parsed': seq<Option<Item>>)
    requires |parsed| == |parsed'| && forall x :: x in parsed <==> x in parsed'
    ensures Index(parsed) == Index(parsed')
  {
    IndexMeaning(parsed);
    IndexMeaning(parsed');
    assert ItemIds(parsed) == ItemIds(parsed');
    if Index(parsed).Some? {
      var m, m' := Index(parsed).value, Index(parsed').value;
      forall id | id in m ensures m[id] == m'[id] {
        var x :| x in parsed && x.Some? && x.value.id == id;
        assert Some(x.value) in parsed && Some(x.value) in parsed';
      }
      assert m == m';
    }
  }

  lemma ParsedMembers(max: map<string, real>, rows: seq<Row>, rows': seq<Row>)
    requires forall f :: f in rows ==> f in rows'
    ensures forall x :: x in ParseRows(max, rows) ==> x in ParseRows(max, rows')
  {
    forall x | x in ParseRows(max, rows) ensures x in ParseRows(max, rows') {
      var i :| 0 <= i < |rows| && ParseRows(max, rows)[i] == x;
      assert rows[i] in rows';
      var j :| 0 <= j < |rows'| && rows'[j] == rows[i];
      assert ParseRows(max, rows')[j] == x;
    }
  }

  /** As many entries, and the same ones; in particular every permutation. */
  ghost predicate SameMembers<T(!new)>(a: seq<T>, b: seq<T>)
  {
    |a| == |b| && forall x :: x in a <==> x in b
  }

  lemma PermutationSameMembers<T(!new)>(a: seq<T>, b: seq<T>)
    requires multiset(a) == multiset(b)
    ensures SameMembers(a, b)
  {
    assert forall x :: x in a <==> x in multiset(a);
    assert forall x :: x in b <==> x in multiset(b);
    assert |a| == |multiset(a)| && |b| == |multiset(b)|;
  }

  /** Scoring does not depend on the order of the rows. */
  lemma OrderDoesNotMatter(p: Platform, r: Rubric, rows: seq<Row>, rows': seq<Row>, score: map<string, Json>)
    requires SameMembers(rows, rows')
    ensures EvaluateRows(p, r, rows, score) == EvaluateRows(p, r, rows', score)
  {
    var max := Maxima(r.criteria);
    ParsedMembers(max, rows, rows');
    ParsedMembers(max, rows', rows);
    IndexOrder(ParseRows(max, rows), ParseRows(max, rows'));
  }
}
