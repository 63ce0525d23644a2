/** Exactly which documents are accepted, and what an accepted one is turned into, said of the document
    itself. */
module ScoreAcceptance {
  import opened Options
  import opened Texts
  import opened Sets
  import opened Ordering
  import opened Rubrics
  import opened Scores
  import opened ScoreProofs

  /** The row grades the criterion: it names it, gives a score in range and some evidence, and repeats its
      maximum and names a known error type if anything at all. */
  predicate Fits(c: Criterion, f: Row)
  {
    && f.Keys <= {"id", "score", "evidence", "error_type", "max_score"}
    && "id" in f && f["id"] == Str(c.id)
    && "score" in f && f["score"].Num? && 0.0 <= f["score"].number <= c.maxScore
    && "evidence" in f && f["evidence"].Str? && !Blank(f["evidence"].text)
    && ("max_score" in f ==> f["max_score"] == Num(c.maxScore))
    && ("error_type" in f ==>
          f["error_type"].Str? && f["error_type"].text in {"", "SYNTAX_ERROR", "LOGIC_ERROR", "KNOWLEDGE_GAP"})
  }

  /** Each criterion has its own row, and no row is left over. */
  predicate Assigns(criteria: seq<Criterion>, rows: seq<Row>, pos: seq<nat>)
  {
    && |pos| == |criteria| == |rows|
    && (forall i :: 0 <= i < |pos| ==> pos[i] < |rows| && Fits(criteria[i], rows[pos[i]]))
    && Distinct(pos)
  }

  /** The scores of the criteria's rows, added up. */
  function Sum(rows: seq<Row>, pos: seq<nat>): real
  {
    if pos == [] then 0.0
    else
      var k := pos[|pos| - 1];
      Sum(rows, pos[..|pos| - 1])
      + if k < |rows| && "score" in rows[k] && rows[k]["score"].Num? then rows[k]["score"].number else 0.0
  }

  /* ---- rows and items ---- */

  lemma IdNotEmpty(p: Platform, c: Criterion)
    requires ValidCriterion(p, c)
    ensures c.id != ""
  {
  }

  lemma FitsIff(criteria: seq<Criterion>, i: nat, f: Row)
    requires DistinctIds(criteria) && i < |criteria| && criteria[i].id != ""
    ensures Fits(criteria[i], f) <==> RowValid(Maxima(criteria), f) && RowId(f) == criteria[i].id
  {
    MaximaValue(criteria, i);
    FitsMax(criteria[i], Maxima(criteria), f);
  }

  lemma FitsMax(c: Criterion, max: map<string, real>, f: Row)
    requires c.id != "" && c.id in max && max[c.id] == c.maxScore
    ensures Fits(c, f) <==> RowValid(max, f) && RowId(f) == c.id
  {
  }

  /** Checking a row and writing it down again gives back that very row. */
  lemma EncodedIsRow(c: Criterion, f: Row)
    requires Fits(c, f)
    ensures EncodeItem(RowItem(f)) == f && RowItem(f).id == c.id && RowItem(f).score == f["score"].number
  {
    var g := EncodeItem(RowItem(f));
    assert g.Keys == f.Keys;
    forall name <- f ensures g[name] == f[name] {
      assert name in {"id", "score", "evidence", "error_type", "max_score"};
    }
  }

  function IdsIn(parsed: seq<Option<Item>>): (r: seq<string>)
    requires forall i :: 0 <= i < |parsed| ==> parsed[i].Some?
    ensures |r| == |parsed| && forall i :: 0 <= i < |r| ==> r[i] == parsed[i].value.id
  {
    seq(|parsed|, i requires 0 <= i < |parsed| => parsed[i].value.id)
  }

  lemma DistinctItems(parsed: seq<Option<Item>>)
    requires (forall i :: 0 <= i < |parsed| ==> parsed[i].Some?) && Distinct(IdsIn(parsed))
    ensures None !in parsed && |ItemIds(parsed)| == |parsed|
  {
    var ids := IdsIn(parsed);
    DistinctSize(ids);
    forall x | x in ids ensures x in ItemIds(parsed) {
      var i :| 0 <= i < |ids| && ids[i] == x;
      assert parsed[i] in parsed;
    }
    forall x | x in ItemIds(parsed) ensures x in ids {
      var y :| y in parsed && y.Some? && y.value.id == x;
      var i :| 0 <= i < |parsed| && parsed[i] == y;
      assert ids[i] == x;
    }
    assert ItemIds(parsed) == set x | x in ids;
  }

  predicate Named(criteria: seq<Criterion>)
  {
    DistinctIds(criteria) && forall i :: 0 <= i < |criteria| ==> criteria[i].id != ""
  }

  lemma RubricNamed(p: Platform, r: Rubric)
    requires ValidRubric(p, r)
    ensures Named(r.criteria)
  {
    forall i | 0 <= i < |r.criteria| ensures r.criteria[i].id != "" { IdNotEmpty(p, r.criteria[i]); }
  }

  /** Row k of an assignment is checked as the item of its criterion. */
  lemma AssignedRow(criteria: seq<Criterion>, rows: seq<Row>, pos: seq<nat>, i: nat)
    requires Named(criteria) && Assigns(criteria, rows, pos) && i < |pos|
    ensures
      var parsed := ParseRows(Maxima(criteria), rows);
      parsed[pos[i]] == Some(RowItem(rows[pos[i]])) && RowItem(rows[pos[i]]).id == criteria[i].id
  {
    FitsIff(criteria, i, rows[pos[i]]);
    EncodedIsRow(criteria[i], rows[pos[i]]);
  }

  lemma AssignedIndex(criteria: seq<Criterion>, rows: seq<Row>, pos: seq<nat>)
    requires Named(criteria) && Assigns(criteria, rows, pos)
    ensures
      var m := Index(ParseRows(Maxima(criteria), rows));
      && m.Some? && Covers(criteria, m.value)
      && forall i :: 0 <= i < |pos| ==> m.value[criteria[i].id] == RowItem(rows[pos[i]])
  {
    var parsed := ParseRows(Maxima(criteria), rows);
    RowsParsed(criteria, rows, pos);
    DistinctItems(parsed);
    IndexMeaning(parsed);
    var m := Index(parsed).value;
    forall i | 0 <= i < |pos| ensures criteria[i].id in m && m[criteria[i].id] == RowItem(rows[pos[i]]) {
      AssignedRow(criteria, rows, pos, i);
      assert parsed[pos[i]] in parsed;
    }
  }

  lemma RowsParsed(criteria: seq<Criterion>, rows: seq<Row>, pos: seq<nat>)
    requires Named(criteria) && Assigns(criteria, rows, pos)
    ensures
      var parsed := ParseRows(Maxima(criteria), rows);
      (forall k :: 0 <= k < |parsed| ==> parsed[k].Some?) && Distinct(IdsIn(parsed))
  {
    var parsed := ParseRows(Maxima(criteria), rows);
    forall k | 0 <= k < |rows| ensures parsed[k].Some? {
      var i := CriterionOf(criteria, rows, pos, k);
    }
    var ids := IdsIn(parsed);
    forall k, l | 0 <= k < l < |rows| ensures ids[k] != ids[l] {
      var i := CriterionOf(criteria, rows, pos, k);
      var j := CriterionOf(criteria, rows, pos, l);
      assert i != j;
    }
  }

  lemma CriterionOf(criteria: seq<Criterion>, rows: seq<Row>, pos: seq<nat>, k: nat) returns (i: nat)
    requires Named(criteria) && Assigns(criteria, rows, pos) && k < |rows|
    ensures i < |pos| && pos[i] == k
    ensures
      var x := ParseItem(Maxima(criteria), rows[k]);
      x.Some? && x.value.id == criteria[i].id
  {
    EveryPlaceTaken(pos, k);
    i :| 0 <= i < |pos| && pos[i] == k;
    AssignedRow(criteria, rows, pos, i);
  }

  /** An index that covers the criteria gives an assignment. */
  lemma IndexAssigns(criteria: seq<Criterion>, rows: seq<Row>, m: map<string, Item>) returns (pos: seq<nat>)
    requires Named(criteria) && Index(ParseRows(Maxima(criteria), rows)) == Some(m) && Covers(criteria, m)
    ensures Assigns(criteria, rows, pos)
  {
    pos := PlaceFirst(criteria, rows, m, |criteria|);
    DistinctPlaces(criteria, rows, pos);
    IndexSize(ParseRows(Maxima(criteria), rows));
  }

  lemma {:induction false} IndexSize(parsed: seq<Option<Item>>)
    requires Index(parsed).Some?
    ensures |Index(parsed).value| == |parsed|
  {
    if parsed != [] { IndexSize(parsed[..|parsed| - 1]); }
  }

  lemma {:induction false} PlaceFirst(criteria: seq<Criterion>, rows: seq<Row>, m: map<string, Item>, n: nat)
    returns (pos: seq<nat>)
    requires Named(criteria) && Index(ParseRows(Maxima(criteria), rows)) == Some(m) && Covers(criteria, m)
    requires n <= |criteria|
    ensures |pos| == n && Placed(criteria, rows, pos)
  {
    if n == 0 {
      pos := [];
    } else {
      pos := PlaceFirst(criteria, rows, m, n - 1);
      var k := RowOf(criteria, rows, m, n - 1);
      pos := pos + [k];
    }
  }

  predicate Placed(criteria: seq<Criterion>, rows: seq<Row>, pos: seq<nat>)
  {
    |pos| <= |criteria| && forall i :: 0 <= i < |pos| ==> pos[i] < |rows| && Fits(criteria[i], rows[pos[i]])
  }

  lemma DistinctPlaces(criteria: seq<Criterion>, rows: seq<Row>, pos: seq<nat>)
    requires DistinctIds(criteria) && Placed(criteria, rows, pos)
    ensures Distinct(pos)
  {
    forall i, j | 0 <= i < j < |pos| ensures pos[i] != pos[j] {
      assert Fits(criteria[i], rows[pos[i]]) && Fits(criteria[j], rows[pos[j]]);
    }
  }

  lemma RowOf(criteria: seq<Criterion>, rows: seq<Row>, m: map<string, Item>, n: nat) returns (k: nat)
    requires Named(criteria) && Index(ParseRows(Maxima(criteria), rows)) == Some(m) && Covers(criteria, m)
    requires n < |criteria|
    ensures k < |rows| && Fits(criteria[n], rows[k])
  {
    var parsed, id := ParseRows(Maxima(criteria), rows), criteria[n].id;
    IndexMeaning(parsed);
    assert id in ItemIds(parsed);
    var x :| x in parsed && x.Some? && x.value.id == id;
    k :| 0 <= k < |parsed| && parsed[k] == x;
    FitsIff(criteria, n, rows[k]);
  }

  lemma {:induction false} SumIsTotal(criteria: seq<Criterion>, rows: seq<Row>, pos: seq<nat>, m: map<string, Item>)
    requires |pos| == |criteria|
    requires forall i :: 0 <= i < |pos| ==>
      pos[i] < |rows| && Fits(criteria[i], rows[pos[i]]) && criteria[i].id in m
      && m[criteria[i].id] == RowItem(rows[pos[i]])
    ensures ExactTotal(criteria, m) == Sum(rows, pos)
  {
    if pos != [] {
      var n := |pos| - 1;
      SumIsTotal(criteria[..n], rows, pos[..n], m);
      EncodedIsRow(criteria[n], rows[pos[n]]);
    }
  }

  /* ---- acceptance ---- */

  predicate Agrees(score: map<string, Json>, name: string, value: real)
  {
    name in score ==> score[name] == Num(value)
  }

  /** The optional aggregates and remarks. */
  predicate Remarks(score: map<string, Json>, total: real, maximum: real)
  {
    && Agrees(score, "total", total) && Agrees(score, "max_total", maximum)
    && ("summary" in score ==> score["summary"].Str? && !Blank(score["summary"].text))
    && ("confidence" in score ==> score["confidence"].Num? && 0.0 <= score["confidence"].number <= 1.0)
  }

  /** What an accepted document becomes: its rows in the rubric's order, the sums, and its remarks. */
  function Rewritten(score: map<string, Json>, rows: seq<Row>, pos: seq<nat>, total: real,
                     maximum: real): map<string, Json>
    requires forall i :: 0 <= i < |pos| ==> pos[i] < |rows|
  {
    var listed := Arr(InOrder(rows, pos));
    map name | name in TOP_FIELDS && (name in {"summary", "confidence"} ==> name in score)
      :: if name == "criteria_scores" then listed else if name == "total" then Num(total)
         else if name == "max_total" then Num(maximum) else score[name]
  }

  lemma OutputIsRewritten(criteria: seq<Criterion>, rows: seq<Row>, pos: seq<nat>, m: map<string, Item>,
                          score: map<string, Json>, total: real, maximum: real)
    requires Assigns(criteria, rows, pos) && Covers(criteria, m)
    requires forall i :: 0 <= i < |pos| ==> m[criteria[i].id] == RowItem(rows[pos[i]])
    ensures Output(score, Canonical(criteria, m), total, maximum) == Rewritten(score, rows, pos, total, maximum)
  {
    CanonicalIsListed(criteria, rows, pos, m);
    RewrittenFields(score, rows, pos, total, maximum);
  }

  function InOrder(rows: seq<Row>, pos: seq<nat>): (r: seq<Json>)
    requires forall i :: 0 <= i < |pos| ==> pos[i] < |rows|
    ensures |r| == |pos| && forall i :: 0 <= i < |pos| ==> r[i] == Obj(rows[pos[i]])
  {
    seq(|pos|, i requires 0 <= i < |pos| => Obj(rows[pos[i]]))
  }

  lemma CanonicalIsListed(criteria: seq<Criterion>, rows: seq<Row>, pos: seq<nat>, m: map<string, Item>)
    requires Assigns(criteria, rows, pos) && Covers(criteria, m)
    requires forall i :: 0 <= i < |pos| ==> m[criteria[i].id] == RowItem(rows[pos[i]])
    ensures Canonical(criteria, m) == InOrder(rows, pos)
  {
    forall i | 0 <= i < |pos| ensures Canonical(criteria, m)[i] == Obj(rows[pos[i]]) {
      EncodedIsRow(criteria[i], rows[pos[i]]);
    }
  }

  lemma RewrittenFields(score: map<string, Json>, rows: seq<Row>, pos: seq<nat>, total: real, maximum: real)
    requires forall i :: 0 <= i < |pos| ==> pos[i] < |rows|
    ensures Output(score, InOrder(rows, pos), total, maximum) == Rewritten(score, rows, pos, total, maximum)
  {
    OutputFields(score, InOrder(rows, pos), total, maximum);
  }

  /** What is made of an index that covers the criteria. */
  function Finished(p: Platform, r: Rubric, score: map<string, Json>, listed: seq<Json>, sum: real): Option<Evaluation>
  {
    var total, maximum := p.round(sum), p.round(MaxTotal(r.criteria));
    if total.None? || maximum.None? || !Remarks(score, total.value, maximum.value) then None
    else
      var out := Output(score, listed, total.value, maximum.value);
      if p.encodedLength(out) > MAX_JSON_BYTES then None else Some(Evaluation(out, total.value, sum >= r.passingScore))
  }

  lemma IndexFinished(p: Platform, r: Rubric, rows: seq<Row>, score: map<string, Json>, m: map<string, Item>)
    requires Index(ParseRows(Maxima(r.criteria), rows)) == Some(m) && Covers(r.criteria, m)
    ensures EvaluateRows(p, r, rows, score) ==
      Finished(p, r, score, Canonical(r.criteria, m), ExactTotal(r.criteria, m))
  {
  }

  lemma RowsAccepted(p: Platform, r: Rubric, rows: seq<Row>, score: map<string, Json>, pos: seq<nat>)
    requires Named(r.criteria) && Assigns(r.criteria, rows, pos)
    ensures
      var total, maximum := p.round(Sum(rows, pos)), p.round(MaxTotal(r.criteria));
      EvaluateRows(p, r, rows, score) ==
        if total.None? || maximum.None? || !Remarks(score, total.value, maximum.value)
           || p.encodedLength(Rewritten(score, rows, pos, total.value, maximum.value)) > MAX_JSON_BYTES then None
        else Some(Evaluation(Rewritten(score, rows, pos, total.value, maximum.value), total.value,
                             Sum(rows, pos) >= r.passingScore))
  {
    AssignedIndex(r.criteria, rows, pos);
    var m := Index(ParseRows(Maxima(r.criteria), rows)).value;
    SumIsTotal(r.criteria, rows, pos, m);
    IndexFinished(p, r, rows, score, m);
    FinishedRows(p, r, rows, score, pos, m);
  }

  lemma FinishedRows(p: Platform, r: Rubric, rows: seq<Row>, score: map<string, Json>, pos: seq<nat>,
                     m: map<string, Item>)
    requires Assigns(r.criteria, rows, pos) && Covers(r.criteria, m)
    requires forall i :: 0 <= i < |pos| ==> m[r.criteria[i].id] == RowItem(rows[pos[i]])
    ensures
      var sum := Sum(rows, pos);
      var total, maximum := p.round(sum), p.round(MaxTotal(r.criteria));
      Finished(p, r, score, Canonical(r.criteria, m), sum) ==
        if total.None? || maximum.None? || !Remarks(score, total.value, maximum.value)
           || p.encodedLength(Rewritten(score, rows, pos, total.value, maximum.value)) > MAX_JSON_BYTES then None
        else Some(Evaluation(Rewritten(score, rows, pos, total.value, maximum.value), total.value,
                             sum >= r.passingScore))
  {
    var total, maximum := p.round(Sum(rows, pos)), p.round(MaxTotal(r.criteria));
    if total.Some? && maximum.Some? {
      OutputIsRewritten(r.criteria, rows, pos, m, score, total.value, maximum.value);
    }
  }

  /** What an assignment makes of the document: refused, or rewritten with its sums and its outcome. */
  ghost predicate Outcome(p: Platform, r: Rubric, rows: seq<Row>, score: map<string, Json>, pos: seq<nat>,
                          e: Option<Evaluation>)
    requires Assigns(r.criteria, rows, pos)
  {
    var total, maximum := p.round(Sum(rows, pos)), p.round(MaxTotal(r.criteria));
    && (e.Some? <==>
          && total.Some? && maximum.Some? && Remarks(score, total.value, maximum.value)
          && p.encodedLength(Rewritten(score, rows, pos, total.value, maximum.value)) <= MAX_JSON_BYTES)
    && (e.Some? ==> e.value == Evaluation(Rewritten(score, rows, pos, total.value, maximum.value), total.value,
                                          Sum(rows, pos) >= r.passingScore))
  }

  /** For every rubric that may be frozen and every document with rows: it is accepted exactly when it has
      only known fields, the rows can be assigned to the criteria one to one, the sums can be stored, its
      aggregates and remarks are in order and the result is in size; and then the result lists those very
      rows in the rubric's order with their exact sum, and passes exactly when that reaches the bar. */
  lemma AcceptedIff(p: Platform, r: Rubric, score: map<string, Json>)
    requires ValidRubric(p, r) && Rows(score).Some?
    ensures
      var rows, e := Rows(score).value, EvaluateSpec(p, r, score);
      && (forall pos :: Assigns(r.criteria, rows, pos) && score.Keys <= TOP_FIELDS ==>
            Outcome(p, r, rows, score, pos, e))
      && (e.Some? ==> score.Keys <= TOP_FIELDS && exists pos :: Assigns(r.criteria, rows, pos))
  {
    RubricNamed(p, r);
    var rows := Rows(score).value;
    forall pos | Assigns(r.criteria, rows, pos) && score.Keys <= TOP_FIELDS
      ensures Outcome(p, r, rows, score, pos, EvaluateSpec(p, r, score))
    {
      RowsAccepted(p, r, rows, score, pos);
    }
    if EvaluateSpec(p, r, score).Some? {
      var pos := IndexAssigns(r.criteria, rows, Index(ParseRows(Maxima(r.criteria), rows)).value);
    }
  }

  /** Nothing is accepted under a rubric that may not be frozen, or without rows: a list of objects, or an
      object whose members are scores or objects. */
  lemma RefusedOutright(p: Platform, r: Rubric, score: map<string, Json>)
    ensures !ValidRubric(p, r) || Rows(score).None? ==> EvaluateSpec(p, r, score).None?
    ensures Rows(score).None? <==>
      "criteria_scores" !in score || !(score["criteria_scores"].Obj?
        || (score["criteria_scores"].Arr?
            && forall i :: 0 <= i < |score["criteria_scores"].items| ==> score["criteria_scores"].items[i].Obj?))
  {
  }

  /** The rows of a keyed document, one for each member in the order of their names: an object as it is, with
      the name as its id only if it has none, and anything else as a bare score. */
  lemma KeyedRowsAre(values: map<string, Json>, score: map<string, Json>)
    requires "criteria_scores" in score && score["criteria_scores"] == Obj(values)
    ensures Rows(score).Some? && |Rows(score).value| == |values|
    ensures
      var rows, names := Rows(score).value, SortedNames(values.Keys);
      forall i :: 0 <= i < |rows| ==>
        && names[i] in values && var v := values[names[i]];
        && (v.Obj? && "id" in v.fields ==> rows[i] == v.fields)
        && (v.Obj? && "id" !in v.fields ==> rows[i] == v.fields["id" := Str(names[i])])
        && (!v.Obj? ==> rows[i] == map["score" := v, "id" := Str(names[i])])
  {
    var names := SortedNames(values.Keys);
    forall i | 0 <= i < |names| ensures names[i] in values { assert names[i] in names; }
  }

  /* ---- rubrics that may be frozen ---- */

  /** Every criterion adds something: a rubric without it has a lower maximum. */
  lemma EveryCriterionCounts(p: Platform, r: Rubric, i: nat)
    requires ValidRubric(p, r) && i < |r.criteria|
    ensures MaxTotal(r.criteria[..i] + r.criteria[i + 1..]) < MaxTotal(r.criteria)
  {
    assert ValidCriterion(p, r.criteria[i]);
    MaxTotalSplit(r.criteria[..i], r.criteria[i + 1..]);
    MaxTotalSplit(r.criteria[..i + 1], r.criteria[i + 1..]);
    assert r.criteria[..i + 1][..i] == r.criteria[..i];
    assert r.criteria[..i + 1] + r.criteria[i + 1..] == r.criteria;
  }

  lemma {:induction false} MaxTotalSplit(a: seq<Criterion>, b: seq<Criterion>)
    ensures MaxTotal(a + b) == MaxTotal(a) + MaxTotal(b)
  {
    if b == [] {
      assert a + b == a;
    } else {
      var n := |b| - 1;
      assert (a + b)[..|a + b| - 1] == a + b[..n];
      MaxTotalSplit(a, b[..n]);
    }
  }

  /** Every anchor describes a score that a row may give. */
  lemma AnchorsAreScores(p: Platform, r: Rubric, i: nat, k: nat, evidence: string)
    requires ValidRubric(p, r) && i < |r.criteria| && k < |r.criteria[i].anchors| && !Blank(evidence)
    ensures
      var c := r.criteria[i];
      && !Blank(c.anchors[k].description)
      && Fits(c, map["id" := Str(c.id), "score" := Num(c.anchors[k].score), "evidence" := Str(evidence)])
  {
    assert ValidCriterion(p, r.criteria[i]);
  }
}
