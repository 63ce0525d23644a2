/** What scoring guarantees: order, form and repetition do not matter, and the outcome is the
    exact criterion sum against the frozen passing score. */
module ScoreProofs {
  import opened Options
  import opened Sets
  import opened Ordering
  import opened Rubrics
  import opened Scores

  /** The optional fields a document carries beside its rows. */
  predicate SameAggregates(a: map<string, Json>, b: map<string, Json>)
  {
    forall name :: name in {"total", "max_total", "summary", "confidence"} ==>
      (name in a <==> name in b) && (name in a ==> a[name] == b[name])
  }

  lemma RowsFrame(p: Platform, r: Rubric, rows: seq<Row>, a: map<string, Json>, b: map<string, Json>)
    requires SameAggregates(a, b)
    ensures EvaluateRows(p, r, rows, a) == EvaluateRows(p, r, rows, b)
  {
    var names := {"total", "max_total", "summary", "confidence"};
    assert "total" in names && "max_total" in names && "summary" in names && "confidence" in names;
  }

  function WithRows(score: map<string, Json>, rows: Json): map<string, Json>
  {
    score["criteria_scores" := rows]
  }

  lemma WithRowsAggregates(score: map<string, Json>, x: Json, y: Json)
    ensures SameAggregates(WithRows(score, x), WithRows(score, y))
    ensures WithRows(score, x).Keys == WithRows(score, y).Keys
  {
    assert "criteria_scores" !in {"total", "max_total", "summary", "confidence"};
  }

  lemma SameRowsSameResult(p: Platform, r: Rubric, score: map<string, Json>, x: Json, y: Json, rows: seq<Row>,
                           rows': seq<Row>)
    requires Rows(WithRows(score, x)) == Some(rows) && Rows(WithRows(score, y)) == Some(rows')
    requires SameMembers(rows, rows')
    ensures EvaluateSpec(p, r, WithRows(score, x)) == EvaluateSpec(p, r, WithRows(score, y))
  {
    WithRowsAggregates(score, x, y);
    OrderDoesNotMatter(p, r, rows, rows', WithRows(score, x));
    RowsFrame(p, r, rows', WithRows(score, x), WithRows(score, y));
  }

  lemma ObjectRowsMembers(items: seq<Json>, items': seq<Json>)
    requires AllObjects(items) && AllObjects(items') && forall x :: x in items ==> x in items'
    ensures forall f :: f in ObjectRows(items) ==> f in ObjectRows(items')
  {
    forall f | f in ObjectRows(items) ensures f in ObjectRows(items') {
      var i :| 0 <= i < |items| && ObjectRows(items)[i] == f;
      assert items[i] in items';
      var j :| 0 <= j < |items'| && items'[j] == items[i];
      assert ObjectRows(items')[j] == f;
    }
  }

  lemma SameItemsSameResult(p: Platform, r: Rubric, score: map<string, Json>, items: seq<Json>, items': seq<Json>)
    requires SameMembers(items, items')
    ensures EvaluateSpec(p, r, WithRows(score, Arr(items))) == EvaluateSpec(p, r, WithRows(score, Arr(items')))
  {
    WithRowsAggregates(score, Arr(items), Arr(items'));
    assert forall i :: 0 <= i < |items'| ==> items'[i] in items;
    if AllObjects(items) {
      ObjectRowsMembers(items, items');
      ObjectRowsMembers(items', items);
      SameRowsSameResult(p, r, score, Arr(items), Arr(items'), ObjectRows(items), ObjectRows(items'));
    } else {
      var i :| 0 <= i < |items| && !items[i].Obj?;
      assert items[i] in items';
    }
  }

  /** Permuting the array of criterion items changes nothing. */
  lemma ItemOrderIgnored(p: Platform, r: Rubric, score: map<string, Json>, items: seq<Json>, items': seq<Json>)
    requires multiset(items) == multiset(items')
    ensures EvaluateSpec(p, r, WithRows(score, Arr(items))) == EvaluateSpec(p, r, WithRows(score, Arr(items')))
  {
    PermutationSameMembers(items, items');
    SameItemsSameResult(p, r, score, items, items');
  }

  /* ---- the id-keyed form ---- */

  function Listed(values: map<string, Json>, name: string): Json
    requires name in values
  {
    var f := if values[name].Obj? then values[name].fields else map["score" := values[name]];
    Obj(f["id" := Str(name)])
  }

  function ListedAll(values: map<string, Json>, names: seq<string>): (r: seq<Json>)
    requires forall k :: k in names ==> k in values
    ensures |r| == |names| && forall i :: 0 <= i < |r| ==> r[i] == Listed(values, names[i])
  {
    seq(|names|, i requires 0 <= i < |names| => Listed(values, names[i]))
  }

  /** Each keyed item either carries no id or carries its own key as id. */
  predicate IdsMatchKeys(values: map<string, Json>)
  {
    forall k :: k in values && values[k].Obj? && "id" in values[k].fields ==> values[k].fields["id"] == Str(k)
  }

  lemma KeyedRowIsListed(values: map<string, Json>, k: string)
    requires k in values && IdsMatchKeys(values)
    ensures Obj(KeyedRow(values, k)) == Listed(values, k)
  {
    var f: Row := if values[k].Obj? then values[k].fields else map["score" := values[k]];
    if "id" in f {
      assert f["id" := Str(k)] == f;
    }
  }

  lemma ListedMembers(values: map<string, Json>, a: seq<string>, b: seq<string>)
    requires (forall k :: k in a ==> k in values && k in b) && (forall k :: k in b ==> k in values)
    ensures forall x :: x in ListedAll(values, a) ==> x in ListedAll(values, b)
  {
    forall x | x in ListedAll(values, a) ensures x in ListedAll(values, b) {
      var i :| 0 <= i < |a| && ListedAll(values, a)[i] == x;
      assert a[i] in b;
      var j :| 0 <= j < |b| && b[j] == a[i];
      assert ListedAll(values, b)[j] == x;
    }
  }

  lemma KeyedRowsAreListed(values: map<string, Json>, order: seq<string>)
    requires IdsMatchKeys(values) && forall k :: k in order ==> k in values
    ensures ObjectRows(ListedAll(values, order)) == KeyedRows(values, order)
  {
    forall i | 0 <= i < |order| ensures ObjectRows(ListedAll(values, order))[i] == KeyedRows(values, order)[i] {
      assert order[i] in order;
      KeyedRowIsListed(values, order[i]);
    }
  }

  /** The object form keyed by criterion id scores like the array form that lists the same items,
      in any order. */
  lemma KeyedFormLikeArray(p: Platform, r: Rubric, score: map<string, Json>, values: map<string, Json>,
                           names: seq<string>)
    requires IdsMatchKeys(values)
    requires |names| == |values| && forall k :: k in names <==> k in values
    ensures EvaluateSpec(p, r, WithRows(score, Obj(values))) ==
      EvaluateSpec(p, r, WithRows(score, Arr(ListedAll(values, names))))
  {
    var order := SortedNames(values.Keys);
    var sorted := ListedAll(values, order);
    KeyedRowsAreListed(values, order);
    SameRowsSameResult(p, r, score, Obj(values), Arr(sorted), KeyedRows(values, order), ObjectRows(sorted));
    ListedMembers(values, order, names);
    ListedMembers(values, names, order);
    assert SameMembers(sorted, ListedAll(values, names));
    SameItemsSameResult(p, r, score, sorted, ListedAll(values, names));
  }

  /* ---- fixed point ---- */

  lemma {:induction false} MaximaKeys(criteria: seq<Criterion>)
    ensures Maxima(criteria).Keys == IdsOf(criteria)
  {
    if criteria != [] {
      var n := |criteria| - 1;
      MaximaKeys(criteria[..n]);
      IdsOfStep(criteria, n);
      assert criteria[..n + 1] == criteria;
    }
  }

  lemma {:induction false} DistinctIdsCount(criteria: seq<Criterion>)
    requires DistinctIds(criteria)
    ensures |IdsOf(criteria)| == |criteria|
  {
    if criteria != [] {
      var n := |criteria| - 1;
      var init := criteria[..n];
      assert forall i :: 0 <= i < n ==> init[i] == criteria[i];
      DistinctIdsCount(init);
      IdsOfStep(criteria, n);
      assert criteria[..n + 1] == criteria;
      assert criteria[n].id !in IdsOf(init);
    }
  }

  lemma {:induction false} MaximaValue(criteria: seq<Criterion>, i: nat)
    requires DistinctIds(criteria) && i < |criteria|
    ensures criteria[i].id in Maxima(criteria) && Maxima(criteria)[criteria[i].id] == criteria[i].maxScore
  {
    var n := |criteria| - 1;
    if i < n {
      MaximaValue(criteria[..n], i);
      assert criteria[..n][i] == criteria[i];
    }
  }

  /** Re-parsing the canonical items in rubric order gives back the same index. */
  lemma CanonicalIndex(max: map<string, real>, criteria: seq<Criterion>, rows: seq<Row>, m: map<string, Item>)
    requires Index(ParseRows(max, rows)) == Some(m) && Covers(criteria, m) && DistinctIds(criteria)
    ensures
      var rows' := ObjectRows(Canonical(criteria, m));
      Index(ParseRows(max, rows')) == Some(m)
  {
    var parsed := ParseRows(max, rows);
    var rows' := ObjectRows(Canonical(criteria, m));
    var parsed' := ParseRows(max, rows');
    IndexMeaning(parsed);
    DistinctIdsCount(criteria);
    assert m.Keys == ItemIds(parsed);
    assert IdsOf(criteria) == m.Keys by {
      assert IdsOf(criteria) <= m.Keys;
      SubsetSameSize(IdsOf(criteria), m.Keys);
    }
    forall i | 0 <= i < |criteria| ensures parsed'[i] == Some(m[criteria[i].id]) && parsed'[i] in parsed {
      var id := criteria[i].id;
      assert id in ItemIds(parsed);
      var x :| x in parsed && x.Some? && x.value.id == id;
      var k :| 0 <= k < |parsed| && parsed[k] == x;
      assert ParseItem(max, rows[k]) == x;
      ItemRoundTrip(max, rows[k]);
    }
    forall x | x in parsed ensures x in parsed' {
      assert x.Some?;
      assert x.value.id in m.Keys;
      var i :| 0 <= i < |criteria| && criteria[i].id == x.value.id;
      assert Some(x.value) in parsed;
      assert parsed'[i] == x;
    }
    IndexOrder(parsed, parsed');
  }

  /** Reading an output document gives back the fields it was built from. */
  lemma OutputFields(score: map<string, Json>, canonical: seq<Json>, total: real, maximum: real)
    ensures
      var out := Output(score, canonical, total, maximum);
      && out.Keys <= TOP_FIELDS
      && "criteria_scores" in out && out["criteria_scores"] == Arr(canonical)
      && "total" in out && out["total"] == Num(total)
      && "max_total" in out && out["max_total"] == Num(maximum)
      && ("summary" in out <==> "summary" in score) && ("summary" in score ==> out["summary"] == score["summary"])
      && ("confidence" in out <==> "confidence" in score)
        && ("confidence" in score ==> out["confidence"] == score["confidence"])
      && Output(out, canonical, total, maximum) == out
  {
  }

  /** The rows of an output document evaluate to the same result. */
  lemma OutputRowsReevaluate(p: Platform, r: Rubric, rows: seq<Row>, score: map<string, Json>)
    requires ValidRubric(p, r) && EvaluateRows(p, r, rows, score).Some?
    ensures
      var e := EvaluateRows(p, r, rows, score).value;
      var m := Index(ParseRows(Maxima(r.criteria), rows)).value;
      EvaluateRows(p, r, ObjectRows(Canonical(r.criteria, m)), e.score) == Some(e)
  {
    var m := Index(ParseRows(Maxima(r.criteria), rows)).value;
    CanonicalIndex(Maxima(r.criteria), r.criteria, rows, m);
    OutputFields(score, Canonical(r.criteria, m), p.round(ExactTotal(r.criteria, m)).value,
                 p.round(MaxTotal(r.criteria)).value);
  }

  lemma OutputReevaluates(p: Platform, r: Rubric, rows: seq<Row>, score: map<string, Json>)
    requires ValidRubric(p, r) && EvaluateRows(p, r, rows, score).Some?
    ensures
      var e := EvaluateRows(p, r, rows, score).value;
      EvaluateSpec(p, r, e.score) == Some(e)
  {
    var e := EvaluateRows(p, r, rows, score).value;
    var m := Index(ParseRows(Maxima(r.criteria), rows)).value;
    var canonical := Canonical(r.criteria, m);
    assert Rows(e.score) == Some(ObjectRows(canonical)) && e.score.Keys <= TOP_FIELDS by {
      OutputFields(score, canonical, p.round(ExactTotal(r.criteria, m)).value, p.round(MaxTotal(r.criteria)).value);
    }
    OutputRowsReevaluate(p, r, rows, score);
  }

  /** Evaluation is a fixed point on its own canonical output: this is what lets adjudication
      recompute the hash of a recorded score. */
  lemma CanonicalIsFixedPoint(p: Platform, r: Rubric, score: map<string, Json>)
    requires EvaluateSpec(p, r, score).Some?
    ensures EvaluateSpec(p, r, EvaluateSpec(p, r, score).value.score) == EvaluateSpec(p, r, score)
  {
    OutputReevaluates(p, r, Rows(score).value, score);
  }

  /* ---- outcome ---- */

  /** The index of an accepted document: one checked item per frozen criterion. */
  ghost function Graded(p: Platform, r: Rubric, score: map<string, Json>): (m: map<string, Item>)
    requires EvaluateSpec(p, r, score).Some?
    ensures Covers(r.criteria, m)
  {
    Index(ParseRows(Maxima(r.criteria), Rows(score).value)).value
  }

  lemma ParsedInRange(max: map<string, real>, f: Row)
    requires ParseItem(max, f).Some?
    ensures
      var it := ParseItem(max, f).value;
      it.id in max && 0.0 <= it.score <= max[it.id]
  {
  }

  lemma IndexedInRange(max: map<string, real>, rows: seq<Row>, m: map<string, Item>, id: string)
    requires Index(ParseRows(max, rows)) == Some(m) && id in m
    ensures id in max && 0.0 <= m[id].score <= max[id]
  {
    var parsed := ParseRows(max, rows);
    IndexMeaning(parsed);
    assert id in ItemIds(parsed);
    var x :| x in parsed && x.Some? && x.value.id == id;
    var k :| 0 <= k < |parsed| && parsed[k] == x;
    assert Some(x.value) in parsed;
    ParsedInRange(max, rows[k]);
  }

  /** Every criterion of a covering index holds a checked score within its range. */
  lemma CoveringIndex(criteria: seq<Criterion>, rows: seq<Row>, m: map<string, Item>)
    requires DistinctIds(criteria) && Index(ParseRows(Maxima(criteria), rows)) == Some(m) && Covers(criteria, m)
    ensures m.Keys == IdsOf(criteria)
    ensures forall i :: 0 <= i < |criteria| ==> 0.0 <= ScoreOf(m, criteria[i].id) <= criteria[i].maxScore
  {
    DistinctIdsCount(criteria);
    assert IdsOf(criteria) <= m.Keys;
    SubsetSameSize(IdsOf(criteria), m.Keys);
    forall i | 0 <= i < |criteria| ensures 0.0 <= ScoreOf(m, criteria[i].id) <= criteria[i].maxScore {
      MaximaValue(criteria, i);
      IndexedInRange(Maxima(criteria), rows, m, criteria[i].id);
    }
  }

  /** An accepted document grades exactly the frozen criteria, each within its range, and passes
      exactly when the exact sum reaches the frozen passing score. */
  lemma AcceptedMeaning(p: Platform, r: Rubric, score: map<string, Json>)
    requires EvaluateSpec(p, r, score).Some?
    ensures Graded(p, r, score).Keys == IdsOf(r.criteria)
    ensures forall i :: 0 <= i < |r.criteria| ==>
      0.0 <= ScoreOf(Graded(p, r, score), r.criteria[i].id) <= r.criteria[i].maxScore
    ensures EvaluateSpec(p, r, score).value.passed <==> ExactTotal(r.criteria, Graded(p, r, score)) >= r.passingScore
    ensures p.round(ExactTotal(r.criteria, Graded(p, r, score))) == Some(EvaluateSpec(p, r, score).value.total)
  {
    CoveringIndex(r.criteria, Rows(score).value, Graded(p, r, score));
  }

  predicate AllAt(criteria: seq<Criterion>, m: map<string, Item>, full: bool)
  {
    forall i :: 0 <= i < |criteria| ==> ScoreOf(m, criteria[i].id) == if full then criteria[i].maxScore else 0.0
  }

  /** Full marks always pass and all zeros never do. */
  lemma FullMarksPassZerosFail(p: Platform, r: Rubric, score: map<string, Json>)
    requires EvaluateSpec(p, r, score).Some?
    ensures AllAt(r.criteria, Graded(p, r, score), true) ==> EvaluateSpec(p, r, score).value.passed
    ensures AllAt(r.criteria, Graded(p, r, score), false) ==> !EvaluateSpec(p, r, score).value.passed
  {
    var m := Graded(p, r, score);
    AcceptedMeaning(p, r, score);
    ExtremeSums(r.criteria, m);
  }

  lemma {:induction false} ExtremeSums(criteria: seq<Criterion>, m: map<string, Item>)
    ensures AllAt(criteria, m, true) ==> ExactTotal(criteria, m) == MaxTotal(criteria)
    ensures AllAt(criteria, m, false) ==> ExactTotal(criteria, m) == 0.0
  {
    if criteria != [] {
      ExtremeSums(criteria[..|criteria| - 1], m);
    }
  }
}
