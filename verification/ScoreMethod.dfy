/** Scoring as it is written: one pass over the items that fills an index by criterion id and
    accumulates the total and the maximum in item order. */
module ScoreMethods {
  import opened Options
  import opened Sets
  import opened Ordering
  import opened Rubrics
  import opened Scores
  import opened ScoreProofs

  /* ---- sums over id lists ---- */

  function SumOver(ids: seq<string>, w: map<string, real>): real
  {
    if ids == [] then 0.0 else
      var n := |ids| - 1;
      SumOver(ids[..n], w) + (if ids[n] in w then w[ids[n]] else 0.0)
  }

  lemma {:induction false} SumOverConcat(a: seq<string>, b: seq<string>, w: map<string, real>)
    ensures SumOver(a + b, w) == SumOver(a, w) + SumOver(b, w)
  {
    if b == [] {
      assert a + b == a;
    } else {
      var n := |b| - 1;
      assert (a + b)[..|a + b| - 1] == a + b[..n];
      SumOverConcat(a, b[..n], w);
    }
  }

  predicate NoRepeats(ids: seq<string>)
  {
    forall i, j :: 0 <= i < j < |ids| ==> ids[i] != ids[j]
  }

  function Weight(x: string, w: map<string, real>): real
  {
    if x in w then w[x] else 0.0
  }

  lemma SumOverRemove(b: seq<string>, j: nat, w: map<string, real>)
    requires j < |b|
    ensures SumOver(b, w) == SumOver(b[..j] + b[j + 1..], w) + Weight(b[j], w)
  {
    var left, right := b[..j], b[j + 1..];
    assert b == (left + [b[j]]) + right;
    SumOverConcat(left + [b[j]], right, w);
    SumOverConcat(left, [b[j]], w);
    SumOverConcat(left, right, w);
    assert SumOver([b[j]], w) == SumOver([], w) + Weight(b[j], w) by {
      assert [b[j]][..0] == [];
    }
  }

  lemma RemoveMembers(b: seq<string>, j: nat)
    requires j < |b| && NoRepeats(b)
    ensures
      var rest := b[..j] + b[j + 1..];
      NoRepeats(rest) && forall y :: y in rest <==> y in b && y != b[j]
  {
    var rest := b[..j] + b[j + 1..];
    assert forall i :: 0 <= i < |rest| ==> rest[i] == b[if i < j then i else i + 1];
    forall y | y in b && y != b[j] ensures y in rest {
      var i :| 0 <= i < |b| && b[i] == y;
      assert rest[if i < j then i else i - 1] == y;
    }
  }

  /** A sum over distinct ids depends only on which ids they are. */
  lemma {:induction false} SumOverOrder(a: seq<string>, b: seq<string>, w: map<string, real>)
    requires |a| == |b| && NoRepeats(a) && NoRepeats(b) && forall x :: x in a <==> x in b
    ensures SumOver(a, w) == SumOver(b, w)
    decreases |a|
  {
    if a != [] {
      var n := |a| - 1;
      assert a[n] in b;
      var j :| 0 <= j < |b| && b[j] == a[n];
      RemoveMembers(a, n);
      RemoveMembers(b, j);
      assert a[..n] + a[n + 1..] == a[..n];
      SumOverRemove(b, j, w);
      SumOverOrder(a[..n], b[..j] + b[j + 1..], w);
    }
  }

  /* ---- the running totals ---- */

  function ParsedIds(parsed: seq<Option<Item>>): (r: seq<string>)
    requires None !in parsed
    ensures |r| == |parsed| && forall i :: 0 <= i < |r| ==> r[i] == parsed[i].value.id
  {
    seq(|parsed|, i requires 0 <= i < |parsed| => assert parsed[i] in parsed; parsed[i].value.id)
  }

  function CriterionIds(criteria: seq<Criterion>): (r: seq<string>)
    ensures |r| == |criteria| && forall i :: 0 <= i < |r| ==> r[i] == criteria[i].id
  {
    seq(|criteria|, i requires 0 <= i < |criteria| => criteria[i].id)
  }

  function ScoresOf(m: map<string, Item>): map<string, real>
  {
    map id | id in m :: m[id].score
  }

  lemma {:induction false} ExactTotalIsSum(criteria: seq<Criterion>, m: map<string, Item>)
    ensures ExactTotal(criteria, m) == SumOver(CriterionIds(criteria), ScoresOf(m))
  {
    if criteria != [] {
      var n := |criteria| - 1;
      ExactTotalIsSum(criteria[..n], m);
      assert CriterionIds(criteria)[..n] == CriterionIds(criteria[..n]);
    }
  }

  lemma {:induction false} MaxTotalIsSum(criteria: seq<Criterion>, w: map<string, real>)
    requires forall i :: 0 <= i < |criteria| ==> criteria[i].id in w && w[criteria[i].id] == criteria[i].maxScore
    ensures MaxTotal(criteria) == SumOver(CriterionIds(criteria), w)
  {
    if criteria != [] {
      var n := |criteria| - 1;
      MaxTotalIsSum(criteria[..n], w);
      assert CriterionIds(criteria)[..n] == CriterionIds(criteria[..n]);
    }
  }

  /** The ids of an accepted list of items are the criterion ids, in another order. */
  lemma AcceptedIds(criteria: seq<Criterion>, parsed: seq<Option<Item>>, m: map<string, Item>)
    requires DistinctIds(criteria) && Index(parsed) == Some(m) && Covers(criteria, m)
    ensures None !in parsed && |parsed| == |criteria|
    ensures NoRepeats(ParsedIds(parsed)) && NoRepeats(CriterionIds(criteria))
    ensures forall x :: x in ParsedIds(parsed) <==> x in CriterionIds(criteria)
  {
    IndexMeaning(parsed);
    DistinctIdsCount(criteria);
    SubsetSameSize(IdsOf(criteria), m.Keys);
    IndexNoRepeats(parsed);
    forall x ensures x in ParsedIds(parsed) <==> x in CriterionIds(criteria) {
      ParsedIdMembers(parsed, x);
      CriterionIdMembers(criteria, x);
    }
  }

  lemma ParsedIdMembers(parsed: seq<Option<Item>>, x: string)
    requires None !in parsed
    ensures x in ParsedIds(parsed) <==> x in ItemIds(parsed)
  {
    if x in ParsedIds(parsed) {
      var i :| 0 <= i < |parsed| && ParsedIds(parsed)[i] == x;
      assert parsed[i] in parsed;
    }
    if x in ItemIds(parsed) {
      var y :| y in parsed && y.Some? && y.value.id == x;
      var i :| 0 <= i < |parsed| && parsed[i] == y;
      assert ParsedIds(parsed)[i] == x;
    }
  }

  lemma CriterionIdMembers(criteria: seq<Criterion>, x: string)
    ensures x in CriterionIds(criteria) <==> x in IdsOf(criteria)
  {
    if x in IdsOf(criteria) {
      var k :| 0 <= k < |criteria| && criteria[k].id == x;
      assert CriterionIds(criteria)[k] == x;
    }
  }

  lemma LastIdIsNew(parsed: seq<Option<Item>>, i: nat)
    requires Index(parsed).Some? && None !in parsed && i < |parsed| - 1
    ensures parsed[i].Some? && parsed[|parsed| - 1].Some? && parsed[i].value.id != parsed[|parsed| - 1].value.id
  {
    var n := |parsed| - 1;
    var init := parsed[..n];
    IndexMeaning(init);
    assert init[i] in init && init[i] == parsed[i] && parsed[i] in parsed && parsed[n] in parsed;
    assert init[i].value.id in ItemIds(init);
  }

  lemma {:induction false} IndexNoRepeats(parsed: seq<Option<Item>>)
    requires Index(parsed).Some? && None !in parsed
    ensures NoRepeats(ParsedIds(parsed))
  {
    if parsed != [] {
      var n := |parsed| - 1;
      var init := parsed[..n];
      assert forall x :: x in init ==> x in parsed;
      IndexNoRepeats(init);
      forall i | 0 <= i < n ensures ParsedIds(parsed)[i] == ParsedIds(init)[i]
        && ParsedIds(parsed)[i] != ParsedIds(parsed)[n] {
        LastIdIsNew(parsed, i);
      }
    }
  }

  /** Adding the item scores in item order gives the exact total in rubric order. */
  lemma RunningTotals(criteria: seq<Criterion>, parsed: seq<Option<Item>>, m: map<string, Item>)
    requires DistinctIds(criteria) && Index(parsed) == Some(m) && Covers(criteria, m)
    ensures None !in parsed
    ensures SumOver(ParsedIds(parsed), ScoresOf(m)) == ExactTotal(criteria, m)
    ensures SumOver(ParsedIds(parsed), Maxima(criteria)) == MaxTotal(criteria)
  {
    AcceptedIds(criteria, parsed, m);
    SumOverOrder(ParsedIds(parsed), CriterionIds(criteria), ScoresOf(m));
    SumOverOrder(ParsedIds(parsed), CriterionIds(criteria), Maxima(criteria));
    ExactTotalIsSum(criteria, m);
    forall i | 0 <= i < |criteria| ensures criteria[i].id in Maxima(criteria)
      && Maxima(criteria)[criteria[i].id] == criteria[i].maxScore {
      MaximaValue(criteria, i);
    }
    MaxTotalIsSum(criteria, Maxima(criteria));
  }

  /** A new id leaves the sum over the earlier ids unchanged. */
  lemma {:induction false} SumOverFrame(ids: seq<string>, w: map<string, real>, w': map<string, real>)
    requires forall i :: 0 <= i < |ids| ==> ids[i] in w && ids[i] in w' && w[ids[i]] == w'[ids[i]]
    ensures SumOver(ids, w) == SumOver(ids, w')
  {
    if ids != [] {
      SumOverFrame(ids[..|ids| - 1], w, w');
    }
  }

  /* ---- the method ---- */

  method MaxByCriterion(criteria: seq<Criterion>) returns (max: map<string, real>)
    ensures max == Maxima(criteria)
  {
    max := map[];
    for i := 0 to |criteria|
      invariant max == Maxima(criteria[..i])
    {
      assert criteria[..i + 1][..i] == criteria[..i];
      max := max[criteria[i].id := criteria[i].maxScore];
    }
    assert criteria[..|criteria|] == criteria;
  }

  method CollectRows(score: map<string, Json>) returns (rows: Option<seq<Row>>)
    ensures rows == Rows(score)
  {
    if "criteria_scores" !in score {
      return None;
    }
    match score["criteria_scores"] {
      case Arr(items) =>
        var list: seq<Row> := [];
        for i := 0 to |items|
          invariant |list| == i && forall k :: 0 <= k < i ==> items[k].Obj? && list[k] == items[k].fields
        {
          if !items[i].Obj? {
            return None;
          }
          list := list + [items[i].fields];
        }
        assert list == ObjectRows(items);
        rows := Some(list);
      case Obj(values) =>
        var names := SortNames(values.Keys);
        var list: seq<Row> := [];
        for i := 0 to |names|
          invariant |list| == i && forall k :: 0 <= k < i ==>
            names[k] in values && list[k] == KeyedRow(values, names[k])
        {
          assert names[i] in names;
          list := list + [KeyedRow(values, names[i])];
        }
        assert list == KeyedRows(values, names);
        rows := Some(list);
      case _ =>
        rows := None;
    }
  }

  lemma {:induction false} IndexFails(parsed: seq<Option<Item>>, n: nat)
    requires n <= |parsed| && Index(parsed[..n]).None?
    ensures Index(parsed).None?
    decreases |parsed|
  {
    if n < |parsed| {
      assert parsed[..|parsed| - 1][..n] == parsed[..n];
      IndexFails(parsed[..|parsed| - 1], n);
    } else {
      assert parsed[..n] == parsed;
    }
  }

  lemma EarlierIdsKnown(before: seq<Option<Item>>, m: map<string, Item>)
    requires Index(before) == Some(m)
    ensures None !in before && forall k :: 0 <= k < |before| ==> ParsedIds(before)[k] in m
  {
    IndexMeaning(before);
    forall k | 0 <= k < |before| ensures ParsedIds(before)[k] in m {
      assert before[k] in before && before[k].value.id in ItemIds(before);
    }
  }

  /** The ids, the score sum and the maximum sum after one more accepted item. */
  lemma RunningStep(before: seq<Option<Item>>, it: Item, m: map<string, Item>, max: map<string, real>)
    requires Index(before) == Some(m) && it.id !in m
    ensures
      var after := before + [Some(it)];
      var m' := m[it.id := it];
      && None !in before && None !in after
      && Index(after) == Some(m')
      && SumOver(ParsedIds(after), ScoresOf(m')) == SumOver(ParsedIds(before), ScoresOf(m)) + it.score
      && SumOver(ParsedIds(after), max) == SumOver(ParsedIds(before), max) + Weight(it.id, max)
  {
    var after := before + [Some(it)];
    var m' := m[it.id := it];
    EarlierIdsKnown(before, m);
    assert after[..|before|] == before;
    assert ParsedIds(after)[..|before|] == ParsedIds(before);
    SumOverFrame(ParsedIds(before), ScoresOf(m), ScoresOf(m'));
  }

  /** The item loop: index by id, total and maximum, or nothing at the first bad item. */
  method IndexRows(max: map<string, real>, rows: seq<Row>) returns (byId: Option<map<string, Item>>, total: real,
                   maximum: real)
    ensures byId == Index(ParseRows(max, rows))
    ensures byId.Some? ==> None !in ParseRows(max, rows)
    ensures byId.Some? ==> total == SumOver(ParsedIds(ParseRows(max, rows)), ScoresOf(byId.value))
    ensures byId.Some? ==> maximum == SumOver(ParsedIds(ParseRows(max, rows)), max)
  {
    ghost var parsed := ParseRows(max, rows);
    var m: map<string, Item> := map[];
    total, maximum := 0.0, 0.0;
    for i := 0 to |rows|
      invariant Index(parsed[..i]) == Some(m) && None !in parsed[..i]
      invariant total == SumOver(ParsedIds(parsed[..i]), ScoresOf(m))
      invariant maximum == SumOver(ParsedIds(parsed[..i]), max)
    {
      var item := ParseItem(max, rows[i]);
      assert parsed[..i + 1][..i] == parsed[..i] && parsed[i] == item;
      if item.None? || item.value.id in m {
        IndexFails(parsed, i + 1);
        return None, 0.0, 0.0;
      }
      assert parsed[..i + 1] == parsed[..i] + [item];
      RunningStep(parsed[..i], item.value, m, max);
      m := m[item.value.id := item.value];
      total := total + item.value.score;
      ParsedInRange(max, rows[i]);
      maximum := maximum + max[item.value.id];
    }
    assert parsed[..|rows|] == parsed;
    byId := Some(m);
  }

  /** A full index has one item per frozen criterion exactly when the counts agree. */
  lemma CountDecidesCover(criteria: seq<Criterion>, rows: seq<Row>, m: map<string, Item>)
    requires DistinctIds(criteria) && Index(ParseRows(Maxima(criteria), rows)) == Some(m)
    ensures |m| == |criteria| <==> Covers(criteria, m)
  {
    if |m| == |criteria| {
      MaximaKeys(criteria);
      DistinctIdsCount(criteria);
      forall id | id in m ensures id in IdsOf(criteria) {
        IndexedInRange(Maxima(criteria), rows, m, id);
      }
      SubsetSameSize(m.Keys, IdsOf(criteria));
    }
  }

  method Evaluate(p: Platform, r: Rubric, score: map<string, Json>) returns (e: Option<Evaluation>)
    ensures e == EvaluateSpec(p, r, score)
  {
    var valid := ValidateRubric(p, r);
    if !valid || !(score.Keys <= TOP_FIELDS) {
      return None;
    }
    var rows := CollectRows(score);
    if rows.None? {
      return None;
    }
    var max := MaxByCriterion(r.criteria);
    var byId, total, maximum := IndexRows(max, rows.value);
    if byId.None? {
      return None;
    }
    CountDecidesCover(r.criteria, rows.value, byId.value);
    if |byId.value| != |r.criteria| {
      return None;
    }
    RunningTotals(r.criteria, ParseRows(max, rows.value), byId.value);
    e := Finish(p, r, score, byId.value, total, maximum);
  }

  /** Aggregate checks, canonical output and outcome. */
  method Finish(p: Platform, r: Rubric, score: map<string, Json>, byId: map<string, Item>, total: real, maximum: real)
    returns (e: Option<Evaluation>)
    requires Covers(r.criteria, byId) && total == ExactTotal(r.criteria, byId) && maximum == MaxTotal(r.criteria)
    ensures forall rows :: Index(ParseRows(Maxima(r.criteria), rows)) == Some(byId) ==>
      e == EvaluateRows(p, r, rows, score)
  {
    var totalValue, maxValue := p.round(total), p.round(maximum);
    if totalValue.None? || maxValue.None? {
      return None;
    }
    if !AggregateAgrees(score, "total", totalValue.value) || !AggregateAgrees(score, "max_total", maxValue.value) {
      return None;
    }
    if !SummaryValid(score) || !ConfidenceValid(score) {
      return None;
    }
    var canonical: seq<Json> := [];
    for i := 0 to |r.criteria|
      invariant |canonical| == i && forall k :: 0 <= k < i ==> canonical[k] == Obj(EncodeItem(byId[r.criteria[k].id]))
    {
      canonical := canonical + [Obj(EncodeItem(byId[r.criteria[i].id]))];
    }
    assert canonical == Canonical(r.criteria, byId);
    var out := Output(score, canonical, totalValue.value, maxValue.value);
    if p.encodedLength(out) > MAX_JSON_BYTES {
      return None;
    }
    e := Some(Evaluation(out, totalValue.value, total >= r.passingScore));
  }
}
