/** Frozen rubrics: the values a rubric document may hold and what makes one admissible. */
module Rubrics {
  import opened Options
  import opened Texts

  /** A parsed JSON value. A number is identified with its canonical decimal. */
  datatype Json =
    | Null | Bool(flag: bool) | Num(number: real) | Str(text: string) | Arr(items: seq<Json>)
    | Obj(fields: map<string, Json>)

  datatype Anchor = Anchor(score: real, description: string)
  datatype Criterion = Criterion(id: string, description: string, maxScore: real, anchors: seq<Anchor>)
  datatype Rubric = Rubric(criteria: seq<Criterion>, passingScore: real, answerKey: string)

  const MAX_JSON_BYTES: nat := 16384

  /** What the host platform decides: which runes are letters or digits, how an exact sum is
      rounded to a stored number (None on overflow), and the length of an encoded document. */
  datatype Platform = Platform(alnum: char -> bool, round: real -> Option<real>,
                               encodedLength: map<string, Json> -> nat)

  predicate ValidId(p: Platform, id: string)
  {
    && (forall i :: 0 <= i < |id| ==> p.alnum(id[i]) || id[i] == '_' || id[i] == '-')
    && (exists i :: 0 <= i < |id| && p.alnum(id[i]))
  }

  predicate ValidAnchors(c: Criterion)
  {
    && (forall i :: 0 <= i < |c.anchors| ==>
      0.0 <= c.anchors[i].score <= c.maxScore && !Blank(c.anchors[i].description))
    && (forall i, j :: 0 <= i < j < |c.anchors| ==> c.anchors[i].score != c.anchors[j].score)
  }

  predicate ValidCriterion(p: Platform, c: Criterion)
  {
    ValidId(p, c.id) && !Blank(c.description) && c.maxScore > 0.0 && ValidAnchors(c)
  }

  predicate DistinctIds(criteria: seq<Criterion>)
  {
    forall i, j :: 0 <= i < j < |criteria| ==> criteria[i].id != criteria[j].id
  }

  function MaxTotal(criteria: seq<Criterion>): real
  {
    if criteria == [] then 0.0 else MaxTotal(criteria[..|criteria| - 1]) + criteria[|criteria| - 1].maxScore
  }

  predicate ValidCriteria(p: Platform, criteria: seq<Criterion>)
  {
    (forall i :: 0 <= i < |criteria| ==> ValidCriterion(p, criteria[i])) && DistinctIds(criteria)
  }

  /** A rubric that may be frozen: defined criteria with unique ids and a reachable, positive passing score. */
  predicate ValidRubric(p: Platform, r: Rubric)
  {
    && r.criteria != []
    && ValidCriteria(p, r.criteria)
    && p.round(MaxTotal(r.criteria)).Some?
    && 0.0 < r.passingScore <= MaxTotal(r.criteria)
  }

  function IdsOf(criteria: seq<Criterion>): (r: set<string>)
    ensures forall i :: 0 <= i < |criteria| ==> criteria[i].id in r
    ensures forall x :: x in r ==> exists i :: 0 <= i < |criteria| && criteria[i].id == x
  {
    set i | 0 <= i < |criteria| :: criteria[i].id
  }

  method ValidateAnchors(c: Criterion) returns (ok: bool)
    ensures ok == ValidAnchors(c)
  {
    var scores: set<real> := {};
    for j := 0 to |c.anchors|
      invariant forall i :: 0 <= i < j ==> 0.0 <= c.anchors[i].score <= c.maxScore && !Blank(c.anchors[i].description)
      invariant forall i, k :: 0 <= i < k < j ==> c.anchors[i].score != c.anchors[k].score
      invariant forall x :: x in scores <==> exists i :: 0 <= i < j && c.anchors[i].score == x
    {
      var a := c.anchors[j];
      if a.score < 0.0 || a.score > c.maxScore || a.score in scores || Blank(a.description) {
        return false;
      }
      scores := scores + {a.score};
    }
    return true;
  }

  method ValidateCriterion(p: Platform, c: Criterion) returns (ok: bool)
    ensures ok == ValidCriterion(p, c)
  {
    if !ValidId(p, c.id) || Blank(c.description) || c.maxScore <= 0.0 {
      return false;
    }
    ok := ValidateAnchors(c);
  }

  lemma ValidCriteriaStep(p: Platform, criteria: seq<Criterion>, i: nat)
    requires i < |criteria| && ValidCriteria(p, criteria[..i])
    ensures ValidCriteria(p, criteria[..i + 1]) <==>
      ValidCriterion(p, criteria[i]) && criteria[i].id !in IdsOf(criteria[..i])
  {
    var before, after := criteria[..i], criteria[..i + 1];
    assert forall k :: 0 <= k < i ==> after[k] == before[k];
    assert after[i] == criteria[i];
    if criteria[i].id in IdsOf(before) {
      var k :| 0 <= k < i && before[k].id == criteria[i].id;
      assert after[k].id == after[i].id;
    }
  }

  lemma ValidPrefix(p: Platform, criteria: seq<Criterion>, i: nat)
    requires i <= |criteria|
    ensures ValidCriteria(p, criteria) ==> ValidCriteria(p, criteria[..i])
  {
  }

  lemma IdsOfStep(criteria: seq<Criterion>, i: nat)
    requires i < |criteria|
    ensures IdsOf(criteria[..i + 1]) == IdsOf(criteria[..i]) + {criteria[i].id}
    ensures MaxTotal(criteria[..i + 1]) == MaxTotal(criteria[..i]) + criteria[i].maxScore
  {
    var before, after := criteria[..i], criteria[..i + 1];
    assert after[..i] == before;
    assert forall k :: 0 <= k < i ==> after[k] == before[k];
    forall x | x in IdsOf(after) ensures x in IdsOf(before) + {criteria[i].id} {
      var k :| 0 <= k < |after| && after[k].id == x;
      assert k < i ==> before[k].id == x;
    }
    forall x | x in IdsOf(before) ensures x in IdsOf(after) {
      var k :| 0 <= k < |before| && before[k].id == x;
      assert after[k].id == x;
    }
    assert after[i].id in IdsOf(after);
  }

  /** The criteria checked so far: all valid, with their ids and their maxima added up. */
  predicate Checked(p: Platform, criteria: seq<Criterion>, ids: set<string>, total: real)
  {
    ValidCriteria(p, criteria) && ids == IdsOf(criteria) && total == MaxTotal(criteria)
  }

  lemma CheckedStep(p: Platform, criteria: seq<Criterion>, i: nat, ids: set<string>, total: real)
    requires i < |criteria| && Checked(p, criteria[..i], ids, total)
    ensures ValidCriterion(p, criteria[i]) && criteria[i].id !in ids ==>
      Checked(p, criteria[..i + 1], ids + {criteria[i].id}, total + criteria[i].maxScore)
    ensures !(ValidCriterion(p, criteria[i]) && criteria[i].id !in ids) ==> !ValidCriteria(p, criteria)
  {
    ValidCriteriaStep(p, criteria, i);
    IdsOfStep(criteria, i);
    ValidPrefix(p, criteria, i + 1);
  }

  /** One pass over the criteria that records their maxima by id and adds them up. */
  method ValidateCriteria(p: Platform, criteria: seq<Criterion>) returns (ok: bool, total: real)
    ensures ok == ValidCriteria(p, criteria)
    ensures ok ==> total == MaxTotal(criteria)
  {
    var maxById: map<string, real> := map[];
    total := 0.0;
    for i := 0 to |criteria|
      invariant Checked(p, criteria[..i], maxById.Keys, total)
    {
      var c := criteria[i];
      var valid := ValidateCriterion(p, c);
      CheckedStep(p, criteria, i, maxById.Keys, total);
      if !valid || c.id in maxById {
        return false, total;
      }
      maxById := maxById[c.id := c.maxScore];
      total := total + c.maxScore;
    }
    assert criteria[..|criteria|] == criteria;
    ok := true;
  }

  method ValidateRubric(p: Platform, r: Rubric) returns (ok: bool)
    ensures ok == ValidRubric(p, r)
  {
    if r.criteria == [] {
      return false;
    }
    var valid, total := ValidateCriteria(p, r.criteria);
    ok := valid && p.round(total).Some? && 0.0 < r.passingScore <= total;
  }
}
