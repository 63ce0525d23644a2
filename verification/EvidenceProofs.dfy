/** What every run of the evidence tables keeps. */
module EvidenceProofs {
  import opened Options
  import opened Rubrics
  import opened Scores
  import opened ScoreProofs
  import opened Evidence

  /* ---- runs ---- */

  datatype Event =
    | CreateAttempt(id: string, draft: Draft)
    | SubmitAttempt(id: string, response: string)
    | CompleteAttempt(id: string, evaluator: Method, score: Doc, total: real, passed: bool)
    | CancelAttempt(id: string)
    | ReviewAttempt(reviewId: string, attempt: string, reviewer: string, key: string, material: Material, score: Doc)
    | AdjudicateAttempt(certificate: Certificate)
    | ReviseCurriculum(domain: string, expected: nat, next: Snapshot)
    | SetHighStakes(domain: string, flag: bool)
    | RedactAttempt(id: string)
    | RedactReview(reviewId: string)

  ghost function Step(p: Platform, t: Tables, e: Event): Tables
  {
    match e
    case CreateAttempt(id, draft) => Create(p, t, id, draft).0
    case SubmitAttempt(id, response) => Submit(t, id, response).0
    case CompleteAttempt(id, evaluator, score, total, passed) => Complete(p, t, id, evaluator, score, total, passed).0
    case CancelAttempt(id) => Cancel(t, id).0
    case ReviewAttempt(r, a, reviewer, key, material, score) => RecordReview(p, t, r, a, reviewer, key, material,
      score).0
    case AdjudicateAttempt(c) => Adjudicate(p, t, c).0
    case ReviseCurriculum(domain, expected, next) => Revise(t, domain, expected, next).0
    case SetHighStakes(domain, flag) =>
      if domain in t.domains then t.(domains := t.domains[domain := t.domains[domain].(highStakes := flag)]) else t
    case RedactAttempt(id) =>
      if id in t.attempts then t.(attempts := t.attempts[id := t.attempts[id].(task := "", response := "")]) else t
    case RedactReview(r) =>
      if r in t.reviews then t.(reviews := t.reviews[r := t.reviews[r].(score := None)]) else t
  }

  ghost function Run(p: Platform, t: Tables, events: seq<Event>): Tables
    decreases |events|
  {
    if events == [] then t else Run(p, Step(p, t, events[0]), events[1..])
  }

  predicate Initial(t: Tables)
  {
    && t.attempts == map[] && t.reviews == map[] && t.adjudications == [] && t.prepared == map[]
    && forall d :: d in t.domains ==> DomainOk(t.domains[d])
  }

  predicate DomainOk(d: Domain)
  {
    d.versions != [] && forall v :: 0 <= v < |d.versions| ==> ValidSnapshot(d.versions[v])
  }

  /* ---- curriculum history of a concept ---- */

  predicate Changed(previous: Snapshot, next: Snapshot, key: string)
  {
    var c, c' := ByKey(previous, key), ByKey(next, key);
    c.None? || c'.None? || c.value.status != c'.value.status || !SameDefinition(c.value.definition, c'.value.definition)
  }

  /** The first version after `from` that changed the concept, or 0. */
  function FirstBreak(versions: seq<Snapshot>, key: string, from: nat): nat
    requires from >= 1
  {
    var n := |versions|;
    if n <= from then 0 else
      var earlier := FirstBreak(versions[..n - 1], key, from);
      if earlier != 0 then earlier
      else if Changed(versions[n - 2], versions[n - 1], key) then n else 0
  }

  /** In snapshot s the concept is active under the definition `origin` had. */
  predicate SteadyIn(origin: Snapshot, s: Snapshot, key: string)
  {
    && ActiveKey(s, key) && ByKey(origin, key).Some?
    && SameDefinition(ByKey(origin, key).value.definition, ByKey(s, key).value.definition)
  }

  /** From version `from` to the last one the concept is active under one definition. */
  predicate Steady(versions: seq<Snapshot>, key: string, from: nat)
  {
    && 1 <= from <= |versions|
    && forall v :: from - 1 <= v < |versions| ==> SteadyIn(versions[from - 1], versions[v], key)
  }

  lemma {:induction false} EntryMapMember(entries: seq<Entry>, id: string)
    requires id in EntryMap(entries)
    ensures EntryMap(entries)[id] in entries
  {
    var n := |entries| - 1;
    if entries[n].id != id {
      EntryMapMember(entries[..n], id);
    }
  }

  lemma {:induction false} EntryMapDistinct(entries: seq<Entry>, i: nat)
    requires DistinctEntries(entries) && i < |entries|
    ensures entries[i].id in EntryMap(entries) && EntryMap(entries)[entries[i].id] == entries[i]
  {
    var n := |entries| - 1;
    if i < n {
      EntryMapDistinct(entries[..n], i);
      assert entries[..n][i] == entries[i];
    }
  }

  lemma EntriesKeptTransitive(a: seq<Entry>, b: seq<Entry>, c: seq<Entry>)
    requires EntriesKept(a, b) && EntriesKept(b, c)
    ensures EntriesKept(a, c)
  {
    forall i | 0 <= i < |c| ensures c[i].id in EntryMap(a) && EntryMap(a)[c[i].id] == c[i] {
      EntryMapMember(b, c[i].id);
      var k :| 0 <= k < |b| && b[k] == c[i];
    }
  }

  lemma EntriesKeptReflexive(a: seq<Entry>)
    requires DistinctEntries(a)
    ensures EntriesKept(a, a)
  {
    forall i | 0 <= i < |a| ensures a[i].id in EntryMap(a) && EntryMap(a)[a[i].id] == a[i] {
      EntryMapDistinct(a, i);
    }
  }

  lemma SameDefinitionTransitive(a: Definition, b: Definition, c: Definition)
    requires SameDefinition(a, b) && SameDefinition(b, c)
    ensures SameDefinition(a, c)
  {
    EntriesKeptTransitive(a.outcomes, b.outcomes, c.outcomes);
    EntriesKeptTransitive(a.criteria, b.criteria, c.criteria);
  }

  lemma SteadyStart(s: Snapshot, key: string)
    requires ValidSnapshot(s) && ActiveKey(s, key)
    ensures SteadyIn(s, s, key)
  {
    var c := ByKey(s, key).value;
    var i :| 0 <= i < |s| && s[i] == c;
    EntriesKeptReflexive(c.definition.outcomes);
    EntriesKeptReflexive(c.definition.criteria);
  }

  lemma SteadyStep(origin: Snapshot, s: Snapshot, next: Snapshot, key: string)
    requires SteadyIn(origin, s, key) && !Changed(s, next, key)
    ensures SteadyIn(origin, next, key)
  {
    SameDefinitionTransitive(ByKey(origin, key).value.definition, ByKey(s, key).value.definition,
      ByKey(next, key).value.definition);
  }

  /** No break since an active version means one definition, continuously active. */
  lemma {:induction false} NoBreakSteady(versions: seq<Snapshot>, key: string, from: nat)
    requires 1 <= from <= |versions| && ActiveKey(versions[from - 1], key) && ValidSnapshot(versions[from - 1])
    requires FirstBreak(versions, key, from) == 0
    ensures Steady(versions, key, from)
    decreases |versions|
  {
    var n := |versions|;
    if n == from {
      SteadyStart(versions[from - 1], key);
    } else {
      var init := versions[..n - 1];
      NoBreakSteady(init, key, from);
      assert SteadyIn(init[from - 1], init[n - 2], key);
      SteadyStep(versions[from - 1], versions[n - 2], versions[n - 1], key);
      forall v | from - 1 <= v < n ensures SteadyIn(versions[from - 1], versions[v], key) {
        if v < n - 1 {
          assert init[v] == versions[v];
        }
      }
    }
  }

  /* ---- reconciliation ---- */

  predicate Hit(previous: Snapshot, next: Snapshot, key: string)
  {
    exists i :: 0 <= i < |previous| && previous[i].key == key &&
      ById(next, previous[i].id).Some? && !Unaffected(previous[i], ById(next, previous[i].id).value)
  }

  predicate Marked(a: Attempt, domain: string, previous: Snapshot, next: Snapshot)
  {
    a.domain == domain && a.invalidated == 0 && Hit(previous, next, a.concept)
  }

  /** Reconciliation marks exactly the current attempts of the affected concepts. */
  lemma {:induction false} ReconcileMarks(attempts: map<string, Attempt>, domain: string, previous: Snapshot,
                                          next: Snapshot, version: nat)
    requires version >= 1 && Reconcile(attempts, domain, previous, next, version).Some?
    ensures
      var rows := Reconcile(attempts, domain, previous, next, version).value;
      && rows.Keys == attempts.Keys
      && forall id :: id in attempts ==>
           rows[id] == if Marked(attempts[id], domain, previous, next) then attempts[id].(invalidated := version)
             else attempts[id]
    ensures forall i :: 0 <= i < |previous| ==>
      ById(next, previous[i].id).Some? && ById(next, previous[i].id).value.key == previous[i].key
  {
    if previous != [] {
      var n := |previous| - 1;
      var init := previous[..n];
      ReconcileMarks(attempts, domain, init, next, version);
      var rows := Reconcile(attempts, domain, init, next, version).value;
      var updated := ById(next, previous[n].id).value;
      forall key ensures Hit(previous, next, key) <==>
        Hit(init, next, key) || (previous[n].key == key && !Unaffected(previous[n], updated)) {
        HitStep(previous, next, key);
      }
    }
  }

  lemma HitStep(previous: Snapshot, next: Snapshot, key: string)
    requires previous != [] && ById(next, previous[|previous| - 1].id).Some?
    ensures
      var n := |previous| - 1;
      Hit(previous, next, key) <==>
        Hit(previous[..n], next, key)
          || (previous[n].key == key && !Unaffected(previous[n], ById(next, previous[n].id).value))
  {
    var n := |previous| - 1;
    var init := previous[..n];
    if Hit(previous, next, key) {
      var i :| 0 <= i < |previous| && previous[i].key == key &&
        ById(next, previous[i].id).Some? && !Unaffected(previous[i], ById(next, previous[i].id).value);
      if i < n {
        assert init[i] == previous[i];
      }
    }
    if Hit(init, next, key) {
      var i :| 0 <= i < |init| && init[i].key == key &&
        ById(next, init[i].id).Some? && !Unaffected(init[i], ById(next, init[i].id).value);
      assert previous[i] == init[i];
    }
  }

  lemma UniqueByKey(s: Snapshot, i: nat)
    requires ValidSnapshot(s) && i < |s|
    ensures ByKey(s, s[i].key) == Some(s[i])
  {
    var c := ByKey(s, s[i].key).value;
    var j :| 0 <= j < |s| && s[j] == c;
  }

  /** For an active concept, being hit by the reconciliation is the same as having changed. */
  lemma HitIsChanged(previous: Snapshot, next: Snapshot, key: string)
    requires ValidSnapshot(previous) && ValidSnapshot(next) && ActiveKey(previous, key)
    requires forall i :: 0 <= i < |previous| ==>
      ById(next, previous[i].id).Some? && ById(next, previous[i].id).value.key == previous[i].key
    ensures Hit(previous, next, key) <==> Changed(previous, next, key)
  {
    var c := ByKey(previous, key).value;
    var i :| 0 <= i < |previous| && previous[i] == c;
    var c' := ById(next, c.id).value;
    var j :| 0 <= j < |next| && next[j] == c';
    UniqueByKey(next, j);
    assert ByKey(next, key) == Some(c');
    if Hit(previous, next, key) {
      var k :| 0 <= k < |previous| && previous[k].key == key &&
        ById(next, previous[k].id).Some? && !Unaffected(previous[k], ById(next, previous[k].id).value);
      assert k == i;
    }
  }

  /* ---- the invariant ---- */

  /** The attempt's recorded outcome is what scoring its own record gives. */
  ghost predicate Scored(p: Platform, r: Rubric, score: Doc, total: real, passed: bool)
  {
    EvaluateSpec(p, r, score) == Some(Evaluation(score, total, passed))
  }

  ghost predicate AttemptInv(p: Platform, a: Attempt)
  {
    && !a.trusted
    && (a.decision.Some? ==>
      a.rubric.Some? && ValidRubric(p, a.rubric.value) && a.passingScore == a.rubric.value.passingScore)
    && (a.status == Evaluated ==> a.evaluation == Some(HostLLM) && a.score.Some?)
    && (a.status == Evaluated && a.decision.Some? ==> Scored(p, a.rubric.value, a.score.value, a.total, a.passed))
  }

  /** The invalidation mark is the first version after preparation that changed the concept. */
  ghost predicate MarkInv(a: Attempt, versions: seq<Snapshot>, from: nat)
  {
    && 1 <= from <= |versions|
    && ActiveKey(versions[from - 1], a.concept)
    && a.invalidated == FirstBreak(versions, a.concept, from)
  }

  ghost predicate ReviewInv(p: Platform, attempts: map<string, Attempt>, r: Review)
  {
    && r.attempt in attempts
    && attempts[r.attempt].decision.Some? && attempts[r.attempt].rubric.Some?
    && r.material.rubric == attempts[r.attempt].rubric.value
    && Scored(p, attempts[r.attempt].rubric.value, r.scoreHash, r.total, r.passed)
    && (r.score.Some? ==> r.score.value == r.scoreHash)
  }

  function CountFor(rows: seq<Adjudication>, attempt: string): nat
  {
    if rows == [] then 0 else
      CountFor(rows[..|rows| - 1], attempt) + (if rows[|rows| - 1].attempt == attempt then 1 else 0)
  }

  /** Each attempt's rows carry revisions 1, 2, 3 ... in order, and no certificate appears twice. */
  ghost predicate RevisionInv(rows: seq<Adjudication>)
  {
    && (forall i :: 0 <= i < |rows| ==> rows[i].revision == CountFor(rows[..i], rows[i].attempt) + 1)
    && (forall i, j :: 0 <= i < j < |rows| ==>
      !(rows[i].authority == rows[j].authority && rows[i].certificate == rows[j].certificate))
  }

  ghost predicate RowsInv(rows: seq<Adjudication>, reviews: map<string, Review>)
  {
    forall i :: 0 <= i < |rows| ==> rows[i].review in reviews && reviews[rows[i].review].attempt == rows[i].attempt
  }

  ghost predicate DomainsInv(domains: map<string, Domain>)
  {
    forall d :: d in domains ==> DomainOk(domains[d])
  }

  ghost predicate AttemptsInv(p: Platform, attempts: map<string, Attempt>)
  {
    forall id :: id in attempts ==> AttemptInv(p, attempts[id])
  }

  ghost predicate MarksInv(attempts: map<string, Attempt>, domains: map<string, Domain>, prepared: map<string, nat>)
  {
    forall id :: id in attempts ==>
      id in prepared && attempts[id].domain in domains
        && MarkInv(attempts[id], domains[attempts[id].domain].versions, prepared[id])
  }

  ghost predicate ReviewsInv(p: Platform, attempts: map<string, Attempt>, reviews: map<string, Review>)
  {
    forall r :: r in reviews ==> ReviewInv(p, attempts, reviews[r])
  }

  ghost predicate Inv(p: Platform, t: Tables)
  {
    && DomainsInv(t.domains) && AttemptsInv(p, t.attempts) && MarksInv(t.attempts, t.domains, t.prepared)
    && ReviewsInv(p, t.attempts, t.reviews) && RevisionInv(t.adjudications) && RowsInv(t.adjudications, t.reviews)
  }

  /* ---- steps ---- */

  /** Reviews depend only on the frozen fields of their attempts. */
  lemma ReviewsKept(p: Platform, attempts: map<string, Attempt>, attempts': map<string, Attempt>,
                    reviews: map<string, Review>)
    requires ReviewsInv(p, attempts, reviews)
    requires forall id :: id in attempts ==>
      id in attempts' && attempts'[id].decision == attempts[id].decision && attempts'[id].rubric == attempts[id].rubric
    ensures ReviewsInv(p, attempts', reviews)
  {
    forall r | r in reviews ensures ReviewInv(p, attempts', reviews[r]) {
      assert ReviewInv(p, attempts, reviews[r]);
    }
  }

  lemma MarksAfterUpdate(attempts: map<string, Attempt>, domains: map<string, Domain>, prepared: map<string, nat>,
                         id: string, row: Attempt)
    requires MarksInv(attempts, domains, prepared) && id in attempts
    requires row.domain == attempts[id].domain && row.concept == attempts[id].concept
    requires row.invalidated == attempts[id].invalidated
    ensures MarksInv(attempts[id := row], domains, prepared)
  {
  }

  lemma AttemptsAfterUpdate(p: Platform, attempts: map<string, Attempt>, id: string, row: Attempt)
    requires AttemptsInv(p, attempts) && AttemptInv(p, row)
    ensures AttemptsInv(p, attempts[id := row])
  {
  }

  /** A step that changes one attempt outside its frozen fields. */
  lemma AttemptUpdateKeeps(p: Platform, t: Tables, id: string, row: Attempt)
    requires Inv(p, t) && id in t.attempts && AttemptInv(p, row)
    requires row.domain == t.attempts[id].domain && row.concept == t.attempts[id].concept
    requires row.invalidated == t.attempts[id].invalidated
    requires row.decision == t.attempts[id].decision && row.rubric == t.attempts[id].rubric
    ensures Inv(p, t.(attempts := t.attempts[id := row]))
  {
    MarksAfterUpdate(t.attempts, t.domains, t.prepared, id, row);
    AttemptsAfterUpdate(p, t.attempts, id, row);
    ReviewsKept(p, t.attempts, t.attempts[id := row], t.reviews);
  }

  lemma CreateShape(p: Platform, t: Tables, id: string, d: Draft)
    requires DomainsInv(t.domains) && Create(p, t, id, d).1.Done?
    ensures
      var t' := Create(p, t, id, d).0;
      && id !in t.attempts && id in t'.attempts && id in t'.prepared
      && t' == t.(attempts := t.attempts[id := t'.attempts[id]], prepared := t.prepared[id := t'.prepared[id]])
      && AttemptInv(p, t'.attempts[id])
      && t'.attempts[id].domain in t.domains
      && MarkInv(t'.attempts[id], t.domains[t'.attempts[id].domain].versions, t'.prepared[id])
  {
  }

  lemma MarksAfterCreate(attempts: map<string, Attempt>, domains: map<string, Domain>, prepared: map<string, nat>,
                         id: string, row: Attempt, from: nat)
    requires MarksInv(attempts, domains, prepared) && id !in attempts
    requires row.domain in domains && MarkInv(row, domains[row.domain].versions, from)
    ensures MarksInv(attempts[id := row], domains, prepared[id := from])
  {
  }

  lemma CreateKeeps(p: Platform, t: Tables, id: string, d: Draft)
    requires Inv(p, t)
    ensures Inv(p, Create(p, t, id, d).0)
  {
    var (t', out) := Create(p, t, id, d);
    if out.Done? {
      CreateShape(p, t, id, d);
      InsertAttemptKeeps(p, t, id, t'.attempts[id], t'.prepared[id]);
    }
  }

  lemma InsertAttemptKeeps(p: Platform, t: Tables, id: string, row: Attempt, from: nat)
    requires Inv(p, t) && id !in t.attempts && AttemptInv(p, row)
    requires row.domain in t.domains && MarkInv(row, t.domains[row.domain].versions, from)
    ensures Inv(p, t.(attempts := t.attempts[id := row], prepared := t.prepared[id := from]))
  {
    MarksAfterCreate(t.attempts, t.domains, t.prepared, id, row, from);
    AttemptsAfterUpdate(p, t.attempts, id, row);
    ReviewsKept(p, t.attempts, t.attempts[id := row], t.reviews);
  }

  lemma CompleteShape(p: Platform, t: Tables, id: string, evaluator: Method, score: Doc, total: real, passed: bool)
    requires AttemptsInv(p, t.attempts) && Complete(p, t, id, evaluator, score, total, passed).1.Done?
    ensures
      var t' := Complete(p, t, id, evaluator, score, total, passed).0;
      && id in t.attempts && id in t'.attempts
      && t' == t.(attempts := t.attempts[id := t'.attempts[id]])
      && t'.attempts[id] ==
        WithGrade(t.attempts[id], t'.attempts[id].score.value, t'.attempts[id].total, t'.attempts[id].passed)
      && AttemptInv(p, t'.attempts[id])
  {
    var a := t.attempts[id];
    assert AttemptInv(p, a);
    if a.decision.Some? {
      CanonicalIsFixedPoint(p, a.rubric.value, score);
      var e := EvaluateSpec(p, a.rubric.value, score).value;
      assert e == Evaluation(e.score, e.total, e.passed);
    }
  }

  lemma CompleteKeeps(p: Platform, t: Tables, id: string, evaluator: Method, score: Doc, total: real, passed: bool)
    requires Inv(p, t)
    ensures Inv(p, Complete(p, t, id, evaluator, score, total, passed).0)
  {
    var (t', out) := Complete(p, t, id, evaluator, score, total, passed);
    if out.Done? {
      CompleteShape(p, t, id, evaluator, score, total, passed);
      AttemptUpdateKeeps(p, t, id, t'.attempts[id]);
    }
  }

  lemma NewReviewInv(p: Platform, t: Tables, reviewId: string, attempt: string, reviewer: string, key: string,
                     material: Material, score: Doc)
    requires RecordReview(p, t, reviewId, attempt, reviewer, key, material, score).1.Done?
    ensures
      var t' := RecordReview(p, t, reviewId, attempt, reviewer, key, material, score).0;
      && reviewId !in t.reviews && reviewId in t'.reviews
      && t' == t.(reviews := t.reviews[reviewId := t'.reviews[reviewId]])
      && ReviewInv(p, t.attempts, t'.reviews[reviewId])
  {
    CanonicalIsFixedPoint(p, material.rubric, score);
    var e := EvaluateSpec(p, material.rubric, score).value;
    assert e == Evaluation(e.score, e.total, e.passed);
  }

  lemma ReviewsAfterInsert(p: Platform, attempts: map<string, Attempt>, reviews: map<string, Review>, id: string,
                           row: Review)
    requires ReviewsInv(p, attempts, reviews) && ReviewInv(p, attempts, row)
    ensures ReviewsInv(p, attempts, reviews[id := row])
  {
  }

  lemma InsertReviewKeeps(p: Platform, t: Tables, id: string, row: Review)
    requires Inv(p, t) && id !in t.reviews && ReviewInv(p, t.attempts, row)
    ensures Inv(p, t.(reviews := t.reviews[id := row]))
  {
    ReviewsAfterInsert(p, t.attempts, t.reviews, id, row);
  }

  lemma ReviewKeeps(p: Platform, t: Tables, reviewId: string, attempt: string, reviewer: string, key: string,
                    material: Material, score: Doc)
    requires Inv(p, t)
    ensures Inv(p, RecordReview(p, t, reviewId, attempt, reviewer, key, material, score).0)
  {
    if RecordReview(p, t, reviewId, attempt, reviewer, key, material, score).1.Done? {
      NewReviewInv(p, t, reviewId, attempt, reviewer, key, material, score);
      var row := RecordReview(p, t, reviewId, attempt, reviewer, key, material, score).0.reviews[reviewId];
      InsertReviewKeeps(p, t, reviewId, row);
    }
  }

  lemma {:induction false} MaxRevisionIsCount(rows: seq<Adjudication>, attempt: string)
    requires RevisionInv(rows)
    ensures MaxRevision(rows, attempt) == CountFor(rows, attempt)
  {
    if rows != [] {
      var n := |rows| - 1;
      assert forall i :: 0 <= i < n ==> rows[..n][..i] == rows[..i];
      MaxRevisionIsCount(rows[..n], attempt);
    }
  }

  lemma AppendedRow(rows: seq<Adjudication>, row: Adjudication, i: nat)
    requires i <= |rows|
    ensures (rows + [row])[..i] == rows[..i] && (rows + [row])[i] == if i < |rows| then rows[i] else row
    ensures i == |rows| ==> rows[..i] == rows
  {
  }

  lemma AppendedRevision(rows: seq<Adjudication>, row: Adjudication, i: nat)
    requires i <= |rows| && row.revision == CountFor(rows, row.attempt) + 1
    requires i < |rows| ==> rows[i].revision == CountFor(rows[..i], rows[i].attempt) + 1
    ensures (rows + [row])[i].revision == CountFor((rows + [row])[..i], (rows + [row])[i].attempt) + 1
  {
    AppendedRow(rows, row, i);
  }

  lemma AppendedCertificate(rows: seq<Adjudication>, row: Adjudication)
    requires forall i, j :: 0 <= i < j < |rows| ==>
      !(rows[i].authority == rows[j].authority && rows[i].certificate == rows[j].certificate)
    requires forall i :: 0 <= i < |rows| ==>
      !(rows[i].authority == row.authority && rows[i].certificate == row.certificate)
    ensures
      var rows' := rows + [row];
      forall i, j :: 0 <= i < j < |rows'| ==>
        !(rows'[i].authority == rows'[j].authority && rows'[i].certificate == rows'[j].certificate)
  {
  }

  lemma AppendRevision(rows: seq<Adjudication>, row: Adjudication)
    requires RevisionInv(rows) && row.revision == CountFor(rows, row.attempt) + 1
    requires forall i :: 0 <= i < |rows| ==>
      !(rows[i].authority == row.authority && rows[i].certificate == row.certificate)
    ensures RevisionInv(rows + [row])
  {
    var rows' := rows + [row];
    forall i | 0 <= i < |rows'| ensures rows'[i].revision == CountFor(rows'[..i], rows'[i].attempt) + 1 {
      AppendedRevision(rows, row, i);
    }
    AppendedCertificate(rows, row);
  }

  /** What an adjudication that takes effect relies on. */
  lemma AdjudicateShape(p: Platform, t: Tables, c: Certificate)
    requires Adjudicate(p, t, c).1.Done?
    ensures Adjudicate(p, t, c).0 == t.(adjudications := t.adjudications + [NewRow(c)])
    ensures MaxRevision(t.adjudications, c.attempt) == c.expectedRevision
    ensures Prior(t.adjudications, c.authority, c.id).None?
    ensures c.attempt in t.attempts && c.review in t.reviews && t.reviews[c.review].attempt == c.attempt
  {
  }

  lemma RowsAfterAppend(rows: seq<Adjudication>, reviews: map<string, Review>, row: Adjudication)
    requires RowsInv(rows, reviews) && row.review in reviews && reviews[row.review].attempt == row.attempt
    ensures RowsInv(rows + [row], reviews)
  {
  }

  lemma AdjudicateKeeps(p: Platform, t: Tables, c: Certificate)
    requires Inv(p, t)
    ensures Inv(p, Adjudicate(p, t, c).0)
  {
    if Adjudicate(p, t, c).1.Done? {
      AdjudicateShape(p, t, c);
      MaxRevisionIsCount(t.adjudications, c.attempt);
      AppendRevision(t.adjudications, NewRow(c));
      RowsAfterAppend(t.adjudications, t.reviews, NewRow(c));
    }
  }

  /* ---- curriculum revision ---- */

  lemma ReviseShape(t: Tables, domain: string, expected: nat, next: Snapshot)
    requires Revise(t, domain, expected, next).1.Done?
    ensures
      var t' := Revise(t, domain, expected, next).0;
      && domain in t.domains && |t.domains[domain].versions| == expected >= 1 && ValidSnapshot(next)
      && Reconcile(t.attempts, domain, Current(t.domains[domain]), next, expected + 1) == Some(t'.attempts)
      && t' == t.(domains := t.domains[domain := t.domains[domain].(versions := t.domains[domain].versions + [next])],
        attempts := t'.attempts)
  {
  }

  predicate Retained(previous: Snapshot, next: Snapshot)
  {
    forall i :: 0 <= i < |previous| ==>
      ById(next, previous[i].id).Some? && ById(next, previous[i].id).value.key == previous[i].key
  }

  lemma FirstBreakExtends(versions: seq<Snapshot>, next: Snapshot, key: string, from: nat)
    requires 1 <= from <= |versions|
    ensures FirstBreak(versions + [next], key, from) ==
      (if FirstBreak(versions, key, from) != 0 then FirstBreak(versions, key, from)
       else if Changed(versions[|versions| - 1], next, key) then |versions| + 1 else 0)
  {
    assert (versions + [next])[..|versions|] == versions;
  }

  lemma CurrentIsActive(versions: seq<Snapshot>, key: string, from: nat)
    requires 1 <= from <= |versions| && ActiveKey(versions[from - 1], key) && ValidSnapshot(versions[from - 1])
    requires FirstBreak(versions, key, from) == 0
    ensures ActiveKey(versions[|versions| - 1], key)
  {
    NoBreakSteady(versions, key, from);
    assert SteadyIn(versions[from - 1], versions[|versions| - 1], key);
  }

  /** One attempt's mark across a revision of its own domain. */
  lemma RevisedMark(a: Attempt, a': Attempt, versions: seq<Snapshot>, next: Snapshot, from: nat)
    requires MarkInv(a, versions, from) && ValidSnapshot(next)
    requires a' == if a.invalidated == 0
      && Hit(versions[|versions| - 1], next, a.concept) then a.(invalidated := |versions| + 1) else a
    requires ValidSnapshot(versions[from - 1]) && ValidSnapshot(versions[|versions| - 1])
    requires Retained(versions[|versions| - 1], next)
    ensures MarkInv(a', versions + [next], from)
  {
    var key := a.concept;
    FirstBreakExtends(versions, next, key, from);
    if a.invalidated == 0 {
      CurrentIsActive(versions, key, from);
      HitIsChanged(versions[|versions| - 1], next, key);
    }
    assert (versions + [next])[from - 1] == versions[from - 1];
  }

  /** What a revision does to one attempt row. */
  lemma RevisedRow(t: Tables, t': Tables, domain: string, next: Snapshot, id: string)
    requires domain in t.domains && DomainOk(t.domains[domain]) && id in t.attempts
    requires Reconcile(t.attempts, domain, Current(t.domains[domain]), next, |t.domains[domain].versions| + 1) ==
      Some(t'.attempts)
    ensures Retained(Current(t.domains[domain]), next)
    ensures t'.attempts.Keys == t.attempts.Keys
    ensures t'.attempts[id] ==
      (if Marked(t.attempts[id], domain, Current(t.domains[domain]), next)
       then t.attempts[id].(invalidated := |t.domains[domain].versions| + 1) else t.attempts[id])
  {
    ReconcileMarks(t.attempts, domain, Current(t.domains[domain]), next, |t.domains[domain].versions| + 1);
  }

  lemma ReviseKeeps(p: Platform, t: Tables, domain: string, expected: nat, next: Snapshot)
    requires Inv(p, t)
    ensures Inv(p, Revise(t, domain, expected, next).0)
  {
    var (t', out) := Revise(t, domain, expected, next);
    if out.Done? {
      ReviseShape(t, domain, expected, next);
      ReviseKeepsAttempts(p, t, t', domain, next);
      ReviseKeepsMarks(t, t', domain, next);
      ReviewsKept(p, t.attempts, t'.attempts, t.reviews);
      assert DomainOk(t.domains[domain]);
    }
  }

  lemma ReviseKeepsMark(a: Attempt, a': Attempt, domain: string, d: Domain, next: Snapshot, versions: seq<Snapshot>,
                        from: nat)
    requires DomainOk(d) && ValidSnapshot(next) && Retained(Current(d), next)
    requires MarkInv(a, versions, from) && (a.domain == domain ==> versions == d.versions)
    requires a' == if Marked(a, domain, Current(d), next) then a.(invalidated := |d.versions| + 1) else a
    ensures MarkInv(a', if a.domain == domain then versions + [next] else versions, from)
  {
    if a.domain == domain {
      RevisedMark(a, a', versions, next, from);
    }
  }

  lemma ReviseKeepsMarkAt(t: Tables, t': Tables, domain: string, next: Snapshot, id: string)
    requires DomainsInv(t.domains) && MarksInv(t.attempts, t.domains, t.prepared) && domain in t.domains
    requires ValidSnapshot(next)
    requires Reconcile(t.attempts, domain, Current(t.domains[domain]), next, |t.domains[domain].versions| + 1) ==
      Some(t'.attempts)
    requires id in t.attempts
    ensures id in t.prepared && id in t'.attempts && t'.attempts[id].domain == t.attempts[id].domain
    ensures t.attempts[id].domain in t.domains
    ensures MarkInv(t'.attempts[id],
                    if t.attempts[id].domain == domain then t.domains[domain].versions + [next]
                      else t.domains[t.attempts[id].domain].versions,
                    t.prepared[id])
  {
    var d := t.domains[domain];
    assert DomainOk(d);
    RevisedRow(t, t', domain, next, id);
    ReviseKeepsMark(t.attempts[id], t'.attempts[id], domain, d, next, t.domains[t.attempts[id].domain].versions,
      t.prepared[id]);
  }

  lemma ReviseKeepsMarks(t: Tables, t': Tables, domain: string, next: Snapshot)
    requires DomainsInv(t.domains) && MarksInv(t.attempts, t.domains, t.prepared) && domain in t.domains
    requires ValidSnapshot(next)
    requires Reconcile(t.attempts, domain, Current(t.domains[domain]), next, |t.domains[domain].versions| + 1) ==
      Some(t'.attempts)
    requires t'.attempts.Keys == t.attempts.Keys
    requires t'.domains == t.domains[domain := t.domains[domain].(versions := t.domains[domain].versions + [next])]
    ensures MarksInv(t'.attempts, t'.domains, t.prepared)
  {
    forall id | id in t'.attempts
      ensures id in t.prepared && t'.attempts[id].domain in t'.domains
      ensures MarkInv(t'.attempts[id], t'.domains[t'.attempts[id].domain].versions, t.prepared[id])
    {
      ReviseKeepsMarkAt(t, t', domain, next, id);
    }
  }

  lemma ReviseKeepsAttempts(p: Platform, t: Tables, t': Tables, domain: string, next: Snapshot)
    requires DomainsInv(t.domains) && AttemptsInv(p, t.attempts) && domain in t.domains
    requires Reconcile(t.attempts, domain, Current(t.domains[domain]), next, |t.domains[domain].versions| + 1) ==
      Some(t'.attempts)
    ensures AttemptsInv(p, t'.attempts) && t'.attempts.Keys == t.attempts.Keys
    ensures forall id :: id in t.attempts ==>
      id in t'.attempts && t'.attempts[id].decision == t.attempts[id].decision
        && t'.attempts[id].rubric == t.attempts[id].rubric
  {
    assert DomainOk(t.domains[domain]);
    ReconcileMarks(t.attempts, domain, Current(t.domains[domain]), next, |t.domains[domain].versions| + 1);
    forall id | id in t.attempts
      ensures id in t'.attempts && AttemptInv(p, t'.attempts[id])
      ensures t'.attempts[id].decision == t.attempts[id].decision && t'.attempts[id].rubric == t.attempts[id].rubric
    {
      RevisedRow(t, t', domain, next, id);
      assert AttemptInv(p, t.attempts[id]);
    }
  }

  /* ---- remaining steps ---- */

  lemma HighStakesKeeps(p: Platform, t: Tables, domain: string, flag: bool)
    requires Inv(p, t)
    ensures Inv(p, Step(p, t, SetHighStakes(domain, flag)))
  {
    var t' := Step(p, t, SetHighStakes(domain, flag));
    if domain in t.domains {
      HighStakesMarks(t.attempts, t.domains, t.prepared, domain, flag);
    }
  }

  lemma HighStakesMarks(attempts: map<string, Attempt>, domains: map<string, Domain>, prepared: map<string, nat>,
                        domain: string, flag: bool)
    requires DomainsInv(domains) && MarksInv(attempts, domains, prepared) && domain in domains
    ensures
      var domains' := domains[domain := domains[domain].(highStakes := flag)];
      DomainsInv(domains') && MarksInv(attempts, domains', prepared)
  {
    assert DomainOk(domains[domain]);
  }

  lemma RedactedReview(p: Platform, attempts: map<string, Attempt>, r: Review)
    requires ReviewInv(p, attempts, r)
    ensures ReviewInv(p, attempts, r.(score := None))
  {
  }

  lemma RedactReviewKeeps(p: Platform, t: Tables, r: string)
    requires Inv(p, t)
    ensures Inv(p, Step(p, t, RedactReview(r)))
  {
    if r in t.reviews {
      RedactedReview(p, t.attempts, t.reviews[r]);
      ReviewsAfterInsert(p, t.attempts, t.reviews, r, t.reviews[r].(score := None));
      RowsAfterRedaction(t.adjudications, t.reviews, r);
    }
  }

  lemma RowsAfterRedaction(rows: seq<Adjudication>, reviews: map<string, Review>, r: string)
    requires RowsInv(rows, reviews) && r in reviews
    ensures RowsInv(rows, reviews[r := reviews[r].(score := None)])
  {
  }

  lemma RowUpdateKeeps(p: Platform, t: Tables, e: Event)
    requires Inv(p, t) && (e.SubmitAttempt? || e.CancelAttempt? || e.RedactAttempt?)
    ensures Inv(p, Step(p, t, e))
  {
    var t' := Step(p, t, e);
    if t' != t {
      assert e.id in t.attempts && AttemptInv(p, t.attempts[e.id]);
      assert t' == t.(attempts := t.attempts[e.id := t'.attempts[e.id]]);
      AttemptUpdateKeeps(p, t, e.id, t'.attempts[e.id]);
    }
  }

  lemma StepKeeps(p: Platform, t: Tables, e: Event)
    requires Inv(p, t)
    ensures Inv(p, Step(p, t, e))
  {
    match e
    case CreateAttempt(id, draft) => CreateKeeps(p, t, id, draft);
    case CompleteAttempt(id, evaluator, score, total, passed) => CompleteKeeps(p, t, id, evaluator, score, total,
      passed);
    case ReviewAttempt(r, a, reviewer, key, material, score) => ReviewKeeps(p, t, r, a, reviewer, key, material, score);
    case AdjudicateAttempt(c) => AdjudicateKeeps(p, t, c);
    case ReviseCurriculum(domain, expected, next) => ReviseKeeps(p, t, domain, expected, next);
    case SetHighStakes(domain, flag) => HighStakesKeeps(p, t, domain, flag);
    case RedactReview(r) => RedactReviewKeeps(p, t, r);
    case SubmitAttempt(_, _) => RowUpdateKeeps(p, t, e);
    case CancelAttempt(_) => RowUpdateKeeps(p, t, e);
    case RedactAttempt(_) => RowUpdateKeeps(p, t, e);
  }

  lemma InitialInv(p: Platform, t: Tables)
    requires Initial(t)
    ensures Inv(p, t)
  {
  }

  lemma {:induction false} RunKeeps(p: Platform, t: Tables, events: seq<Event>)
    requires Inv(p, t)
    ensures Inv(p, Run(p, t, events))
    decreases |events|
  {
    if events != [] {
      StepKeeps(p, t, events[0]);
      RunKeeps(p, Step(p, t, events[0]), events[1..]);
    }
  }
}
