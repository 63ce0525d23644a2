/** What an attempt was created from and what was submitted to it, kept through every run. */
module EvidenceHistory {
  import opened Options
  import opened Texts
  import opened Rubrics
  import opened Scores
  import opened Evidence
  import opened EvidenceProofs

  /** What was reported when an attempt was graded. */
  datatype Grade = Grade(score: Doc, total: real, passed: bool)

  /** The tables with an observer: the draft each attempt was created from, the one response submitted to
      it, the one grade reported for it, the certificates that took effect, and whose stored task or
      response was redacted since. */
  datatype Story = Story(tables: Tables, drafts: map<string, Draft>, responses: map<string, string>,
                         grades: map<string, Grade>, certificates: seq<Certificate>,
                         taskGone: set<string>, responseGone: set<string>)

  ghost function Tell(p: Platform, h: Story, e: Event): Story
  {
    var t := h.tables;
    var h' := h.(tables := Step(p, t, e));
    match e
    case CreateAttempt(id, draft) =>
      if Create(p, t, id, draft).1.Done? then h'.(drafts := h.drafts[id := draft]) else h'
    case SubmitAttempt(id, response) =>
      if Submit(t, id, response).1.Done?
      then h'.(responses := h.responses[id := response], responseGone := h.responseGone - {id}) else h'
    case CompleteAttempt(id, evaluator, score, total, passed) =>
      if Complete(p, t, id, evaluator, score, total, passed).1.Done?
      then h'.(grades := h.grades[id := Grade(score, total, passed)]) else h'
    case AdjudicateAttempt(c) =>
      if Adjudicate(p, t, c).1.Done? then h'.(certificates := h.certificates + [c]) else h'
    case RedactAttempt(id) =>
      if id in t.attempts then h'.(taskGone := h.taskGone + {id}, responseGone := h.responseGone + {id}) else h'
    case _ => h'
  }

  ghost function TellAll(p: Platform, h: Story, events: seq<Event>): Story
    decreases |events|
  {
    if events == [] then h else TellAll(p, Tell(p, h, events[0]), events[1..])
  }

  lemma {:induction false} TellAllIsRun(p: Platform, h: Story, events: seq<Event>)
    ensures TellAll(p, h, events).tables == Run(p, h.tables, events)
    decreases |events|
  {
    if events != [] { TellAllIsRun(p, Tell(p, h, events[0]), events[1..]); }
  }

  function Begin(t: Tables): Story { Story(t, map[], map[], map[], [], {}, {}) }

  /** Everything an attempt froze at its creation. */
  predicate Frozen(a: Attempt, d: Draft)
  {
    && a.domain == d.domain && a.concept == d.concept && a.decision == d.decision
    && a.curriculumVersion == d.curriculumVersion && a.rubric == d.rubric && a.passingScore == d.passingScore
  }

  /** The stored grade is the reported one; under a decision its score is the recomputed document. */
  ghost predicate Graded(p: Platform, a: Attempt, g: Grade)
  {
    && a.total == g.total && a.passed == g.passed && a.evaluation == Some(HostLLM)
    && if a.decision.None? then a.score == Some(g.score)
       else
         && a.rubric.Some? && EvaluateSpec(p, a.rubric.value, g.score).Some?
         && var e := EvaluateSpec(p, a.rubric.value, g.score).value;
         a.score == Some(e.score) && a.total == e.total && a.passed == e.passed
  }

  function At<T>(m: map<string, T>, id: string): Option<T> { if id in m then Some(m[id]) else None }

  /** The row still is its draft, and holds the response submitted to it, unless redacted, and the grade
      reported for it. */
  ghost predicate FaithfulRow(p: Platform, a: Attempt, draft: Option<Draft>, response: Option<string>,
                              grade: Option<Grade>, taskGone: bool, responseGone: bool)
  {
    && draft.Some? && Frozen(a, draft.value)
    && a.task == (if taskGone then "" else draft.value.task)
    && a.response == (if response.Some? && !responseGone then response.value else "")
    && (a.status == Prepared ==> response.None?)
    && (a.status in {Submitted, Evaluated} ==> response.Some?)
    && (a.status == Evaluated <==> grade.Some?)
    && (grade.Some? ==> Graded(p, a, grade.value))
    && (grade.None? ==> a.score.None? && !a.passed && a.evaluation.None?)
    && !a.trusted
  }

  ghost predicate Faithful(p: Platform, h: Story, id: string)
    requires id in h.tables.attempts
  {
    FaithfulRow(p, h.tables.attempts[id], At(h.drafts, id), At(h.responses, id), At(h.grades, id), id in h.taskGone,
                id in h.responseGone)
  }

  /** What a reviewer was shown is what was drafted and submitted, whatever was redacted since. */
  predicate ShownAsSubmitted(h: Story, m: Material)
  {
    && m.attempt in h.drafts && m.attempt in h.responses
    && var d := h.drafts[m.attempt];
    && d.decision == Some(m.decision) && d.rubric == Some(m.rubric) && m.task == d.task
    && m.response == h.responses[m.attempt]
  }

  ghost predicate ReviewsShown(h: Story)
  {
    forall r <- h.tables.reviews ::
      && h.tables.reviews[r].material.attempt == h.tables.reviews[r].attempt
      && ShownAsSubmitted(h, h.tables.reviews[r].material)
  }

  /** The row says what the certificate says. */
  predicate RecordedAs(row: Adjudication, c: Certificate)
  {
    && row.attempt == c.attempt && row.review == c.review && row.verdict == c.verdict
    && row.authority == c.authority && row.certificate == c.id && row.certificateHash == c.hash
    && row.revision == c.expectedRevision + 1
  }

  /** The certificate is about a stored review of that attempt, its material and its score. */
  predicate AboutReview(reviews: map<string, Review>, c: Certificate)
  {
    && c.review in reviews && reviews[c.review].attempt == c.attempt
    && reviews[c.review].material == c.material && reviews[c.review].scoreHash == c.scoreHash
  }

  ghost predicate AllRecorded(adjudications: seq<Adjudication>, reviews: map<string, Review>,
                              certificates: seq<Certificate>)
  {
    && |certificates| == |adjudications|
    && forall i :: 0 <= i < |certificates| ==>
         RecordedAs(adjudications[i], certificates[i]) && AboutReview(reviews, certificates[i])
  }

  /** Nothing is told about an attempt that does not exist. */
  ghost predicate Untold(h: Story, id: string)
  {
    id !in h.drafts && id !in h.responses && id !in h.grades && id !in h.taskGone && id !in h.responseGone
  }

  ghost predicate RowTold(p: Platform, h: Story, id: string)
  {
    if id in h.tables.attempts then Faithful(p, h, id) else Untold(h, id)
  }

  ghost predicate StoryInv(p: Platform, h: Story)
  {
    && (forall id :: RowTold(p, h, id)) && ReviewsShown(h)
    && AllRecorded(h.tables.adjudications, h.tables.reviews, h.certificates)
  }

  /** Nothing once told about an attempt is told otherwise later. */
  predicate Extends(h: Story, h': Story)
  {
    && (forall id <- h.drafts :: id in h'.drafts && h'.drafts[id] == h.drafts[id])
    && (forall id <- h.responses :: id in h'.responses && h'.responses[id] == h.responses[id])
    && (forall id <- h.grades :: id in h'.grades && h'.grades[id] == h.grades[id])
    && h.certificates <= h'.certificates
  }

  /* ---- steps ---- */

  lemma ShownStays(h: Story, h': Story)
    requires ReviewsShown(h) && Extends(h, h') && h'.tables.reviews == h.tables.reviews
    ensures ReviewsShown(h')
  {
  }

  lemma OneRowTold(p: Platform, h: Story, h': Story, id: string)
    requires StoryInv(p, h) && Extends(h, h') && RowTold(p, h', id) && h'.tables.reviews == h.tables.reviews
    requires h'.tables.adjudications == h.tables.adjudications && h'.certificates == h.certificates
    requires forall x :: x != id && RowTold(p, h, x) ==> RowTold(p, h', x)
    ensures StoryInv(p, h')
  {
    forall x ensures RowTold(p, h', x) { assert RowTold(p, h, x); }
    ShownStays(h, h');
  }

  /** The story with row `id` replaced. */
  function WithRow(h: Story, id: string, a: Attempt): Story
  {
    h.(tables := h.tables.(attempts := h.tables.attempts[id := a]))
  }

  lemma CreateStory(p: Platform, h: Story, h': Story, id: string, d: Draft, a: Attempt)
    requires StoryInv(p, h) && id !in h.tables.attempts
    requires h' == WithRow(h, id, a).(drafts := h.drafts[id := d], tables := h'.tables)
    requires h'.tables.attempts == h.tables.attempts[id := a] && h'.tables.reviews == h.tables.reviews
    requires h'.tables.adjudications == h.tables.adjudications
    requires FaithfulRow(p, a, Some(d), None, None, false, false)
    ensures StoryInv(p, h') && Extends(h, h')
  {
    assert RowTold(p, h, id);
    OneRowTold(p, h, h', id);
  }

  lemma CreateRow(p: Platform, t: Tables, id: string, d: Draft)
    requires Create(p, t, id, d).1.Done?
    ensures
      var t' := Create(p, t, id, d).0;
      && id !in t.attempts && id in t'.attempts && t'.attempts == t.attempts[id := t'.attempts[id]]
      && t'.reviews == t.reviews && t'.adjudications == t.adjudications
      && FaithfulRow(p, t'.attempts[id], Some(d), None, None, false, false)
      && t'.attempts[id].status == Prepared
  {
  }

  lemma CreateTold(p: Platform, h: Story, id: string, d: Draft)
    requires StoryInv(p, h)
    ensures StoryInv(p, Tell(p, h, CreateAttempt(id, d))) && Extends(h, Tell(p, h, CreateAttempt(id, d)))
  {
    var h' := Tell(p, h, CreateAttempt(id, d));
    if Create(p, h.tables, id, d).1.Done? {
      CreateRow(p, h.tables, id, d);
      CreateStory(p, h, h', id, d, h'.tables.attempts[id]);
    }
  }

  lemma SubmitRow(t: Tables, id: string, response: string)
    requires Submit(t, id, response).1.Done?
    ensures
      && id in t.attempts && t.attempts[id].status == Prepared
      && Submit(t, id, response).0 ==
        t.(attempts := t.attempts[id := t.attempts[id].(status := Submitted, response := response)])
  {
  }

  lemma SubmitStory(p: Platform, h: Story, h': Story, id: string, response: string)
    requires StoryInv(p, h) && id in h.tables.attempts && h.tables.attempts[id].status == Prepared
    requires h' == WithRow(h, id, h.tables.attempts[id].(status := Submitted, response := response)).
                     (responses := h.responses[id := response], responseGone := h.responseGone - {id})
    ensures StoryInv(p, h') && Extends(h, h')
  {
    assert RowTold(p, h, id);
    OneRowTold(p, h, h', id);
  }

  lemma SubmitTold(p: Platform, h: Story, id: string, response: string)
    requires StoryInv(p, h)
    ensures StoryInv(p, Tell(p, h, SubmitAttempt(id, response))) && Extends(h, Tell(p, h, SubmitAttempt(id, response)))
  {
    if Submit(h.tables, id, response).1.Done? {
      SubmitRow(h.tables, id, response);
      SubmitStory(p, h, Tell(p, h, SubmitAttempt(id, response)), id, response);
    }
  }

  /** A completion grades its submitted row and touches no other field of it. */
  lemma CompleteRow(p: Platform, t: Tables, id: string, evaluator: Method, score: Doc, total: real, passed: bool)
    requires Complete(p, t, id, evaluator, score, total, passed).1.Done?
    ensures
      var t' := Complete(p, t, id, evaluator, score, total, passed).0;
      && id in t.attempts && t.attempts[id].status == Submitted && id in t'.attempts
      && t' == t.(attempts := t.attempts[id := t'.attempts[id]])
      && GradesRow(t.attempts[id], t'.attempts[id], total, passed)
      && Graded(p, t'.attempts[id], Grade(score, total, passed))
  {
  }

  predicate GradesRow(a: Attempt, a': Attempt, total: real, passed: bool)
  {
    a' == a.(status := Evaluated, score := a'.score, total := total, passed := passed, evaluation := Some(HostLLM),
             trusted := false)
  }

  lemma GradedRow(p: Platform, a: Attempt, a': Attempt, draft: Option<Draft>, response: Option<string>, grade: Grade,
                  taskGone: bool, responseGone: bool)
    requires FaithfulRow(p, a, draft, response, None, taskGone, responseGone) && a.status == Submitted
    requires GradesRow(a, a', grade.total, grade.passed) && Graded(p, a', grade)
    ensures FaithfulRow(p, a', draft, response, Some(grade), taskGone, responseGone)
  {
  }

  lemma CompleteStory(p: Platform, h: Story, h': Story, id: string, a: Attempt, grade: Grade)
    requires StoryInv(p, h) && id in h.tables.attempts && h.tables.attempts[id].status == Submitted
    requires h' == WithRow(h, id, a).(grades := h.grades[id := grade])
    requires GradesRow(h.tables.attempts[id], a, grade.total, grade.passed) && Graded(p, a, grade)
    ensures StoryInv(p, h') && Extends(h, h')
  {
    assert RowTold(p, h, id);
    GradedRow(p, h.tables.attempts[id], a, At(h.drafts, id), At(h.responses, id), grade, id in h.taskGone,
              id in h.responseGone);
    OneRowTold(p, h, h', id);
  }

  lemma CompleteTold(p: Platform, h: Story, id: string, evaluator: Method, score: Doc, total: real, passed: bool)
    requires StoryInv(p, h)
    ensures
      var h' := Tell(p, h, CompleteAttempt(id, evaluator, score, total, passed));
      StoryInv(p, h') && Extends(h, h')
  {
    var h' := Tell(p, h, CompleteAttempt(id, evaluator, score, total, passed));
    if Complete(p, h.tables, id, evaluator, score, total, passed).1.Done? {
      CompleteRow(p, h.tables, id, evaluator, score, total, passed);
      CompleteStory(p, h, h', id, h'.tables.attempts[id], Grade(score, total, passed));
    }
  }

  /** Rows whose marks change. */
  lemma RowsTold(p: Platform, h: Story, h': Story)
    requires StoryInv(p, h) && h'.tables.attempts.Keys == h.tables.attempts.Keys
    requires h' == h.(tables := h'.tables) && h'.tables.reviews == h.tables.reviews
    requires h'.tables.adjudications == h.tables.adjudications
    requires forall x <- h.tables.attempts ::
      h'.tables.attempts[x] == h.tables.attempts[x].(invalidated := h'.tables.attempts[x].invalidated)
    ensures StoryInv(p, h') && Extends(h, h')
  {
    forall x ensures RowTold(p, h', x) {
      assert RowTold(p, h, x);
      if x in h.tables.attempts {
        RowMarked(p, h.tables.attempts[x], h'.tables.attempts[x], At(h.drafts, x), At(h.responses, x), At(h.grades, x),
                  x in h.taskGone, x in h.responseGone);
      }
    }
    ShownStays(h, h');
  }

  lemma RowMarked(p: Platform, a: Attempt, a': Attempt, draft: Option<Draft>, response: Option<string>,
                  grade: Option<Grade>, taskGone: bool, responseGone: bool)
    requires FaithfulRow(p, a, draft, response, grade, taskGone, responseGone)
    requires a' == a.(invalidated := a'.invalidated)
    ensures FaithfulRow(p, a', draft, response, grade, taskGone, responseGone)
  {
  }

  lemma CancelStory(p: Platform, h: Story, h': Story, id: string)
    requires StoryInv(p, h) && id in h.tables.attempts && h.tables.attempts[id].status in {Prepared, Submitted}
    requires h' == WithRow(h, id, h.tables.attempts[id].(status := Cancelled))
    ensures StoryInv(p, h') && Extends(h, h')
  {
    assert RowTold(p, h, id);
    OneRowTold(p, h, h', id);
  }

  lemma CancelTold(p: Platform, h: Story, id: string)
    requires StoryInv(p, h)
    ensures StoryInv(p, Tell(p, h, CancelAttempt(id))) && Extends(h, Tell(p, h, CancelAttempt(id)))
  {
    if Cancel(h.tables, id).1.Done? { CancelStory(p, h, Tell(p, h, CancelAttempt(id)), id); }
  }

  lemma RedactStory(p: Platform, h: Story, h': Story, id: string)
    requires StoryInv(p, h) && id in h.tables.attempts
    requires h' == WithRow(h, id, h.tables.attempts[id].(task := "", response := "")).
                     (taskGone := h.taskGone + {id}, responseGone := h.responseGone + {id})
    ensures StoryInv(p, h') && Extends(h, h')
  {
    assert RowTold(p, h, id);
    RedactedRow(p, h.tables.attempts[id], h'.tables.attempts[id], At(h.drafts, id), At(h.responses, id),
                At(h.grades, id), id in h.taskGone, id in h.responseGone);
    OneRowTold(p, h, h', id);
  }

  lemma RedactTold(p: Platform, h: Story, id: string)
    requires StoryInv(p, h)
    ensures StoryInv(p, Tell(p, h, RedactAttempt(id))) && Extends(h, Tell(p, h, RedactAttempt(id)))
  {
    if id in h.tables.attempts { RedactStory(p, h, Tell(p, h, RedactAttempt(id)), id); }
  }

  lemma RedactedRow(p: Platform, a: Attempt, a': Attempt, draft: Option<Draft>, response: Option<string>,
                    grade: Option<Grade>, taskGone: bool, responseGone: bool)
    requires FaithfulRow(p, a, draft, response, grade, taskGone, responseGone)
    requires a' == a.(task := "", response := "")
    ensures FaithfulRow(p, a', draft, response, grade, true, true)
  {
  }

  /** Reconciliation changes nothing but marks. */
  lemma {:induction false} ReconcileOnlyMarks(attempts: map<string, Attempt>, domain: string, previous: Snapshot,
                                              next: Snapshot, version: nat)
    requires Reconcile(attempts, domain, previous, next, version).Some?
    ensures
      var rows := Reconcile(attempts, domain, previous, next, version).value;
      && rows.Keys == attempts.Keys
      && forall id <- rows :: rows[id] == attempts[id].(invalidated := rows[id].invalidated)
  {
    if previous != [] { ReconcileOnlyMarks(attempts, domain, previous[..|previous| - 1], next, version); }
  }

  lemma ReviseTold(p: Platform, h: Story, domain: string, expected: nat, next: Snapshot)
    requires StoryInv(p, h)
    ensures
      var h' := Tell(p, h, ReviseCurriculum(domain, expected, next));
      StoryInv(p, h') && Extends(h, h')
  {
    var h' := Tell(p, h, ReviseCurriculum(domain, expected, next));
    if Revise(h.tables, domain, expected, next).1.Done? {
      ReconcileOnlyMarks(h.tables.attempts, domain, Current(h.tables.domains[domain]), next, expected + 1);
    }
    RowsTold(p, h, h');
  }

  /** Readable material is the draft's task and the submitted response. */
  lemma MaterialIsSubmitted(p: Platform, h: Story, id: string)
    requires StoryInv(p, h) && MaterialOf(p, h.tables, id).Some?
    ensures
      var m := MaterialOf(p, h.tables, id).value;
      && m.attempt == id && id in h.drafts && id in h.responses
      && h.drafts[id].decision == Some(m.decision) && h.drafts[id].rubric == Some(m.rubric)
      && (id !in h.taskGone ==> m.task == h.drafts[id].task)
      && (id !in h.responseGone ==> m.response == h.responses[id])
      && (TextAvailable(m) ==> ShownAsSubmitted(h, m))
  {
    assert RowTold(p, h, id);
  }

  lemma ReviewTold(p: Platform, h: Story, reviewId: string, attempt: string, reviewer: string, key: string,
                   material: Material, score: Doc)
    requires StoryInv(p, h)
    ensures
      var h' := Tell(p, h, ReviewAttempt(reviewId, attempt, reviewer, key, material, score));
      StoryInv(p, h') && Extends(h, h')
  {
    var h' := Tell(p, h, ReviewAttempt(reviewId, attempt, reviewer, key, material, score));
    if RecordReview(p, h.tables, reviewId, attempt, reviewer, key, material, score).1.Done? {
      MaterialIsSubmitted(p, h, attempt);
      ReviewRow(p, h.tables, reviewId, attempt, reviewer, key, material, score);
    }
    StillRecorded(h.tables.adjudications, h.tables.reviews, h'.tables.reviews, h.certificates);
    SameRows(p, h, h');
  }

  lemma ReviewRow(p: Platform, t: Tables, reviewId: string, attempt: string, reviewer: string, key: string,
                  material: Material, score: Doc)
    requires RecordReview(p, t, reviewId, attempt, reviewer, key, material, score).1.Done?
    ensures
      var t' := RecordReview(p, t, reviewId, attempt, reviewer, key, material, score).0;
      && MaterialOf(p, t, attempt) == Some(material) && TextAvailable(material) && reviewId !in t.reviews
      && reviewId in t'.reviews && t' == t.(reviews := t.reviews[reviewId := t'.reviews[reviewId]])
      && var r := t'.reviews[reviewId];
      && r.attempt == attempt && r.reviewer == reviewer && r.key == key && r.material == material
      && var e := EvaluateSpec(p, material.rubric, score);
      && e.Some? && r.scoreHash == e.value.score && r.score == Some(e.value.score) && r.total == e.value.total
      && r.passed == e.value.passed
  {
  }

  lemma Told(p: Platform, h: Story, e: Event)
    requires StoryInv(p, h)
    ensures StoryInv(p, Tell(p, h, e)) && Extends(h, Tell(p, h, e))
  {
    match e
    case CreateAttempt(id, d) => CreateTold(p, h, id, d);
    case SubmitAttempt(id, response) => SubmitTold(p, h, id, response);
    case CompleteAttempt(id, evaluator, score, total, passed) =>
      CompleteTold(p, h, id, evaluator, score, total, passed);
    case CancelAttempt(id) => CancelTold(p, h, id);
    case ReviewAttempt(r, a, reviewer, key, material, score) => ReviewTold(p, h, r, a, reviewer, key, material, score);
    case ReviseCurriculum(domain, expected, next) => ReviseTold(p, h, domain, expected, next);
    case AdjudicateAttempt(c) => AdjudicateTold(p, h, c);
    case RedactAttempt(id) => RedactTold(p, h, id);
    case _ => RestTold(p, h, e);
  }

  lemma AdjudicateRows(p: Platform, t: Tables, c: Certificate)
    ensures
      var (t', out) := Adjudicate(p, t, c);
      && t' == t.(adjudications := t'.adjudications)
      && (!out.Done? ==> t' == t)
      && (out.Done? ==>
            && |t'.adjudications| == |t.adjudications| + 1 && t.adjudications <= t'.adjudications
            && RecordedAs(t'.adjudications[|t.adjudications|], c) && AboutReview(t.reviews, c))
  {
  }

  /** Reviews may lose their plaintext and be joined by others, nothing else. */
  predicate ReviewsKept(reviews: map<string, Review>, reviews': map<string, Review>)
  {
    forall r <- reviews :: r in reviews' && reviews'[r] == reviews[r].(score := reviews'[r].score)
  }

  lemma SameRows(p: Platform, h: Story, h': Story)
    requires StoryInv(p, h) && h' == h.(tables := h'.tables, certificates := h'.certificates)
    requires h'.tables.attempts == h.tables.attempts && ReviewsKept(h.tables.reviews, h'.tables.reviews)
    requires forall r <- h'.tables.reviews | r !in h.tables.reviews ::
      && h'.tables.reviews[r].material.attempt == h'.tables.reviews[r].attempt
      && ShownAsSubmitted(h, h'.tables.reviews[r].material)
    requires h.certificates <= h'.certificates
    requires AllRecorded(h'.tables.adjudications, h'.tables.reviews, h'.certificates)
    ensures StoryInv(p, h') && Extends(h, h')
  {
    forall x ensures RowTold(p, h', x) { assert RowTold(p, h, x); }
  }

  lemma StillRecorded(adjudications: seq<Adjudication>, reviews: map<string, Review>, reviews': map<string, Review>,
                      certificates: seq<Certificate>)
    requires AllRecorded(adjudications, reviews, certificates) && ReviewsKept(reviews, reviews')
    ensures AllRecorded(adjudications, reviews', certificates)
  {
  }

  lemma RecordedMore(adjudications: seq<Adjudication>, adjudications': seq<Adjudication>, reviews: map<string, Review>,
                     certificates: seq<Certificate>, c: Certificate)
    requires AllRecorded(adjudications, reviews, certificates) && adjudications <= adjudications'
    requires |adjudications'| == |adjudications| + 1
    requires RecordedAs(adjudications'[|adjudications|], c) && AboutReview(reviews, c)
    ensures AllRecorded(adjudications', reviews, certificates + [c])
  {
  }

  lemma AdjudicateTold(p: Platform, h: Story, c: Certificate)
    requires StoryInv(p, h)
    ensures StoryInv(p, Tell(p, h, AdjudicateAttempt(c))) && Extends(h, Tell(p, h, AdjudicateAttempt(c)))
  {
    var h' := Tell(p, h, AdjudicateAttempt(c));
    AdjudicateRows(p, h.tables, c);
    if Adjudicate(p, h.tables, c).1.Done? {
      RecordedMore(h.tables.adjudications, h'.tables.adjudications, h.tables.reviews, h.certificates, c);
    }
    SameRows(p, h, h');
  }

  lemma RedactReviewStory(p: Platform, h: Story, h': Story, r: string)
    requires StoryInv(p, h) && r in h.tables.reviews
    requires h' == h.(tables := h.tables.(reviews := h.tables.reviews[r := h.tables.reviews[r].(score := None)]))
    ensures StoryInv(p, h') && Extends(h, h')
  {
    StillRecorded(h.tables.adjudications, h.tables.reviews, h'.tables.reviews, h.certificates);
    SameRows(p, h, h');
  }

  lemma HighStakesStory(p: Platform, h: Story, h': Story)
    requires StoryInv(p, h) && h' == h.(tables := h.tables.(domains := h'.tables.domains))
    ensures StoryInv(p, h') && Extends(h, h')
  {
    SameRows(p, h, h');
  }

  lemma RestTold(p: Platform, h: Story, e: Event)
    requires StoryInv(p, h) && (e.SetHighStakes? || e.RedactReview?)
    ensures StoryInv(p, Tell(p, h, e)) && Extends(h, Tell(p, h, e))
  {
    if e.SetHighStakes? {
      HighStakesStory(p, h, Tell(p, h, e));
    } else if e.reviewId in h.tables.reviews {
      RedactReviewStory(p, h, Tell(p, h, e), e.reviewId);
    }
  }

  lemma {:induction false} AllTold(p: Platform, h: Story, events: seq<Event>)
    requires StoryInv(p, h)
    ensures StoryInv(p, TellAll(p, h, events)) && Extends(h, TellAll(p, h, events))
    decreases |events|
  {
    if events != [] {
      Told(p, h, events[0]);
      AllTold(p, Tell(p, h, events[0]), events[1..]);
    }
  }

  /* ---- main results ---- */

  /** On every run every attempt is still the draft it was created from, holds the one response submitted
      to it, unless redacted since, and the one grade reported for it; every review was of exactly that task
      and that response; and the adjudications are the certificates that took effect, in order, each about
      a stored review of its attempt, material and score. */
  lemma EveryAttemptIsAsSubmitted(p: Platform, start: Tables, events: seq<Event>)
    requires Initial(start)
    ensures
      var h := TellAll(p, Begin(start), events);
      && h.tables == Run(p, start, events)
      && (forall id <- h.tables.attempts :: Faithful(p, h, id))
      && ReviewsShown(h)
      && AllRecorded(h.tables.adjudications, h.tables.reviews, h.certificates)
  {
    AllTold(p, Begin(start), events);
    TellAllIsRun(p, Begin(start), events);
    var h := TellAll(p, Begin(start), events);
    forall id <- h.tables.attempts ensures Faithful(p, h, id) { assert RowTold(p, h, id); }
  }

  /** Drafts, responses and grades are final: no later event replaces one. */
  lemma SubmissionIsFinal(p: Platform, start: Tables, events: seq<Event>, later: seq<Event>)
    requires Initial(start)
    ensures
      var h := TellAll(p, Begin(start), events);
      Extends(h, TellAll(p, h, later))
  {
    AllTold(p, Begin(start), events);
    AllTold(p, TellAll(p, Begin(start), events), later);
  }

  /** On every run, review material is of the drafted rubric and decision and shows the submitted response,
      and is readable only if it shows both texts as they were. */
  lemma EveryMaterialIsAsSubmitted(p: Platform, start: Tables, events: seq<Event>, id: string)
    requires Initial(start) && MaterialOf(p, Run(p, start, events), id).Some?
    ensures
      var h, m := TellAll(p, Begin(start), events), MaterialOf(p, Run(p, start, events), id).value;
      && h.tables == Run(p, start, events) && id in h.responses
      && (id !in h.responseGone ==> m.response == h.responses[id])
      && (TextAvailable(m) ==> ShownAsSubmitted(h, m))
  {
    AllTold(p, Begin(start), events);
    TellAllIsRun(p, Begin(start), events);
    MaterialIsSubmitted(p, TellAll(p, Begin(start), events), id);
  }
}
