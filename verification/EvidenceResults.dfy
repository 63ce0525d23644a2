/** The guarantees of the evidence pipeline over every run. */
module EvidenceResults {
  import opened Options
  import opened Rubrics
  import opened Scores
  import opened ScoreProofs
  import opened Evidence
  import opened EvidenceProofs

  /* ---- trusted and passed ---- */

  /** The scored document behind an attempt's effective outcome. */
  function EvidenceDoc(t: Tables, id: string): Option<Doc>
    requires id in t.attempts
  {
    var j := Latest(t.adjudications, id);
    if j.Some? && j.value.verdict == Accept
      && j.value.review in t.reviews then Some(t.reviews[j.value.review].scoreHash)
    else t.attempts[id].score
  }

  /** A decision-bound attempt with a passing document under its own frozen rubric, outside
      high-stakes domains. */
  ghost predicate Earned(p: Platform, t: Tables, id: string)
  {
    && id in t.attempts && t.attempts[id].decision.Some? && t.attempts[id].rubric.Some?
    && !HighStakes(t, t.attempts[id].domain)
    && var r := t.attempts[id].rubric.value;
    && ValidRubric(p, r) && r.passingScore == t.attempts[id].passingScore
    && var doc := EvidenceDoc(t, id);
    && doc.Some? && EvaluateSpec(p, r, doc.value).Some?
    && ExactTotal(r.criteria, Graded(p, r, doc.value)) >= t.attempts[id].passingScore
  }

  /** Which attempts the trusted-passed reader returns. */
  predicate Demonstrates(hostPolicy: bool, t: Tables, id: string)
  {
    && id in t.attempts && t.attempts[id].domain in t.domains
    && t.attempts[id].status == Evaluated && t.attempts[id].invalidated == 0
    && !HighStakes(t, t.attempts[id].domain)
    && match Latest(t.adjudications, id)
       case Some(j) => j.verdict == Accept && j.review in t.reviews && t.reviews[j.review].passed
       case None => hostPolicy && t.attempts[id].decision.Some? && t.attempts[id].passed
  }

  lemma TrustedPassedInState(p: Platform, hostPolicy: bool, t: Tables, id: string)
    requires AttemptsInv(p, t.attempts)
    ensures TrustedPassed(hostPolicy, t, id) <==> Demonstrates(hostPolicy, t, id)
  {
    if id in t.attempts {
      assert AttemptInv(p, t.attempts[id]);
    }
  }

  lemma LatestReview(t: Tables, id: string)
    requires RowsInv(t.adjudications, t.reviews) && Latest(t.adjudications, id).Some?
    ensures
      var j := Latest(t.adjudications, id).value;
      j.review in t.reviews && t.reviews[j.review].attempt == id
  {
    var j := Latest(t.adjudications, id).value;
    var i :| 0 <= i < |t.adjudications| && t.adjudications[i] == j;
  }

  lemma ScoredPasses(p: Platform, r: Rubric, doc: Doc, total: real)
    requires Scored(p, r, doc, total, true)
    ensures EvaluateSpec(p, r, doc).Some? && ExactTotal(r.criteria, Graded(p, r, doc)) >= r.passingScore
  {
    AcceptedMeaning(p, r, doc);
  }

  lemma DemonstratesEarned(p: Platform, hostPolicy: bool, t: Tables, id: string)
    requires Inv(p, t) && Demonstrates(hostPolicy, t, id)
    ensures Earned(p, t, id)
  {
    var a := t.attempts[id];
    assert AttemptInv(p, a);
    var j := Latest(t.adjudications, id);
    if j.Some? {
      LatestReview(t, id);
      var r := t.reviews[j.value.review];
      assert ReviewInv(p, t.attempts, r);
      ScoredPasses(p, a.rubric.value, r.scoreHash, r.total);
    } else {
      ScoredPasses(p, a.rubric.value, a.score.value, a.total);
    }
  }

  /** In every run, an attempt is returned as trusted and passed exactly when it demonstrates, and
      then the exact criterion sum of its recorded document under its frozen rubric reaches its
      frozen passing score and its domain is not high-stakes. */
  lemma TrustedPassedIsEarned(p: Platform, start: Tables, events: seq<Event>, hostPolicy: bool, id: string)
    requires Initial(start)
    ensures
      var t := Run(p, start, events);
      && (TrustedPassed(hostPolicy, t, id) <==> Demonstrates(hostPolicy, t, id))
      && (TrustedPassed(hostPolicy, t, id) ==> Earned(p, t, id))
  {
    InitialInv(p, start);
    RunKeeps(p, start, events);
    var t := Run(p, start, events);
    TrustedPassedInState(p, hostPolicy, t, id);
    if Demonstrates(hostPolicy, t, id) {
      DemonstratesEarned(p, hostPolicy, t, id);
    }
  }

  /* ---- curriculum marks ---- */

  lemma MarkInState(p: Platform, t: Tables, id: string)
    requires Inv(p, t) && id in t.attempts
    ensures
      var a := t.attempts[id];
      && id in t.prepared && a.domain in t.domains && t.prepared[id] >= 1
      && a.invalidated == FirstBreak(t.domains[a.domain].versions, a.concept, t.prepared[id])
      && (a.invalidated == 0 ==> Steady(t.domains[a.domain].versions, a.concept, t.prepared[id]))
  {
    var a := t.attempts[id];
    assert DomainOk(t.domains[a.domain]);
    if a.invalidated == 0 {
      NoBreakSteady(t.domains[a.domain].versions, a.concept, t.prepared[id]);
    }
  }

  /** In every run, an attempt's invalidation mark is the first version after its preparation that
      changed its concept, so an attempt still current was prepared under the definition the
      concept has now, with the concept active ever since. */
  lemma MarkIsFirstBreak(p: Platform, start: Tables, events: seq<Event>, id: string)
    requires Initial(start) && id in Run(p, start, events).attempts
    ensures
      var t := Run(p, start, events);
      var a := t.attempts[id];
      && id in t.prepared && a.domain in t.domains && t.prepared[id] >= 1
      && a.invalidated == FirstBreak(t.domains[a.domain].versions, a.concept, t.prepared[id])
      && (a.invalidated == 0 ==> Steady(t.domains[a.domain].versions, a.concept, t.prepared[id]))
  {
    InitialInv(p, start);
    RunKeeps(p, start, events);
    MarkInState(p, Run(p, start, events), id);
  }

  predicate MarkStays(t: Tables, t': Tables, id: string)
  {
    && id in t.attempts && id in t'.attempts
    && (t.attempts[id].invalidated != 0 ==> t'.attempts[id].invalidated == t.attempts[id].invalidated)
  }

  lemma MarkStaysInRevision(t: Tables, domain: string, expected: nat, next: Snapshot, id: string)
    requires DomainsInv(t.domains) && id in t.attempts
    ensures MarkStays(t, Revise(t, domain, expected, next).0, id)
  {
    if Revise(t, domain, expected, next).1.Done? {
      ReviseShape(t, domain, expected, next);
      assert DomainOk(t.domains[domain]);
      RevisedRow(t, Revise(t, domain, expected, next).0, domain, next, id);
    }
  }

  lemma MarkStaysInRest(p: Platform, t: Tables, e: Event, id: string)
    requires id in t.attempts && !e.ReviseCurriculum? && !e.CompleteAttempt?
    ensures MarkStays(t, Step(p, t, e), id)
  {
  }

  lemma MarkStaysInCompletion(p: Platform, t: Tables, e: Event, id: string)
    requires AttemptsInv(p, t.attempts) && id in t.attempts && e.CompleteAttempt?
    ensures MarkStays(t, Step(p, t, e), id)
  {
    if Complete(p, t, e.id, e.evaluator, e.score, e.total, e.passed).1.Done? {
      CompleteShape(p, t, e.id, e.evaluator, e.score, e.total, e.passed);
    }
  }

  lemma MarkStaysInStep(p: Platform, t: Tables, e: Event, id: string)
    requires Inv(p, t) && id in t.attempts
    ensures MarkStays(t, Step(p, t, e), id)
  {
    if e.ReviseCurriculum? {
      MarkStaysInRevision(t, e.domain, e.expected, e.next, id);
    } else if e.CompleteAttempt? {
      MarkStaysInCompletion(p, t, e, id);
    } else {
      MarkStaysInRest(p, t, e, id);
    }
  }

  /** A mark, once set, never changes: retiring and reactivating a concept never brings old
      evidence back. */
  lemma {:induction false} MarkIsPermanent(p: Platform, t: Tables, events: seq<Event>, id: string)
    requires Inv(p, t) && id in t.attempts && t.attempts[id].invalidated != 0
    ensures
      var t' := Run(p, t, events);
      id in t'.attempts && t'.attempts[id].invalidated == t.attempts[id].invalidated
    decreases |events|
  {
    if events != [] {
      MarkStaysInStep(p, t, events[0], id);
      StepKeeps(p, t, events[0]);
      MarkIsPermanent(p, Step(p, t, events[0]), events[1..], id);
    }
  }

  /* ---- adjudications ---- */

  lemma RowsGrowInStep(p: Platform, t: Tables, e: Event)
    ensures t.adjudications <= Step(p, t, e).adjudications
  {
  }

  lemma {:induction false} RowsOnlyGrow(p: Platform, t: Tables, events: seq<Event>)
    ensures t.adjudications <= Run(p, t, events).adjudications
    decreases |events|
  {
    if events != [] {
      RowsGrowInStep(p, t, events[0]);
      RowsOnlyGrow(p, Step(p, t, events[0]), events[1..]);
    }
  }

  lemma {:induction false} CountGrows(rows: seq<Adjudication>, rows': seq<Adjudication>, attempt: string)
    requires rows <= rows'
    ensures CountFor(rows, attempt) <= CountFor(rows', attempt)
    decreases |rows'|
  {
    if |rows| < |rows'| {
      CountGrows(rows, rows'[..|rows'| - 1], attempt);
    } else {
      assert rows == rows';
    }
  }

  /** The rows of one attempt, in order. */
  function RowsFor(rows: seq<Adjudication>, attempt: string): (r: seq<Adjudication>)
    ensures |r| == CountFor(rows, attempt)
  {
    if rows == [] then [] else
      var n := |rows| - 1;
      RowsFor(rows[..n], attempt) + (if rows[n].attempt == attempt then [rows[n]] else [])
  }

  /** Rows numbered 1, 2, 3 ... */
  predicate Numbered(own: seq<Adjudication>)
  {
    forall i :: 0 <= i < |own| ==> own[i].revision == i + 1
  }

  lemma RevisionPrefix(rows: seq<Adjudication>)
    requires RevisionInv(rows) && rows != []
    ensures RevisionInv(rows[..|rows| - 1])
    ensures rows[|rows| - 1].revision == CountFor(rows[..|rows| - 1], rows[|rows| - 1].attempt) + 1
  {
    var n := |rows| - 1;
    assert forall i :: 0 <= i < n ==> rows[..n][..i] == rows[..i];
  }

  lemma {:induction false} RowsForRevisions(rows: seq<Adjudication>, attempt: string)
    requires RevisionInv(rows)
    ensures Numbered(RowsFor(rows, attempt))
  {
    if rows != [] {
      RevisionPrefix(rows);
      RowsForRevisions(rows[..|rows| - 1], attempt);
    }
  }

  lemma {:induction false} LatestIsLast(rows: seq<Adjudication>, attempt: string)
    requires RevisionInv(rows)
    ensures
      var own := RowsFor(rows, attempt);
      Latest(rows, attempt) == if own == [] then None else Some(own[|own| - 1])
  {
    if rows != [] {
      var init := rows[..|rows| - 1];
      RevisionPrefix(rows);
      LatestIsLast(init, attempt);
      RowsForRevisions(init, attempt);
    }
  }

  /** In every run the revisions of an attempt are exactly 1..n without gaps, the effective
      disposition is the last of them, and no authority's certificate is recorded twice. */
  lemma RevisionsHaveNoGaps(p: Platform, start: Tables, events: seq<Event>, attempt: string)
    requires Initial(start)
    ensures
      var rows := Run(p, start, events).adjudications;
      var own := RowsFor(rows, attempt);
      && Numbered(own)
      && Latest(rows, attempt) == (if own == [] then None else Some(own[|own| - 1]))
      && (forall i, j :: 0 <= i < j < |rows| ==>
        !(rows[i].authority == rows[j].authority && rows[i].certificate == rows[j].certificate))
  {
    InitialInv(p, start);
    RunKeeps(p, start, events);
    var rows := Run(p, start, events).adjudications;
    RowsForRevisions(rows, attempt);
    LatestIsLast(rows, attempt);
  }

  lemma CountAfterAppend(rows: seq<Adjudication>, row: Adjudication)
    ensures CountFor(rows + [row], row.attempt) == CountFor(rows, row.attempt) + 1
  {
    assert (rows + [row])[..|rows|] == rows;
  }

  /** Once a certificate has succeeded for an expected revision, no other one can, in any later state. */
  lemma OneCertificatePerRevision(p: Platform, t: Tables, c: Certificate, events: seq<Event>, c': Certificate)
    requires Inv(p, t) && Adjudicate(p, t, c).1.Done?
    requires c'.attempt == c.attempt && c'.expectedRevision == c.expectedRevision
    ensures !Adjudicate(p, Run(p, Adjudicate(p, t, c).0, events), c').1.Done?
  {
    var t1 := Adjudicate(p, t, c).0;
    var t2 := Run(p, t1, events);
    AdjudicateShape(p, t, c);
    AdjudicateKeeps(p, t, c);
    RunKeeps(p, t1, events);
    RowsOnlyGrow(p, t1, events);
    MaxRevisionIsCount(t.adjudications, c.attempt);
    MaxRevisionIsCount(t2.adjudications, c.attempt);
    CountAfterAppend(t.adjudications, NewRow(c));
    CountGrows(t1.adjudications, t2.adjudications, c.attempt);
    if Adjudicate(p, t2, c').1.Done? {
      AdjudicateShape(p, t2, c');
    }
  }

  lemma PriorFound(rows: seq<Adjudication>, row: Adjudication)
    requires RevisionInv(rows) && row in rows
    ensures Prior(rows, row.authority, row.certificate) == Some(row)
  {
    var i :| 0 <= i < |rows| && rows[i] == row;
    var found := Prior(rows, row.authority, row.certificate).value;
    var j :| 0 <= j < |rows| && rows[j] == found;
  }

  /** The attempt is evaluated evidence of an active concept and carries no mark. */
  predicate StillCurrent(t: Tables, attempt: string)
  {
    ForUpdate(t, attempt).Some? && t.attempts[attempt].status == Evaluated && t.attempts[attempt].invalidated == 0
  }

  lemma ReplayInState(p: Platform, t: Tables, c: Certificate)
    requires AttemptsInv(p, t.attempts) && RevisionInv(t.adjudications) && NewRow(c) in t.adjudications
    ensures Adjudicate(p, t, c).0 == t
    ensures StillCurrent(t, c.attempt) ==> Adjudicate(p, t, c).1 == Replayed(Some(NewRow(c)))
  {
    PriorFound(t.adjudications, NewRow(c));
    if c.attempt in t.attempts {
      assert AttemptInv(p, t.attempts[c.attempt]);
    }
  }

  /** Replaying a certificate in any later state changes nothing and, while its attempt is still
      current evidence, returns the row it first created, even when superseded. */
  lemma ReplayReturnsOriginal(p: Platform, t: Tables, c: Certificate, events: seq<Event>)
    requires Inv(p, t) && Adjudicate(p, t, c).1.Done?
    ensures
      var t' := Run(p, Adjudicate(p, t, c).0, events);
      && Adjudicate(p, t', c).0 == t'
      && (StillCurrent(t', c.attempt) ==> Adjudicate(p, t', c).1 == Replayed(Some(NewRow(c))))
  {
    var t1 := Adjudicate(p, t, c).0;
    AdjudicateShape(p, t, c);
    AdjudicateKeeps(p, t, c);
    RunKeeps(p, t1, events);
    RowsOnlyGrow(p, t1, events);
    assert t1.adjudications[|t.adjudications|] == NewRow(c);
    assert Run(p, t1, events).adjudications[|t.adjudications|] == NewRow(c);
    ReplayInState(p, Run(p, t1, events), c);
  }

  /** In every reachable state the recomputation at acceptance agrees with the recorded score: it
      can only refuse for missing text or changed material. */
  lemma AcceptanceRecomputes(p: Platform, t: Tables, c: Certificate)
    requires Inv(p, t) && c.review in t.reviews && t.reviews[c.review].attempt == c.attempt
    requires t.reviews[c.review].scoreHash == c.scoreHash
    ensures
      var m := MaterialOf(p, t, c.attempt);
      Recomputes(p, t, c, t.reviews[c.review]) <==>
        m.Some? && TextAvailable(m.value) && t.reviews[c.review].score.Some? && m.value == c.material
  {
    assert ReviewInv(p, t.attempts, t.reviews[c.review]);
  }
}
