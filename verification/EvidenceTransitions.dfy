/** Exactly when each transition of the assessment evidence is made. */
module EvidenceTransitions {
  import opened Options
  import opened Texts
  import opened Rubrics
  import opened Scores
  import opened Evidence
  import opened EvidenceProofs
  import opened EvidenceHistory

  /** The attempt's evidence counts: no revision of the curriculum marked it, and its concept is active in
      the latest version. */
  predicate CurrentEvidence(t: Tables, id: string)
  {
    && id in t.attempts && t.attempts[id].invalidated == 0 && t.attempts[id].domain in t.domains
    && var versions := t.domains[t.attempts[id].domain].versions;
    && versions != []
    && exists c <- versions[|versions| - 1] :: c.key == t.attempts[id].concept && c.status == Active
  }

  lemma ActiveIff(s: Snapshot, key: string)
    requires ValidSnapshot(s)
    ensures ActiveKey(s, key) <==> exists c <- s :: c.key == key && c.status == Active
  {
    if exists c <- s :: c.key == key && c.status == Active {
      var c :| c in s && c.key == key && c.status == Active;
      var i :| 0 <= i < |s| && s[i] == c;
      var found := ByKey(s, key);
      assert found.Some?;
      var j :| 0 <= j < |s| && s[j] == found.value;
      assert i == j;
    }
  }

  lemma CurrentIff(t: Tables, id: string)
    requires forall d <- t.domains :: DomainOk(t.domains[d])
    ensures CurrentEvidence(t, id) <==> ForUpdate(t, id).Some? && t.attempts[id].invalidated == 0
    ensures ForUpdate(t, id).Some? ==> id in t.attempts && ForUpdate(t, id).value == t.attempts[id]
  {
    if id in t.attempts && t.attempts[id].domain in t.domains {
      var d := t.domains[t.attempts[id].domain];
      assert DomainOk(d);
      ActiveIff(Current(d), t.attempts[id].concept);
    }
  }

  /** A submission, a completion and a cancellation are made exactly for current evidence in the right
      state; a completion only by the host's own grading, and under a decision only with the very total and
      outcome the frozen rubric gives. Cancelling asks for no current evidence. */
  lemma TransitionsIff(p: Platform, t: Tables, id: string, response: string, evaluator: Method, score: Doc,
                       total: real, passed: bool)
    requires forall d <- t.domains :: DomainOk(t.domains[d])
    ensures Submit(t, id, response).1.Done? <==> CurrentEvidence(t, id) && t.attempts[id].status == Prepared
    ensures Complete(p, t, id, evaluator, score, total, passed).1.Done? <==>
      && evaluator == HostLLM && CurrentEvidence(t, id) && t.attempts[id].status == Submitted
      && (t.attempts[id].decision.Some? ==>
            && t.attempts[id].rubric.Some? && t.attempts[id].rubric.value.passingScore == t.attempts[id].passingScore
            && var e := EvaluateSpec(p, t.attempts[id].rubric.value, score);
            e.Some? && total == e.value.total && passed == e.value.passed)
    ensures Cancel(t, id).1.Done? <==> id in t.attempts && t.attempts[id].status in {Prepared, Submitted}
    ensures !Submit(t, id, response).1.Done? ==> Submit(t, id, response).0 == t
    ensures !Complete(p, t, id, evaluator, score, total, passed).1.Done? ==>
      Complete(p, t, id, evaluator, score, total, passed).0 == t
  {
    CurrentIff(t, id);
  }

  /** The row was recorded for this very certificate. */
  predicate Repeats(rows: seq<Adjudication>, c: Certificate, row: Adjudication)
  {
    && row in rows && row.authority == c.authority && row.certificate == c.id
    && row.attempt == c.attempt && row.certificateHash == c.hash
  }

  /** The concept is active in the latest version of the domain. */
  predicate Teaches(t: Tables, domain: string, concept: string)
  {
    && domain in t.domains && t.domains[domain].versions != []
    && var s := t.domains[domain].versions[|t.domains[domain].versions| - 1];
    exists c <- s :: c.key == concept && c.status == Active
  }

  /** An attempt is created exactly under a new id, for an active concept, under no version or the latest
      one, and under a decision only with a rubric that may be frozen, that rubric's own passing score, and
      a decision made for that concept of that domain under that version. */
  lemma CreatedIff(p: Platform, t: Tables, id: string, d: Draft)
    requires forall x <- t.domains :: DomainOk(t.domains[x])
    ensures Create(p, t, id, d).1.Done? <==>
      && id !in t.attempts && Teaches(t, d.domain, d.concept)
      && var latest := |t.domains[d.domain].versions|;
      && d.curriculumVersion in {0, latest}
      && (d.decision.Some? ==>
            && d.rubric.Some? && ValidRubric(p, d.rubric.value) && d.rubric.value.passingScore == d.passingScore
            && d.decision.value in t.decisions && t.decisions[d.decision.value] == Decision(d.domain, d.concept, latest)
            && d.curriculumVersion == latest)
    ensures Create(p, t, id, d).1.Done? ==>
      id in Create(p, t, id, d).0.prepared && Create(p, t, id, d).0.prepared[id] == |t.domains[d.domain].versions|
  {
    if d.domain in t.domains {
      assert DomainOk(t.domains[d.domain]);
      ActiveIff(Current(t.domains[d.domain]), d.concept);
    }
  }

  /** The reviewer has already used the key, or already reviewed the attempt. */
  predicate TakenBy(r: Review, reviewer: string, key: string, attempt: string)
  {
    r.reviewer == reviewer && (r.key == key || r.attempt == attempt)
  }

  /** A review is recorded exactly for readable material that is still as certified, with a score its rubric
      accepts, under a new id, key and attempt of that reviewer; repeated exactly with the same opinion. */
  lemma ReviewedIff(p: Platform, t: Tables, reviewId: string, attempt: string, reviewer: string, key: string,
                    material: Material, score: Doc)
    ensures
      var out := RecordReview(p, t, reviewId, attempt, reviewer, key, material, score).1;
      var ready := MaterialOf(p, t, attempt) == Some(material) && TextAvailable(material)
                   && EvaluateSpec(p, material.rubric, score).Some?;
      var taken := reviewId in t.reviews
                   || exists r <- t.reviews :: TakenBy(t.reviews[r], reviewer, key, attempt);
      && (out.Done? <==> ready && !taken)
      && (out.Replayed? <==> ready && taken && exists r <- t.reviews ::
            && t.reviews[r].reviewer == reviewer && t.reviews[r].key == key && t.reviews[r].attempt == attempt
            && t.reviews[r].material == material
            && t.reviews[r].scoreHash == EvaluateSpec(p, material.rubric, score).value.score)
  {
  }

  /** An adjudication is recorded exactly for current, host-graded evidence, by a certificate not seen before
      that expects the latest revision and is about a stored review of the attempt, its material and its
      score; an acceptance also recomputes that score from readable material. */
  lemma AdjudicatedIff(p: Platform, t: Tables, c: Certificate)
    requires forall d <- t.domains :: DomainOk(t.domains[d])
    ensures Adjudicate(p, t, c).1.Done? <==>
      && CurrentEvidence(t, c.attempt) && t.attempts[c.attempt].status == Evaluated
      && t.attempts[c.attempt].evaluation == Some(HostLLM)
      && (forall i :: 0 <= i < |t.adjudications| ==>
            !(t.adjudications[i].authority == c.authority && t.adjudications[i].certificate == c.id))
      && MaxRevision(t.adjudications, c.attempt) == c.expectedRevision && AboutReview(t.reviews, c)
      && (c.verdict == Accept ==> Recomputes(p, t, c, t.reviews[c.review]))
    ensures Adjudicate(p, t, c).1.Replayed? ==>
      && Adjudicate(p, t, c).0 == t && Adjudicate(p, t, c).1.row.Some?
      && Repeats(t.adjudications, c, Adjudicate(p, t, c).1.row.value)
  {
    CurrentIff(t, c.attempt);
    var prior := Prior(t.adjudications, c.authority, c.id);
    if prior.Some? {
      var i :| 0 <= i < |t.adjudications| && t.adjudications[i] == prior.value;
    }
  }

  /* ---- what readers derive ---- */

  /** Who is believed, in every state: the latest adjudication if there is one, and then only an acceptance
      outside high stakes; without one an external, human or deterministic evaluation that was stored as
      trusted, in high stakes only a human one; and the host's own grading only where the policy says so, of a
      decided attempt, outside high stakes. */
  lemma BelievedIff(hostPolicy: bool, t: Tables, id: string)
    requires id in t.attempts
    ensures
      var a, j, high := t.attempts[id], Latest(t.adjudications, id), HighStakes(t, t.attempts[id].domain);
      && (j.Some? ==> (EffectiveTrust(hostPolicy, t, id) <==> j.value.verdict == Accept && !high))
      && (j.None? && a.evaluation == Some(HostLLM) ==>
            (EffectiveTrust(hostPolicy, t, id) <==> hostPolicy && a.decision.Some? && !high))
      && (j.None? && a.evaluation == Some(HumanReview) ==> (EffectiveTrust(hostPolicy, t, id) <==> a.trusted))
      && (j.None? && a.evaluation in {Some(ExternalService), Some(Deterministic)} ==>
            (EffectiveTrust(hostPolicy, t, id) <==> a.trusted && !high))
      && (j.None? && a.evaluation.None? ==> !EffectiveTrust(hostPolicy, t, id))
  {
  }

  /** Which outcome counts: that of the accepted review, and otherwise, after a rejection too, the attempt's
      own. */
  lemma CountedOutcome(t: Tables, id: string)
    requires id in t.attempts
    ensures
      var j := Latest(t.adjudications, id);
      && (j.None? || j.value.verdict == Reject ==> (EffectivePassed(t, id) <==> t.attempts[id].passed))
      && (j.Some? && j.value.verdict == Accept ==>
            (EffectivePassed(t, id) <==> j.value.review in t.reviews && t.reviews[j.value.review].passed))
  {
  }

  /** A revision leaves a concept's evidence alone exactly when the concept stays retired, or stays active with
      the same description, level, outcomes and criteria. */
  lemma SurvivesIff(previous: Concept, next: Concept)
    ensures Unaffected(previous, next) <==>
      && previous.status == next.status
      && (next.status == Active ==>
            && previous.definition.description == next.definition.description
            && previous.definition.level == next.definition.level
            && EntriesKept(previous.definition.outcomes, next.definition.outcomes)
            && EntriesKept(previous.definition.criteria, next.definition.criteria))
  {
  }

  /** Entries are kept exactly when the same ones are listed, in whatever order, provided none is listed
      twice. */
  lemma KeptIff(old_: seq<Entry>, new_: seq<Entry>)
    requires DistinctEntries(old_) && DistinctEntries(new_)
    ensures EntriesKept(old_, new_) <==> |old_| == |new_| && forall e :: e in new_ ==> e in old_
  {
    if EntriesKept(old_, new_) {
      forall e | e in new_ ensures e in old_ {
        var i :| 0 <= i < |new_| && new_[i] == e;
        EntryMapMember(old_, e.id);
      }
    }
    if |old_| == |new_| && forall e :: e in new_ ==> e in old_ {
      forall i | 0 <= i < |new_| ensures new_[i].id in EntryMap(old_) && EntryMap(old_)[new_[i].id] == new_[i] {
        assert new_[i] in old_;
        var k :| 0 <= k < |old_| && old_[k] == new_[i];
        EntryMapDistinct(old_, k);
      }
    }
  }
}
