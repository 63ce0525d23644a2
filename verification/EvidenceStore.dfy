/** The evidence transactions as they are written. */
module EvidenceStore {
  import opened Options
  import opened Rubrics
  import opened Scores
  import opened ScoreMethods
  import opened Evidence

  class Store {
    var domains: map<string, Domain>
    var decisions: map<string, Decision>
    var attempts: map<string, Attempt>
    var reviews: map<string, Review>
    var adjudications: seq<Adjudication>
    ghost var prepared: map<string, nat>

    constructor (domains: map<string, Domain>, decisions: map<string, Decision>)
      ensures State() == Tables(domains, decisions, map[], map[], [], map[])
    {
      this.domains, this.decisions := domains, decisions;
      attempts, reviews, adjudications, prepared := map[], map[], [], map[];
    }

    ghost function State(): Tables
      reads this
    {
      Tables(domains, decisions, attempts, reviews, adjudications, prepared)
    }

    /** The domain version under which evidence for the concept may be written. */
    method Lock(domain: string, concept: string) returns (version: Option<nat>)
      ensures version == LockCurriculum(State(), domain, concept)
    {
      if domain !in domains || domains[domain].versions == [] {
        return None;
      }
      var graph := Current(domains[domain]);
      var active := IsActive(graph, concept);
      return if active then Some(|domains[domain].versions|) else None;
    }

    static method IsActive(s: Snapshot, key: string) returns (active: bool)
      ensures active == ActiveKey(s, key)
    {
      var i := |s|;
      assert s[..i] == s;
      while i > 0
        invariant 0 <= i <= |s|
        invariant ByKey(s, key) == ByKey(s[..i], key)
      {
        i := i - 1;
        assert s[..i + 1][..i] == s[..i];
        if s[i].key == key {
          return s[i].status == Active;
        }
      }
      return false;
    }

    method CreateAttempt(p: Platform, id: string, d: Draft) returns (out: Outcome)
      modifies this
      ensures (State(), out) == Create(p, old(State()), id, d)
    {
      var version := Lock(d.domain, d.concept);
      if id in attempts || version.None? || (d.curriculumVersion > 0 && d.curriculumVersion != version.value) {
        return Refused;
      }
      if d.decision.Some? {
        if d.rubric.None? {
          return Refused;
        }
        var valid := ValidateRubric(p, d.rubric.value);
        if !valid || d.passingScore != d.rubric.value.passingScore || d.decision.value !in decisions {
          return Refused;
        }
        var decision := decisions[d.decision.value];
        if decision.domain != d.domain || decision.concept != d.concept || decision.version != version.value
          || version.value != d.curriculumVersion {
          return Refused;
        }
      }
      attempts := attempts[id := Attempt(d.domain, d.concept, d.decision, d.curriculumVersion, d.rubric,
        d.passingScore, d.task, "",
                                         Prepared, None, 0.0, false, None, false, 0)];
      prepared := prepared[id := version.value];
      out := Done;
    }

    method ReadForUpdate(id: string) returns (a: Option<Attempt>)
      ensures a == ForUpdate(State(), id)
    {
      if id !in attempts {
        return None;
      }
      var version := Lock(attempts[id].domain, attempts[id].concept);
      return if version.Some? then Some(attempts[id]) else None;
    }

    method SubmitAttempt(id: string, response: string) returns (out: Outcome)
      modifies this
      ensures (State(), out) == Submit(old(State()), id, response)
    {
      var a := ReadForUpdate(id);
      if a.None? || a.value.status != Prepared || a.value.invalidated != 0 {
        return Refused;
      }
      attempts := attempts[id := a.value.(status := Submitted, response := response)];
      out := Done;
    }

    method CompleteAttempt(p: Platform, id: string, evaluator: Method, score: Doc, total: real,
                           passed: bool) returns (out: Outcome)
      modifies this
      ensures (State(), out) == Complete(p, old(State()), id, evaluator, score, total, passed)
    {
      if evaluator != HostLLM {
        return Refused;
      }
      var a := ReadForUpdate(id);
      if a.None? || a.value.status != Submitted || a.value.invalidated != 0 {
        return Refused;
      }
      var doc, sum, pass := score, total, passed;
      if a.value.decision.Some? {
        if a.value.rubric.None? || a.value.rubric.value.passingScore != a.value.passingScore {
          return Refused;
        }
        var e := Evaluate(p, a.value.rubric.value, score);
        if e.None? || total != e.value.total || passed != e.value.passed {
          return Refused;
        }
        doc, sum, pass := e.value.score, e.value.total, e.value.passed;
      }
      attempts := attempts[id := WithGrade(a.value, doc, sum, pass)];
      out := Done;
    }

    method CancelAttempt(id: string) returns (out: Outcome)
      modifies this
      ensures (State(), out) == Cancel(old(State()), id)
    {
      if id !in attempts || attempts[id].status !in {Prepared, Submitted} {
        return Refused;
      }
      attempts := attempts[id := attempts[id].(status := Cancelled)];
      out := Done;
    }

    method ReadMaterial(p: Platform, id: string) returns (m: Option<Material>)
      ensures m == MaterialOf(p, State(), id)
    {
      if id !in attempts || !Reviewable(attempts[id]) {
        return None;
      }
      var a := attempts[id];
      if a.rubric.None? {
        return None;
      }
      var valid := ValidateRubric(p, a.rubric.value);
      if !valid || a.rubric.value.passingScore != a.passingScore {
        return None;
      }
      return Some(Material(id, a.decision.value, a.rubric.value, a.task, a.response));
    }

    /** Insert the opinion if absent, then read it back and compare. */
    method ReviewAttempt(p: Platform, reviewId: string, attempt: string, reviewer: string, key: string,
                         material: Material, score: Doc)
      returns (out: Outcome)
      modifies this
      ensures (State(), out) == RecordReview(p, old(State()), reviewId, attempt, reviewer, key, material, score)
    {
      var m := ReadMaterial(p, attempt);
      if m.None? || !TextAvailable(m.value) || m.value != material {
        return Refused;
      }
      var e := Evaluate(p, m.value.rubric, score);
      if e.None? {
        return Refused;
      }
      if !Conflicts(reviews, reviewId, attempt, reviewer, key) {
        reviews := reviews[reviewId := Review(attempt, reviewer, key, material, e.value.score, Some(e.value.score),
          e.value.total, e.value.passed)];
        return Done;
      }
      var same := HasOpinion(reviews, reviewer, key, attempt, material, e.value.score);
      return if same then Replayed(None) else Refused;
    }

    method ReadRows(authority: string, certificate: string, attempt: string) returns (prior: Option<Adjudication>,
                    revision: nat)
      ensures prior == Prior(adjudications, authority, certificate)
      ensures revision == MaxRevision(adjudications, attempt)
    {
      prior, revision := None, 0;
      for i := 0 to |adjudications|
        invariant prior == Prior(adjudications[..i], authority, certificate)
        invariant revision == MaxRevision(adjudications[..i], attempt)
      {
        assert adjudications[..i + 1][..i] == adjudications[..i];
        var row := adjudications[i];
        if row.authority == authority && row.certificate == certificate {
          prior := Some(row);
        }
        if row.attempt == attempt && row.revision > revision {
          revision := row.revision;
        }
      }
      assert adjudications[..|adjudications|] == adjudications;
    }

    method AdjudicateAttempt(p: Platform, c: Certificate) returns (out: Outcome)
      modifies this
      ensures (State(), out) == Adjudicate(p, old(State()), c)
    {
      var a := ReadForUpdate(c.attempt);
      if a.None? || a.value.status != Evaluated || a.value.invalidated != 0 || a.value.evaluation != Some(HostLLM) {
        return Refused;
      }
      var prior, revision := ReadRows(c.authority, c.id, c.attempt);
      if prior.Some? {
        return if prior.value.attempt != c.attempt || prior.value.certificateHash != c.hash then Refused
          else Replayed(prior);
      }
      if revision != c.expectedRevision || c.review !in reviews || reviews[c.review].attempt != c.attempt {
        return Refused;
      }
      var r := reviews[c.review];
      if r.material != c.material || r.scoreHash != c.scoreHash {
        return Refused;
      }
      if c.verdict == Accept {
        var m := ReadMaterial(p, c.attempt);
        if m.None? || !TextAvailable(m.value) || r.score.None? || m.value != c.material {
          return Refused;
        }
        var e := Evaluate(p, m.value.rubric, r.score.value);
        if e.None? || e.value.score != c.scoreHash {
          return Refused;
        }
      }
      adjudications := adjudications + [Adjudication(c.attempt, c.review, revision + 1, c.verdict, c.authority, c.id,
        c.hash)];
      out := Done;
    }

    /** The reconciliation loop: mark the current rows of every affected concept. */
    method ReconcileRows(domain: string, previous: Snapshot, next: Snapshot,
                         version: nat) returns (rows: Option<map<string, Attempt>>)
      ensures rows == Reconcile(attempts, domain, previous, next, version)
    {
      rows := Some(attempts);
      for i := 0 to |previous|
        invariant rows == Reconcile(attempts, domain, previous[..i], next, version)
      {
        assert previous[..i + 1][..i] == previous[..i];
        if rows.Some? {
          var updated := ById(next, previous[i].id);
          if updated.None? || updated.value.key != previous[i].key {
            rows := None;
          } else if !Unaffected(previous[i], updated.value) {
            rows := Some(Invalidate(rows.value, domain, previous[i].key, version));
          }
        }
      }
      assert previous[..|previous|] == previous;
    }

    method ReviseCurriculum(domain: string, expected: nat, next: Snapshot) returns (out: Outcome)
      modifies this
      ensures (State(), out) == Revise(old(State()), domain, expected, next)
    {
      if domain !in domains || expected < 1 || |domains[domain].versions| != expected || !ValidSnapshot(next) {
        return Refused;
      }
      var d := domains[domain];
      var rows := ReconcileRows(domain, Current(d), next, expected + 1);
      if rows.None? {
        return Refused;
      }
      domains := domains[domain := d.(versions := d.versions + [next])];
      attempts := rows.value;
      out := Done;
    }
  }
}
