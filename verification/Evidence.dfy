/** Assessment evidence: attempts frozen against a rubric and a curriculum, independent reviews,
    versioned adjudications, and the readers that derive trust from all of them.
    Each store transaction is one atomic step from a table state to the next. */
module Evidence {
  import opened Options
  import opened Texts
  import opened Rubrics
  import opened Scores

  type Doc = map<string, Json>

  /* ---- curriculum ---- */

  /** An outcome or criterion of a concept; `body` stands for its remaining fields. */
  datatype Entry = Entry(id: string, body: string)
  datatype Definition = Definition(description: string, level: string, outcomes: seq<Entry>, criteria: seq<Entry>)
  datatype ConceptStatus = Active | Retired
  datatype Concept = Concept(id: string, key: string, status: ConceptStatus, definition: Definition)
  type Snapshot = seq<Concept>

  /** `versions[v - 1]` is curriculum version v; the last one is current. */
  datatype Domain = Domain(versions: seq<Snapshot>, highStakes: bool)

  function EntryMap(entries: seq<Entry>): map<string, Entry>
  {
    if entries == [] then map[] else
      var n := |entries| - 1;
      EntryMap(entries[..n])[entries[n].id := entries[n]]
  }

  predicate EntriesKept(old_: seq<Entry>, new_: seq<Entry>)
  {
    |old_| == |new_| && forall i :: 0 <= i < |new_| ==>
      new_[i].id in EntryMap(old_) && EntryMap(old_)[new_[i].id] == new_[i]
  }

  /** The declared measurement contract is unchanged; labels and order are ignored. */
  predicate SameDefinition(a: Definition, b: Definition)
  {
    a.description == b.description && a.level == b.level && EntriesKept(a.outcomes, b.outcomes)
      && EntriesKept(a.criteria, b.criteria)
  }

  function ByKey(s: Snapshot, key: string): (r: Option<Concept>)
    ensures r.Some? ==> r.value in s && r.value.key == key
    ensures r.None? ==> forall i :: 0 <= i < |s| ==> s[i].key != key
  {
    if s == [] then None
    else if s[|s| - 1].key == key then Some(s[|s| - 1])
    else ByKey(s[..|s| - 1], key)
  }

  function ById(s: Snapshot, id: string): (r: Option<Concept>)
    ensures r.Some? ==> r.value in s && r.value.id == id
    ensures r.None? ==> forall i :: 0 <= i < |s| ==> s[i].id != id
  {
    if s == [] then None
    else if s[|s| - 1].id == id then Some(s[|s| - 1])
    else ById(s[..|s| - 1], id)
  }

  predicate DistinctEntries(entries: seq<Entry>)
  {
    forall i, j :: 0 <= i < j < |entries| ==> entries[i].id != entries[j].id
  }

  predicate ValidSnapshot(s: Snapshot)
  {
    && (forall i, j :: 0 <= i < j < |s| ==> s[i].id != s[j].id && s[i].key != s[j].key)
    && (forall i :: 0 <= i < |s| ==>
      DistinctEntries(s[i].definition.outcomes) && DistinctEntries(s[i].definition.criteria))
  }

  predicate ActiveKey(s: Snapshot, key: string)
  {
    ByKey(s, key).Some? && ByKey(s, key).value.status == Active
  }

  /* ---- assessment rows ---- */

  datatype Status = Prepared | Submitted | Evaluated | Cancelled
  datatype Method = HostLLM | ExternalService | HumanReview | Deterministic

  /** An attempt row. `rubric` is the parsed frozen rubric document, None when it does not parse. */
  datatype Attempt = Attempt(
    domain: string, concept: string, decision: Option<string>, curriculumVersion: nat,
    rubric: Option<Rubric>, passingScore: real, task: string, response: string,
    status: Status, score: Option<Doc>, total: real, passed: bool, evaluation: Option<Method>,
    trusted: bool, invalidated: nat)

  datatype Decision = Decision(domain: string, concept: string, version: nat)

  /** What a reviewer is shown; its hash is modelled by the value itself. */
  datatype Material = Material(attempt: string, decision: string, rubric: Rubric, task: string, response: string)

  /** A review row. The hash of its canonical score is modelled by the score itself; the stored
      plaintext may later be redacted. */
  datatype Review = Review(attempt: string, reviewer: string, key: string, material: Material,
                           scoreHash: Doc, score: Option<Doc>, total: real, passed: bool)

  datatype Verdict = Accept | Reject
  datatype Adjudication = Adjudication(attempt: string, review: string, revision: nat, verdict: Verdict,
                                       authority: string, certificate: string, certificateHash: string)

  /** A verified certificate. */
  datatype Certificate = Certificate(id: string, authority: string, hash: string, attempt: string, review: string,
                                     material: Material, scoreHash: Doc, verdict: Verdict, expectedRevision: nat)

  /** The tables, with the observer `prepared`: the curriculum version each attempt was created under. */
  datatype Tables = Tables(domains: map<string, Domain>, decisions: map<string, Decision>,
                           attempts: map<string, Attempt>,
                           reviews: map<string, Review>, adjudications: seq<Adjudication>, prepared: map<string, nat>)

  datatype Outcome = Done | Replayed(row: Option<Adjudication>) | Refused

  function Current(d: Domain): Snapshot
    requires d.versions != []
  {
    d.versions[|d.versions| - 1]
  }

  /** lockCurriculumForEvidence: the domain's version when the concept is active in it. */
  function LockCurriculum(t: Tables, domain: string, concept: string): Option<nat>
  {
    if domain in t.domains && t.domains[domain].versions != [] && ActiveKey(Current(t.domains[domain]), concept)
    then Some(|t.domains[domain].versions|) else None
  }

  /* ---- attempt transitions ---- */

  datatype Draft = Draft(domain: string, concept: string, decision: Option<string>, curriculumVersion: nat,
                         rubric: Option<Rubric>, passingScore: real, task: string)

  predicate DecisionBinds(p: Platform, t: Tables, d: Draft, version: nat)
  {
    d.decision.Some? ==>
      && d.rubric.Some? && ValidRubric(p, d.rubric.value) && d.passingScore == d.rubric.value.passingScore
      && d.decision.value in t.decisions
      && var decision := t.decisions[d.decision.value];
         decision.domain == d.domain && decision.concept == d.concept
           && decision.version == version == d.curriculumVersion
  }

  function Create(p: Platform, t: Tables, id: string, d: Draft): (Tables, Outcome)
  {
    var version := LockCurriculum(t, d.domain, d.concept);
    if id in t.attempts || version.None? || (d.curriculumVersion > 0 && d.curriculumVersion != version.value)
       || !DecisionBinds(p, t, d, version.value) then (t, Refused)
    else
      var row := Attempt(d.domain, d.concept, d.decision, d.curriculumVersion, d.rubric, d.passingScore, d.task, "",
                         Prepared, None, 0.0, false, None, false, 0);
      (t.(attempts := t.attempts[id := row], prepared := t.prepared[id := version.value]), Done)
  }

  /** GetAssessmentAttemptForUpdate: the row, provided its concept is still active. */
  function ForUpdate(t: Tables, id: string): Option<Attempt>
  {
    if id in t.attempts && LockCurriculum(t, t.attempts[id].domain, t.attempts[id].concept).Some?
    then Some(t.attempts[id]) else None
  }

  function Submit(t: Tables, id: string, response: string): (Tables, Outcome)
  {
    var a := ForUpdate(t, id);
    if a.None? || a.value.status != Prepared || a.value.invalidated != 0 then (t, Refused)
    else (t.(attempts := t.attempts[id := a.value.(status := Submitted, response := response)]), Done)
  }

  /** The public evaluation port: host grading only, recomputed when a decision froze the rubric. */
  ghost function Complete(p: Platform, t: Tables, id: string, method_: Method, score: Doc, total: real,
                          passed: bool): (Tables, Outcome)
  {
    var a := ForUpdate(t, id);
    if method_ != HostLLM || a.None? || a.value.status != Submitted || a.value.invalidated != 0 then (t, Refused)
    else if a.value.decision.Some? then
      if a.value.rubric.None? || a.value.rubric.value.passingScore != a.value.passingScore then (t, Refused)
      else match EvaluateSpec(p, a.value.rubric.value, score)
        case None => (t, Refused)
        case Some(e) =>
          if total != e.total || passed != e.passed then (t, Refused)
          else (t.(attempts := t.attempts[id := WithGrade(a.value, e.score, e.total, e.passed)]), Done)
    else (t.(attempts := t.attempts[id := WithGrade(a.value, score, total, passed)]), Done)
  }

  function WithGrade(a: Attempt, score: Doc, total: real, passed: bool): Attempt
  {
    a.(status := Evaluated, score := Some(score), total := total, passed := passed, evaluation := Some(HostLLM),
      trusted := false)
  }

  function Cancel(t: Tables, id: string): (Tables, Outcome)
  {
    if id !in t.attempts || t.attempts[id].status !in {Prepared, Submitted} then (t, Refused)
    else (t.(attempts := t.attempts[id := t.attempts[id].(status := Cancelled)]), Done)
  }

  /* ---- reviews ---- */

  predicate Reviewable(a: Attempt)
  {
    && a.decision.Some? && a.invalidated == 0 && !a.trusted
    && (a.status == Submitted || (a.status == Evaluated && a.evaluation == Some(HostLLM)))
  }

  /** GetAssessmentReviewMaterial. */
  function MaterialOf(p: Platform, t: Tables, id: string): Option<Material>
  {
    if id !in t.attempts || !Reviewable(t.attempts[id]) then None
    else
      var a := t.attempts[id];
      if a.rubric.None? || !ValidRubric(p, a.rubric.value) || a.rubric.value.passingScore != a.passingScore then None
      else Some(Material(id, a.decision.value, a.rubric.value, a.task, a.response))
  }

  predicate TextAvailable(m: Material)
  {
    !Blank(m.task) && !Blank(m.response)
  }

  /** A unique column of the review table is already taken. */
  predicate Conflicts(reviews: map<string, Review>, reviewId: string, attempt: string, reviewer: string, key: string)
  {
    reviewId in reviews ||
    exists r ::
      r in reviews && reviews[r].reviewer == reviewer && (reviews[r].key == key || reviews[r].attempt == attempt)
  }

  /** The row recorded under (reviewer, key) states this very opinion. */
  predicate HasOpinion(reviews: map<string, Review>, reviewer: string, key: string, attempt: string,
                       material: Material, score: Doc)
  {
    exists r :: r in reviews && SameOpinion(reviews[r], reviewer, key, attempt, material, score)
  }

  predicate SameOpinion(r: Review, reviewer: string, key: string, attempt: string, material: Material, score: Doc)
  {
    r.reviewer == reviewer && r.key == key && r.attempt == attempt && r.material == material && r.scoreHash == score
  }

  /** Insert-if-absent, then read back by (reviewer, key) and compare. */
  ghost function RecordReview(p: Platform, t: Tables, reviewId: string, attempt: string, reviewer: string, key: string,
                              material: Material, score: Doc): (Tables, Outcome)
  {
    var m := MaterialOf(p, t, attempt);
    if m.None? || !TextAvailable(m.value) || m.value != material then (t, Refused)
    else match EvaluateSpec(p, m.value.rubric, score)
      case None => (t, Refused)
      case Some(e) =>
        if !Conflicts(t.reviews, reviewId, attempt, reviewer, key) then
          (t.(reviews := t.reviews[reviewId := Review(attempt, reviewer, key, material, e.score, Some(e.score),
            e.total, e.passed)]), Done)
        else if HasOpinion(t.reviews, reviewer, key, attempt, material, e.score) then (t, Replayed(None))
        else (t, Refused)
  }

  /* ---- adjudications ---- */

  function MaxRevision(rows: seq<Adjudication>, attempt: string): nat
  {
    if rows == [] then 0 else
      var n := |rows| - 1;
      var earlier := MaxRevision(rows[..n], attempt);
      if rows[n].attempt == attempt && rows[n].revision > earlier then rows[n].revision else earlier
  }

  function Prior(rows: seq<Adjudication>, authority: string, certificate: string): (r: Option<Adjudication>)
    ensures r.Some? ==> r.value in rows && r.value.authority == authority && r.value.certificate == certificate
    ensures r.None? ==> forall i :: 0 <= i < |rows| ==>
      !(rows[i].authority == authority && rows[i].certificate == certificate)
  {
    if rows == [] then None else
      var n := |rows| - 1;
      if rows[n].authority == authority && rows[n].certificate == certificate then Some(rows[n])
      else Prior(rows[..n], authority, certificate)
  }

  /** Acceptance needs readable material and recomputes the reviewed score. */
  ghost predicate Recomputes(p: Platform, t: Tables, c: Certificate, r: Review)
  {
    var m := MaterialOf(p, t, c.attempt);
    && m.Some? && TextAvailable(m.value) && r.score.Some? && m.value == c.material
    && var e := EvaluateSpec(p, m.value.rubric, r.score.value);
       e.Some? && e.value.score == c.scoreHash
  }

  ghost function Adjudicate(p: Platform, t: Tables, c: Certificate): (Tables, Outcome)
  {
    var a := ForUpdate(t, c.attempt);
    if a.None? || a.value.status != Evaluated || a.value.invalidated != 0
      || a.value.evaluation != Some(HostLLM) then (t, Refused)
    else
      var prior := Prior(t.adjudications, c.authority, c.id);
      if prior.Some? then
        if prior.value.attempt != c.attempt || prior.value.certificateHash != c.hash then (t, Refused)
        else (t, Replayed(prior))
      else if MaxRevision(t.adjudications, c.attempt) != c.expectedRevision then (t, Refused)
      else if c.review !in t.reviews || t.reviews[c.review].attempt != c.attempt then (t, Refused)
      else if t.reviews[c.review].material != c.material
        || t.reviews[c.review].scoreHash != c.scoreHash then (t, Refused)
      else if c.verdict == Accept && !Recomputes(p, t, c, t.reviews[c.review]) then (t, Refused)
      else (t.(adjudications := t.adjudications + [NewRow(c)]), Done)
  }

  function NewRow(c: Certificate): Adjudication
  {
    Adjudication(c.attempt, c.review, c.expectedRevision + 1, c.verdict, c.authority, c.id, c.hash)
  }

  /* ---- curriculum revision ---- */

  /** UPDATE assessment_attempts SET curriculum_invalidated_version = v WHERE ... AND it is 0. */
  function Invalidate(attempts: map<string, Attempt>, domain: string, concept: string,
                      version: nat): map<string, Attempt>
  {
    map id | id in attempts ::
      if attempts[id].domain == domain && attempts[id].concept == concept && attempts[id].invalidated == 0
      then attempts[id].(invalidated := version) else attempts[id]
  }

  /** The concept's evidence survives the revision. */
  predicate Unaffected(old_: Concept, new_: Concept)
  {
    || (old_.status == new_.status && SameDefinition(old_.definition, new_.definition))
    || (old_.status == Retired && new_.status == Retired)
  }

  /** The reconciliation loop over the previous snapshot's concepts. */
  function Reconcile(attempts: map<string, Attempt>, domain: string, previous: Snapshot, next: Snapshot,
                     version: nat): Option<map<string, Attempt>>
  {
    if previous == [] then Some(attempts) else
      var n := |previous| - 1;
      match Reconcile(attempts, domain, previous[..n], next, version)
      case None => None
      case Some(rows) =>
        var updated := ById(next, previous[n].id);
        if updated.None? || updated.value.key != previous[n].key then None
        else if Unaffected(previous[n], updated.value) then Some(rows)
        else Some(Invalidate(rows, domain, previous[n].key, version))
  }

  /** CompareAndSwapCurriculum: publish exactly one next version and reconcile the evidence. */
  function Revise(t: Tables, domain: string, expected: nat, next: Snapshot): (Tables, Outcome)
  {
    if domain !in t.domains || expected < 1 || |t.domains[domain].versions| != expected
      || !ValidSnapshot(next) then (t, Refused)
    else
      var d := t.domains[domain];
      match Reconcile(t.attempts, domain, Current(d), next, expected + 1)
      case None => (t, Refused)
      case Some(rows) => (t.(domains := t.domains[domain := d.(versions := d.versions + [next])], attempts := rows),
        Done)
  }

  /* ---- the read boundary ---- */

  function Latest(rows: seq<Adjudication>, attempt: string): (r: Option<Adjudication>)
    ensures r.Some? ==> r.value in rows && r.value.attempt == attempt
    ensures r.None? ==> forall i :: 0 <= i < |rows| ==> rows[i].attempt != attempt
  {
    if rows == [] then None else
      var n := |rows| - 1;
      var earlier := Latest(rows[..n], attempt);
      if rows[n].attempt == attempt && (earlier.None? || rows[n].revision > earlier.value.revision) then Some(rows[n])
        else earlier
  }

  predicate HighStakes(t: Tables, domain: string)
  {
    domain in t.domains && t.domains[domain].highStakes
  }

  /** The effective-trust projection; `hostPolicy` is SetHostLLMDemonstrationPolicy. */
  predicate EffectiveTrust(hostPolicy: bool, t: Tables, id: string)
    requires id in t.attempts
  {
    var a := t.attempts[id];
    var j := Latest(t.adjudications, id);
    if j.Some? && j.value.verdict == Accept && !HighStakes(t, a.domain) then true
    else if j.Some? then false
    else if a.trusted && a.evaluation.Some? && a.evaluation.value in {ExternalService, HumanReview, Deterministic}
            && (!HighStakes(t, a.domain) || a.evaluation == Some(HumanReview)) then true
    else hostPolicy && a.evaluation == Some(HostLLM) && a.decision.Some? && !HighStakes(t, a.domain)
  }

  predicate EffectivePassed(t: Tables, id: string)
    requires id in t.attempts
  {
    var j := Latest(t.adjudications, id);
    if j.Some? && j.value.verdict == Accept then j.value.review in t.reviews && t.reviews[j.value.review].passed
    else t.attempts[id].passed
  }

  /** GetTrustedPassedAssessmentAttemptsInDomain. */
  predicate TrustedPassed(hostPolicy: bool, t: Tables, id: string)
  {
    && id in t.attempts && t.attempts[id].domain in t.domains
    && t.attempts[id].status == Evaluated && t.attempts[id].invalidated == 0
    && EffectivePassed(t, id) && EffectiveTrust(hostPolicy, t, id)
  }
}
