/** What each seat mutation answers and exactly which rows it changes, in states whose seats are right. */
module CatalogMoves {
  import opened Options
  import opened Catalog

  /* ---- one row and one cohort ---- */

  /** Only enrollment `id` and cohort `cohort` change. */
  ghost predicate OnlyChanges(t: Tables, t': Tables, id: string, cohort: string)
  {
    && cohort in t.cohorts && cohort in t'.cohorts && id in t'.enrollments
    && (forall c :: c != cohort ==> (c in t'.cohorts <==> c in t.cohorts))
    && (forall c <- t.cohorts :: c != cohort ==> t'.cohorts[c] == t.cohorts[c])
    && (forall x :: x != id ==> (x in t'.enrollments <==> x in t.enrollments))
    && (forall x <- t.enrollments :: x != id ==> t'.enrollments[x] == t.enrollments[x])
    && t'.migrations == t.migrations
  }

  /** The learner is seated under `id`: one more seat of that cohort is taken, one version later. */
  ghost predicate TakesSeat(t: Tables, t': Tables, id: string, cohort: string, learner: string)
  {
    && OnlyChanges(t, t', id, cohort) && t'.enrollments[id] == Enrollment(cohort, learner, Active, true, true)
    && t'.cohorts[cohort] ==
      t.cohorts[cohort].(reserved := t.cohorts[cohort].reserved + 1, version := t.cohorts[cohort].version + 1)
  }

  /** The seat of `id` is given back and the enrollment cancelled. */
  ghost predicate GivesSeat(t: Tables, t': Tables, id: string)
  {
    && id in t.enrollments && var e := t.enrollments[id];
    && OnlyChanges(t, t', id, e.cohort) && t'.enrollments[id] == e.(status := Cancelled, seat := false)
    && t'.cohorts[e.cohort] ==
      t.cohorts[e.cohort].(reserved := t.cohorts[e.cohort].reserved - 1, version := t.cohorts[e.cohort].version + 1)
  }

  /** The learner has no enrollment in the cohort. */
  predicate Stranger(t: Tables, cohort: string, learner: string)
  {
    forall id <- t.enrollments :: !Belongs(t.enrollments, id, cohort, learner)
  }

  predicate Room(t: Tables, cohort: string)
  {
    cohort in t.cohorts && t.cohorts[cohort].open && t.cohorts[cohort].reserved < t.cohorts[cohort].capacity
  }

  lemma FoundIsMine(t: Tables, cohort: string, learner: string, id: string)
    requires OnePerLearner(t.enrollments) && Belongs(t.enrollments, id, cohort, learner)
    ensures Find(t.enrollments, cohort, learner) == Some(id)
  {
    var found := Find(t.enrollments, cohort, learner);
    assert id in t.enrollments;
    assert found.Some? && Belongs(t.enrollments, found.value, cohort, learner);
  }

  lemma StrangerFindsNone(t: Tables, cohort: string, learner: string)
    requires Stranger(t, cohort, learner)
    ensures Find(t.enrollments, cohort, learner) == None
  {
  }

  /* ---- enrolling ---- */

  /** A manager enrolls exactly a stranger into a cohort with room, and the learner is then seated. */
  lemma EnrollOutcome(t: Tables, cohort: string, learner: string, facts: Facts)
    requires SeatsOk(t)
    ensures
      var r := EnrollStep(t, cohort, learner, facts);
      && (r.Ok? <==>
            facts.allowed && Room(t, cohort) && Stranger(t, cohort, learner) && facts.id !in t.enrollments)
      && (r.Ok? ==>
            && TakesSeat(t, r.value.0, facts.id, cohort, learner)
            && r.value.1 == Enrolled(facts.id, Enrollment(cohort, learner, Active, true, true)))
      && (facts.allowed && cohort in t.cohorts && !Room(t, cohort) ==> r == Err(CapacityReached))
      && (facts.allowed && Room(t, cohort) && !Stranger(t, cohort, learner) ==> r == Err(Duplicate))
  {
  }

  /* ---- joining ---- */

  /** What joining asks for beyond an open offering, and what it is answered while it is not met. */
  function Hurdle(t: Tables, cohort: string, facts: Facts): Option<Result<(Tables, Response)>>
    requires cohort in t.cohorts
  {
    if facts.admission == Refused then Some(Err(AdmissionRequired))
    else if facts.admission == Pending then Some(Ok((t, AwaitingAdmission)))
    else if t.cohorts[cohort].reserved >= t.cohorts[cohort].capacity then Some(Err(CapacityReached))
    else None
  }

  /** An enrolled learner who joins: an active one is told so and nothing changes; one who left takes the
      same enrollment up again once the offering is open, admission is given and there is room. */
  lemma JoinAgainOutcome(t: Tables, cohort: string, learner: string, facts: Facts, id: string)
    requires SeatsOk(t) && Belongs(t.enrollments, id, cohort, learner) && facts.allowed
    ensures
      var r, e, open := JoinStep(t, cohort, learner, facts), t.enrollments[id], facts.offered && t.cohorts[cohort].open;
      && (e.status == Active ==> r == Ok((t, JoinedAs(Active, Some(id)))))
      && (e.status != Active && !open ==> r == Err(Unavailable))
      && (e.status != Active && open && !(e.status == Cancelled && e.domain && !e.seat) ==> r == Err(Transition))
      && (e.status == Cancelled && e.domain && !e.seat && open ==>
            if Hurdle(t, cohort, facts).Some? then r == Hurdle(t, cohort, facts).value
            else r.Ok? && TakesSeat(t, r.value.0, id, cohort, learner) && r.value.1 == JoinedAs(Active, Some(id)))
  {
    FoundIsMine(t, cohort, learner, id);
  }

  /** A stranger who joins is seated under a new enrollment, under the same conditions. */
  lemma JoinNewOutcome(t: Tables, cohort: string, learner: string, facts: Facts)
    requires SeatsOk(t) && Stranger(t, cohort, learner) && facts.allowed && cohort in t.cohorts
    ensures
      var r, open := JoinStep(t, cohort, learner, facts), facts.offered && t.cohorts[cohort].open;
      && (!open ==> r == Err(Unavailable))
      && (open && Hurdle(t, cohort, facts).Some? ==> r == Hurdle(t, cohort, facts).value)
      && (open && Hurdle(t, cohort, facts).None? ==>
            if facts.id in t.enrollments then r == Err(Duplicate)
            else r.Ok? && TakesSeat(t, r.value.0, facts.id, cohort, learner)
                 && r.value.1 == JoinedAs(Active, Some(facts.id)))
  {
    StrangerFindsNone(t, cohort, learner);
  }

  /* ---- leaving ---- */

  /** Leaving gives back an active learner's seat, tells one who already left so, and is refused in any other
      state. A stranger has nothing to leave. */
  lemma LeaveOutcome(t: Tables, cohort: string, learner: string, facts: Facts, id: string)
    requires SeatsOk(t) && facts.allowed && cohort in t.cohorts
    ensures
      var r := LeaveStep(t, cohort, learner, facts);
      && (Stranger(t, cohort, learner) ==> r == Ok((t, JoinedAs(Cancelled, None))))
      && (Belongs(t.enrollments, id, cohort, learner) ==>
            && var e := t.enrollments[id];
            && (e.status == Cancelled ==> r == Ok((t, JoinedAs(Cancelled, Some(id)))))
            && (e.status == Active && e.seat && e.domain ==>
                  r.Ok? && GivesSeat(t, r.value.0, id) && r.value.1 == JoinedAs(Cancelled, Some(id)))
            && (e.status != Cancelled && !(e.status == Active && e.seat && e.domain) ==> r == Err(Transition)))
  {
    if Belongs(t.enrollments, id, cohort, learner) {
      FoundIsMine(t, cohort, learner, id);
      VacateGives(t, id);
      if t.enrollments[id].seat { VacateKeeps(t, id); }
    }
    if Stranger(t, cohort, learner) { StrangerFindsNone(t, cohort, learner); }
  }

  /** Leaving and joining again, with the offering open and admission given, is back at the same
      enrollments and seats: nobody else can have lost one, and only the cohort's version moved by two. */
  lemma LeaveThenJoin(t: Tables, cohort: string, learner: string, leaving: Facts, joining: Facts, id: string)
    requires SeatsOk(t) && Belongs(t.enrollments, id, cohort, learner) && leaving.allowed && joining.allowed
    requires t.enrollments[id] == Enrollment(cohort, learner, Active, true, true)
    requires joining.offered && t.cohorts[cohort].open && joining.admission == Admitted
    ensures
      var left := LeaveStep(t, cohort, learner, leaving);
      && left.Ok?
      && var back := JoinStep(left.value.0, cohort, learner, joining);
      && back.Ok? && back.value.1 == JoinedAs(Active, Some(id)) && back.value.0.enrollments == t.enrollments
      && back.value.0.cohorts ==
        t.cohorts[cohort := t.cohorts[cohort].(version := t.cohorts[cohort].version + 2)]
  {
    LeaveOutcome(t, cohort, learner, leaving, id);
    var t1 := LeaveStep(t, cohort, learner, leaving).value.0;
    LeaveKeeps(t, cohort, learner, leaving);
    assert CohortOk(t, cohort);
    JoinAgainOutcome(t1, cohort, learner, joining, id);
    var t2 := JoinStep(t1, cohort, learner, joining).value.0;
    BackAgain(t, t1, t2, id, cohort, learner);
  }

  lemma BackAgain(t: Tables, t1: Tables, t2: Tables, id: string, cohort: string, learner: string)
    requires GivesSeat(t, t1, id) && TakesSeat(t1, t2, id, cohort, learner)
    requires t.enrollments[id] == Enrollment(cohort, learner, Active, true, true)
    ensures t2.enrollments == t.enrollments
    ensures t2.cohorts == t.cohorts[cohort := t.cohorts[cohort].(version := t.cohorts[cohort].version + 2)]
  {
  }

  /* ---- the other mutations ---- */

  /** A first migration is made exactly of an active, seated enrollment, by someone allowed, into a cohort of
      another version that has room and does not know the learner. */
  lemma MigrateIff(t: Tables, source: string, target: string, facts: Facts)
    requires SeatsOk(t) && source !in t.migrations
    ensures Migrate(t, source, target, facts).Ok? <==>
      && facts.allowed && source in t.enrollments && Room(t, target)
      && var e := t.enrollments[source];
      && e.status == Active && e.seat && e.domain
      && t.cohorts[target].formationVersion != t.cohorts[e.cohort].formationVersion
      && facts.id !in t.enrollments && Stranger(t, target, e.learner)
  {
  }

  lemma SeatTakes(t: Tables, id: string, cohort: string, learner: string)
    requires cohort in t.cohorts
    ensures TakesSeat(t, Seat(t, id, Enrollment(cohort, learner, Active, true, true)), id, cohort, learner)
  {
  }

  lemma VacateGives(t: Tables, id: string)
    requires id in t.enrollments && t.enrollments[id].cohort in t.cohorts
    ensures GivesSeat(t, Vacate(t, id), id)
  {
  }

  /** It seats the learner in the target and then cancels the source; it is remembered. */
  lemma MigrateMoves(t: Tables, source: string, target: string, facts: Facts) returns (between: Tables)
    requires SeatsOk(t) && source !in t.migrations && Migrate(t, source, target, facts).Ok?
    ensures source in t.enrollments
    ensures TakesSeat(t, between, facts.id, target, t.enrollments[source].learner)
    ensures
      var t' := Migrate(t, source, target, facts).value;
      GivesSeat(between, t'.(migrations := t.migrations), source) && t'.migrations == t.migrations[source := facts.id]
  {
    MigrateShape(t, source, target, facts);
    var learner := t.enrollments[source].learner;
    between := Seat(t, facts.id, Enrollment(target, learner, Active, true, true));
    SeatTakes(t, facts.id, target, learner);
    VacateGives(between, source);
    var t' := Migrate(t, source, target, facts).value;
    assert t'.(migrations := t.migrations) == Vacate(between, source);
  }

  /** A migration made before is answered by its cohort and changes nothing. */
  lemma MigratedAgain(t: Tables, source: string, target: string, facts: Facts)
    requires source in t.migrations
    ensures
      var r, moved := Migrate(t, source, target, facts), t.migrations[source];
      && (r.Ok? ==> r.value == t)
      && (r.Ok? <==>
            && facts.allowed && source in t.enrollments && target in t.cohorts
            && moved in t.enrollments && t.enrollments[moved].cohort == target)
  {
  }

  /** Erasure cancels every enrollment of the learner, leaves everyone else's alone, and takes from each
      cohort the seats the learner held there, one version later if there were any. */
  lemma EraseOutcome(t: Tables, learner: string)
    requires SeatsOk(t)
    ensures Erase(t, learner).Ok?
    ensures
      var t' := Erase(t, learner).value;
      && t'.enrollments.Keys == t.enrollments.Keys && t'.cohorts.Keys == t.cohorts.Keys
      && t'.migrations == t.migrations
      && (forall id <- t.enrollments :: t'.enrollments[id] ==
            if t.enrollments[id].learner == learner then t.enrollments[id].(status := Cancelled, seat := false)
            else t.enrollments[id])
      && (forall c <- t.cohorts ::
            && var held := |HeldBy(t.enrollments, c, learner)|;
            t'.cohorts[c] == if held == 0 then t.cohorts[c]
                             else t.cohorts[c].(reserved := t.cohorts[c].reserved - held,
                                                version := t.cohorts[c].version + 1))
  {
    EraseConsistent(t, learner);
  }

  /** A cohort is created exactly by a manager, under a new id, with a name and at least one seat; it is open
      and empty. */
  lemma CreateOutcome(t: Tables, version: string, name: string, capacity: int, actor: string, facts: Facts)
    ensures
      var r := Mutate(t, CreateCohort(version, name, capacity), actor, facts);
      && (r.Ok? <==> facts.allowed && name != "" && capacity >= 1 && facts.id !in t.cohorts)
      && (r.Ok? ==>
            && var made := Cohort(version, capacity, 0, true, 1);
            && r.value.1 == CohortCreated(facts.id, made) && r.value.0.cohorts == t.cohorts[facts.id := made]
            && r.value.0.enrollments == t.enrollments && r.value.0.migrations == t.migrations)
  {
  }

  /** Publishing an offering is refused exactly while it exists closed; otherwise it is open afterwards, an
      existing one untouched and a new one empty, the other retired offerings are closed one version later,
      and nobody's enrollment changes. */
  lemma OfferOutcome(t: Tables, id: string, version: string, retired: set<string>)
    ensures
      var r := Offer(t, id, version, retired);
      && (r.Err? <==> id in t.cohorts && !t.cohorts[id].open)
      && (r.Ok? ==>
            && var t' := r.value;
            && t'.enrollments == t.enrollments && t'.migrations == t.migrations
            && t'.cohorts.Keys == t.cohorts.Keys + {id}
            && t'.cohorts[id] == (if id in t.cohorts then t.cohorts[id] else Cohort(version, 1_000_000, 0, true, 1))
            && (forall c <- t.cohorts | c != id && c !in retired :: t'.cohorts[c] == t.cohorts[c])
            && (forall c <- t.cohorts | c != id && c in retired ::
                  t'.cohorts[c] == t.cohorts[c].(open := false, version := t.cohorts[c].version + 1)))
  {
  }

  /** A provisioned cohort of one is new, full, and open and active for a domain, closed and completed for
      recovered evidence; nothing else changes. */
  lemma ProvisionOutcome(t: Tables, cohort: string, id: string, version: string, learner: string, legacy: bool)
    ensures
      var r := Provision(t, cohort, id, version, learner, legacy);
      && (r.Ok? <==> cohort !in t.cohorts && id !in t.enrollments)
      && (r.Ok? && !legacy ==>
            && r.value.cohorts == t.cohorts[cohort := Cohort(version, 1, 1, true, 1)]
            && r.value.enrollments == t.enrollments[id := Enrollment(cohort, learner, Active, true, true)])
      && (r.Ok? && legacy ==>
            && r.value.cohorts == t.cohorts[cohort := Cohort(version, 1, 1, false, 1)]
            && r.value.enrollments == t.enrollments[id := Enrollment(cohort, learner, Completed, true, false)])
      && (r.Ok? ==> r.value.migrations == t.migrations)
  {
  }

  /** How a call begins: refused at once for a key that is empty or longer than 128; answered at once with the
      response of its own earlier request; set to look again under a key of another request or actor; and
      otherwise ready for its transaction. Nothing else changes. */
  lemma BeginAnswers(s: Sys, id: nat, key: string, request: Request, actor: string)
    requires id !in s.calls
    ensures
      var s' := Next(s, Begin(id, key, request, actor));
      && s' == s.(calls := s'.calls) && id in s'.calls
      && var phase := s'.calls[id].phase;
      && (key == "" || |key| > 128 ==> phase == Finished(Failure(BadKey)))
      && (1 <= |key| <= 128 && key !in s.receipts ==> phase == Loaded)
      && (1 <= |key| <= 128 && key in s.receipts ==>
            && var r := s.receipts[key];
            if r.request == request && r.actor == actor then phase == Finished(Success(r.response, true))
            else phase == Recovering(KeyConflict))
  {
  }

  /** A call has been answered. */
  predicate AnsweredCall(s: Sys, id: nat) { id in s.calls && s.calls[id].phase.Finished? }

  /** A call is answered with a failure only for a key that is empty or longer than 128, or after it looked
      for a receipt once more: its key then has none, or one of another request or actor, and the error is
      the one that its transaction or its first look ended with. */
  lemma FailsOnlyAfterLookingAgain(s: Sys, e: Event, id: nat)
    requires !AnsweredCall(s, id) && AnsweredCall(Next(s, e), id) && Next(s, e).calls[id].phase.answer.Failure?
    ensures
      var call := Next(s, e).calls[id];
      if call.key == "" || |call.key| > 128 then call.phase.answer.error == BadKey || e == Recover(id)
      else
        && e == Recover(id) && id in s.calls && s.calls[id].phase == Recovering(call.phase.answer.error)
        && (call.key !in s.receipts
            || s.receipts[call.key].request != call.request || s.receipts[call.key].actor != call.actor)
  {
  }

  /** An unanswered call whose transaction fails, for whatever reason, is left to look again. */
  lemma LosersLookAgain(s: Sys, id: nat, facts: Facts, lost: bool)
    requires id in s.calls && s.calls[id].phase == Loaded
    ensures
      var call, s' := s.calls[id], Next(s, Commit(id, facts, lost));
      var done := Mutate(s.tables, call.request, call.actor, facts);
      && (done.Err? ==> s'.calls[id].phase == Recovering(done.error) && s'.tables == s.tables)
      && (done.Ok? && call.key in s.receipts ==> s'.calls[id].phase == Recovering(Duplicate) && s'.tables == s.tables)
      && (done.Ok? && call.key !in s.receipts ==> s'.tables == done.value.0)
  {
  }
}
