/** Seats of cohorts and the idempotent mutations that move them, for one tenant. */
module Catalog {
  import opened Options

  datatype Result<+T> = Ok(value: T) | Err(error: Error)

  datatype Error =
    | NotAllowed | BadKey | KeyConflict | BadCohort | NotFound | CapacityReached | Duplicate | Unavailable
    | Transition | AdmissionRequired | Interrupted

  datatype Status = Invited | Active | Completed | Suspended | Cancelled

  datatype Cohort = Cohort(formationVersion: string, capacity: int, reserved: int, open: bool, version: int)

  datatype Enrollment = Enrollment(cohort: string, learner: string, status: Status, seat: bool, domain: bool)

  datatype Tables = Tables(cohorts: map<string, Cohort>, enrollments: map<string, Enrollment>,
                           migrations: map<string, string>)

  datatype Admission = Admitted | Pending | Refused

  /** What a mutation finds outside these tables: authorization and membership, whether the offering
      is open to the learner, the admission its policy gives, and the identifier it generates. */
  datatype Facts = Facts(allowed: bool, offered: bool, admission: Admission, id: string)

  datatype Request =
    | CreateCohort(formationVersion: string, name: string, capacity: int)
    | Enroll(cohort: string, learner: string, objectives: string)
    | Join(cohort: string)
    | Leave(cohort: string)

  datatype Response =
    | CohortCreated(id: string, created: Cohort)
    | Enrolled(id: string, enrollment: Enrollment)
    | JoinedAs(status: Status, joined: Option<string>)
    | AwaitingAdmission

  /* ---- single mutations ---- */

  predicate Belongs(enrollments: map<string, Enrollment>, id: string, cohort: string, learner: string)
  {
    id in enrollments && enrollments[id].cohort == cohort && enrollments[id].learner == learner
  }

  ghost function Find(enrollments: map<string, Enrollment>, cohort: string, learner: string): (r: Option<string>)
    ensures r.Some? ==> Belongs(enrollments, r.value, cohort, learner)
    ensures r.None? ==> forall id <- enrollments :: !Belongs(enrollments, id, cohort, learner)
  {
    if exists id <- enrollments :: Belongs(enrollments, id, cohort, learner)
    then var id :| id in enrollments && Belongs(enrollments, id, cohort, learner); Some(id)
    else None
  }

  predicate HasRoom(cohorts: map<string, Cohort>, cohort: string)
  {
    cohort in cohorts && cohorts[cohort].open && cohorts[cohort].reserved < cohorts[cohort].capacity
  }

  function Shift(cohorts: map<string, Cohort>, cohort: string, seats: int): map<string, Cohort>
    requires cohort in cohorts
  {
    cohorts[cohort := cohorts[cohort].(reserved := cohorts[cohort].reserved + seats,
      version := cohorts[cohort].version + 1)]
  }

  /** Take a seat for this row, new or returning. */
  function Seat(t: Tables, id: string, row: Enrollment): Tables
    requires row.cohort in t.cohorts
  {
    t.(cohorts := Shift(t.cohorts, row.cohort, 1), enrollments := t.enrollments[id := row])
  }

  function Vacate(t: Tables, id: string): Tables
    requires id in t.enrollments && t.enrollments[id].cohort in t.cohorts
  {
    t.(cohorts := Shift(t.cohorts, t.enrollments[id].cohort, -1),
       enrollments := t.enrollments[id := t.enrollments[id].(status := Cancelled, seat := false)])
  }

  ghost function EnrollStep(t: Tables, cohort: string, learner: string, facts: Facts): Result<(Tables, Response)>
  {
    var row := Enrollment(cohort, learner, Active, true, true);
    if !facts.allowed then Err(NotAllowed)
    else if cohort !in t.cohorts then Err(NotFound)
    else if !HasRoom(t.cohorts, cohort) then Err(CapacityReached)
    else if facts.id in t.enrollments || Find(t.enrollments, cohort, learner).Some? then Err(Duplicate)
    else Ok((Seat(t, facts.id, row), Enrolled(facts.id, row)))
  }

  /** A left enrollment that may be taken up again. */
  predicate MayReturn(e: Enrollment)
  {
    e.status == Cancelled && e.domain && !e.seat
  }

  ghost function JoinStep(t: Tables, cohort: string, learner: string, facts: Facts): Result<(Tables, Response)>
  {
    var found := Find(t.enrollments, cohort, learner);
    if !facts.allowed then Err(NotAllowed)
    else if cohort !in t.cohorts then Err(NotFound)
    else if found.Some? && t.enrollments[found.value].status == Active then Ok((t, JoinedAs(Active, found)))
    else if !facts.offered || !t.cohorts[cohort].open then Err(Unavailable)
    else if found.Some? && !MayReturn(t.enrollments[found.value]) then Err(Transition)
    else if facts.admission == Refused then Err(AdmissionRequired)
    else if facts.admission == Pending then Ok((t, AwaitingAdmission))
    else if !HasRoom(t.cohorts, cohort) then Err(CapacityReached)
    else if found.Some? then
      Ok((Seat(t, found.value, t.enrollments[found.value].(status := Active, seat := true)), JoinedAs(Active, found)))
    else if facts.id in t.enrollments then Err(Duplicate)
    else Ok((Seat(t, facts.id, Enrollment(cohort, learner, Active, true, true)), JoinedAs(Active, Some(facts.id))))
  }

  ghost function LeaveStep(t: Tables, cohort: string, learner: string, facts: Facts): Result<(Tables, Response)>
  {
    var found := Find(t.enrollments, cohort, learner);
    if !facts.allowed then Err(NotAllowed)
    else if cohort !in t.cohorts then Err(NotFound)
    else if found.None? || t.enrollments[found.value].status == Cancelled then Ok((t, JoinedAs(Cancelled, found)))
    else if var e := t.enrollments[found.value]; e.status != Active || !e.seat || !e.domain then Err(Transition)
    else if t.cohorts[cohort].reserved <= 0 then Err(Transition)
    else Ok((Vacate(t, found.value), JoinedAs(Cancelled, found)))
  }

  ghost function Mutate(t: Tables, request: Request, actor: string, facts: Facts): Result<(Tables, Response)>
  {
    match request
    case CreateCohort(version, name, capacity) =>
      var cohort := Cohort(version, capacity, 0, true, 1);
      if !facts.allowed || name == "" || capacity < 1 || facts.id in t.cohorts then Err(BadCohort)
      else Ok((t.(cohorts := t.cohorts[facts.id := cohort]), CohortCreated(facts.id, cohort)))
    case Enroll(cohort, learner, _) => EnrollStep(t, cohort, learner, facts)
    case Join(cohort) => JoinStep(t, cohort, actor, facts)
    case Leave(cohort) => LeaveStep(t, cohort, actor, facts)
  }

  /** Move an active enrollment to a cohort on another version; the old seat is released. */
  ghost function Migrate(t: Tables, source: string, target: string, facts: Facts): Result<Tables>
  {
    if !facts.allowed || source !in t.enrollments || target !in t.cohorts then Err(NotFound)
    else if source in t.migrations then
      var moved := t.migrations[source];
      if moved in t.enrollments && t.enrollments[moved].cohort == target then Ok(t) else Err(Duplicate)
    else
      var e := t.enrollments[source];
      if e.status != Active || !e.seat || !e.domain || e.cohort !in t.cohorts then Err(Transition)
      else if t.cohorts[target].formationVersion == t.cohorts[e.cohort].formationVersion then Err(Transition)
      else if !HasRoom(t.cohorts, target) then Err(CapacityReached)
      else if facts.id in t.enrollments || Find(t.enrollments, target, e.learner).Some? then Err(Duplicate)
      else
        var moved := Seat(t, facts.id, Enrollment(target, e.learner, Active, true, true));
        var released := Vacate(moved, source);
        Ok((if t.cohorts[e.cohort].reserved > 0 then released
          else released.(cohorts := moved.cohorts)).(migrations := t.migrations[source := facts.id]))
  }

  /** Enrollments of a learner that hold a seat of the cohort. */
  function HeldBy(enrollments: map<string, Enrollment>, cohort: string, learner: string): set<string>
  {
    set id <- enrollments | enrollments[id].cohort == cohort && enrollments[id].seat
      && enrollments[id].learner == learner
  }

  function Released(t: Tables, learner: string, cohort: string): Cohort
    requires cohort in t.cohorts
  {
    var n := |HeldBy(t.enrollments, cohort, learner)|;
    var c := t.cohorts[cohort];
    if n == 0 then c else c.(reserved := c.reserved - n, version := c.version + 1)
  }

  function Emptied(enrollments: map<string, Enrollment>, learner: string): map<string, Enrollment>
  {
    map id <- enrollments :: if enrollments[id].learner ==
      learner then enrollments[id].(status := Cancelled, seat := false) else enrollments[id]
  }

  function EraseAll(t: Tables, learner: string): Tables
  {
    t.(cohorts := map c <- t.cohorts :: Released(t, learner, c), enrollments := Emptied(t.enrollments, learner))
  }

  predicate Consistent(t: Tables, learner: string)
  {
    forall c <- t.cohorts :: t.cohorts[c].reserved >= |HeldBy(t.enrollments, c, learner)|
  }

  /** Erasure cancels every enrollment of the learner and releases exactly the seats they held. */
  function Erase(t: Tables, learner: string): Result<Tables>
  {
    if Consistent(t, learner) then Ok(EraseAll(t, learner)) else Err(Transition)
  }

  const OFFERING_CAPACITY: int := 1_000_000

  /** Open the automatic offering of a version, unless it is open already, and close the retired ones. */
  function Offer(t: Tables, id: string, version: string, retired: set<string>): Result<Tables>
  {
    if id in t.cohorts && !t.cohorts[id].open then Err(Unavailable)
    else
      var closed := map c <- t.cohorts ::
        if c in retired && c != id then t.cohorts[c].(open := false, version := t.cohorts[c].version + 1)
          else t.cohorts[c];
      Ok(t.(cohorts := if id in closed then closed else closed[id := Cohort(version, OFFERING_CAPACITY, 0, true, 1)]))
  }

  /** A cohort of one with its learner already seated, for a domain or for recovered evidence. */
  function Provision(t: Tables, cohort: string, id: string, version: string, learner: string,
                     legacy: bool): Result<Tables>
  {
    if cohort in t.cohorts || id in t.enrollments then Err(Duplicate)
    else Ok(t.(cohorts := t.cohorts[cohort := Cohort(version, 1, 1, !legacy, 1)],
               enrollments := t.enrollments[id := Enrollment(cohort, learner, if legacy then Completed
                 else Active, true, !legacy)]))
  }

  /* ---- seats ---- */

  function Holders(enrollments: map<string, Enrollment>, cohort: string): set<string>
  {
    set id <- enrollments | enrollments[id].cohort == cohort && enrollments[id].seat
  }

  predicate CohortOk(t: Tables, c: string)
    requires c in t.cohorts
  {
    t.cohorts[c].reserved == |Holders(t.enrollments, c)| <= t.cohorts[c].capacity
  }

  predicate OnePerLearner(enrollments: map<string, Enrollment>)
  {
    forall a <- enrollments, b <- enrollments ::
      enrollments[a].cohort == enrollments[b].cohort && enrollments[a].learner == enrollments[b].learner ==> a == b
  }

  /** Reserved seats equal the seat-holding enrollments and never exceed capacity. */
  predicate SeatsOk(t: Tables)
  {
    && (forall c <- t.cohorts :: CohortOk(t, c))
    && (forall id <- t.enrollments :: t.enrollments[id].cohort in t.cohorts)
    && OnePerLearner(t.enrollments)
  }

  lemma HoldersAfter(enrollments: map<string, Enrollment>, id: string, row: Enrollment, c: string)
    requires id in enrollments ==> enrollments[id].cohort == row.cohort
    ensures
      var now := Holders(enrollments[id := row], c);
      now == if row.cohort != c then Holders(enrollments, c)
             else if row.seat then Holders(enrollments, c) + {id} else Holders(enrollments, c) - {id}
  {
  }

  lemma SeatKeeps(t: Tables, id: string, row: Enrollment)
    requires SeatsOk(t) && HasRoom(t.cohorts, row.cohort) && row.seat
    requires id in t.enrollments ==> Belongs(t.enrollments, id, row.cohort, row.learner) && !t.enrollments[id].seat
    requires id !in t.enrollments ==> forall k <- t.enrollments :: !Belongs(t.enrollments, k, row.cohort, row.learner)
    ensures SeatsOk(Seat(t, id, row))
  {
    var t' := Seat(t, id, row);
    forall c <- t'.cohorts ensures CohortOk(t', c) {
      HoldersAfter(t.enrollments, id, row, c);
      assert CohortOk(t, c);
    }
    OnePerLearnerAfter(t.enrollments, id, row);
  }

  lemma OnePerLearnerAfter(enrollments: map<string, Enrollment>, id: string, row: Enrollment)
    requires OnePerLearner(enrollments)
    requires id in enrollments ==> Belongs(enrollments, id, row.cohort, row.learner)
    requires id !in enrollments ==> forall k <- enrollments :: !Belongs(enrollments, k, row.cohort, row.learner)
    ensures OnePerLearner(enrollments[id := row])
  {
    assert forall k <- enrollments :: k != id ==> !Belongs(enrollments, k, row.cohort, row.learner);
  }

  lemma VacateKeeps(t: Tables, id: string)
    requires SeatsOk(t) && id in t.enrollments && t.enrollments[id].seat
    ensures t.enrollments[id].cohort in t.cohorts && SeatsOk(Vacate(t, id))
    ensures t.cohorts[t.enrollments[id].cohort].reserved > 0
  {
    var row := t.enrollments[id].(status := Cancelled, seat := false);
    assert CohortOk(t, row.cohort) && id in Holders(t.enrollments, row.cohort);
    var t' := Vacate(t, id);
    forall c <- t'.cohorts ensures CohortOk(t', c) {
      HoldersAfter(t.enrollments, id, row, c);
      assert CohortOk(t, c);
    }
    OnePerLearnerAfter(t.enrollments, id, row);
  }

  lemma CreateKeeps(t: Tables, id: string, cohort: Cohort)
    requires SeatsOk(t) && id !in t.cohorts && cohort.reserved == 0 && cohort.capacity >= 1
    ensures SeatsOk(t.(cohorts := t.cohorts[id := cohort]))
  {
    var t' := t.(cohorts := t.cohorts[id := cohort]);
    forall c <- t'.cohorts ensures CohortOk(t', c) {
      if c == id { assert Holders(t.enrollments, id) == {}; } else { assert CohortOk(t, c); }
    }
  }

  lemma MutateKeeps(t: Tables, request: Request, actor: string, facts: Facts)
    requires SeatsOk(t) && Mutate(t, request, actor, facts).Ok?
    ensures SeatsOk(Mutate(t, request, actor, facts).value.0)
  {
    match request
    case CreateCohort(version, name, capacity) => CreateKeeps(t, facts.id, Cohort(version, capacity, 0, true, 1));
    case Enroll(cohort, learner, _) => SeatKeeps(t, facts.id, Enrollment(cohort, learner, Active, true, true));
    case Join(cohort) => JoinKeeps(t, cohort, actor, facts);
    case Leave(cohort) => LeaveKeeps(t, cohort, actor, facts);
  }

  lemma JoinKeeps(t: Tables, cohort: string, learner: string, facts: Facts)
    requires SeatsOk(t) && JoinStep(t, cohort, learner, facts).Ok?
    ensures SeatsOk(JoinStep(t, cohort, learner, facts).value.0)
  {
    var found := Find(t.enrollments, cohort, learner);
    if JoinStep(t, cohort, learner, facts).value.0 != t {
      if found.Some? {
        SeatKeeps(t, found.value, t.enrollments[found.value].(status := Active, seat := true));
      } else {
        SeatKeeps(t, facts.id, Enrollment(cohort, learner, Active, true, true));
      }
    }
  }

  /** The rows that gain and lose a seat are exactly these; all other cohorts keep theirs. */
  predicate SeatsMoved(before: map<string, Enrollment>, after: map<string, Enrollment>, c: string,
                       gained: set<string>, lost: set<string>)
  {
    && Holders(after, c) == Holders(before, c) - lost + gained
    && gained !! Holders(before, c) && lost <= Holders(before, c)
  }

  /** The id for its own cohort, nothing for the others. */
  function At(c: string, cohort: string, id: string): set<string> { if c == cohort then {id} else {} }

  lemma VacateHolders(t: Tables, id: string, c: string)
    requires id in t.enrollments && t.enrollments[id].cohort in t.cohorts && t.enrollments[id].seat
    ensures SeatsMoved(t.enrollments, Vacate(t, id).enrollments, c, {}, At(c, t.enrollments[id].cohort, id))
  {
    HoldersAfter(t.enrollments, id, t.enrollments[id].(status := Cancelled, seat := false), c);
  }

  lemma LeaveShape(t: Tables, cohort: string, learner: string, facts: Facts)
    requires SeatsOk(t) && LeaveStep(t, cohort, learner, facts).Ok?
    requires LeaveStep(t, cohort, learner, facts).value.0 != t
    ensures
      var found := Find(t.enrollments, cohort, learner);
      && found.Some? && Belongs(t.enrollments, found.value, cohort, learner) && t.enrollments[found.value].seat
      && cohort in t.cohorts && LeaveStep(t, cohort, learner, facts).value.0 == Vacate(t, found.value)
  {
  }

  lemma LeaveKeeps(t: Tables, cohort: string, learner: string, facts: Facts)
    requires SeatsOk(t) && LeaveStep(t, cohort, learner, facts).Ok?
    ensures SeatsOk(LeaveStep(t, cohort, learner, facts).value.0)
  {
    if LeaveStep(t, cohort, learner, facts).value.0 != t {
      LeaveShape(t, cohort, learner, facts);
      VacateKeeps(t, Find(t.enrollments, cohort, learner).value);
    }
  }

  /** Leaving changes nothing, or releases the learner's one seat of that cohort and no other. */
  lemma LeaveReleasesOne(t: Tables, cohort: string, learner: string, facts: Facts) returns (id: string)
    requires SeatsOk(t) && LeaveStep(t, cohort, learner, facts).Ok?
    requires LeaveStep(t, cohort, learner, facts).value.0 != t
    ensures Belongs(t.enrollments, id, cohort, learner)
    ensures forall c ::
      SeatsMoved(t.enrollments, LeaveStep(t, cohort, learner, facts).value.0.enrollments, c, {}, At(c, cohort, id))
  {
    LeaveShape(t, cohort, learner, facts);
    id := Find(t.enrollments, cohort, learner).value;
    forall c ensures SeatsMoved(t.enrollments, Vacate(t, id).enrollments, c, {}, At(c, cohort, id)) {
      VacateHolders(t, id, c);
    }
  }

  lemma MigrateShape(t: Tables, source: string, target: string, facts: Facts)
    requires SeatsOk(t) && Migrate(t, source, target, facts).Ok? && source !in t.migrations
    ensures source in t.enrollments && t.enrollments[source].seat && t.enrollments[source].cohort != target
    ensures facts.id !in t.enrollments && target in t.cohorts
    ensures
      var moved := Seat(t, facts.id, Enrollment(target, t.enrollments[source].learner, Active, true, true));
      && SeatsOk(moved)
      && Migrate(t, source, target, facts).value ==
        Vacate(moved, source).(migrations := t.migrations[source := facts.id])
  {
    SeatKeeps(t, facts.id, Enrollment(target, t.enrollments[source].learner, Active, true, true));
    VacateKeeps(t, source);
  }

  lemma MigrateKeeps(t: Tables, source: string, target: string, facts: Facts)
    requires SeatsOk(t) && Migrate(t, source, target, facts).Ok?
    ensures SeatsOk(Migrate(t, source, target, facts).value)
  {
    if source !in t.migrations {
      MigrateShape(t, source, target, facts);
      VacateKeeps(Seat(t, facts.id, Enrollment(target, t.enrollments[source].learner, Active, true, true)), source);
    }
  }

  lemma SeatHolders(t: Tables, id: string, row: Enrollment, c: string)
    requires row.cohort in t.cohorts && id !in t.enrollments && row.seat
    ensures SeatsMoved(t.enrollments, Seat(t, id, row).enrollments, c, At(c, row.cohort, id), {})
  {
    HoldersAfter(t.enrollments, id, row, c);
  }

  /** Seats gained first and lost afterwards. */
  lemma MovesCompose(before: map<string, Enrollment>, between: map<string, Enrollment>,
                     after: map<string, Enrollment>, c: string, gained: set<string>, lost: set<string>)
    requires SeatsMoved(before, between, c, gained, {}) && SeatsMoved(between, after, c, {}, lost) && gained !! lost
    ensures SeatsMoved(before, after, c, gained, lost)
  {
  }

  /** A migration not made before moves exactly one seat: the source's is released, a new one taken. */
  lemma MigrateMovesOne(t: Tables, source: string, target: string, facts: Facts, c: string)
    requires SeatsOk(t) && Migrate(t, source, target, facts).Ok? && source !in t.migrations
    ensures source in t.enrollments && t.enrollments[source].cohort != target
    ensures SeatsMoved(t.enrollments, Migrate(t, source, target, facts).value.enrollments, c,
                       At(c, target, facts.id), At(c, t.enrollments[source].cohort, source))
  {
    MigrateShape(t, source, target, facts);
    var row := Enrollment(target, t.enrollments[source].learner, Active, true, true);
    var moved := Seat(t, facts.id, row);
    var after := Vacate(moved, source).enrollments;
    SeatHolders(t, facts.id, row, c);
    VacateHolders(moved, source, c);
    MovesCompose(t.enrollments, moved.enrollments, after, c, At(c, target, facts.id),
                 At(c, t.enrollments[source].cohort, source));
  }

  lemma EraseCohort(t: Tables, learner: string, c: string)
    requires SeatsOk(t) && c in t.cohorts
    ensures t.cohorts[c].reserved >= |HeldBy(t.enrollments, c, learner)|
    ensures |Holders(t.enrollments, c) - HeldBy(t.enrollments, c, learner)| ==
      t.cohorts[c].reserved - |HeldBy(t.enrollments, c, learner)|
  {
    assert CohortOk(t, c);
    var all, some := Holders(t.enrollments, c), HeldBy(t.enrollments, c, learner);
    assert all == some + (all - some);
  }

  lemma EmptiedHolders(enrollments: map<string, Enrollment>, learner: string, c: string)
    ensures Holders(Emptied(enrollments, learner), c) == Holders(enrollments, c) - HeldBy(enrollments, c, learner)
  {
  }

  lemma EraseCohortOk(t: Tables, learner: string, c: string)
    requires SeatsOk(t) && c in t.cohorts
    ensures CohortOk(EraseAll(t, learner), c)
  {
    assert CohortOk(t, c);
    EraseCohort(t, learner, c);
    EmptiedHolders(t.enrollments, learner, c);
  }

  lemma EmptiedOnePerLearner(enrollments: map<string, Enrollment>, learner: string)
    requires OnePerLearner(enrollments)
    ensures OnePerLearner(Emptied(enrollments, learner))
  {
  }

  lemma EraseConsistent(t: Tables, learner: string)
    requires SeatsOk(t)
    ensures Consistent(t, learner)
  {
    forall c <- t.cohorts ensures t.cohorts[c].reserved >= |HeldBy(t.enrollments, c,
      learner)| { EraseCohort(t, learner, c); }
  }

  /** Erasure never finds inconsistent reservations. */
  lemma EraseKeeps(t: Tables, learner: string)
    requires SeatsOk(t)
    ensures Erase(t, learner).Ok? && SeatsOk(Erase(t, learner).value)
  {
    EraseConsistent(t, learner);
    forall c <- t.cohorts ensures CohortOk(EraseAll(t, learner), c) { EraseCohortOk(t, learner, c); }
    EmptiedOnePerLearner(t.enrollments, learner);
  }

  /** It releases exactly the seats the learner held. */
  lemma EraseReleasesHeld(t: Tables, learner: string, c: string)
    requires SeatsOk(t)
    ensures Erase(t, learner).Ok?
    ensures SeatsMoved(t.enrollments, Erase(t, learner).value.enrollments, c, {}, HeldBy(t.enrollments, c, learner))
  {
    EraseConsistent(t, learner);
    EmptiedHolders(t.enrollments, learner, c);
  }

  /** Closing other offerings moves no seat, and a new one starts empty. */
  lemma OfferKeeps(t: Tables, id: string, version: string, retired: set<string>)
    requires SeatsOk(t) && Offer(t, id, version, retired).Ok?
    ensures SeatsOk(Offer(t, id, version, retired).value)
  {
    var t' := Offer(t, id, version, retired).value;
    forall c <- t'.cohorts ensures CohortOk(t', c) {
      if c in t.cohorts { assert CohortOk(t, c); } else { assert Holders(t.enrollments, c) == {}; }
    }
  }

  /** A provisioned cohort is full with its one learner. */
  lemma ProvisionKeeps(t: Tables, cohort: string, id: string, version: string, learner: string, legacy: bool)
    requires SeatsOk(t) && Provision(t, cohort, id, version, learner, legacy).Ok?
    ensures SeatsOk(Provision(t, cohort, id, version, learner, legacy).value)
  {
    var t' := Provision(t, cohort, id, version, learner, legacy).value;
    var row := t'.enrollments[id];
    assert Holders(t.enrollments, cohort) == {};
    forall c <- t'.cohorts ensures CohortOk(t', c) {
      HoldersAfter(t.enrollments, id, row, c);
      if c != cohort { assert CohortOk(t, c); }
    }
    OnePerLearnerAfter(t.enrollments, id, row);
  }

  /* ---- requests, retried and interleaved ---- */

  datatype Receipt = Receipt(request: Request, actor: string, response: Response)

  datatype Answer = Success(response: Response, replayed: bool) | Failure(error: Error)

  /** A call has found no receipt, has lost its transaction, or has been answered. */
  datatype Phase = Loaded | Recovering(error: Error) | Finished(answer: Answer)

  datatype Call = Call(key: string, request: Request, actor: string, phase: Phase)

  /** What took effect, in order. */
  datatype Effect =
    | Keyed(call: nat, key: string, request: Request, actor: string, facts: Facts, response: Response)
    | Migrated(source: string, target: string, facts: Facts)
    | Erased(learner: string)
    | Offered(id: string, version: string, retired: set<string>)
    | Provisioned(cohort: string, id: string, version: string, learner: string, legacy: bool)

  datatype Sys = Sys(tables: Tables, receipts: map<string, Receipt>, calls: map<nat, Call>, log: seq<Effect>)

  datatype Event =
    | Begin(id: nat, key: string, request: Request, actor: string)
    | Commit(id: nat, facts: Facts, lost: bool)
    | Recover(id: nat)
    | DoMigrate(source: string, target: string, facts: Facts)
    | DoErase(learner: string)
    | DoOffer(cohort: string, version: string, retired: set<string>)
    | DoProvision(cohort: string, enrollment: string, version: string, learner: string, legacy: bool)

  const MAX_KEY: nat := 128

  function Load(receipts: map<string, Receipt>, call: Call): Result<Option<Response>>
  {
    if call.key !in receipts then Ok(None)
    else
      var r := receipts[call.key];
      if r.request != call.request || r.actor != call.actor then Err(KeyConflict) else Ok(Some(r.response))
  }

  function Opened(receipts: map<string, Receipt>, call: Call): Phase
  {
    if call.key == "" || |call.key| > MAX_KEY then Finished(Failure(BadKey))
    else match Load(receipts, call)
      case Err(e) => Recovering(e)
      case Ok(None) => Loaded
      case Ok(Some(response)) => Finished(Success(response, true))
  }

  function Recovered(receipts: map<string, Receipt>, call: Call, error: Error): Phase
  {
    match Load(receipts, call)
    case Ok(Some(response)) => Finished(Success(response, true))
    case _ => Finished(Failure(error))
  }

  /** The transaction of a call that found no receipt: the effect and the receipt commit together, or
      neither does. A lost commit took effect but was reported as an error. */
  ghost function Committed(s: Sys, id: nat, facts: Facts, lost: bool): Sys
    requires id in s.calls
  {
    var call := s.calls[id];
    var done := Mutate(s.tables, call.request, call.actor, facts);
    if done.Err? then s.(calls := s.calls[id := call.(phase := Recovering(done.error))])
    else if call.key in s.receipts then s.(calls := s.calls[id := call.(phase := Recovering(Duplicate))])
    else
      var (tables, response) := done.value;
      Sys(tables, s.receipts[call.key := Receipt(call.request, call.actor, response)],
          s.calls[id := call.(phase := if lost then Recovering(Interrupted) else Finished(Success(response, false)))],
          s.log + [Keyed(id, call.key, call.request, call.actor, facts, response)])
  }

  ghost function Next(s: Sys, e: Event): Sys
  {
    match e
    case Begin(id, key, request, actor) =>
      if id in s.calls then s
      else
        var call := Call(key, request, actor, Loaded);
        s.(calls := s.calls[id := call.(phase := Opened(s.receipts, call))])
    case Commit(id, facts, lost) =>
      if id !in s.calls || s.calls[id].phase != Loaded then s else Committed(s, id, facts, lost)
    case Recover(id) =>
      if id !in s.calls || !s.calls[id].phase.Recovering? then s
      else
        var call := s.calls[id];
        s.(calls := s.calls[id := call.(phase := Recovered(s.receipts, call, call.phase.error))])
    case DoMigrate(source, target, facts) => Effected(s, Migrated(source, target, facts))
    case DoErase(learner) => Effected(s, Erased(learner))
    case DoOffer(cohort, version, retired) => Effected(s, Offered(cohort, version, retired))
    case DoProvision(cohort, enrollment, version, learner, legacy) =>
      Effected(s, Provisioned(cohort, enrollment, version, learner, legacy))
  }

  /** A transaction outside the keyed requests: it takes effect and is logged, or is rolled back. */
  ghost function Effected(s: Sys, e: Effect): Sys
    requires !e.Keyed?
  {
    var done := Execute(s.tables, e);
    if done.Err? then s else s.(tables := done.value, log := s.log + [e])
  }

  ghost function Execute(t: Tables, e: Effect): Result<Tables>
  {
    match e
    case Keyed(_, _, request, actor, facts, response) =>
      var done := Mutate(t, request, actor, facts);
      if done.Err? || done.value.1 != response then Err(Duplicate) else Ok(done.value.0)
    case Migrated(source, target, facts) => Migrate(t, source, target, facts)
    case Erased(learner) => Erase(t, learner)
    case Offered(id, version, retired) => Offer(t, id, version, retired)
    case Provisioned(cohort, id, version, learner, legacy) => Provision(t, cohort, id, version, learner, legacy)
  }

  ghost predicate Run(events: seq<Event>, states: seq<Sys>)
  {
    && |states| == |events| + 1
    && states[0] == Sys(Tables(map[], map[], map[]), map[], map[], [])
    && forall i {:trigger Next(states[i], events[i])} :: 0 <= i < |events| ==>
      states[i + 1] == Next(states[i], events[i])
  }

  /** The tables after executing the logged effects one by one. */
  ghost function Replay(log: seq<Effect>): Result<Tables>
  {
    if log == [] then Ok(Tables(map[], map[], map[]))
    else
      var before, e := Replay(log[..|log| - 1]), log[|log| - 1];
      if before.Err? then before else Execute(before.value, e)
  }

  predicate ReceiptsMatch(receipts: map<string, Receipt>, log: seq<Effect>)
  {
    && (forall i :: 0 <= i < |log| && log[i].Keyed? ==>
          log[i].key in receipts && receipts[log[i].key] == Receipt(log[i].request, log[i].actor, log[i].response))
    && (forall i, j :: 0 <= i < j < |log| && log[i].Keyed? && log[j].Keyed? ==> log[i].key != log[j].key)
    && (forall k <- receipts :: Logged(log, k))
  }

  predicate Logged(log: seq<Effect>, key: string)
  {
    exists i :: 0 <= i < |log| && log[i].Keyed? && log[i].key == key
  }

  /** A successful answer is the receipt of the call's own request; a first-hand one is in the log. */
  predicate CallOk(receipts: map<string, Receipt>, log: seq<Effect>, id: nat, call: Call)
  {
    call.phase.Finished? && call.phase.answer.Success? ==>
      && call.key in receipts
      && receipts[call.key] == Receipt(call.request, call.actor, call.phase.answer.response)
      && (!call.phase.answer.replayed ==> exists i ::
        0 <= i < |log| && log[i].Keyed? && log[i].call == id && log[i].key == call.key)
  }

  predicate CallsOk(receipts: map<string, Receipt>, calls: map<nat, Call>, log: seq<Effect>)
  {
    forall id <- calls :: CallOk(receipts, log, id, calls[id])
  }

  ghost predicate Inv(s: Sys)
  {
    && SeatsOk(s.tables)
    && ReceiptsMatch(s.receipts, s.log)
    && CallsOk(s.receipts, s.calls, s.log)
    && Replay(s.log) == Ok(s.tables)
  }

  lemma CallStays(receipts: map<string, Receipt>, receipts': map<string, Receipt>, log: seq<Effect>, e: Effect,
                  id: nat, call: Call)
    requires CallOk(receipts, log, id, call) && forall k <- receipts :: k in receipts' && receipts'[k] == receipts[k]
    ensures CallOk(receipts', log + [e], id, call)
  {
    if call.phase.Finished? && call.phase.answer.Success? && !call.phase.answer.replayed {
      var i :| 0 <= i < |log| && log[i].Keyed? && log[i].call == id && log[i].key == call.key;
      assert (log + [e])[i] == log[i];
    }
  }

  lemma ReplayOne(log: seq<Effect>, e: Effect)
    ensures (log + [e])[..|log|] == log && (log + [e])[|log|] == e
  {
  }

  lemma LoggedLater(log: seq<Effect>, e: Effect, key: string)
    requires Logged(log, key) || (e.Keyed? && e.key == key)
    ensures Logged(log + [e], key)
  {
    if Logged(log, key) {
      var i :| 0 <= i < |log| && log[i].Keyed? && log[i].key == key;
      assert (log + [e])[i] == log[i];
    } else {
      assert (log + [e])[|log|] == e;
    }
  }

  lemma ReceiptsAfter(receipts: map<string, Receipt>, log: seq<Effect>, e: Effect)
    requires ReceiptsMatch(receipts, log) && (e.Keyed? ==> e.key !in receipts)
    ensures ReceiptsMatch(if e.Keyed? then receipts[e.key := Receipt(e.request, e.actor, e.response)]
      else receipts, log + [e])
  {
    var receipts' := if e.Keyed? then receipts[e.key := Receipt(e.request, e.actor, e.response)] else receipts;
    forall k <- receipts' ensures Logged(log + [e], k) {
      LoggedLater(log, e, k);
    }
  }

  lemma CommitKeeps(s: Sys, id: nat, facts: Facts, lost: bool)
    requires Inv(s) && id in s.calls && s.calls[id].phase == Loaded
    ensures Inv(Committed(s, id, facts, lost))
  {
    var call := s.calls[id];
    var s' := Committed(s, id, facts, lost);
    var done := Mutate(s.tables, call.request, call.actor, facts);
    if done.Ok? && call.key !in s.receipts {
      var e := Keyed(id, call.key, call.request, call.actor, facts, done.value.1);
      MutateKeeps(s.tables, call.request, call.actor, facts);
      ReplayOne(s.log, e);
      ReceiptsAfter(s.receipts, s.log, e);
      CallsAfter(s.receipts, s.calls, s.log, e, id, s'.calls[id]);
    }
  }

  lemma CallsAfter(receipts: map<string, Receipt>, calls: map<nat, Call>, log: seq<Effect>, e: Effect,
                   id: nat, call: Call)
    requires CallsOk(receipts, calls, log) && e.Keyed? && e.key !in receipts
    requires e.call == id && e.key == call.key && e.request == call.request && e.actor == call.actor
    requires call.phase.Finished? ==> call.phase == Finished(Success(e.response, false))
    ensures CallsOk(receipts[e.key := Receipt(e.request, e.actor, e.response)], calls[id := call], log + [e])
  {
    var receipts' := receipts[e.key := Receipt(e.request, e.actor, e.response)];
    var calls' := calls[id := call];
    forall k <- calls' ensures CallOk(receipts', log + [e], k, calls'[k]) {
      if k == id {
        assert (log + [e])[|log|] == e;
      } else {
        CallStays(receipts, receipts', log, e, k, calls[k]);
      }
    }
  }

  lemma ExecuteKeeps(t: Tables, e: Effect)
    requires SeatsOk(t) && !e.Keyed? && Execute(t, e).Ok?
    ensures SeatsOk(Execute(t, e).value)
  {
    match e
    case Migrated(source, target, facts) => MigrateKeeps(t, source, target, facts);
    case Erased(learner) => EraseKeeps(t, learner);
    case Offered(id, version, retired) => OfferKeeps(t, id, version, retired);
    case Provisioned(cohort, id, version, learner, legacy) => ProvisionKeeps(t, cohort, id, version, learner, legacy);
  }

  lemma EffectedKeeps(s: Sys, e: Effect)
    requires Inv(s) && !e.Keyed?
    ensures Inv(Effected(s, e))
  {
    if Execute(s.tables, e).Ok? {
      ExecuteKeeps(s.tables, e);
      ReplayOne(s.log, e);
      ReceiptsAfter(s.receipts, s.log, e);
      forall k <- s.calls ensures CallOk(s.receipts, s.log + [e], k, s.calls[k]) {
        CallStays(s.receipts, s.receipts, s.log, e, k, s.calls[k]);
      }
    }
  }

  lemma PhaseKeeps(s: Sys, id: nat, call: Call)
    requires Inv(s) && CallOk(s.receipts, s.log, id, call)
    ensures Inv(s.(calls := s.calls[id := call]))
  {
  }

  lemma BeginKeeps(s: Sys, id: nat, key: string, request: Request, actor: string)
    requires Inv(s)
    ensures Inv(Next(s, Begin(id, key, request, actor)))
  {
    var call := Call(key, request, actor, Loaded);
    PhaseKeeps(s, id, call.(phase := Opened(s.receipts, call)));
  }

  lemma RecoverKeeps(s: Sys, id: nat)
    requires Inv(s)
    ensures Inv(Next(s, Recover(id)))
  {
    if id in s.calls && s.calls[id].phase.Recovering? {
      var call := s.calls[id];
      PhaseKeeps(s, id, call.(phase := Recovered(s.receipts, call, call.phase.error)));
    }
  }

  lemma CommitEventKeeps(s: Sys, id: nat, facts: Facts, lost: bool)
    requires Inv(s)
    ensures Inv(Next(s, Commit(id, facts, lost)))
  {
    if id in s.calls && s.calls[id].phase == Loaded { CommitKeeps(s, id, facts, lost); }
  }

  lemma UnkeyedKeeps(s: Sys, e: Event)
    requires Inv(s) && !e.Begin? && !e.Recover? && !e.Commit?
    ensures Inv(Next(s, e))
  {
    match e
    case DoMigrate(source, target, facts) => EffectedKeeps(s, Migrated(source, target, facts));
    case DoErase(learner) => EffectedKeeps(s, Erased(learner));
    case DoOffer(cohort, version, retired) => EffectedKeeps(s, Offered(cohort, version, retired));
    case DoProvision(cohort, enrollment, version, learner, legacy) =>
      EffectedKeeps(s, Provisioned(cohort, enrollment, version, learner, legacy));
  }

  lemma NextKeeps(s: Sys, e: Event)
    requires Inv(s)
    ensures Inv(Next(s, e))
  {
    if e.Begin? {
      BeginKeeps(s, e.id, e.key, e.request, e.actor);
    } else if e.Recover? {
      RecoverKeeps(s, e.id);
    } else if e.Commit? {
      CommitEventKeeps(s, e.id, e.facts, e.lost);
    } else {
      UnkeyedKeeps(s, e);
    }
  }

  lemma {:induction false} RunKeeps(events: seq<Event>, states: seq<Sys>, n: nat)
    requires Run(events, states) && n <= |events|
    ensures Inv(states[n])
  {
    if n > 0 {
      RunKeeps(events, states, n - 1);
      NextKeeps(states[n - 1], events[n - 1]);
    }
  }

  /** On every interleaving, reserved seats equal the seat-holding enrollments and never exceed
      capacity. */
  lemma SeatsAlwaysMatch(events: seq<Event>, states: seq<Sys>, n: nat, c: string)
    requires Run(events, states) && n <= |events| && c in states[n].tables.cohorts
    ensures
      var t := states[n].tables;
      t.cohorts[c].reserved == |Holders(t.enrollments, c)| <= t.cohorts[c].capacity
  {
    RunKeeps(events, states, n);
    assert CohortOk(states[n].tables, c);
  }

  /** However often and concurrently a key is used, one request takes effect for it: the tables are
      those of executing the logged effects once each, and no key is logged twice. */
  lemma EffectOncePerKey(events: seq<Event>, states: seq<Sys>, n: nat)
    requires Run(events, states) && n <= |events|
    ensures
      var s := states[n];
      && Replay(s.log) == Ok(s.tables)
      && (forall i, j :: 0 <= i < j < |s.log| && s.log[i].Keyed? && s.log[j].Keyed? ==> s.log[i].key != s.log[j].key)
  {
    RunKeeps(events, states, n);
  }

  predicate Succeeded(s: Sys, id: nat)
  {
    id in s.calls && s.calls[id].phase.Finished? && s.calls[id].phase.answer.Success?
  }

  /** Any two successes of one key answer the same request of the same actor with the same response,
      and at most one of them executed it. */
  lemma SameKeySameAnswer(events: seq<Event>, states: seq<Sys>, n: nat, a: nat, b: nat)
    requires Run(events, states) && n <= |events|
    requires Succeeded(states[n], a) && Succeeded(states[n], b) && states[n].calls[a].key == states[n].calls[b].key
    ensures
      var x, y := states[n].calls[a], states[n].calls[b];
      && x.request == y.request && x.actor == y.actor && x.phase.answer.response == y.phase.answer.response
      && (!x.phase.answer.replayed && !y.phase.answer.replayed ==> a == b)
  {
    RunKeeps(events, states, n);
    var s := states[n];
    assert CallOk(s.receipts, s.log, a, s.calls[a]) && CallOk(s.receipts, s.log, b, s.calls[b]);
  }

  /** The effect of the same request, made by the same actor under the same key. */
  predicate Wins(e: Effect, call: Call)
  {
    e.Keyed? && e.key == call.key && e.request == call.request && e.actor == call.actor
  }

  /** On every run, a call that lost its transaction, whether to a rival or to a broken connection, is
      answered with success exactly when some effect of the same request by the same actor took hold
      under its key, and then with that effect's response. */
  lemma RecoveryReturnsWinner(events: seq<Event>, states: seq<Sys>, n: nat, id: nat)
    requires Run(events, states) && n <= |events|
    requires id in states[n].calls && states[n].calls[id].phase.Recovering?
    ensures
      var s := states[n];
      var call, after := s.calls[id], Next(s, Recover(id)).calls[id].phase;
      && after.Finished?
      && (after.answer.Success? <==> exists i :: 0 <= i < |s.log| && Wins(s.log[i], call))
      && (forall i :: 0 <= i < |s.log| && Wins(s.log[i], call) ==> after.answer == Success(s.log[i].response, true))
  {
    RunKeeps(events, states, n);
    var s := states[n];
    var call := s.calls[id];
    if call.key in s.receipts {
      assert Logged(s.log, call.key);
      var i :| 0 <= i < |s.log| && s.log[i].Keyed? && s.log[i].key == call.key;
      assert Load(s.receipts, call).Ok? ==> Wins(s.log[i], call);
    }
  }
}
