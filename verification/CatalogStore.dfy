/** The catalog transactions as they update their rows in place; a transaction that fails is rolled back. */
module CatalogStore {
  import opened Options
  import opened Catalog

  /** Those of the ids that are seats of the cohort held by the learner. */
  function HeldAmong(enrollments: map<string, Enrollment>, ids: set<string>, cohort: string,
                     learner: string): set<string>
  {
    set id <- ids | id in enrollments && enrollments[id].cohort == cohort && enrollments[id].seat
      && enrollments[id].learner == learner
  }

  /** The counts gathered from the visited rows. */
  ghost predicate Counted(enrollments: map<string, Enrollment>, ids: set<string>, learner: string,
                          counts: map<string, int>)
  {
    forall c :: CountedAt(enrollments, ids, learner, counts, c)
  }

  predicate Listed(list: seq<string>, counts: map<string, int>)
  {
    && (forall i, j :: 0 <= i < j < |list| ==> list[i] != list[j])
    && (forall i :: 0 <= i < |list| ==> list[i] in counts)
    && (forall c <- counts :: c in list)
  }

  lemma VisitOne(enrollments: map<string, Enrollment>, ids: set<string>, id: string, learner: string, c: string)
    requires id in enrollments && id !in ids
    ensures
      var e := enrollments[id];
      HeldAmong(enrollments, ids + {id}, c, learner) ==
      if e.learner == learner && e.seat && e.cohort == c then HeldAmong(enrollments, ids, c, learner) + {id}
      else HeldAmong(enrollments, ids, c, learner)
  {
  }

  function Bump(counts: map<string, int>, c: string): map<string, int>
  {
    counts[c := (if c in counts then counts[c] else 0) + 1]
  }

  /** The count of one cohort is the number of visited seats. */
  ghost predicate CountedAt(enrollments: map<string, Enrollment>, ids: set<string>, learner: string,
                            counts: map<string, int>, c: string)
  {
    var held := HeldAmong(enrollments, ids, c, learner);
    (c in counts <==> held != {}) && (c in counts ==> counts[c] == |held|)
  }

  lemma CountOneAt(enrollments: map<string, Enrollment>, ids: set<string>, id: string, learner: string,
                   counts: map<string, int>, c: string)
    requires id in enrollments && id !in ids && CountedAt(enrollments, ids, learner, counts, c)
    ensures
      var e := enrollments[id];
      CountedAt(enrollments, ids + {id}, learner, if e.learner == learner && e.seat then Bump(counts, e.cohort)
        else counts, c)
  {
    VisitOne(enrollments, ids, id, learner, c);
    assert id !in HeldAmong(enrollments, ids, c, learner);
  }

  lemma CountOne(enrollments: map<string, Enrollment>, ids: set<string>, id: string, learner: string,
                 counts: map<string, int>)
    requires id in enrollments && id !in ids && Counted(enrollments, ids, learner, counts)
    ensures
      var e := enrollments[id];
      Counted(enrollments, ids + {id}, learner, if e.learner == learner && e.seat then Bump(counts, e.cohort)
        else counts)
  {
    var e := enrollments[id];
    var counts' := if e.learner == learner && e.seat then Bump(counts, e.cohort) else counts;
    forall c ensures CountedAt(enrollments, ids + {id}, learner, counts', c) {
      assert CountedAt(enrollments, ids, learner, counts, c);
      CountOneAt(enrollments, ids, id, learner, counts, c);
    }
  }

  lemma AllVisited(enrollments: map<string, Enrollment>, cohort: string, learner: string)
    ensures HeldAmong(enrollments, enrollments.Keys, cohort, learner) == HeldBy(enrollments, cohort, learner)
  {
  }

  /** The cohorts after the seats of the first listed cohorts were released. */
  predicate ReleasedSome(t: Tables, learner: string, done: seq<string>, cohorts: map<string, Cohort>)
  {
    cohorts.Keys == t.cohorts.Keys && forall c <- cohorts ::
      cohorts[c] == if c in done then Released(t, learner, c) else t.cohorts[c]
  }

  predicate Enough(t: Tables, learner: string, c: string)
  {
    c in t.cohorts && t.cohorts[c].reserved >= |HeldBy(t.enrollments, c, learner)|
  }

  /** The listed counts are the seats the learner holds, and every listed cohort exists. */
  ghost predicate CountsOf(t: Tables, learner: string, counts: map<string, int>, list: seq<string>)
  {
    && Listed(list, counts)
    && (forall c :: c in counts <==> HeldBy(t.enrollments, c, learner) != {})
    && (forall c <- counts :: c in t.cohorts && counts[c] == |HeldBy(t.enrollments, c, learner)|)
  }

  lemma CountsFound(t: Tables, learner: string, counts: map<string, int>, list: seq<string>)
    requires forall id <- t.enrollments :: t.enrollments[id].cohort in t.cohorts
    requires Listed(list, counts) && forall c :: c in counts <==> HeldBy(t.enrollments, c, learner) != {}
    requires forall c <- counts :: counts[c] == |HeldBy(t.enrollments, c, learner)|
    ensures CountsOf(t, learner, counts, list)
  {
    forall c <- counts ensures c in t.cohorts {
      var id :| id in HeldBy(t.enrollments, c, learner);
    }
  }

  lemma CountAt(t: Tables, learner: string, counts: map<string, int>, list: seq<string>, i: nat)
    requires CountsOf(t, learner, counts, list) && i < |list|
    ensures list[i] in counts && list[i] in t.cohorts && list[i] !in list[..i]
    ensures counts[list[i]] == |HeldBy(t.enrollments, list[i], learner)| > 0
  {
    assert HeldBy(t.enrollments, list[i], learner) != {};
  }

  lemma ReleaseOne(t: Tables, learner: string, done: seq<string>, c: string, cohorts: map<string, Cohort>)
    requires ReleasedSome(t, learner, done, cohorts) && c in cohorts && c !in done
    requires |HeldBy(t.enrollments, c, learner)| > 0
    ensures
      var n := |HeldBy(t.enrollments, c, learner)|;
      ReleasedSome(t, learner, done + [c],
        cohorts[c := cohorts[c].(reserved := cohorts[c].reserved - n, version := cohorts[c].version + 1)])
  {
  }

  lemma ConsistentIff(t: Tables, learner: string, counts: map<string, int>, list: seq<string>)
    requires CountsOf(t, learner, counts, list) && forall c <- t.cohorts :: t.cohorts[c].reserved >= 0
    ensures Consistent(t, learner) <==> forall k :: 0 <= k < |list| ==> Enough(t, learner, list[k])
  {
    if forall k :: 0 <= k < |list| ==> Enough(t, learner, list[k]) {
      forall c <- t.cohorts ensures t.cohorts[c].reserved >= |HeldBy(t.enrollments, c, learner)| {
        if c in counts {
          var k :| 0 <= k < |list| && list[k] == c;
          assert Enough(t, learner, list[k]);
        }
      }
    }
  }

  lemma AllReleased(t: Tables, learner: string, counts: map<string, int>, list: seq<string>,
                    cohorts: map<string, Cohort>)
    requires CountsOf(t, learner, counts, list) && ReleasedSome(t, learner, list, cohorts)
    ensures cohorts == EraseAll(t, learner).cohorts
  {
    forall c <- t.cohorts ensures cohorts[c] == Released(t, learner, c) {
      if c !in list { assert HeldBy(t.enrollments, c, learner) == {}; }
    }
  }

  class Store {
    var cohorts: map<string, Cohort>
    var enrollments: map<string, Enrollment>
    var migrations: map<string, string>
    var receipts: map<string, Receipt>

    constructor ()
      ensures Contents() == Tables(map[], map[], map[]) && receipts == map[]
    {
      cohorts, enrollments, migrations, receipts := map[], map[], map[], map[];
    }

    function Contents(): Tables
      reads this
    {
      Tables(cohorts, enrollments, migrations)
    }

    method FindEnrollment(cohort: string, learner: string) returns (found: Option<string>)
      requires OnePerLearner(enrollments)
      ensures found == Find(enrollments, cohort, learner)
    {
      var todo := enrollments.Keys;
      while todo != {}
        invariant todo <= enrollments.Keys
        invariant forall id <- enrollments.Keys - todo :: !Belongs(enrollments, id, cohort, learner)
        decreases |todo|
      {
        var id :| id in todo;
        if enrollments[id].cohort == cohort && enrollments[id].learner == learner {
          assert Belongs(enrollments, id, cohort, learner);
          return Some(id);
        }
        todo := todo - {id};
      }
      assert enrollments.Keys - todo == enrollments.Keys;
      return None;
    }

    /** The guarded counter update; false when no row qualified. */
    method ReserveSeat(cohort: string) returns (ok: bool)
      modifies this`cohorts
      ensures ok == HasRoom(old(cohorts), cohort)
      ensures cohorts == if ok then Shift(old(cohorts), cohort, 1) else old(cohorts)
    {
      ok := cohort in cohorts && cohorts[cohort].open && cohorts[cohort].reserved < cohorts[cohort].capacity;
      if ok {
        var c := cohorts[cohort];
        cohorts := cohorts[cohort := c.(reserved := c.reserved + 1, version := c.version + 1)];
      }
    }

    method InsertCohort(formationVersion: string, name: string, capacity: int,
                        facts: Facts) returns (r: Result<Response>)
      modifies this`cohorts
      ensures
        var spec := Mutate(old(Contents()), CreateCohort(formationVersion, name, capacity), "", facts);
        if spec.Ok? then r == Ok(spec.value.1) && Contents() == spec.value.0
          else r == Err(spec.error) && Contents() == old(Contents())
    {
      if !facts.allowed || name == "" || capacity < 1 || facts.id in cohorts { return Err(BadCohort); }
      var cohort := Cohort(formationVersion, capacity, 0, true, 1);
      cohorts := cohorts[facts.id := cohort];
      return Ok(CohortCreated(facts.id, cohort));
    }

    method EnrollMembership(cohort: string, learner: string, facts: Facts) returns (r: Result<Response>)
      requires SeatsOk(Contents())
      modifies this`cohorts, this`enrollments
      ensures
        var spec := EnrollStep(old(Contents()), cohort, learner, facts);
        if spec.Ok? then r == Ok(spec.value.1) && Contents() == spec.value.0
          else r == Err(spec.error) && Contents() == old(Contents())
    {
      if !facts.allowed { return Err(NotAllowed); }
      if cohort !in cohorts { return Err(NotFound); }
      var before := cohorts;
      var taken := FindEnrollment(cohort, learner);
      var ok := ReserveSeat(cohort);
      if !ok { return Err(CapacityReached); }
      if facts.id in enrollments || taken.Some? {
        cohorts := before;
        return Err(Duplicate);
      }
      var row := Enrollment(cohort, learner, Active, true, true);
      enrollments := enrollments[facts.id := row];
      return Ok(Enrolled(facts.id, row));
    }

    method JoinFormation(cohort: string, learner: string, facts: Facts) returns (r: Result<Response>)
      requires SeatsOk(Contents())
      modifies this`cohorts, this`enrollments
      ensures
        var spec := JoinStep(old(Contents()), cohort, learner, facts);
        if spec.Ok? then r == Ok(spec.value.1) && Contents() == spec.value.0
          else r == Err(spec.error) && Contents() == old(Contents())
    {
      if !facts.allowed { return Err(NotAllowed); }
      if cohort !in cohorts { return Err(NotFound); }
      var found := FindEnrollment(cohort, learner);
      if found.Some? && enrollments[found.value].status == Active { return Ok(JoinedAs(Active, found)); }
      if !facts.offered || !cohorts[cohort].open { return Err(Unavailable); }
      if found.Some? {
        var e := enrollments[found.value];
        if e.status != Cancelled || !e.domain || e.seat { return Err(Transition); }
      }
      if facts.admission == Refused { return Err(AdmissionRequired); }
      if facts.admission == Pending { return Ok(AwaitingAdmission); }
      var before := cohorts;
      var ok := ReserveSeat(cohort);
      if !ok { return Err(CapacityReached); }
      if found.Some? {
        enrollments := enrollments[found.value := enrollments[found.value].(status := Active, seat := true)];
        return Ok(JoinedAs(Active, found));
      }
      if facts.id in enrollments {
        cohorts := before;
        return Err(Duplicate);
      }
      enrollments := enrollments[facts.id := Enrollment(cohort, learner, Active, true, true)];
      return Ok(JoinedAs(Active, Some(facts.id)));
    }

    method LeaveFormation(cohort: string, learner: string, facts: Facts) returns (r: Result<Response>)
      requires SeatsOk(Contents())
      modifies this`cohorts, this`enrollments
      ensures
        var spec := LeaveStep(old(Contents()), cohort, learner, facts);
        if spec.Ok? then r == Ok(spec.value.1) && Contents() == spec.value.0
          else r == Err(spec.error) && Contents() == old(Contents())
    {
      if !facts.allowed { return Err(NotAllowed); }
      if cohort !in cohorts { return Err(NotFound); }
      var found := FindEnrollment(cohort, learner);
      if found.None? || enrollments[found.value].status == Cancelled { return Ok(JoinedAs(Cancelled, found)); }
      var e := enrollments[found.value];
      if e.status != Active || !e.seat || !e.domain { return Err(Transition); }
      if cohorts[cohort].reserved <= 0 { return Err(Transition); }
      enrollments := enrollments[found.value := e.(status := Cancelled, seat := false)];
      var c := cohorts[cohort];
      cohorts := cohorts[cohort := c.(reserved := c.reserved - 1, version := c.version + 1)];
      return Ok(JoinedAs(Cancelled, found));
    }

    /** Counts the seats the learner holds, cohort by cohort. */
    method CountHeld(learner: string) returns (counts: map<string, int>, list: seq<string>)
      ensures Listed(list, counts)
      ensures forall c :: c in counts <==> HeldBy(enrollments, c, learner) != {}
      ensures forall c <- counts :: counts[c] == |HeldBy(enrollments, c, learner)|
    {
      counts, list := map[], [];
      var todo, seen: set<string> := enrollments.Keys, {};
      while todo != {}
        invariant todo <= enrollments.Keys && seen == enrollments.Keys - todo
        invariant Counted(enrollments, seen, learner, counts) && Listed(list, counts)
        decreases |todo|
      {
        var id :| id in todo;
        var e := enrollments[id];
        CountOne(enrollments, seen, id, learner, counts);
        if e.learner == learner && e.seat {
          if e.cohort !in counts {
            list := list + [e.cohort];
          }
          counts := Bump(counts, e.cohort);
        }
        todo, seen := todo - {id}, seen + {id};
      }
      assert seen == enrollments.Keys;
      forall c ensures (c in counts <==> HeldBy(enrollments, c, learner) != {})
        && (c in counts ==> counts[c] == |HeldBy(enrollments, c, learner)|) {
        assert CountedAt(enrollments, seen, learner, counts, c);
        AllVisited(enrollments, c, learner);
      }
    }

    /** Releases the counted seats, cohort by cohort; false as soon as a counter is too small. */
    method ReleaseSeats(learner: string, counts: map<string, int>, list: seq<string>) returns (ok: bool)
      requires CountsOf(Contents(), learner, counts, list)
      modifies this`cohorts
      ensures ok == forall k :: 0 <= k < |list| ==> Enough(old(Contents()), learner, list[k])
      ensures ok ==> ReleasedSome(old(Contents()), learner, list, cohorts)
    {
      ghost var start := Contents();
      for i := 0 to |list|
        invariant ReleasedSome(start, learner, list[..i], cohorts)
        invariant forall k :: 0 <= k < i ==> Enough(start, learner, list[k])
      {
        var c := list[i];
        CountAt(start, learner, counts, list, i);
        assert cohorts[c] == start.cohorts[c];
        if cohorts[c].reserved < counts[c] {
          assert !Enough(start, learner, list[i]);
          return false;
        }
        ReleaseOne(start, learner, list[..i], c, cohorts);
        assert list[..i + 1] == list[..i] + [c];
        cohorts := cohorts[c := cohorts[c].(reserved := cohorts[c].reserved - counts[c],
          version := cohorts[c].version + 1)];
      }
      assert list[..|list|] == list;
      ok := true;
    }

    method CancelErasedEnrollments(learner: string) returns (ok: bool)
      requires forall id <- enrollments :: enrollments[id].cohort in cohorts
      requires forall c <- cohorts :: cohorts[c].reserved >= 0
      modifies this`cohorts, this`enrollments
      ensures
        var spec := Erase(old(Contents()), learner);
        ok == spec.Ok? && Contents() == if ok then spec.value else old(Contents())
    {
      var counts, list := CountHeld(learner);
      CountsFound(Contents(), learner, counts, list);
      var before := cohorts;
      ok := ReleaseSeats(learner, counts, list);
      ConsistentIff(old(Contents()), learner, counts, list);
      if !ok {
        cohorts := before;
        return;
      }
      AllReleased(old(Contents()), learner, counts, list, cohorts);
      enrollments := map id <- enrollments ::
        if enrollments[id].learner == learner then enrollments[id].(status := Cancelled, seat := false)
          else enrollments[id];
    }

    /** The read of a receipt, before the mutation and again in recovery. */
    method LoadReceipt(call: Call) returns (r: Result<Option<Response>>)
      ensures r == Load(receipts, call)
    {
      if call.key !in receipts { return Ok(None); }
      var receipt := receipts[call.key];
      if receipt.request != call.request || receipt.actor != call.actor { return Err(KeyConflict); }
      return Ok(Some(receipt.response));
    }

    /** The mutation by its operation. */
    method MutateRows(request: Request, actor: string, facts: Facts) returns (r: Result<Response>)
      requires SeatsOk(Contents())
      modifies this`cohorts, this`enrollments
      ensures
        var spec := Mutate(old(Contents()), request, actor, facts);
        if spec.Ok? then r == Ok(spec.value.1) && Contents() == spec.value.0 && SeatsOk(Contents())
        else r == Err(spec.error) && Contents() == old(Contents())
    {
      ghost var start := Contents();
      match request {
        case CreateCohort(version, name, capacity) => r := InsertCohort(version, name, capacity, facts);
        case Enroll(cohort, learner, _) => r := EnrollMembership(cohort, learner, facts);
        case Join(cohort) => r := JoinFormation(cohort, actor, facts);
        case Leave(cohort) => r := LeaveFormation(cohort, actor, facts);
      }
      if r.Ok? { MutateKeeps(start, request, actor, facts); }
    }

    /** Mutation and receipt in one transaction. A rival's receipt for the key, committed since the
        load, makes the insert fail and rolls the mutation back. */
    method CommitCall(call: Call, facts: Facts) returns (r: Result<Response>)
      requires SeatsOk(Contents())
      modifies this
      ensures SeatsOk(Contents())
      ensures
        var done := Mutate(old(Contents()), call.request, call.actor, facts);
        if done.Ok? && call.key !in old(receipts) then
          && r == Ok(done.value.1) && Contents() == done.value.0
          && receipts == old(receipts)[call.key := Receipt(call.request, call.actor, done.value.1)]
        else
          && r == Err(if done.Err? then done.error else Duplicate)
          && Contents() == old(Contents()) && receipts == old(receipts)
    {
      var before := (cohorts, enrollments);
      r := MutateRows(call.request, call.actor, facts);
      if r.Err? { return; }
      if call.key in receipts {
        cohorts, enrollments := before.0, before.1;
        return Err(Duplicate);
      }
      receipts := receipts[call.key := Receipt(call.request, call.actor, r.value)];
    }

    /** After a failed transaction: the winner's response on an exact match, else the error. */
    method RecoverCall(call: Call, error: Error) returns (answer: Answer)
      ensures Finished(answer) == Recovered(receipts, call, error)
    {
      var recovered := LoadReceipt(call);
      if recovered.Ok? && recovered.value.Some? { return Success(recovered.value.value, true); }
      return Failure(error);
    }

    /** A keyed request from load to answer, with no rival in between. */
    method RunMutation(key: string, request: Request, actor: string, facts: Facts) returns (answer: Answer)
      requires SeatsOk(Contents())
      modifies this
      ensures SeatsOk(Contents())
      ensures
        var call := Call(key, request, actor, Loaded);
        var done := Mutate(old(Contents()), request, actor, facts);
        if Opened(old(receipts), call) != Loaded then
          && Contents() == old(Contents()) && receipts == old(receipts)
          && answer == match Opened(old(receipts),
            call) { case Finished(a) => a case Recovering(e) => Failure(e) case Loaded => answer }
        else if done.Err? then
          Contents() == old(Contents()) && receipts == old(receipts) && answer == Failure(done.error)
        else
          && Contents() == done.value.0 && answer == Success(done.value.1, false)
          && receipts == old(receipts)[key := Receipt(request, actor, done.value.1)]
    {
      if key == "" || |key| > MAX_KEY { return Failure(BadKey); }
      var call := Call(key, request, actor, Loaded);
      var loaded := LoadReceipt(call);
      if loaded.Err? { return Failure(loaded.error); }
      if loaded.value.Some? { return Success(loaded.value.value, true); }
      var done := CommitCall(call, facts);
      if done.Ok? { return Success(done.value, false); }
      answer := RecoverCall(call, done.error);
    }
  }
}
