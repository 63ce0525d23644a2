/** Two concrete runs of the maintenance protocol: one that blocks its job, and one in which a
    session write with an old stamp makes a completion inexact. */
module MaintenanceWitness {
  import opened Options
  import opened Texts
  import opened Sets
  import opened Ordering
  import opened Maintenance
  import opened MaintenanceProofs
  import opened MaintenanceWrites
  import opened MaintenanceResults
  import opened MaintenanceProgress
  import opened MaintenanceStamps

  const BOUNDS := Bounds("a", "b")
  const PERIOD := Period("p", Some(BOUNDS))
  const FIRST := Key("a", "1")
  const SECOND := Key("a", "2")

  /** Notes touch no concept, and only one session fits into a batch. */
  const NARROW := Env(content => Some(SessionNote("", {})),
                      (batch: Batch) => if |batch.sessions| <= 1 then 0 else MAX_BATCH_BYTES + 1,
                      content => 0)

  const QUEUE := EnqueueJob(PERIOD, 0)

  /** What the proofs need of it. */
  ghost predicate Narrow(env: Env)
  {
    && (forall content :: env.parse(content) == Some(SessionNote("", {})))
    && (forall batch :: env.batchBytes(batch) <= MAX_BATCH_BYTES <==> |batch.sessions| <= 1)
    && (forall content :: env.commitBytes(content) == 0)
  }

  const DIGEST := Digest("s", [Update(Memory, "m"), Update(MemoryPending, "")])

  predicate Short(o: Object) { |o.content| <= MAX_OBJECT_BYTES }

  predicate Readable(db: Db)
  {
    && (forall k <- db.sessions :: Short(db.sessions[k]))
    && (Memory in db.targets ==> Short(db.targets[Memory]))
    && (MemoryPending in db.targets ==> Short(db.targets[MemoryPending]))
    && (PERIOD.name in db.archives ==> Short(db.archives[PERIOD.name]))
  }

  /* ---- claims that succeed ---- */

  lemma {:induction false} SessionsRead(env: Env, sessions: map<Key, Object>, keys: seq<Key>)
    requires Narrow(env)
    requires forall k :: k in keys ==> k in sessions && Short(sessions[k])
    ensures ReadSessions(env, sessions, keys).Ok?
    ensures Concepts(ReadSessions(env, sessions, keys).value) == {}
  {
    if keys != [] {
      var n := |keys| - 1;
      SessionsRead(env, sessions, keys[..n]);
      var items := ReadSessions(env, sessions, keys).value;
      assert items[..n] == ReadSessions(env, sessions, keys[..n]).value;
      assert items[n].concepts == {};
    }
  }

  lemma TargetsRead(targets: map<TargetKey, Object>)
    requires Memory in targets ==> Short(targets[Memory])
    requires MemoryPending in targets ==> Short(targets[MemoryPending])
    ensures TargetList({}) == [Memory, MemoryPending]
    ensures ReadTargets(targets, [Memory, MemoryPending]).Ok?
  {
    assert [Memory, MemoryPending][..1] == [Memory] && [Memory][..0] == [];
    assert ReadTargets(targets, [Memory]).Ok?;
  }

  predicate OneByOne(keys: seq<Key>, batch: Batch)
  {
    && |batch.sessions| == (if keys == [] then 0 else 1)
    && |batch.snapshots| == 2 && batch.snapshots[0].target == Memory && batch.snapshots[1].target == MemoryPending
  }

  lemma {:induction false} PageFits(env: Env, db: Db, h: Header, keys: seq<Key>, initial: nat, more: bool)
    requires Narrow(env)
    requires Readable(db) && forall k :: k in keys ==> k in db.sessions
    ensures FitPage(env, db, h, keys, initial, more).Ok?
    ensures OneByOne(keys, FitPage(env, db, h, keys, initial, more).value)
    decreases |keys|
  {
    SessionsRead(env, db.sessions, keys);
    TargetsRead(db.targets);
    if |keys| > 1 { PageFits(env, db, h, keys[..|keys| / 2], initial, more); }
  }

  lemma SafeRequests()
    ensures SafeKey("r") && SafeKey("r1") && SafeKey("r2")
  {
  }

  predicate Waiting(job: Job) { job.status == Pending && job.period == PERIOD }

  ghost predicate FittedPage(env: Env, db: Db, p: Progress, batch: Batch)
  {
    var page := PageOf(db, BOUNDS, p);
    FitPage(env, db, batch.header, page, |page|, MoreAfterPage(db, BOUNDS, p)) == Ok(batch)
  }

  /** The batch holds the first of the remaining rows. */
  lemma BatchTakes(env: Env, db: Db, p: Progress, batch: Batch, rows: seq<Key>)
    requires rows == Sorted(Remaining(db.sessions, BOUNDS, p.cursor)) && rows != []
    requires FittedPage(env, db, p, batch) && OneByOne(PageOf(db, BOUNDS, p), batch)
    ensures rows[0] in db.sessions && SourcesOf(batch.sessions) == [Source(rows[0], MetaOf(db.sessions[rows[0]]))]
    ensures batch.hasMore == (|rows| > 1)
  {
    PageIsSortedPrefix(env, db, BOUNDS, p, batch.header);
  }

  lemma PlanSucceeds(env: Env, db: Db, now: Time, token: Token)
    requires Narrow(env)
    requires |db.jobs| == 1 && Waiting(db.jobs[0]) && Readable(db)
    ensures PlanClaim(env, db, 0, now, token).Ok?
    ensures
      var plan := PlanClaim(env, db, 0, now, token).value;
      && plan.progress == Resume(db, db.jobs[0], BOUNDS, now)
      && FittedPage(env, db, plan.progress, plan.batch) && OneByOne(PageOf(db, BOUNDS, plan.progress), plan.batch)
      && plan.manifest.sources == SourcesOf(plan.batch.sessions)
      && plan.manifest.targets == TargetsOf(plan.batch.snapshots)
  {
    var p := Resume(db, db.jobs[0], BOUNDS, now);
    var page := PageOf(db, BOUNDS, p);
    PageFits(env, db, Header(0, token, now + LEASE, p.summary), page, |page|, MoreAfterPage(db, BOUNDS, p));
  }

  lemma ClaimSucceeds(env: Env, db: Db, request: string, now: Time, token: Token)
    requires Narrow(env)
    requires |db.jobs| == 1 && Waiting(db.jobs[0]) && Readable(db)
    requires SafeKey(request) && request !in db.receipts
    ensures NextJob(db.jobs, now) == Some(0)
    ensures ClaimStep(env, db, request, now, token).1.Claimed?
  {
    PlanSucceeds(env, db, now, token);
    assert Eligible(db.jobs[0], now);
  }

  predicate Supplied(targets: seq<Target>)
  {
    |targets| == 2 && targets[0].target == Memory && targets[1].target == MemoryPending
  }

  /** The claim takes the first of the remaining rows. */
  lemma ClaimTakes(env: Env, db: Db, now: Time, token: Token, rows: seq<Key>)
    requires Narrow(env)
    requires |db.jobs| == 1 && Waiting(db.jobs[0]) && Readable(db) && rows != []
    requires rows == Sorted(Remaining(db.sessions, BOUNDS, Resume(db, db.jobs[0], BOUNDS, now).cursor))
    ensures PlanClaim(env, db, 0, now, token).Ok?
    ensures
      var plan := PlanClaim(env, db, 0, now, token).value;
      var m := plan.manifest;
      && plan.progress == Resume(db, db.jobs[0], BOUNDS, now) && plan.batch.hasMore == (|rows| > 1)
      && rows[0] in db.sessions && m.sources == [Source(rows[0], MetaOf(db.sessions[rows[0]]))]
      && Supplied(m.targets)
  {
    PlanSucceeds(env, db, now, token);
    var plan := PlanClaim(env, db, 0, now, token).value;
    BatchTakes(env, db, plan.progress, plan.batch, rows);
  }

  lemma DigestSupplies(env: Env, targets: seq<Target>)
    requires Narrow(env)
    requires Supplied(targets)
    ensures WellFormed(env, DIGEST, targets)
  {
    var updates := DIGEST.updates;
    assert updates[..1] == [Update(Memory, "m")] && updates[..1][..0] == [];
    assert Values(updates[..1]) == Ok(map[Memory := "m"]);
    assert Values(updates) == Ok(map[Memory := "m", MemoryPending := ""]);
    assert !IsSpace("s"[0]);
  }

  /* ---- a blocked job ---- */

  function Start(sessions: map<Key, Object>): Sys
  {
    Sys(Db(sessions, map[], map[], [], map[]), [], 0, {}, [])
  }

  /** A queue of one fresh job over some notes. */
  predicate FreshQueue(s: Sys, sessions: map<Key, Object>)
  {
    && s.db.sessions == sessions && s.db.targets == map[] && s.db.archives == map[] && s.db.receipts == map[]
    && |s.db.jobs| == 1 && Waiting(s.db.jobs[0]) && s.db.jobs[0].state.None? && s.issued == {}
  }

  lemma Queued(env: Env, sessions: map<Key, Object>)
    requires Narrow(env)
    ensures Initial(Start(sessions)) && Inv(Step(env, Start(sessions), QUEUE))
    ensures FreshQueue(Step(env, Start(sessions), QUEUE), sessions)
  {
    InitialInv(Start(sessions));
    StepKeeps(env, Start(sessions), QUEUE);
  }

  /** The job after a claim, and what does not change. */
  lemma Leased(env: Env, s: Sys, request: string, now: Time, token: Token)
    requires Narrow(env)
    requires Inv(s) && token !in s.issued
    requires |s.db.jobs| == 1 && Waiting(s.db.jobs[0]) && Readable(s.db)
    requires SafeKey(request) && request !in s.db.receipts
    ensures
      var s' := Step(env, s, Claim(request, now, token));
      var plan := PlanClaim(env, s.db, 0, now, token);
      && plan.Ok? && Enabled(s, Claim(request, now, token)) && Inv(s')
      && s'.db.jobs == [Lease(s.db.jobs[0], plan.value, now, token)]
      && plan.value.progress == Resume(s.db, s.db.jobs[0], BOUNDS, now)
      && plan.value.manifest.next == Advance(plan.value.progress, plan.value.manifest.sources).(summary := "")
      && plan.value.manifest.startKey == "a" && plan.value.manifest.endKey == "b"
      && s'.db.sessions == s.db.sessions && s'.db.archives == s.db.archives && s'.db.targets == s.db.targets
      && s'.db.receipts.Keys == s.db.receipts.Keys + {request} && s'.issued == s.issued + {token}
  {
    ClaimSucceeds(env, s.db, request, now, token);
    ClaimShape(env, s, request, now, token);
    PlanHasParts(env, s.db, 0, now, token);
    StepKeeps(env, s, Claim(request, now, token));
  }

  lemma OneStep(env: Env, s: Sys, e: Event, rest: seq<Event>)
    ensures Run(env, s, [e] + rest) == Run(env, Step(env, s, e), rest)
    ensures Possible(env, s, [e] + rest) == (Enabled(s, e) && Possible(env, Step(env, s, e), rest))
  {
    assert ([e] + rest)[1..] == rest;
  }

  lemma ThreeSteps(env: Env, s: Sys, a: Event, b: Event, c: Event)
    ensures Run(env, s, [a, b, c]) == Step(env, Step(env, Step(env, s, a), b), c)
    ensures Possible(env, s, [a, b, c]) ==
      (Enabled(s, a) && Enabled(Step(env, s, a), b) && Enabled(Step(env, Step(env, s, a), b), c))
  {
    var s1 := Step(env, s, a);
    assert [a] + [b, c] == [a, b, c] && [b] + [c] == [b, c] && [c] + [] == [c];
    OneStep(env, s, a, [b, c]);
    OneStep(env, s1, b, [c]);
    OneStep(env, Step(env, s1, b), c, []);
  }

  lemma EmptyPlan(env: Env, s: Sys)
    requires Narrow(env)
    requires Inv(s) && FreshQueue(s, map[])
    ensures PlanClaim(env, s.db, 0, 1, 1).Ok?
    ensures
      var plan := PlanClaim(env, s.db, 0, 1, 1).value;
      && plan.progress.startedAt == 1 && plan.progress.cursor.None? && plan.manifest.next.cursor.None?
      && plan.manifest.startKey == "a" && plan.manifest.endKey == "b"
  {
    PlanSucceeds(env, s.db, 1, 1);
    PlanHasParts(env, s.db, 0, 1, 1);
    assert Remaining(map[], BOUNDS, None) == {};
  }

  lemma EmptyEnabled(env: Env, s: Sys)
    requires Narrow(env)
    requires Inv(s) && FreshQueue(s, map[])
    ensures Enabled(Step(env, s, Claim("r", 1, 1)), WriteSession(FIRST, "x", 5))
  {
    assert SafeKey("r") by { SafeRequests(); }
    EmptyPlan(env, s);
    Leased(env, s, "r", 1, 1);
  }

  lemma EmptyBlocks(env: Env, s: Sys)
    requires Narrow(env)
    requires Inv(s) && FreshQueue(s, map[])
    ensures Blocked(Step(env, Step(env, s, Claim("r", 1, 1)), WriteSession(FIRST, "x", 5)).db, 0, FIRST)
  {
    assert SafeKey("r") by { SafeRequests(); }
    EmptyPlan(env, s);
    ClaimSucceeds(env, s.db, "r", 1, 1);
    assert InPeriod(FIRST, BOUNDS) by { NotesOrder(); }
    InvIsStructured(s);
    WriteAfterClaimBlocks(env, s, "r", 1, 1, FIRST, "x", 5);
  }

  /** A run that blocks its job: a claim of an empty period, and a note written into it later. */
  lemma BlockingRun()
    ensures
      var start, events := Start(map[]), [QUEUE, Claim("r", 1, 1), WriteSession(FIRST, "x", 5)];
      Initial(start) && Possible(NARROW, start, events) && Blocked(Run(NARROW, start, events).db, 0, FIRST)
  {
    Queued(NARROW, map[]);
    EmptyEnabled(NARROW, Step(NARROW, Start(map[]), QUEUE));
    EmptyBlocks(NARROW, Step(NARROW, Start(map[]), QUEUE));
    ThreeSteps(NARROW, Start(map[]), QUEUE, Claim("r", 1, 1), WriteSession(FIRST, "x", 5));
  }

  /* ---- an old stamp ---- */

  const NOTES := map[FIRST := Object(1, "a", 0), SECOND := Object(1, "b", 0)]

  lemma NotesOrder()
    ensures Before(FIRST, SECOND) && !Before(FIRST, FIRST) && !Before(SECOND, FIRST)
    ensures InPeriod(FIRST, BOUNDS) && InPeriod(SECOND, BOUNDS)
  {
    assert !TextBefore("a", "a") by { assert "a"[1..] == ""; }
    assert TextBefore("1", "2") && TextBefore("a", "b");
    KeyTrichotomy(FIRST, SECOND);
    KeyTrichotomy(FIRST, FIRST);
  }

  lemma NotesRemaining()
    ensures Sorted(Remaining(NOTES, BOUNDS, None)) == [FIRST, SECOND]
    ensures Sorted(Remaining(NOTES, BOUNDS, Some(FIRST))) == [SECOND]
    ensures Prefix(NOTES, "a", Some(FIRST)) == {FIRST}
  {
    NotesOrder();
    SortedUnique([FIRST, SECOND], Remaining(NOTES, BOUNDS, None));
    SortedUnique([SECOND], Remaining(NOTES, BOUNDS, Some(FIRST)));
  }

  /** One job that has committed the first note since instant 10. */
  predicate HalfDone(s: Sys)
  {
    && s.db.sessions == NOTES && s.db.archives == map[] && Readable(s.db)
    && s.db.receipts.Keys == {"r1"} && s.issued == {1}
    && |s.db.jobs| == 1 && Waiting(s.db.jobs[0])
    && s.db.jobs[0].state == Some(Progress(Some(FIRST), 1, 10, DIGEST.summary, ABSENT))
  }

  const CLAIM_1 := Claim("r1", 10, 1)
  const COMMIT_1 := Commit(CommitRequest(1, DIGEST), 11, 11, true)
  const CLAIM_2 := Claim("r2", 12, 2)
  const COMMIT_2 := Commit(CommitRequest(2, DIGEST), 13, 13, true)
  const EARLY := WriteSession(FIRST, "c", 5)

  /** The plan takes one note of the two, and none is late for instant 10. */
  predicate TakesNote(plan: Plan, k: Key, more: bool)
  {
    && k in NOTES && plan.manifest.sources == [Source(k, MetaOf(NOTES[k]))] && plan.batch.hasMore == more
    && Supplied(plan.manifest.targets) && plan.progress.startedAt == 10
  }

  lemma NotLate(plan: Plan, k: Key, more: bool)
    requires TakesNote(plan, k, more)
    ensures NoLateSource(NOTES, plan)
  {
  }

  lemma FirstResume(s: Sys)
    requires FreshQueue(s, NOTES)
    ensures Resume(s.db, s.db.jobs[0], BOUNDS, 10) == Progress(None, 0, 10, "", ABSENT)
  {
  }

  lemma FirstPlan(env: Env, s: Sys)
    requires Narrow(env)
    requires Inv(s) && FreshQueue(s, NOTES)
    ensures PlanClaim(env, s.db, 0, 10, 1).Ok?
    ensures
      var plan := PlanClaim(env, s.db, 0, 10, 1).value;
      plan.progress == Progress(None, 0, 10, "", ABSENT) && TakesNote(plan, FIRST, true)
  {
    FirstResume(s);
    assert Sorted(Remaining(s.db.sessions, BOUNDS, None)) == [FIRST, SECOND] by { NotesRemaining(); }
    ClaimTakes(env, s.db, 10, 1, [FIRST, SECOND]);
  }

  /** One worker that claims one page and commits it right away. */
  lemma ClaimThenCommit(env: Env, s: Sys, request: string, now: Time, token: Token, plan: Plan)
    requires Narrow(env)
    requires Inv(s) && token !in s.issued
    requires |s.db.jobs| == 1 && Waiting(s.db.jobs[0]) && Readable(s.db)
    requires SafeKey(request) && request !in s.db.receipts
    requires PlanClaim(env, s.db, 0, now, token) == Ok(plan)
    requires Supplied(plan.manifest.targets) && NoLateSource(s.db.sessions, plan)
    ensures
      var s1 := Step(env, s, Claim(request, now, token));
      CommitStep(env, s1.db, CommitRequest(token, DIGEST), now + 1, now + 1, true).1 ==
        Committed(!plan.batch.hasMore, false)
  {
    ClaimSucceeds(env, s.db, request, now, token);
    DigestSupplies(env, plan.manifest.targets);
    assert Millis(now + 1) < Millis(now + LEASE);
    InvIsStructured(s);
    ClaimedBatchCommitsIff(env, s, request, now, token, DIGEST, now + 1, now + 1);
    assert Step(env, s, Claim(request, now, token)).db == ClaimStep(env, s.db, request, now, token).0;
  }

  lemma FirstCommitted(env: Env, s: Sys)
    requires Narrow(env)
    requires Inv(s) && FreshQueue(s, NOTES)
    ensures CommitStep(env, Step(env, s, CLAIM_1).db, COMMIT_1.req, 11, 11, true).1 == Committed(false, false)
  {
    FirstPlan(env, s);
    assert SafeKey("r1") by { SafeRequests(); }
    NotLate(PlanClaim(env, s.db, 0, 10, 1).value, FIRST, true);
    ClaimThenCommit(env, s, "r1", 10, 1, PlanClaim(env, s.db, 0, 10, 1).value);
  }

  /** What a commit that does not complete leaves of a queue of one job. */
  lemma SettledPage(env: Env, s: Sys, req: CommitRequest, now: Time)
    requires Narrow(env)
    requires Inv(s) && |s.db.jobs| == 1 && s.db.jobs[0].manifest.Some?
    requires CommitStep(env, s.db, req, now, now, true).1 == Committed(false, false)
    ensures
      var s', m := Step(env, s, Commit(req, now, now, true)), s.db.jobs[0].manifest.value;
      && Inv(s') && s'.db.sessions == s.db.sessions && s'.db.archives == s.db.archives
      && s'.db.receipts == s.db.receipts && s'.issued == s.issued
      && s'.db.jobs == [Settle(s.db.jobs[0], m, req, false)]
      && TargetsWritten(s.db.targets, s'.db.targets, m, req.content.updates)
  {
    CommitShape(env, s, req, now, now, true);
    CommitIsAtomic(env, s.db, req, now, now, true);
    StepKeeps(env, s, Commit(req, now, now, true));
  }

  lemma WrittenReadable(rows: map<TargetKey, Object>, m: Manifest)
    requires TargetsWritten(map[], rows, m, DIGEST.updates)
    requires Supplied(m.targets)
    ensures Memory in rows && MemoryPending in rows && Short(rows[Memory]) && Short(rows[MemoryPending])
  {
  }

  /** One job leased for the first note. */
  predicate FirstLease(s: Sys)
  {
    && s.db.sessions == NOTES && s.db.archives == map[] && s.db.targets == map[]
    && s.db.receipts.Keys == {"r1"} && s.issued == {1}
    && |s.db.jobs| == 1 && s.db.jobs[0].period == PERIOD && s.db.jobs[0].manifest.Some?
    && var m := s.db.jobs[0].manifest.value;
    && m.next == Progress(Some(FIRST), 1, 10, "", ABSENT) && Supplied(m.targets)
  }

  lemma FirstLeaseParts(s: Sys, s1: Sys, plan: Plan)
    requires FreshQueue(s, NOTES) && s1.db.jobs == [Lease(s.db.jobs[0], plan, 10, 1)]
    requires s1.db.sessions == s.db.sessions && s1.db.archives == s.db.archives && s1.db.targets == s.db.targets
    requires s1.db.receipts.Keys == s.db.receipts.Keys + {"r1"} && s1.issued == s.issued + {1}
    requires plan.progress == Progress(None, 0, 10, "", ABSENT) && TakesNote(plan, FIRST, true)
    requires plan.manifest.next == Advance(plan.progress, plan.manifest.sources).(summary := "")
    ensures FirstLease(s1)
  {
  }

  lemma FirstLeased(env: Env, s: Sys)
    requires Narrow(env)
    requires Inv(s) && FreshQueue(s, NOTES)
    ensures Inv(Step(env, s, CLAIM_1)) && FirstLease(Step(env, s, CLAIM_1))
  {
    assert SafeKey("r1") by { SafeRequests(); }
    var s1 := Step(env, s, CLAIM_1);
    Leased(env, s, "r1", 10, 1);
    FirstPlan(env, s);
    FirstLeaseParts(s, s1, PlanClaim(env, s.db, 0, 10, 1).value);
  }

  lemma LeaseToHalf(env: Env, s1: Sys)
    requires Narrow(env)
    requires Inv(s1) && FirstLease(s1)
    requires CommitStep(env, s1.db, COMMIT_1.req, 11, 11, true).1 == Committed(false, false)
    ensures Inv(Step(env, s1, COMMIT_1)) && HalfDone(Step(env, s1, COMMIT_1))
  {
    SettledPage(env, s1, COMMIT_1.req, 11);
    WrittenReadable(Step(env, s1, COMMIT_1).db.targets, s1.db.jobs[0].manifest.value);
  }

  lemma FirstHalf(env: Env, s: Sys)
    requires Narrow(env)
    requires Inv(s) && FreshQueue(s, NOTES)
    ensures
      var s2 := Step(env, Step(env, s, CLAIM_1), COMMIT_1);
      Inv(s2) && HalfDone(s2)
  {
    FirstCommitted(env, s);
    FirstLeased(env, s);
    LeaseToHalf(env, Step(env, s, CLAIM_1));
  }

  lemma SecondResume(s: Sys)
    requires HalfDone(s)
    ensures Resume(s.db, s.db.jobs[0], BOUNDS, 12) == s.db.jobs[0].state.value
  {
    NotesRemaining();
  }

  lemma SecondPlan(env: Env, s: Sys)
    requires Narrow(env)
    requires Inv(s) && HalfDone(s)
    ensures PlanClaim(env, s.db, 0, 12, 2).Ok?
    ensures
      var plan := PlanClaim(env, s.db, 0, 12, 2).value;
      plan.progress == s.db.jobs[0].state.value && TakesNote(plan, SECOND, false)
  {
    SecondResume(s);
    assert Sorted(Remaining(s.db.sessions, BOUNDS, Some(FIRST))) == [SECOND] by { NotesRemaining(); }
    ClaimTakes(env, s.db, 12, 2, [SECOND]);
  }

  lemma SecondWouldComplete(env: Env, s: Sys)
    requires Narrow(env)
    requires Inv(s) && HalfDone(s)
    ensures CommitStep(env, Step(env, s, CLAIM_2).db, COMMIT_2.req, 13, 13, true).1 == Committed(true, false)
  {
    SecondPlan(env, s);
    assert SafeKey("r2") by { SafeRequests(); }
    NotLate(PlanClaim(env, s.db, 0, 12, 2).value, SECOND, false);
    ClaimThenCommit(env, s, "r2", 12, 2, PlanClaim(env, s.db, 0, 12, 2).value);
  }

  /** The first note is committed since instant 10, and the second one is leased. */
  predicate SecondLease(s: Sys)
  {
    && s.db.sessions == NOTES && |s.db.jobs| == 1 && s.db.jobs[0].period == PERIOD
    && s.db.jobs[0].state == Some(Progress(Some(FIRST), 1, 10, DIGEST.summary, ABSENT))
    && s.db.jobs[0].manifest.Some?
    && var m := s.db.jobs[0].manifest.value;
    && m.startKey == "a" && m.endKey == "b" && m.next == Progress(Some(SECOND), 2, 10, "", ABSENT)
    && m.sources == [Source(SECOND, MetaOf(NOTES[SECOND]))]
  }

  lemma SecondLeaseParts(s: Sys, s1: Sys, plan: Plan)
    requires HalfDone(s) && s1.db.jobs == [Lease(s.db.jobs[0], plan, 12, 2)] && s1.db.sessions == s.db.sessions
    requires plan.progress == s.db.jobs[0].state.value && TakesNote(plan, SECOND, false)
    requires plan.manifest.next == Advance(plan.progress, plan.manifest.sources).(summary := "")
    requires plan.manifest.startKey == "a" && plan.manifest.endKey == "b"
    ensures SecondLease(s1)
  {
  }

  lemma SecondLeased(env: Env, s: Sys)
    requires Narrow(env)
    requires Inv(s) && HalfDone(s)
    ensures Inv(Step(env, s, CLAIM_2)) && SecondLease(Step(env, s, CLAIM_2))
  {
    SecondPlan(env, s);
    assert SafeKey("r2") by { SafeRequests(); }
    Leased(env, s, "r2", 12, 2);
    SecondLeaseParts(s, Step(env, s, CLAIM_2), PlanClaim(env, s.db, 0, 12, 2).value);
  }

  /** Both notes read, the second one about to be committed. */
  lemma AtSecondLease() returns (s: Sys)
    ensures
      var start := Start(NOTES);
      && Initial(start) && Possible(NARROW, start, [QUEUE, CLAIM_1, COMMIT_1, CLAIM_2])
      && s == Step(NARROW, Run(NARROW, start, [QUEUE, CLAIM_1, COMMIT_1]), CLAIM_2)
    ensures Inv(s) && SecondLease(s)
    ensures CommitStep(NARROW, s.db, COMMIT_2.req, 13, 13, true).1 == Committed(true, false)
  {
    var start := Start(NOTES);
    Queued(NARROW, NOTES);
    var s0 := Step(NARROW, start, QUEUE);
    FirstHalf(NARROW, s0);
    FourSteps(NARROW, start, QUEUE, CLAIM_1, COMMIT_1, CLAIM_2);
    var half := Step(NARROW, Step(NARROW, s0, CLAIM_1), COMMIT_1);
    SecondLeased(NARROW, half);
    SecondWouldComplete(NARROW, half);
    s := Step(NARROW, half, CLAIM_2);
  }

  /** A run in which an edit of the first note, stamped before the first claim and stored after the
      second, is covered by a completion that never saw it. */
  lemma OldStampRun()
    ensures
      var start := Start(NOTES);
      var s := Step(NARROW, Run(NARROW, start, [QUEUE, CLAIM_1, COMMIT_1]), CLAIM_2);
      var s1 := Step(NARROW, s, EARLY);
      var s2 := Step(NARROW, s1, COMMIT_2);
      && Initial(start) && Possible(NARROW, start, [QUEUE, CLAIM_1, COMMIT_1, CLAIM_2]) && !Enabled(s, EARLY)
      && CommitStep(NARROW, s1.db, COMMIT_2.req, 13, 13, true).1 == Committed(true, false)
      && |s2.log| == 1 && !Exact(s2.db.sessions, BOUNDS, s2.log[0], 10)
  {
    var s := AtSecondLease();
    OldStampUnnoticed(NARROW, s);
  }

  /** A commit about to complete a job that has already committed the first note. */
  lemma OldStampUnnoticed(env: Env, s: Sys)
    requires Inv(s) && SecondLease(s)
    requires CommitStep(env, s.db, COMMIT_2.req, 13, 13, true).1 == Committed(true, false)
    ensures
      var s1 := Step(env, s, EARLY);
      var s2 := Step(env, s1, COMMIT_2);
      && !Enabled(s, EARLY)
      && CommitStep(env, s1.db, COMMIT_2.req, 13, 13, true).1 == Committed(true, false)
      && |s2.log| == 1 && !Exact(s2.db.sessions, BOUNDS, s2.log[0], 10)
  {
    NotesRemaining();
    WriteBeforeCommitInexactIff(env, s, COMMIT_2.req, 13, 13, true, FIRST, "c", 5);
    assert FindJob(s.db.jobs, 2).value == 0;
    assert FIRST in Prefix(s.db.sessions, "a", s.db.jobs[0].state.value.cursor);
    assert !Noticed(s.db.jobs[0], FIRST, 5);
  }

  /* ---- a restored count ---- */

  const ZEROTH := Key("a", "0")
  const DELETE := DeleteSession(FIRST)
  const REPLACE := WriteSession(ZEROTH, "c", 5)
  const REPLACED := map[SECOND := Object(1, "b", 0), ZEROTH := Object(1, "c", 5)]

  lemma ReplacedOrder()
    ensures Before(ZEROTH, FIRST) && Before(ZEROTH, SECOND) && !Before(SECOND, ZEROTH) && !Before(SECOND, SECOND)
    ensures ZEROTH != FIRST && ZEROTH != SECOND && !TextBefore("a", "a")
  {
    assert !TextBefore("a", "a") by { assert "a"[1..] == ""; }
    assert TextBefore("0", "1") && TextBefore("0", "2");
    KeyTrichotomy(ZEROTH, SECOND);
    KeyTrichotomy(SECOND, SECOND);
  }

  /** The two rows count as the two committed ones. */
  lemma ReplacedCompletes(db: Db, m: Manifest)
    requires db.sessions == REPLACED && m.startKey == "a" && m.endKey == "b"
    requires m.next == Progress(Some(SECOND), 2, 10, "", ABSENT)
    requires m.sources == [Source(SECOND, MetaOf(NOTES[SECOND]))]
    ensures StillCompletes(db, m)
  {
    ReplacedOrder();
    assert Prefix(REPLACED, "a", Some(SECOND)) == {ZEROTH, SECOND};
    assert Remaining(REPLACED, BOUNDS, Some(SECOND)) == {};
    SourcesPass(REPLACED, m.sources);
  }

  /** The log is that of the first note, so nothing lists the new row. */
  lemma LogIsFirst(sessions: map<Key, Object>, job: Job, l: seq<Source>, lastClaim: Time, m: Manifest, row: Source)
    requires JobInv(sessions, job, l, lastClaim) && row.key == ZEROTH
    requires job.state == Some(Progress(Some(FIRST), 1, 10, DIGEST.summary, ABSENT))
    requires m.sources == [Source(SECOND, MetaOf(NOTES[SECOND]))]
    ensures row !in l + m.sources
  {
    ReplacedOrder();
    assert |l| == 1 && l[0].key == FIRST;
  }

  lemma Replaced(env: Env, s: Sys)
    requires SecondLease(s)
    ensures
      var s1 := Step(env, s, DELETE);
      && s1 == s.(db := s.db.(sessions := s1.db.sessions))
      && Step(env, s1, REPLACE).db == s.db.(sessions := REPLACED)
  {
    assert (NOTES - {FIRST})[ZEROTH := Object(1, "c", 5)] == REPLACED by { ReplacedOrder(); }
    assert ZEROTH !in NOTES - {FIRST} by { ReplacedOrder(); }
  }

  lemma DeletedKeeps(env: Env, s: Sys)
    requires Inv(s)
    ensures Enabled(s, DELETE) && Inv(Step(env, s, DELETE))
  {
    StepKeeps(env, s, DELETE);
  }

  lemma DeletedRefused(env: Env, s: Sys)
    requires SecondLease(s) && CommitStep(env, s.db, COMMIT_2.req, 13, 13, true).1 == Committed(true, false)
    ensures CommitStep(env, Step(env, s, DELETE).db, COMMIT_2.req, 13, 13, true).1 != Committed(true, false)
  {
    var db := Step(env, s, DELETE).db;
    CompletesIff(env, s.db, db, COMMIT_2.req, 13, 13, true);
    assert FindJob(s.db.jobs, 2).value == 0;
    assert Prefix(db.sessions, "a", Some(SECOND)) <= {SECOND};
    assert |{SECOND}| == 1;
    SubsetSize(Prefix(db.sessions, "a", Some(SECOND)), {SECOND});
  }

  lemma ReplacedInexact(env: Env, s: Sys)
    requires Inv(s) && SecondLease(s)
    requires CommitStep(env, s.db, COMMIT_2.req, 13, 13, true).1 == Committed(true, false)
    ensures
      var s2 := Step(env, Step(env, s, DELETE), REPLACE);
      var s3 := Step(env, s2, COMMIT_2);
      && CommitStep(env, s2.db, COMMIT_2.req, 13, 13, true).1 == Committed(true, false)
      && |s3.log| == 1 && !Exact(s3.db.sessions, BOUNDS, s3.log[0], 10)
  {
    var s1 := Step(env, s, DELETE);
    var s2, m := Step(env, s1, REPLACE), s.db.jobs[0].manifest.value;
    Replaced(env, s);
    assert FindJob(s.db.jobs, 2).value == 0;
    CompletesIff(env, s.db, s2.db, COMMIT_2.req, 13, 13, true);
    ReplacedCompletes(s2.db, m);
    DeletedKeeps(env, s);
    CompletionAfterWriteIff(env, s1, COMMIT_2.req, 13, 13, true, ZEROTH, "c", 5);
    CommitShape(env, s2, COMMIT_2.req, 13, 13, true);
    ReplacedOrder();
    LogIsFirst(s.db.sessions, s.db.jobs[0], s.log[0], s.lastClaim, m, Source(ZEROTH, MetaOf(s2.db.sessions[ZEROTH])));
    assert !Noticed(s.db.jobs[0], ZEROTH, 5);
  }

  /** A run in which a committed note is deleted and an older-stamped new one takes its place: the commit
      is refused after the deletion and completes after the write, with a note it never saw. */
  lemma RestoredCountRun()
    ensures
      var start := Start(NOTES);
      var s := Step(NARROW, Run(NARROW, start, [QUEUE, CLAIM_1, COMMIT_1]), CLAIM_2);
      var s1 := Step(NARROW, s, DELETE);
      var s2 := Step(NARROW, s1, REPLACE);
      var s3 := Step(NARROW, s2, COMMIT_2);
      && Initial(start) && Possible(NARROW, start, [QUEUE, CLAIM_1, COMMIT_1, CLAIM_2]) && Enabled(s, DELETE)
      && CommitStep(NARROW, s1.db, COMMIT_2.req, 13, 13, true).1 != Committed(true, false)
      && CommitStep(NARROW, s2.db, COMMIT_2.req, 13, 13, true).1 == Committed(true, false)
      && |s3.log| == 1 && !Exact(s3.db.sessions, BOUNDS, s3.log[0], 10)
  {
    var s := AtSecondLease();
    DeletedKeeps(NARROW, s);
    DeletedRefused(NARROW, s);
    ReplacedInexact(NARROW, s);
  }

  lemma FourSteps(env: Env, s: Sys, a: Event, b: Event, c: Event, d: Event)
    ensures Run(env, s, [a, b, c]) == Step(env, Step(env, Step(env, s, a), b), c)
    ensures
      var s1 := Step(env, s, a);
      var s2 := Step(env, s1, b);
      Possible(env, s, [a, b, c, d]) ==
        (Enabled(s, a) && Enabled(s1, b) && Enabled(s2, c) && Enabled(Step(env, s2, c), d))
  {
    ThreeSteps(env, s, a, b, c);
    ThreeSteps(env, Step(env, s, a), b, c, d);
    assert [a] + [b, c, d] == [a, b, c, d];
    OneStep(env, s, a, [b, c, d]);
  }
}
