/** Exactly when a claimed batch can be committed, and why a late source stops its job for good. */
module MaintenanceProgress {
  import opened Options
  import opened Texts
  import opened Ordering
  import opened Maintenance
  import opened MaintenanceProofs
  import opened MaintenanceWrites
  import opened MaintenanceResults

  /** A checkpoint a claim may resume from: untouched, or with a valid prefix. */
  predicate Sound(sessions: map<Key, Object>, startKey: string, p: Progress)
  {
    PrefixValid(sessions, startKey, p) && (p.cursor.None? ==> p.consumed == 0)
  }

  /** The sources between a checkpoint's cursor and the next one, all of them and in order. */
  ghost predicate NextPage(sessions: map<Key, Object>, b: Bounds, p: Progress, sources: seq<Source>)
  {
    && AscendingSources(sources) && AllInPeriod(sources, b)
    && (forall i :: 0 <= i < |sources| ==> AfterCursor(p.cursor, sources[i].key) && sources[i].key in sessions)
    && (forall k :: k in sessions && InSpan(b, p.cursor, Advance(p, sources).cursor, k) ==>
      Source(k, MetaOf(sessions[k])) in sources)
  }

  function KeySet(sources: seq<Source>): set<Key>
  {
    set s | s in sources :: s.key
  }

  lemma KeySetSize(sources: seq<Source>)
    requires AscendingSources(sources)
    ensures |KeySet(sources)| == |sources|
  {
    var keys := KeysOf(sources);
    AscendingCard(keys);
    assert KeySet(sources) == set k | k in keys by {
      forall k | k in keys ensures k in KeySet(sources) {
        var i :| 0 <= i < |keys| && keys[i] == k;
        assert sources[i] in sources;
      }
      forall s | s in sources ensures s.key in keys {
        var i :| 0 <= i < |sources| && sources[i] == s;
        assert keys[i] == s.key;
      }
    }
  }

  lemma PrefixMember(sessions: map<Key, Object>, b: Bounds, p: Progress, sources: seq<Source>, k: Key)
    requires NextPage(sessions, b, p, sources) && sources != []
    ensures k in Prefix(sessions, b.startKey, Advance(p, sources).cursor) <==>
      k in Prefix(sessions, b.startKey, p.cursor) || k in KeySet(sources)
    ensures !(k in Prefix(sessions, b.startKey, p.cursor) && k in KeySet(sources))
  {
    var upTo := Advance(p, sources).cursor;
    var last := sources[|sources| - 1].key;
    assert last in KeySet(sources);
    if p.cursor.Some? {
      KeyTrichotomy(k, p.cursor.value);
      if UpToCursor(p.cursor, k) && k != p.cursor.value {
        KeyTransitive(k, p.cursor.value, last);
      }
    }
    if k in KeySet(sources) {
      var s :| s in sources && s.key == k;
      var i :| 0 <= i < |sources| && sources[i] == s;
      assert i == |sources| - 1 || Before(k, last);
    } else {
      assert !(k in sessions && InSpan(b, p.cursor, upTo, k));
    }
  }

  lemma PrefixGrows(sessions: map<Key, Object>, b: Bounds, p: Progress, sources: seq<Source>)
    requires Sound(sessions, b.startKey, p) && NextPage(sessions, b, p, sources) && sources != []
    ensures Prefix(sessions, b.startKey, Advance(p, sources).cursor) ==
      Prefix(sessions, b.startKey, p.cursor) + KeySet(sources)
    ensures |Prefix(sessions, b.startKey, Advance(p, sources).cursor)| == p.consumed + |sources|
  {
    var done := Prefix(sessions, b.startKey, p.cursor);
    forall k
      ensures k in Prefix(sessions, b.startKey, Advance(p, sources).cursor) <==> k in done + KeySet(sources)
      ensures !(k in done && k in KeySet(sources))
    {
      PrefixMember(sessions, b, p, sources, k);
    }
    KeySetSize(sources);
    assert done !! KeySet(sources);
    assert |done + KeySet(sources)| == |done| + |KeySet(sources)|;
  }

  /** After consuming a page, the prefix check passes exactly when every consumed source was
      last written no later than the checkpoint's start. */
  lemma AdvancedPrefixValid(sessions: map<Key, Object>, b: Bounds, p: Progress, sources: seq<Source>)
    requires Sound(sessions, b.startKey, p) && NextPage(sessions, b, p, sources)
    ensures PrefixValid(sessions, b.startKey, Advance(p, sources)) <==>
      forall i :: 0 <= i < |sources| ==> sessions[sources[i].key].updatedAt <= p.startedAt
  {
    if sources != [] {
      PrefixGrows(sessions, b, p, sources);
      var q := Advance(p, sources);
      var done := Prefix(sessions, b.startKey, q.cursor);
      if PrefixValid(sessions, b.startKey, q) {
        forall i | 0 <= i < |sources| ensures sessions[sources[i].key].updatedAt <= p.startedAt {
          assert sources[i] in sources && sources[i].key in done;
        }
      }
      if forall i :: 0 <= i < |sources| ==> sessions[sources[i].key].updatedAt <= p.startedAt {
        forall k | k in done ensures sessions[k].updatedAt <= q.startedAt {
          if k in KeySet(sources) {
            var s :| s in sources && s.key == k;
          } else {
            assert k in Prefix(sessions, b.startKey, p.cursor);
          }
        }
      }
    }
  }

  /** The updates name every snapshot of the batch once and respect the size limits. */
  predicate WellFormed(env: Env, content: Digest, targets: seq<Target>)
  {
    && !Blank(content.summary) && WellSized(env, content)
    && |content.updates| == |targets|
    && Values(content.updates).Ok? && AllSupplied(targets, Values(content.updates).value)
  }

  lemma ResumeSound(db: Db, job: Job, b: Bounds, now: Time, l: seq<Source>, lastClaim: Time)
    requires JobInv(map[], job, l, lastClaim) && job.period.bounds == Some(b)
    ensures Sound(db.sessions, b.startKey, Resume(db, job, b, now))
    ensures Resume(db, job, b, now).archive == MetaAt(db.archives, job.period.name)
  {
  }

  lemma {:induction false} FreshTargetsPass(rows: map<TargetKey, Object>, targets: seq<Target>)
    requires forall i :: 0 <= i < |targets| ==> targets[i].meta == MetaAt(rows, targets[i].target)
    ensures CheckTargets(rows, targets).None?
  {
    if targets != [] {
      FreshTargetsPass(rows, targets[..|targets| - 1]);
    }
  }

  /** What a plan contains, without the planning detail. */
  ghost predicate PlanParts(db: Db, job: Job, now: Time, plan: Plan)
  {
    var m := plan.manifest;
    && job.period.bounds == Some(Bounds(m.startKey, m.endKey))
    && plan.progress == Resume(db, job, Bounds(m.startKey, m.endKey), now)
    && |m.targets| <= MAX_CONCEPTS + 2
    && m.next == Advance(plan.progress, m.sources).(summary := "")
    && m.archive == MetaAt(db.archives, job.period.name)
    && m.hasMore == plan.batch.hasMore
    && (forall i :: 0 <= i < |m.targets| ==> m.targets[i].meta == MetaAt(db.targets, m.targets[i].target))
    && SortedPage(db.sessions, Bounds(m.startKey, m.endKey), plan.progress.cursor, m.sources)
  }

  /** The sources are the first of the remaining rows, in order, as they are stored now. */
  ghost predicate SortedPage(sessions: map<Key, Object>, b: Bounds, cursor: Option<Key>, sources: seq<Source>)
  {
    var rows := Sorted(Remaining(sessions, b, cursor));
    && |sources| <= MAX_SESSIONS && |sources| <= |rows|
    && (forall i :: 0 <= i < |sources| ==>
      rows[i] in sessions && sources[i] == Source(rows[i], MetaOf(sessions[rows[i]])))
  }

  lemma PlanSortedPage(env: Env, db: Db, j: nat, now: Time, token: Token)
    requires j < |db.jobs| && PlanClaim(env, db, j, now, token).Ok?
    ensures
      var plan := PlanClaim(env, db, j, now, token).value;
      db.jobs[j].period.bounds.Some?
        && SortedPage(db.sessions, db.jobs[j].period.bounds.value, plan.progress.cursor, plan.manifest.sources)
  {
    var plan := PlanClaim(env, db, j, now, token).value;
    PageIsSortedPrefix(env, db, db.jobs[j].period.bounds.value, plan.progress, plan.batch.header);
  }

  lemma PlanHasParts(env: Env, db: Db, j: nat, now: Time, token: Token)
    requires j < |db.jobs| && PlanClaim(env, db, j, now, token).Ok?
    ensures PlanParts(db, db.jobs[j], now, PlanClaim(env, db, j, now, token).value)
  {
    PlanSortedPage(env, db, j, now, token);
  }

  lemma PlanShape(db: Db, job: Job, now: Time, plan: Plan, l: seq<Source>, lastClaim: Time)
    requires JobInv(map[], job, l, lastClaim) && PlanParts(db, job, now, plan)
    ensures
      var m := plan.manifest;
      && plan.progress.archive == m.archive
      && Sound(db.sessions, m.startKey, plan.progress)
      && NextPage(db.sessions, Bounds(m.startKey, m.endKey), plan.progress, m.sources)
      && CheckSources(db.sessions, m.sources).None? && CheckTargets(db.targets, m.targets).None?
  {
    var b := job.period.bounds.value;
    ResumeSound(db, job, b, now, l, lastClaim);
    SortedPrefixCovers(db.sessions, b, plan.progress, plan.manifest.sources);
    SourcesPass(db.sessions, plan.manifest.sources);
    FreshTargetsPass(db.targets, plan.manifest.targets);
  }

  /** No claimed source is stamped after the checkpoint's start. */
  predicate NoLateSource(sessions: map<Key, Object>, plan: Plan)
  {
    forall i :: 0 <= i < |plan.manifest.sources| ==>
      plan.manifest.sources[i].key in sessions
        && sessions[plan.manifest.sources[i].key].updatedAt <= plan.progress.startedAt
  }

  /** A plan's manifest passes every check but possibly the prefix check. */
  lemma PlanAdmittedIff(env: Env, db: Db, j: nat, now: Time, token: Token, l: seq<Source>, lastClaim: Time,
                        content: Digest)
    requires j < |db.jobs| && JobInv(map[], db.jobs[j], l, lastClaim)
    requires PlanClaim(env, db, j, now, token).Ok?
    requires WellFormed(env, content, PlanClaim(env, db, j, now, token).value.manifest.targets)
    ensures
      var plan := PlanClaim(env, db, j, now, token).value;
      Admit(db, db.jobs[j], plan.manifest, content) ==
        (if NoLateSource(db.sessions, plan) then Ok(Values(content.updates).value) else Err(Conflict))
  {
    var plan := PlanClaim(env, db, j, now, token).value;
    PlanHasParts(env, db, j, now, token);
    PlanShape(db, db.jobs[j], now, plan, l, lastClaim);
    AdmittedIff(db, db.jobs[j], plan, content);
  }

  lemma AdmittedIff(db: Db, job: Job, plan: Plan, content: Digest)
    requires
      var m := plan.manifest;
      && |m.sources| <= MAX_SESSIONS && |m.targets| <= MAX_CONCEPTS + 2
      && m.next == Advance(plan.progress, m.sources).(summary := "")
      && m.archive == MetaAt(db.archives, job.period.name)
      && Sound(db.sessions, m.startKey, plan.progress)
      && NextPage(db.sessions, Bounds(m.startKey, m.endKey), plan.progress, m.sources)
      && CheckSources(db.sessions, m.sources).None? && CheckTargets(db.targets, m.targets).None?
      && |content.updates| == |m.targets| && Values(content.updates).Ok?
        && AllSupplied(m.targets, Values(content.updates).value)
    ensures Admit(db, job, plan.manifest, content) ==
      (if NoLateSource(db.sessions, plan) then Ok(Values(content.updates).value) else Err(Conflict))
  {
    var m := plan.manifest;
    AdvancedPrefixValid(db.sessions, Bounds(m.startKey, m.endKey), plan.progress, m.sources);
    assert PrefixValid(db.sessions, m.startKey, m.next) ==
      PrefixValid(db.sessions, m.startKey, Advance(plan.progress, m.sources));
  }

  /** With no other writer in between and before the lease ends, a claimed batch commits exactly
      when no claimed source is stamped after the checkpoint's start, and then it completes the
      job exactly when the claim said there was nothing more. */
  lemma ClaimedBatchCommitsIff(env: Env, s: Sys, request: string, now: Time, token: Token,
                               content: Digest, now': Time, at: Time)
    requires Structured(s) && token !in s.issued
    requires ClaimStep(env, s.db, request, now, token).1.Claimed?
    requires Millis(now') < Millis(now + LEASE)
    requires
      var j := NextJob(s.db.jobs, now).value;
      WellFormed(env, content, PlanClaim(env, s.db, j, now, token).value.manifest.targets)
    ensures
      var j := NextJob(s.db.jobs, now).value;
      var plan := PlanClaim(env, s.db, j, now, token).value;
      var db := ClaimStep(env, s.db, request, now, token).0;
      CommitStep(env, db, CommitRequest(token, content), now', at, true).1 ==
        (if NoLateSource(s.db.sessions, plan) then Committed(!plan.batch.hasMore, false) else Rejected(Conflict))
  {
    var j := NextJob(s.db.jobs, now).value;
    var plan := PlanClaim(env, s.db, j, now, token).value;
    var db := ClaimStep(env, s.db, request, now, token).0;
    PlanAdmittedIff(env, s.db, j, now, token, s.log[j], s.lastClaim, content);
    PlanHasParts(env, s.db, j, now, token);
    HasMoreIsExact(env, s.db, j, now, token);
    assert db.jobs == s.db.jobs[j := Lease(s.db.jobs[j], plan, now, token)];
    assert db.sessions == s.db.sessions && db.targets == s.db.targets && db.archives == s.db.archives;
    LeasedTokenFound(s, db, j, plan, now, token);
    CommitOfLease(env, s.db, db, j, plan, now, token, content, now', at);
  }

  lemma CommitOfLease(env: Env, db0: Db, db: Db, j: nat, plan: Plan, now: Time, token: Token, content: Digest,
                      now': Time, at: Time)
    requires j < |db0.jobs| && db.jobs == db0.jobs[j := Lease(db0.jobs[j], plan, now, token)]
    requires db.sessions == db0.sessions && db.targets == db0.targets && db.archives == db0.archives
    requires FindJob(db.jobs, token) == Some(j) && db.jobs[j].lastToken != Some(token)
    requires Millis(now') < Millis(now + LEASE)
    requires !Blank(content.summary) && WellSized(env, content)
    ensures
      var admitted := Admit(db0, db0.jobs[j], plan.manifest, content);
      CommitStep(env, db, CommitRequest(token, content), now', at, true).1 ==
        (if admitted.Ok? then Committed(Finishes(db0, plan.manifest), false) else Rejected(admitted.error))
  {
    assert Admit(db, db.jobs[j], plan.manifest, content) == Admit(db0, db0.jobs[j], plan.manifest, content);
  }

  lemma LeasedTokenFound(s: Sys, db: Db, j: nat, plan: Plan, now: Time, token: Token)
    requires Structured(s) && token !in s.issued && j < |s.db.jobs|
    requires db.jobs == s.db.jobs[j := Lease(s.db.jobs[j], plan, now, token)]
    ensures FindJob(db.jobs, token) == Some(j) && db.jobs[j].lastToken != Some(token)
  {
    forall i | 0 <= i < |s.db.jobs|
      ensures s.db.jobs[i].token != Some(token) && s.db.jobs[i].lastToken != Some(token)
    {
      NotIssuedNotHeld(s, i, token);
    }
    assert db.jobs[j].token == Some(token) && db.jobs[j].lastToken == s.db.jobs[j].lastToken;
    assert forall i :: 0 <= i < |db.jobs| && i != j ==> db.jobs[i] == s.db.jobs[i];
  }

  lemma NotIssuedNotHeld(s: Sys, i: nat, token: Token)
    requires Structured(s) && token !in s.issued && i < |s.db.jobs|
    ensures s.db.jobs[i].token != Some(token) && s.db.jobs[i].lastToken != Some(token)
  {
    if s.db.jobs[i].lastToken.Some? {
      var last := s.db.jobs[i].lastToken.value;
      assert last in s.spent;
      var n :| 0 <= n < |s.spent| && s.spent[n] == last;
    }
  }

  /* ---- a late source ---- */

  /** Job j has an unconsumed source stamped after its checkpoint started, and nothing that
      would make a claim restart it. */
  ghost predicate Blocked(db: Db, j: nat, k: Key)
  {
    && j < |db.jobs| && db.jobs[j].status != Completed
    && db.jobs[j].period.bounds.Some? && db.jobs[j].state.Some?
    && var b := db.jobs[j].period.bounds.value;
    && var p := db.jobs[j].state.value;
    && k in db.sessions && InPeriod(k, b) && AfterCursor(p.cursor, k) && db.sessions[k].updatedAt > p.startedAt
    && PrefixValid(db.sessions, b.startKey, p) && p.archive == MetaAt(db.archives, db.jobs[j].period.name)
  }

  /** Events that leave the sources and the archives of other writers alone. */
  predicate Quiet(e: Event)
  {
    !e.WriteSession? && !e.DeleteSession? && !e.WriteArchive? && !e.DeleteArchive?
  }

  lemma BlockedResumes(db: Db, j: nat, k: Key, now: Time)
    requires Blocked(db, j, k)
    ensures
      var p := db.jobs[j].state.value;
      var p' := Resume(db, db.jobs[j], db.jobs[j].period.bounds.value, now);
      p' == p.(summary := p'.summary)
  {
  }

  lemma PlanProgress(env: Env, db: Db, j: nat, now: Time, token: Token)
    requires j < |db.jobs| && PlanClaim(env, db, j, now, token).Ok?
    ensures db.jobs[j].period.bounds.Some?
    ensures PlanClaim(env, db, j, now, token).value.progress ==
      Resume(db, db.jobs[j], db.jobs[j].period.bounds.value, now)
  {
  }

  lemma ClaimKeepsArchives(env: Env, s: Sys, request: string, now: Time, token: Token)
    ensures Step(env, s, Claim(request, now, token)).db.archives == s.db.archives
  {
  }

  /** A claim leaves a job alone or leases it with the progress it resumes from. */
  lemma ClaimKeepsOthers(env: Env, s: Sys, request: string, now: Time, token: Token, j: nat)
    requires |s.log| == |s.db.jobs| && j < |s.db.jobs|
    ensures
      var s' := Step(env, s, Claim(request, now, token));
      var job := s.db.jobs[j];
      && s'.db.sessions == s.db.sessions && s'.db.archives == s.db.archives && |s'.db.jobs| == |s.db.jobs|
      && (s'.db.jobs[j] == job ||
          (job.period.bounds.Some? && s'.db.jobs[j].status == Delivered && s'.db.jobs[j].period == job.period &&
           s'.db.jobs[j].state == Some(Resume(s.db, job, job.period.bounds.value, now))))
  {
    ClaimKeepsArchives(env, s, request, now, token);
    ClaimShape(env, s, request, now, token);
    if ClaimStep(env, s.db, request, now, token).1.Claimed? {
      PlanProgress(env, s.db, NextJob(s.db.jobs, now).value, now, token);
    }
  }

  lemma BlockedByClaim(env: Env, s: Sys, request: string, now: Time, token: Token, j: nat, k: Key)
    requires Structured(s) && Blocked(s.db, j, k)
    ensures Blocked(Step(env, s, Claim(request, now, token)).db, j, k)
  {
    var s' := Step(env, s, Claim(request, now, token));
    ClaimKeepsOthers(env, s, request, now, token, j);
    if s'.db.jobs[j] != s.db.jobs[j] {
      BlockedResumes(s.db, j, k, now);
    }
  }

  lemma BlockedByCommit(env: Env, s: Sys, req: CommitRequest, now: Time, at: Time, quota: bool, j: nat, k: Key)
    requires Structured(s) && Blocked(s.db, j, k)
    ensures Blocked(Step(env, s, Commit(req, now, at, quota)).db, j, k)
  {
    CommitShape(env, s, req, now, at, quota);
    CommitIsAtomic(env, s.db, req, now, at, quota);
    var s' := Step(env, s, Commit(req, now, at, quota));
    var out := CommitStep(env, s.db, req, now, at, quota).1;
    if out.Committed? && !out.replayed {
      assert s'.db == CommitStep(env, s.db, req, now, at, quota).0;
      var i := FindJob(s.db.jobs, req.token).value;
      var m := s.db.jobs[i].manifest.value;
      if i == j {
        KeyOrder();
        assert ManifestInv(map[], s.db.jobs[j].period.bounds.value, s.db.jobs[j].state.value, m);
        assert !AfterCursor(m.next.cursor, k) ==> k in Prefix(s.db.sessions, m.startKey, m.next.cursor);
        assert k in Remaining(s.db.sessions, Bounds(m.startKey, m.endKey), m.next.cursor);
      } else {
        assert s.db.jobs[i].period.name != s.db.jobs[j].period.name;
        assert s'.db.jobs[j] == s.db.jobs[j];
      }
    }
  }

  lemma BlockedByOther(env: Env, s: Sys, e: Event, j: nat, k: Key)
    requires Structured(s) && Blocked(s.db, j, k) && Quiet(e) && !e.Claim? && !e.Commit?
    ensures Blocked(Step(env, s, e).db, j, k)
  {
  }

  /** However often a blocked job is claimed and committed, it never completes, unless a source
      or its archive is changed by someone else. */
  lemma {:induction false} BlockedForever(env: Env, s: Sys, events: seq<Event>, j: nat, k: Key)
    requires Structured(s) && Blocked(s.db, j, k) && Arbitrary(env, s, events)
    requires forall i :: 0 <= i < |events| ==> Quiet(events[i])
    ensures Blocked(Run(env, s, events).db, j, k)
    decreases |events|
  {
    if events != [] {
      var e := events[0];
      match e {
        case Claim(request, now, token) => BlockedByClaim(env, s, request, now, token, j, k);
        case Commit(req, now, at, quota) => BlockedByCommit(env, s, req, now, at, quota, j, k);
        case _ => BlockedByOther(env, s, e, j, k);
      }
      StructuredKeeps(env, s, e);
      BlockedForever(env, Step(env, s, e), events[1..], j, k);
    }
  }

  /** Any source of the unconsumed part of the period written after a claim, with a stamp after the
      start of its checkpoint, blocks the job. */
  lemma WriteAfterClaimBlocks(env: Env, s: Sys, request: string, now: Time, token: Token, k: Key, content: string,
                              at: Time)
    requires Structured(s) && token !in s.issued
    requires ClaimStep(env, s.db, request, now, token).1.Claimed?
    requires
      var j := NextJob(s.db.jobs, now).value;
      var plan := PlanClaim(env, s.db, j, now, token).value;
      && at > plan.progress.startedAt && AfterCursor(plan.progress.cursor, k)
      && InPeriod(k, Bounds(plan.manifest.startKey, plan.manifest.endKey))
    ensures
      var s' := Step(env, Step(env, s, Claim(request, now, token)), WriteSession(k, content, at));
      Blocked(s'.db, NextJob(s.db.jobs, now).value, k)
  {
    var s1 := Step(env, s, Claim(request, now, token));
    ClaimedIsResumable(env, s, request, now, token);
    WriteBlocks(s1.db, Step(env, s1, WriteSession(k, content, at)).db, NextJob(s.db.jobs, now).value, k, content, at);
  }

  /** A claim leaves its job with a checkpoint that nothing restarts, begun no later than the claim. */
  lemma ClaimedIsResumable(env: Env, s: Sys, request: string, now: Time, token: Token)
    requires Structured(s) && token !in s.issued && ClaimStep(env, s.db, request, now, token).1.Claimed?
    ensures
      var s1, j := Step(env, s, Claim(request, now, token)), NextJob(s.db.jobs, now).value;
      var plan := PlanClaim(env, s.db, j, now, token).value;
      && j < |s1.db.jobs| && s1.db.jobs[j].status != Completed
      && s1.db.jobs[j].period.bounds == Some(Bounds(plan.manifest.startKey, plan.manifest.endKey))
      && s1.db.jobs[j].state == Some(plan.progress) && plan.progress.startedAt <= s1.lastClaim
      && PrefixValid(s1.db.sessions, plan.manifest.startKey, plan.progress)
      && plan.progress.archive == MetaAt(s1.db.archives, s1.db.jobs[j].period.name)
  {
    var s1, j := Step(env, s, Claim(request, now, token)), NextJob(s.db.jobs, now).value;
    ClaimShape(env, s, request, now, token);
    PlanHasParts(env, s.db, j, now, token);
    PlanShape(s.db, s.db.jobs[j], now, PlanClaim(env, s.db, j, now, token).value, s.log[j], s.lastClaim);
    assert s1.db.archives == s.db.archives;
    StructuredKeeps(env, s, Claim(request, now, token));
    assert JobInv(map[], s1.db.jobs[j], s1.log[j], s1.lastClaim);
  }

  lemma WriteBlocks(db: Db, db': Db, j: nat, k: Key, content: string, at: Time)
    requires j < |db.jobs| && db.jobs[j].status != Completed && db.jobs[j].period.bounds.Some? && db.jobs[j].state.Some?
    requires
      var b := db.jobs[j].period.bounds.value;
      var p := db.jobs[j].state.value;
      && InPeriod(k, b) && AfterCursor(p.cursor, k) && at > p.startedAt
      && PrefixValid(db.sessions, b.startKey, p) && p.archive == MetaAt(db.archives, db.jobs[j].period.name)
    requires db' == db.(sessions := Write(db.sessions, k, content, at))
    ensures Blocked(db', j, k)
  {
    var b := db.jobs[j].period.bounds.value;
    var p := db.jobs[j].state.value;
    if p.cursor.Some? {
      KeyTrichotomy(k, p.cursor.value);
      assert Prefix(db'.sessions, b.startKey, p.cursor) == Prefix(db.sessions, b.startKey, p.cursor);
    }
  }
}
