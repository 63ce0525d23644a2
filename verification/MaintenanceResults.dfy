/** Further results about the maintenance protocol: retries, atomicity, page boundaries, and
    exactly when a claimed batch can be committed. */
module MaintenanceResults {
  import opened Options
  import opened Texts
  import opened Ordering
  import opened Maintenance
  import opened MaintenanceProofs

  /* ---- exact retry ---- */

  /** The last settled request of job j is still the recorded one, or it was superseded. */
  ghost predicate Recorded(s: Sys, j: nat, req: CommitRequest, completed: bool)
  {
    && j < |s.db.jobs| && req.token in s.spent
    && (s.db.jobs[j].lastToken == Some(req.token) ==>
          s.db.jobs[j].lastDigest == Some(req.content) && s.db.jobs[j].lastCompleted == completed)
  }

  lemma RecordedKept(env: Env, s: Sys, e: Event, j: nat, req: CommitRequest, completed: bool)
    requires Frame(s) && DrawsFresh(s, e) && Recorded(s, j, req, completed)
    ensures Recorded(Step(env, s, e), j, req, completed)
  {
    match e
    case Claim(request, now, token) => ClaimShape(env, s, request, now, token);
    case Commit(r, now, at, quota) => CommitShape(env, s, r, now, at, quota);
    case _ =>
  }

  lemma {:induction false} RecordedThroughRun(env: Env, s: Sys, events: seq<Event>, j: nat, req: CommitRequest,
                                              completed: bool)
    requires Frame(s) && Arbitrary(env, s, events) && Recorded(s, j, req, completed)
    ensures Recorded(Run(env, s, events), j, req, completed) && Frame(Run(env, s, events))
    decreases |events|
  {
    if events != [] {
      FrameKeeps(env, s, events[0]);
      RecordedKept(env, s, events[0], j, req, completed);
      RecordedThroughRun(env, Step(env, s, events[0]), events[1..], j, req, completed);
    }
  }

  lemma RetryAnswer(env: Env, s: Sys, j: nat, req: CommitRequest, completed: bool, now: Time, at: Time, quota: bool)
    requires Frame(s) && Recorded(s, j, req, completed) && s.db.jobs[j].lastToken == Some(req.token)
    requires !Blank(req.content.summary) && WellSized(env, req.content)
    ensures CommitStep(env, s.db, req, now, at, quota) == (s.db, Committed(completed, true))
  {
    assert FindJob(s.db.jobs, req.token) == Some(j);
  }

  /** A commit that takes effect is recorded as its job's latest request. */
  lemma CommitIsRecorded(env: Env, s: Sys, req: CommitRequest, now: Time, at: Time, quota: bool)
    requires Frame(s)
    requires
      var out := CommitStep(env, s.db, req, now, at, quota).1;
      out.Committed? && !out.replayed
    ensures
      var s' := Step(env, s, Commit(req, now, at, quota));
      && !Blank(req.content.summary) && WellSized(env, req.content)
      && Frame(s')
      && Recorded(s', FindJob(s.db.jobs, req.token).value, req, CommitStep(env, s.db, req, now, at, quota).1.completed)
  {
    CommitShape(env, s, req, now, at, quota);
    FrameByCommit(env, s, req, now, at, quota);
  }

  /** After a commit, and for as long as it is its job's latest one, an exact retry at any time
      changes nothing and returns the same answer. */
  lemma ExactRetryReturnsSameAnswer(env: Env, s: Sys, req: CommitRequest, now: Time, at: Time, quota: bool,
                                    after: seq<Event>, s': Sys, now': Time, at': Time, quota': bool)
    requires Frame(s)
    requires
      var out := CommitStep(env, s.db, req, now, at, quota).1;
      out.Committed? && !out.replayed
    requires Arbitrary(env, Step(env, s, Commit(req, now, at, quota)), after)
    requires s' == Run(env, Step(env, s, Commit(req, now, at, quota)), after)
    requires
      var j := FindJob(s.db.jobs, req.token).value;
      j < |s'.db.jobs| && s'.db.jobs[j].lastToken == Some(req.token)
    ensures CommitStep(env, s'.db, req, now', at', quota') ==
      (s'.db, Committed(CommitStep(env, s.db, req, now, at, quota).1.completed, true))
  {
    var j := FindJob(s.db.jobs, req.token).value;
    var completed := CommitStep(env, s.db, req, now, at, quota).1.completed;
    CommitIsRecorded(env, s, req, now, at, quota);
    RecordedThroughRun(env, Step(env, s, Commit(req, now, at, quota)), after, j, req, completed);
    RetryAnswer(env, s', j, req, completed, now', at', quota');
  }

  /* ---- all or nothing ---- */

  /** The supplied values are exactly the updates, one per target. */
  lemma {:induction false} ValuesFaithful(updates: seq<Update>)
    requires Values(updates).Ok?
    ensures |Values(updates).value| == |updates|
    ensures forall t :: t in Values(updates).value ==> Update(t, Values(updates).value[t]) in updates
  {
    if updates != [] {
      var n := |updates| - 1;
      ValuesFaithful(updates[..n]);
      var prior := Values(updates[..n]).value;
      var v := Values(updates).value;
      assert v == prior[updates[n].target := updates[n].content];
      forall t | t in v ensures Update(t, v[t]) in updates {
        if t == updates[n].target {
          assert updates[n] == Update(t, v[t]);
        } else {
          assert Update(t, prior[t]) in updates[..n];
        }
      }
    }
  }

  lemma {:induction false} SwapTargetsEffect(rows: map<TargetKey, Object>, targets: seq<Target>,
                                             values: map<TargetKey, string>, at: Time)
    requires AllSupplied(targets, values) && CheckTargets(rows, targets).None?
    ensures
      var rows' := SwapTargets(rows, targets, values, at);
      && (forall i :: 0 <= i < |targets| ==>
            targets[i].target in rows'
              && rows'[targets[i].target] == Object(targets[i].meta.version + 1, values[targets[i].target], at))
      && (forall t :: (forall i :: 0 <= i < |targets| ==> targets[i].target != t) ==> (t in rows' <==> t in rows))
      && (forall t :: t in rows && (forall i :: 0 <= i < |targets| ==> targets[i].target != t) ==> rows'[t] == rows[t])
  {
    if targets != [] {
      var n := |targets| - 1;
      SwapTargetsEffect(rows, targets[..n], values, at);
      forall i | 0 <= i < n
        ensures
          var rows' := SwapTargets(rows, targets, values, at);
          targets[i].target in rows'
            && rows'[targets[i].target] == Object(targets[i].meta.version + 1, values[targets[i].target], at)
      {
        assert targets[..n][i] == targets[i];
        assert CheckObject(rows, targets[i].target, targets[i].meta).None?;
        assert CheckObject(rows, targets[n].target, targets[n].meta).None?;
      }
    }
  }

  /** Every target of the manifest carries its supplied content one version later. */
  ghost predicate TargetsWritten(rows: map<TargetKey, Object>, rows': map<TargetKey, Object>, m: Manifest,
                                 updates: seq<Update>)
  {
    && (forall i :: 0 <= i < |m.targets| ==>
          && m.targets[i].target in rows'
          && rows'[m.targets[i].target].version == m.targets[i].meta.version + 1
          && Update(m.targets[i].target, rows'[m.targets[i].target].content) in updates)
    && (forall t :: t in rows && (forall i :: 0 <= i < |m.targets| ==> m.targets[i].target != t) ==>
          t in rows' && rows'[t] == rows[t])
  }

  lemma AdmittedTargetsWritten(db: Db, job: Job, m: Manifest, content: Digest, at: Time)
    requires Admit(db, job, m, content).Ok?
    ensures AllSupplied(m.targets, Admit(db, job, m, content).value)
    ensures TargetsWritten(db.targets, SwapTargets(db.targets, m.targets, Admit(db, job, m, content).value, at), m,
      content.updates)
  {
    var values := Values(content.updates).value;
    ValuesFaithful(content.updates);
    SwapTargetsEffect(db.targets, m.targets, values, at);
  }

  /** A commit writes every target, the archive when it completes, and the checkpoint, or nothing. */
  lemma CommitIsAtomic(env: Env, db: Db, req: CommitRequest, now: Time, at: Time, quota: bool)
    ensures
      var (db', out) := CommitStep(env, db, req, now, at, quota);
      && db'.sessions == db.sessions && db'.receipts == db.receipts
      && (out.Rejected? || out.replayed ==> db' == db)
      && (out.Committed? && !out.replayed ==>
            var j := FindJob(db.jobs, req.token).value;
            var job := db.jobs[j];
            && job.manifest.Some?
            && var m := job.manifest.value;
            && TargetsWritten(db.targets, db'.targets, m, req.content.updates)
            && db'.archives == (if out.completed then db.archives[job.period.name := Object(m.archive.version + 1,
              req.content.summary, at)] else db.archives)
            && db'.jobs == db.jobs[j := Settle(job, m, req, out.completed)])
  {
    var (db', out) := CommitStep(env, db, req, now, at, quota);
    if out.Committed? && !out.replayed {
      var j := FindJob(db.jobs, req.token).value;
      AdmittedTargetsWritten(db, db.jobs[j], db.jobs[j].manifest.value, req.content, at);
    }
  }

  /* ---- page boundary ---- */

  /** has_more is true exactly when a source of the period is left after the batch. */
  lemma HasMoreIsExact(env: Env, db: Db, j: nat, now: Time, token: Token)
    requires j < |db.jobs| && PlanClaim(env, db, j, now, token).Ok?
    ensures
      var m := PlanClaim(env, db, j, now, token).value.manifest;
      m.hasMore <==> Remaining(db.sessions, Bounds(m.startKey, m.endKey), m.next.cursor) != {}
  {
    var plan := PlanClaim(env, db, j, now, token).value;
    var b := db.jobs[j].period.bounds.value;
    var p := plan.progress;
    var rows := Sorted(Remaining(db.sessions, b, p.cursor));
    var page := PageOf(db, b, p);
    var n := |plan.batch.sessions|;
    PageIsSortedPrefix(env, db, b, p, plan.batch.header);
    RemainingAfterPrefix(db.sessions, b, p, plan.manifest.sources);
  }

  lemma PageIsSortedPrefix(env: Env, db: Db, b: Bounds, p: Progress, h: Header)
    requires
      var page := PageOf(db, b, p);
      FitPage(env, db, h, page, |page|, MoreAfterPage(db, b, p)).Ok?
    ensures
      var page := PageOf(db, b, p);
      var batch := FitPage(env, db, h, page, |page|, MoreAfterPage(db, b, p)).value;
      var sources := SourcesOf(batch.sessions);
      var rows := Sorted(Remaining(db.sessions, b, p.cursor));
      && |sources| <= |rows| && |sources| <= MAX_SESSIONS
      && (rows != [] ==> sources != [])
      && (batch.hasMore <==> |sources| < |rows|)
      && (forall i :: 0 <= i < |sources| ==>
        rows[i] in db.sessions && sources[i] == Source(rows[i], MetaOf(db.sessions[rows[i]])))
  {
    var page := PageOf(db, b, p);
    var rows := Sorted(Remaining(db.sessions, b, p.cursor));
    var batch := FitPage(env, db, h, page, |page|, MoreAfterPage(db, b, p)).value;
    var sources := SourcesOf(batch.sessions);
    forall i | 0 <= i < |sources|
      ensures rows[i] in db.sessions && sources[i] == Source(rows[i], MetaOf(db.sessions[rows[i]]))
    {
      assert rows[i] == page[i] && page[i] in page;
    }
  }

  lemma RemainingAfterPrefix(sessions: map<Key, Object>, b: Bounds, p: Progress, sources: seq<Source>)
    requires
      var rows := Sorted(Remaining(sessions, b, p.cursor));
      && |sources| <= |rows| && (rows != [] ==> sources != [])
      && forall i :: 0 <= i < |sources| ==>
        rows[i] in sessions && sources[i] == Source(rows[i], MetaOf(sessions[rows[i]]))
    ensures
      var rows := Sorted(Remaining(sessions, b, p.cursor));
      |sources| < |rows| <==> Remaining(sessions, b, Advance(p, sources).cursor) != {}
  {
    var rows := Sorted(Remaining(sessions, b, p.cursor));
    var n := |sources|;
    var next := Advance(p, sources).cursor;
    if n < |rows| {
      assert rows[n] in rows && Before(rows[n - 1], rows[n]);
      assert rows[n] in Remaining(sessions, b, next);
    } else {
      forall k | k in sessions && InPeriod(k, b) ensures !AfterCursor(next, k) {
        NothingAfterLast(sessions, b, p, rows, k);
      }
    }
  }

  lemma NothingAfterLast(sessions: map<Key, Object>, b: Bounds, p: Progress, rows: seq<Key>, k: Key)
    requires rows == Sorted(Remaining(sessions, b, p.cursor)) && k in sessions && InPeriod(k, b)
    ensures rows == [] ==> !AfterCursor(p.cursor, k)
    ensures rows != [] ==> !Before(rows[|rows| - 1], k)
  {
    if rows == [] {
      assert k !in rows;
    } else {
      var last := rows[|rows| - 1];
      KeyTrichotomy(last, k);
      if AfterCursor(p.cursor, k) {
        assert k in rows;
        var i :| 0 <= i < |rows| && rows[i] == k;
        KeyTrichotomy(k, k);
      } else {
        assert last in rows;
        assert !Before(last, k) by {
          if Before(last, k) { KeyTransitive(p.cursor.value, last, k); }
        }
      }
    }
  }
}
