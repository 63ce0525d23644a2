/** Runs in which session rows are written with any stamps at all: which rows a checkpoint can miss,
    and exactly when a completion is exact nevertheless. */
module MaintenanceWrites {
  import opened Options
  import opened Ordering
  import opened Maintenance
  import opened MaintenanceProofs

  /** The observed system, and for each job the keys whose latest write it could not notice, since its
      checkpoint began. */
  datatype Watched = Watched(sys: Sys, missed: seq<set<Key>>)

  ghost function WatchStep(env: Env, w: Watched, e: Event): Watched
  {
    Watched(Step(env, w.sys, e), MissedAfter(env, w.sys, w.missed, e))
  }

  ghost function MissedAfter(env: Env, s: Sys, missed: seq<set<Key>>, e: Event): seq<set<Key>>
  {
    match e
    case Claim(request, now, token) =>
      var out := ClaimStep(env, s.db, request, now, token).1;
      if out.Claimed? && out.batch.header.job < |missed| && out.batch.header.job < |s.db.jobs|
      then MissedAfterClaim(s.db, missed, out.batch.header.job) else missed
    case WriteSession(k, content, at) => MissedAfterWrite(s.db.jobs, missed, k, at)
    case EnqueueJob(period, now) => if |Enqueue(s.db.jobs, period, now)| > |s.db.jobs| then missed + [{}] else missed
    case _ => missed
  }

  /** A restart reads every row again. */
  function MissedAfterClaim(db: Db, missed: seq<set<Key>>, j: nat): seq<set<Key>>
    requires j < |missed| && j < |db.jobs|
  {
    var job := db.jobs[j];
    if job.period.bounds.Some? && Restarts(db, job, job.period.bounds.value) then missed[j := {}] else missed
  }

  function MissedAfterWrite(jobs: seq<Job>, missed: seq<set<Key>>, k: Key, at: Time): (r: seq<set<Key>>)
    ensures |r| == |missed|
  {
    seq(|missed|, j requires 0 <= j < |missed| =>
      if j < |jobs| && !Noticed(jobs[j], k, at) then missed[j] + {k} else missed[j] - {k})
  }

  ghost function WatchRun(env: Env, w: Watched, events: seq<Event>): Watched
    decreases |events|
  {
    if events == [] then w else WatchRun(env, WatchStep(env, w, events[0]), events[1..])
  }

  lemma {:induction false} WatchRunIsRun(env: Env, w: Watched, events: seq<Event>)
    ensures WatchRun(env, w, events).sys == Run(env, w.sys, events)
    decreases |events|
  {
    if events != [] { WatchRunIsRun(env, WatchStep(env, w, events[0]), events[1..]); }
  }

  /** The rows a job can be trusted about. */
  function Seen(sessions: map<Key, Object>, missed: set<Key>): map<Key, Object>
  {
    map k | k in sessions && k !in missed :: sessions[k]
  }

  /** Each checkpoint stands for the rows its job could notice. */
  ghost predicate WatchInv(w: Watched)
  {
    && Frame(w.sys) && |w.missed| == |w.sys.db.jobs|
    && (forall i :: 0 <= i < |w.missed| ==>
          JobInv(Seen(w.sys.db.sessions, w.missed[i]), w.sys.db.jobs[i], w.sys.log[i], w.sys.lastClaim))
  }

  /* ---- steps ---- */

  /** Fewer rows to be trusted about. */
  lemma FewerRows(rows: map<Key, Object>, rows': map<Key, Object>, job: Job, l: seq<Source>, lastClaim: Time)
    requires JobInv(rows, job, l, lastClaim)
    requires forall k :: k in rows' ==> k in rows && rows'[k] == rows[k]
    ensures JobInv(rows', job, l, lastClaim)
  {
    WriteKeepsJob(rows, rows', job, l, lastClaim);
  }

  lemma ResumeTrusted(db: Db, missed: set<Key>, job: Job, b: Bounds, now: Time, l: seq<Source>, lastClaim: Time)
    requires job.state.Some? ==> LogInv(Seen(db.sessions, missed), b, l, job.state.value, lastClaim)
    ensures
      var restarts := Restarts(db, job, b);
      LogInv(Seen(db.sessions, if restarts then {} else missed), b, if restarts then [] else l,
             Resume(db, job, b, now), Max(lastClaim, now))
  {
  }

  /** Whatever the job missed, the page is read from the rows as they are. */
  lemma PlanReadsRows(env: Env, db: Db, j: nat, now: Time, token: Token)
    requires j < |db.jobs| && PlanClaim(env, db, j, now, token).Ok?
    ensures
      var job, plan := db.jobs[j], PlanClaim(env, db, j, now, token).value;
      && job.period.bounds.Some? && plan.progress == Resume(db, job, job.period.bounds.value, now)
      && ManifestInv(db.sessions, job.period.bounds.value, plan.progress, plan.manifest)
  {
    var plan := PlanClaim(env, db, j, now, token).value;
    PageCovers(env, db, db.jobs[j].period.bounds.value, plan.progress, plan.batch.header);
  }

  lemma LeaseTrusted(sessions: map<Key, Object>, missed: set<Key>, job: Job, plan: Plan, now: Time, token: Token,
                     l: seq<Source>, lastClaim: Time)
    requires job.period.bounds.Some? && LogInv(Seen(sessions, missed), job.period.bounds.value, l, plan.progress,
                                               lastClaim)
    requires ManifestInv(sessions, job.period.bounds.value, plan.progress, plan.manifest)
    ensures JobInv(Seen(sessions, missed), Lease(job, plan, now, token), l, lastClaim)
  {
  }

  lemma PlanTrusted(env: Env, db: Db, j: nat, now: Time, token: Token, missed: set<Key>, l: seq<Source>,
                    lastClaim: Time)
    requires j < |db.jobs| && JobInv(Seen(db.sessions, missed), db.jobs[j], l, lastClaim)
    requires PlanClaim(env, db, j, now, token).Ok?
    ensures
      var job, plan := db.jobs[j], PlanClaim(env, db, j, now, token).value;
      && job.period.bounds.Some?
      && var restarts := Restarts(db, job, job.period.bounds.value);
      JobInv(Seen(db.sessions, if restarts then {} else missed), Lease(job, plan, now, token),
             if restarts then [] else l, Max(lastClaim, now))
  {
    var job, plan := db.jobs[j], PlanClaim(env, db, j, now, token).value;
    PlanReadsRows(env, db, j, now, token);
    var b := job.period.bounds.value;
    ResumeTrusted(db, missed, job, b, now, l, lastClaim);
    LeaseTrusted(db.sessions, if Restarts(db, job, b) then {} else missed, job, plan, now, token,
                 if Restarts(db, job, b) then [] else l, Max(lastClaim, now));
  }

  lemma ClaimWatched(env: Env, w: Watched, request: string, now: Time, token: Token)
    requires WatchInv(w) && token !in w.sys.issued
    ensures WatchInv(WatchStep(env, w, Claim(request, now, token)))
  {
    var s, w' := w.sys, WatchStep(env, w, Claim(request, now, token));
    FrameByClaim(env, s, request, now, token);
    ClaimShape(env, s, request, now, token);
    if ClaimStep(env, s.db, request, now, token).1.Claimed? {
      ClaimStepShape(env, s.db, request, now, token);
      LeaseWatched(env, w, w', NextJob(s.db.jobs, now).value, now, token);
    } else {
      forall i | 0 <= i < |w.missed|
        ensures JobInv(Seen(w'.sys.db.sessions, w'.missed[i]), w'.sys.db.jobs[i], w'.sys.log[i], w'.sys.lastClaim)
      {
        JobInvLater(Seen(s.db.sessions, w.missed[i]), s.db.jobs[i], s.log[i], s.lastClaim, w'.sys.lastClaim);
      }
    }
  }

  lemma LeaseWatched(env: Env, w: Watched, w': Watched, j: nat, now: Time, token: Token)
    requires WatchInv(w) && Frame(w'.sys) && j < |w.sys.db.jobs|
    requires PlanClaim(env, w.sys.db, j, now, token).Ok?
    requires
      var s, s' := w.sys, w'.sys;
      && s'.db.sessions == s.db.sessions && s'.lastClaim == Max(s.lastClaim, now)
      && s'.db.jobs == s.db.jobs[j := Lease(s.db.jobs[j], PlanClaim(env, s.db, j, now, token).value, now, token)]
      && s'.log == LogAfterClaim(s, j) && w'.missed == MissedAfterClaim(s.db, w.missed, j)
    ensures WatchInv(w')
  {
    var s, s' := w.sys, w'.sys;
    forall i | 0 <= i < |w'.missed|
      ensures JobInv(Seen(s'.db.sessions, w'.missed[i]), s'.db.jobs[i], s'.log[i], s'.lastClaim)
    {
      if i == j {
        PlanTrusted(env, s.db, j, now, token, w.missed[j], s.log[j], s.lastClaim);
      } else {
        JobInvLater(Seen(s.db.sessions, w.missed[i]), s.db.jobs[i], s.log[i], s.lastClaim, s'.lastClaim);
      }
    }
  }

  lemma CommitWatched(env: Env, w: Watched, req: CommitRequest, now: Time, at: Time, quota: bool)
    requires WatchInv(w)
    ensures WatchInv(WatchStep(env, w, Commit(req, now, at, quota)))
  {
    var s, s' := w.sys, Step(env, w.sys, Commit(req, now, at, quota));
    FrameByCommit(env, s, req, now, at, quota);
    CommitShape(env, s, req, now, at, quota);
    var out := CommitStep(env, s.db, req, now, at, quota).1;
    if out.Committed? && !out.replayed {
      var j := FindJob(s.db.jobs, req.token).value;
      var job := s.db.jobs[j];
      AppendManifest(Seen(s.db.sessions, w.missed[j]), job.period.bounds.value, s.log[j], job.state.value,
                     job.manifest.value, s.lastClaim);
      assert JobInv(Seen(s'.db.sessions, w.missed[j]), s'.db.jobs[j], s'.log[j], s'.lastClaim);
    }
  }

  /** A write that a job can notice is trusted, any other is not. */
  lemma WriteWatched(w: Watched, w': Watched, k: Key, content: string, at: Time)
    requires WatchInv(w)
    requires w'.sys == w.sys.(db := w.sys.db.(sessions := Write(w.sys.db.sessions, k, content, at)))
    requires w'.missed == MissedAfterWrite(w.sys.db.jobs, w.missed, k, at)
    ensures WatchInv(w')
  {
    var s := w.sys;
    forall i | 0 <= i < |w.missed|
      ensures JobInv(Seen(w'.sys.db.sessions, w'.missed[i]), s.db.jobs[i], s.log[i], s.lastClaim)
    {
      WriteKeepsJob(Seen(s.db.sessions, w.missed[i]), Seen(w'.sys.db.sessions, w'.missed[i]), s.db.jobs[i], s.log[i],
                    s.lastClaim);
    }
  }

  lemma DeleteWatched(w: Watched, w': Watched)
    requires WatchInv(w) && w'.missed == w.missed
    requires w'.sys == w.sys.(db := w.sys.db.(sessions := w'.sys.db.sessions))
    requires forall k :: k in w'.sys.db.sessions ==>
      k in w.sys.db.sessions && w'.sys.db.sessions[k] == w.sys.db.sessions[k]
    ensures WatchInv(w')
  {
    var s := w.sys;
    forall i | 0 <= i < |w.missed|
      ensures JobInv(Seen(w'.sys.db.sessions, w'.missed[i]), s.db.jobs[i], s.log[i], s.lastClaim)
    {
      FewerRows(Seen(s.db.sessions, w.missed[i]), Seen(w'.sys.db.sessions, w.missed[i]), s.db.jobs[i], s.log[i],
                s.lastClaim);
    }
  }

  lemma RequeueWatched(w: Watched, w': Watched, cutoff: Time)
    requires WatchInv(w) && w'.missed == w.missed
    requires w'.sys == w.sys.(db := w.sys.db.(jobs := Requeue(w.sys.db.jobs, cutoff)))
    ensures WatchInv(w')
  {
    var s := w.sys;
    RequeueFrame(s, w'.sys, cutoff);
    forall i | 0 <= i < |w.missed|
      ensures JobInv(Seen(s.db.sessions, w.missed[i]), w'.sys.db.jobs[i], s.log[i], s.lastClaim)
    {
      RequeueJob(Seen(s.db.sessions, w.missed[i]), s.db.jobs[i], cutoff, s.log[i], s.lastClaim);
    }
  }

  lemma EnqueueWatched(env: Env, w: Watched, period: Period, now: Time)
    requires WatchInv(w)
    ensures WatchInv(WatchStep(env, w, EnqueueJob(period, now)))
  {
    var s, w' := w.sys, WatchStep(env, w, EnqueueJob(period, now));
    EnqueueFrame(s, w'.sys, period, now);
    forall i | 0 <= i < |w'.missed|
      ensures JobInv(Seen(w'.sys.db.sessions, w'.missed[i]), w'.sys.db.jobs[i], w'.sys.log[i], w'.sys.lastClaim)
    {
      if i < |w.missed| {
        assert JobInv(Seen(s.db.sessions, w.missed[i]), s.db.jobs[i], s.log[i], s.lastClaim);
      }
    }
  }

  lemma WatchKeeps(env: Env, w: Watched, e: Event)
    requires WatchInv(w) && DrawsFresh(w.sys, e)
    ensures WatchInv(WatchStep(env, w, e))
  {
    var w' := WatchStep(env, w, e);
    match e
    case Claim(request, now, token) => ClaimWatched(env, w, request, now, token);
    case Commit(req, now, at, quota) => CommitWatched(env, w, req, now, at, quota);
    case WriteSession(k, content, at) => WriteWatched(w, w', k, content, at);
    case DeleteSession(_) => DeleteWatched(w, w');
    case RequeueStale(cutoff) => RequeueWatched(w, w', cutoff);
    case EnqueueJob(period, now) => EnqueueWatched(env, w, period, now);
    case _ =>
  }

  lemma {:induction false} WatchRunKeeps(env: Env, w: Watched, events: seq<Event>)
    requires WatchInv(w) && Arbitrary(env, w.sys, events)
    ensures WatchInv(WatchRun(env, w, events))
    decreases |events|
  {
    if events != [] {
      WatchKeeps(env, w, events[0]);
      WatchRunKeeps(env, WatchStep(env, w, events[0]), events[1..]);
    }
  }

  /* ---- main results ---- */

  /** The rows of the period that the job missed are listed as they are stored. */
  ghost predicate MissedAreListed(sessions: map<Key, Object>, b: Bounds, missed: set<Key>, l: seq<Source>)
  {
    forall k :: k in missed && k in sessions && InPeriod(k, b) ==> Source(k, MetaOf(sessions[k])) in l
  }

  lemma TrustedCompletionIff(sessions: map<Key, Object>, b: Bounds, missed: set<Key>, l: seq<Source>, p: Progress,
                             lastClaim: Time)
    requires LogInv(Seen(sessions, missed), b, l, p, lastClaim)
    requires PrefixValid(sessions, b.startKey, p) && Remaining(sessions, b, p.cursor) == {}
    ensures Exact(sessions, b, l, p.startedAt) <==> MissedAreListed(sessions, b, missed, l)
  {
    if MissedAreListed(sessions, b, missed, l) {
      forall k | k in sessions && InSpan(b, None, p.cursor, k) && sessions[k].updatedAt <= p.startedAt
        ensures Source(k, MetaOf(sessions[k])) in l
      {
        if k in missed {
          InPeriodUpTo(k, p.cursor.value, b);
        } else {
          assert k in Seen(sessions, missed);
        }
      }
      CompletionExact(sessions, b, l, p, lastClaim);
    }
  }

  /** On every run whatever, with whatever stamps: when a commit completes a job, the sources committed
      since the job's last restart are exactly the period's sources at that moment if and only if every
      row of the period whose latest write the job could not notice is listed as it is stored. */
  lemma EveryCompletionIsExactIff(env: Env, start: Sys, events: seq<Event>, req: CommitRequest, now: Time, at: Time,
                                  quota: bool)
    requires Initial(start) && Arbitrary(env, start, events)
    requires CommitStep(env, Run(env, start, events).db, req, now, at, quota).1 == Committed(true, false)
    ensures
      var s, missed := Run(env, start, events), WatchRun(env, Watched(start, []), events).missed;
      var s' := Step(env, s, Commit(req, now, at, quota));
      var j := FindJob(s.db.jobs, req.token).value;
      && |s'.log| == |s.db.jobs| == |missed| && s.db.jobs[j].period.bounds.Some? && s.db.jobs[j].state.Some?
      && var b := s.db.jobs[j].period.bounds.value;
      Exact(s'.db.sessions, b, s'.log[j], s.db.jobs[j].state.value.startedAt) <==>
        MissedAreListed(s'.db.sessions, b, missed[j], s'.log[j])
  {
    var w := WatchRun(env, Watched(start, []), events);
    InitialInv(start);
    WatchRunKeeps(env, Watched(start, []), events);
    WatchRunIsRun(env, Watched(start, []), events);
    CompletionIff(env, w, req, now, at, quota);
  }

  lemma CompletionIff(env: Env, w: Watched, req: CommitRequest, now: Time, at: Time, quota: bool)
    requires WatchInv(w) && CommitStep(env, w.sys.db, req, now, at, quota).1 == Committed(true, false)
    ensures
      var s, s' := w.sys, Step(env, w.sys, Commit(req, now, at, quota));
      var j := FindJob(s.db.jobs, req.token).value;
      && |s'.log| == |s.db.jobs| && s'.db.sessions == s.db.sessions
      && s.db.jobs[j].period.bounds.Some? && s.db.jobs[j].state.Some?
      && var b := s.db.jobs[j].period.bounds.value;
      Exact(s'.db.sessions, b, s'.log[j], s.db.jobs[j].state.value.startedAt) <==>
        MissedAreListed(s'.db.sessions, b, w.missed[j], s'.log[j])
  {
    var s := w.sys;
    var j := FindJob(s.db.jobs, req.token).value;
    CommitShape(env, s, req, now, at, quota);
    var job := s.db.jobs[j];
    var b, m := job.period.bounds.value, job.manifest.value;
    AppendManifest(Seen(s.db.sessions, w.missed[j]), b, s.log[j], job.state.value, m, s.lastClaim);
    assert Bounds(m.startKey, m.endKey) == b;
    TrustedCompletionIff(s.db.sessions, b, w.missed[j], s.log[j] + m.sources, m.next, s.lastClaim);
  }

  predicate NoneMissed(missed: seq<set<Key>>) { forall i :: 0 <= i < |missed| ==> missed[i] == {} }

  /** While every job can notice every write, no job misses any. */
  lemma {:induction false} NoticedMissNothing(env: Env, w: Watched, events: seq<Event>)
    requires Possible(env, w.sys, events) && NoneMissed(w.missed)
    ensures NoneMissed(WatchRun(env, w, events).missed)
    decreases |events|
  {
    if events != [] {
      NoticedStep(env, w, events[0]);
      NoticedMissNothing(env, WatchStep(env, w, events[0]), events[1..]);
    }
  }

  lemma NoticedStep(env: Env, w: Watched, e: Event)
    requires Enabled(w.sys, e) && NoneMissed(w.missed)
    ensures NoneMissed(WatchStep(env, w, e).missed)
  {
  }

  function NoMisses(n: nat): (r: seq<set<Key>>)
    ensures |r| == n && NoneMissed(r)
  {
    seq(n, _ => {})
  }

  lemma InvIsWatched(s: Sys)
    requires Inv(s)
    ensures WatchInv(Watched(s, NoMisses(|s.db.jobs|)))
  {
    assert Seen(s.db.sessions, {}) == s.db.sessions;
  }

  /* ---- what holds of the checkpoints whatever was missed ---- */

  ghost predicate Structured(s: Sys)
  {
    Frame(s) && forall i :: 0 <= i < |s.db.jobs| ==> JobInv(map[], s.db.jobs[i], s.log[i], s.lastClaim)
  }

  lemma WatchedIsStructured(w: Watched)
    requires WatchInv(w)
    ensures Structured(w.sys)
  {
    var s := w.sys;
    forall i | 0 <= i < |w.missed| ensures JobInv(map[], s.db.jobs[i], s.log[i], s.lastClaim) {
      FewerRows(Seen(s.db.sessions, w.missed[i]), map[], s.db.jobs[i], s.log[i], s.lastClaim);
    }
  }

  lemma InvIsStructured(s: Sys)
    requires Inv(s)
    ensures Structured(s)
  {
    InvIsWatched(s);
    WatchedIsStructured(Watched(s, NoMisses(|s.db.jobs|)));
  }

  lemma StructuredIsWatched(s: Sys) returns (w: Watched)
    requires Structured(s)
    ensures WatchInv(w) && w.sys == s
  {
    w := Watched(s, seq(|s.db.jobs|, _ => s.db.sessions.Keys));
    assert Seen(s.db.sessions, s.db.sessions.Keys) == map[];
  }

  lemma StructuredKeeps(env: Env, s: Sys, e: Event)
    requires Structured(s) && DrawsFresh(s, e)
    ensures Structured(Step(env, s, e))
  {
    var w := StructuredIsWatched(s);
    WatchKeeps(env, w, e);
    WatchedIsStructured(WatchStep(env, w, e));
  }

  lemma {:induction false} RunStructured(env: Env, s: Sys, events: seq<Event>)
    requires Structured(s) && Arbitrary(env, s, events)
    ensures Structured(Run(env, s, events))
    decreases |events|
  {
    if events != [] {
      StructuredKeeps(env, s, events[0]);
      RunStructured(env, Step(env, s, events[0]), events[1..]);
    }
  }

  /** Every run from an empty queue leaves the checkpoints well formed, whatever is written. */
  lemma EveryRunIsStructured(env: Env, start: Sys, events: seq<Event>)
    requires Initial(start) && Arbitrary(env, start, events)
    ensures Structured(Run(env, start, events))
  {
    InitialInv(start);
    InvIsStructured(start);
    RunStructured(env, start, events);
  }
}
