/** What a session write between a claim and its completing commit does. The writer takes its stamp
    before it waits for the learner's lock, so the stamp may be older than the checkpoint. */
module MaintenanceStamps {
  import opened Options
  import opened Ordering
  import opened Maintenance
  import opened MaintenanceProofs
  import opened MaintenanceWrites

  /** The manifest of the job that a commit's token finds. */
  function LeasedManifest(db: Db, token: Token): Option<Manifest>
  {
    var found := FindJob(db.jobs, token);
    if found.Some? then db.jobs[found.value].manifest else None
  }

  /** Of a commit that would complete its job, what depends on the session rows. */
  predicate StillCompletes(db: Db, m: Manifest)
  {
    PrefixValid(db.sessions, m.startKey, m.next) && CheckSources(db.sessions, m.sources).None? && Finishes(db, m)
  }

  lemma CompletesIff(env: Env, db: Db, db': Db, req: CommitRequest, now: Time, at: Time, quota: bool)
    requires CommitStep(env, db, req, now, at, quota).1 == Committed(true, false)
    requires db' == db.(sessions := db'.sessions)
    ensures
      var m := LeasedManifest(db, req.token);
      && m.Some? && StillCompletes(db, m.value)
      && (CommitStep(env, db', req, now, at, quota).1 == Committed(true, false) <==> StillCompletes(db', m.value))
  {
  }

  /** The page ends no earlier than the checkpoint it continues. */
  lemma ConsumedUpToPage(sessions: map<Key, Object>, b: Bounds, p: Progress, m: Manifest, k: Key)
    requires ManifestInv(sessions, b, p, m) && UpToCursor(p.cursor, k)
    ensures UpToCursor(m.next.cursor, k)
  {
    if m.sources != [] {
      var last := m.sources[|m.sources| - 1].key;
      assert AfterCursor(p.cursor, last);
      if k != p.cursor.value { KeyTransitive(k, p.cursor.value, last); }
    }
  }

  /** A new row where the job has already read passes the prefix check exactly when the count was one
      short and every stamp, its own included, is no later than the start. */
  lemma NewRowPassesIff(sessions: map<Key, Object>, startKey: string, p: Progress, k: Key, content: string, stamp: Time)
    requires k !in sessions && !TextBefore(k.major, startKey) && UpToCursor(p.cursor, k)
    ensures
      var done := Prefix(sessions, startKey, p.cursor);
      PrefixValid(Write(sessions, k, content, stamp), startKey, p) <==>
        && |done| + 1 == p.consumed && stamp <= p.startedAt
        && forall k' :: k' in done ==> sessions[k'].updatedAt <= p.startedAt
  {
    var after := Write(sessions, k, content, stamp);
    var done, done' := Prefix(sessions, startKey, p.cursor), Prefix(after, startKey, p.cursor);
    assert done' == done + {k} && k !in done;
    assert forall k' :: k' in done ==> after[k'] == sessions[k'];
    assert k in done' && after[k].updatedAt == stamp;
  }

  /** An edit of a source of the leased page is seen in its version. */
  lemma PageRowRefused(sessions: map<Key, Object>, b: Bounds, p: Progress, m: Manifest, k: Key, content: string,
                       stamp: Time)
    requires ManifestInv(sessions, b, p, m) && PrefixValid(sessions, m.startKey, m.next)
    requires k in sessions && InSpan(b, p.cursor, m.next.cursor, k)
    ensures CheckSources(Write(sessions, k, content, stamp), m.sources).Some?
  {
    assert k in Prefix(sessions, m.startKey, m.next.cursor);
    assert Source(k, MetaOf(sessions[k])) in m.sources;
    var i :| 0 <= i < |m.sources| && m.sources[i] == Source(k, MetaOf(sessions[k]));
    assert CheckObject(Write(sessions, k, content, stamp), m.sources[i].key, m.sources[i].meta).Some?;
  }

  /** An edit of an already committed source with an old stamp is not seen. */
  lemma OldStampUnseen(db: Db, b: Bounds, p: Progress, m: Manifest, k: Key, content: string, stamp: Time)
    requires ManifestInv(db.sessions, b, p, m) && StillCompletes(db, m)
    requires k in Prefix(db.sessions, b.startKey, p.cursor) && stamp <= p.startedAt
    ensures StillCompletes(db.(sessions := Write(db.sessions, k, content, stamp)), m)
  {
    var after := Write(db.sessions, k, content, stamp);
    assert Prefix(after, m.startKey, m.next.cursor) == Prefix(db.sessions, m.startKey, m.next.cursor);
    assert Remaining(after, b, m.next.cursor) == Remaining(db.sessions, b, m.next.cursor);
    forall i | 0 <= i < |m.sources| ensures CheckObject(after, m.sources[i].key, m.sources[i].meta).None? {
      assert AfterCursor(p.cursor, m.sources[i].key);
      KeyTrichotomy(k, p.cursor.value);
      assert m.sources[i].key != k;
    }
    SourcesPass(after, m.sources);
  }

  /** The listed version of an edited source is no longer the stored one. */
  lemma EditedIsInexact(sessions: map<Key, Object>, b: Bounds, l: seq<Source>, p: Progress, lastClaim: Time,
                        page: seq<Source>, k: Key, content: string, stamp: Time)
    requires LogInv(sessions, b, l, p, lastClaim)
    requires k in Prefix(sessions, b.startKey, p.cursor) && sessions[k].updatedAt <= p.startedAt
    ensures !Exact(Write(sessions, k, content, stamp), b, l + page, p.startedAt)
  {
    assert Source(k, MetaOf(sessions[k])) in l;
    var i :| 0 <= i < |l| && l[i] == Source(k, MetaOf(sessions[k]));
    assert (l + page)[i] == l[i];
  }

  /** After a write that the job can notice, a completing commit covers the period exactly. */
  lemma NoticedIsExact(sessions: map<Key, Object>, job: Job, l: seq<Source>, lastClaim: Time, after: Db, k: Key,
                       content: string, stamp: Time)
    requires JobInv(sessions, job, l, lastClaim) && job.manifest.Some? && Noticed(job, k, stamp)
    requires after.sessions == Write(sessions, k, content, stamp) && StillCompletes(after, job.manifest.value)
    ensures Exact(after.sessions, job.period.bounds.value, l + job.manifest.value.sources, job.state.value.startedAt)
  {
    var m, b := job.manifest.value, job.period.bounds.value;
    WriteKeepsJob(sessions, after.sessions, job, l, lastClaim);
    AppendManifest(after.sessions, b, l, job.state.value, m, lastClaim);
    assert Bounds(m.startKey, m.endKey) == b;
    CompletionExact(after.sessions, b, l + m.sources, m.next, lastClaim);
  }

  /** The same, about one job: the commit still completes, and inexactly, in one case only. */
  lemma InexactIff(db: Db, job: Job, l: seq<Source>, lastClaim: Time, k: Key, content: string, stamp: Time)
    requires JobInv(db.sessions, job, l, lastClaim) && job.manifest.Some? && StillCompletes(db, job.manifest.value)
    ensures
      var after := db.(sessions := Write(db.sessions, k, content, stamp));
      var b, p, m := job.period.bounds.value, job.state.value, job.manifest.value;
      (StillCompletes(after, m) && !Exact(after.sessions, b, l + m.sources, p.startedAt)) <==>
        (k in Prefix(db.sessions, b.startKey, p.cursor) && stamp <= p.startedAt)
  {
    var after := db.(sessions := Write(db.sessions, k, content, stamp));
    var b, p, m := job.period.bounds.value, job.state.value, job.manifest.value;
    if k in Prefix(db.sessions, b.startKey, p.cursor) && stamp <= p.startedAt {
      ConsumedUpToPage(db.sessions, b, p, m, k);
      OldStampUnseen(db, b, p, m, k, content, stamp);
      assert k in Prefix(db.sessions, b.startKey, m.next.cursor);
      EditedIsInexact(db.sessions, b, l, p, lastClaim, m.sources, k, content, stamp);
    } else if Noticed(job, k, stamp) {
      if StillCompletes(after, m) { NoticedIsExact(db.sessions, job, l, lastClaim, after, k, content, stamp); }
    } else {
      if UpToCursor(p.cursor, k) { ConsumedUpToPage(db.sessions, b, p, m, k); }
      if k !in db.sessions {
        NewRowPassesIff(db.sessions, b.startKey, m.next, k, content, stamp);
      } else {
        assert AfterCursor(p.cursor, k) by { if p.cursor.Some? { KeyTrichotomy(k, p.cursor.value); } }
        PageRowRefused(db.sessions, b, p, m, k, content, stamp);
      }
    }
  }

  /** A commit about to complete its job, and any one session write just before it: the commit then
      completes without covering the period exactly if and only if the write edits a source that an
      earlier batch committed and carries a stamp no later than the start of the checkpoint. */
  lemma WriteBeforeCommitInexactIff(env: Env, s: Sys, req: CommitRequest, now: Time, at: Time, quota: bool,
                                    k: Key, content: string, stamp: Time)
    requires Inv(s) && CommitStep(env, s.db, req, now, at, quota).1 == Committed(true, false)
    ensures
      var j := FindJob(s.db.jobs, req.token).value;
      var s1 := Step(env, s, WriteSession(k, content, stamp));
      var s2 := Step(env, s1, Commit(req, now, at, quota));
      && |s2.log| == |s.db.jobs| && s.db.jobs[j].period.bounds.Some? && s.db.jobs[j].state.Some?
      && var b, p := s.db.jobs[j].period.bounds.value, s.db.jobs[j].state.value;
      (CommitStep(env, s1.db, req, now, at, quota).1 == Committed(true, false)
       && !Exact(s2.db.sessions, b, s2.log[j], p.startedAt)) <==>
        (k in Prefix(s.db.sessions, b.startKey, p.cursor) && stamp <= p.startedAt)
  {
    var j := FindJob(s.db.jobs, req.token).value;
    var s1 := Step(env, s, WriteSession(k, content, stamp));
    CompletesIff(env, s.db, s1.db, req, now, at, quota);
    CommitShape(env, s1, req, now, at, quota);
    InexactIff(s.db, s.db.jobs[j], s.log[j], s.lastClaim, k, content, stamp);
  }

  /** A row where the job has already read lies in its period. */
  lemma ConsumedInPeriod(sessions: map<Key, Object>, job: Job, l: seq<Source>, lastClaim: Time, k: Key)
    requires JobInv(sessions, job, l, lastClaim) && Consumed(job, k)
    ensures InPeriod(k, job.period.bounds.value)
  {
    var b, p := job.period.bounds.value, job.state.value;
    if UpToCursor(p.cursor, k) {
      InPeriodUpTo(k, p.cursor.value, b);
    } else {
      InPeriodUpTo(k, job.manifest.value.next.cursor.value, b);
    }
  }

  /** Any one session write, and any commit after it that completes its job: the completion is inexact
      if and only if the job cannot notice the write and does not list the row as it was written. */
  lemma CompletionAfterWriteIff(env: Env, s: Sys, req: CommitRequest, now: Time, at: Time, quota: bool,
                                k: Key, content: string, stamp: Time)
    requires Inv(s)
    requires
      var s1 := Step(env, s, WriteSession(k, content, stamp));
      CommitStep(env, s1.db, req, now, at, quota).1 == Committed(true, false)
    ensures
      var j := FindJob(s.db.jobs, req.token).value;
      var s1 := Step(env, s, WriteSession(k, content, stamp));
      var s2 := Step(env, s1, Commit(req, now, at, quota));
      && |s2.log| == |s.db.jobs| && s.db.jobs[j].period.bounds.Some? && s.db.jobs[j].state.Some?
      && var b, p := s.db.jobs[j].period.bounds.value, s.db.jobs[j].state.value;
      !Exact(s2.db.sessions, b, s2.log[j], p.startedAt) <==>
        !Noticed(s.db.jobs[j], k, stamp) && Source(k, MetaOf(s1.db.sessions[k])) !in s2.log[j]
  {
    var j, w := FindJob(s.db.jobs, req.token).value, Watched(s, NoMisses(|s.db.jobs|));
    var w1 := WatchStep(env, w, WriteSession(k, content, stamp));
    InvIsWatched(s);
    WatchKeeps(env, w, WriteSession(k, content, stamp));
    CompletionIff(env, w1, req, now, at, quota);
    OneMissed(s.db.sessions, s.db.jobs[j], s.log[j], s.lastClaim, k, stamp, w1.sys.db.sessions, w1.missed[j],
              Step(env, w1.sys, Commit(req, now, at, quota)).log[j]);
  }

  lemma OneMissed(before: map<Key, Object>, job: Job, l: seq<Source>, lastClaim: Time, k: Key, stamp: Time,
                  sessions: map<Key, Object>, missed: set<Key>, l': seq<Source>)
    requires JobInv(before, job, l, lastClaim) && job.period.bounds.Some? && k in sessions
    requires missed == if Noticed(job, k, stamp) then {} else {k}
    ensures MissedAreListed(sessions, job.period.bounds.value, missed, l') <==>
      Noticed(job, k, stamp) || Source(k, MetaOf(sessions[k])) in l'
  {
    if Consumed(job, k) { ConsumedInPeriod(before, job, l, lastClaim, k); }
  }
}
