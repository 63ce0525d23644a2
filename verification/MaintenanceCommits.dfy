/** Exactly when a commit takes effect, and why it is refused otherwise. */
module MaintenanceCommits {
  import opened Options
  import opened Texts
  import opened Ordering
  import opened Maintenance
  import opened MaintenanceProofs
  import opened MaintenanceResults

  /* ---- the supplied updates ---- */

  /** Every update is small enough, and no target is named twice. */
  predicate Separate(updates: seq<Update>)
  {
    && (forall i :: 0 <= i < |updates| ==> |updates[i].content| <= MAX_OBJECT_BYTES)
    && (forall i, j :: 0 <= i < j < |updates| ==> updates[i].target != updates[j].target)
  }

  predicate Names(updates: seq<Update>, t: TargetKey)
  {
    exists i :: 0 <= i < |updates| && updates[i].target == t
  }

  lemma {:induction false} ValuesIff(updates: seq<Update>)
    ensures Values(updates).Ok? <==> Separate(updates)
    ensures Values(updates).Ok? ==> forall t :: t in Values(updates).value <==> Names(updates, t)
    ensures Values(updates).Err? ==> Values(updates).error in {Budget, DuplicateUpdate}
  {
    if updates != [] {
      var n := |updates| - 1;
      ValuesIff(updates[..n]);
      assert forall i :: 0 <= i < n ==> updates[..n][i] == updates[i];
      assert Separate(updates) ==> Separate(updates[..n]);
      if Separate(updates[..n]) {
        assert Names(updates[..n], updates[n].target) ==> !Separate(updates);
        forall t ensures Names(updates, t) <==> Names(updates[..n], t) || t == updates[n].target {
          if Names(updates[..n], t) {
            var i :| 0 <= i < n && updates[..n][i].target == t;
            assert updates[i].target == t;
          }
        }
      }
    }
  }

  /** One update for each listed target, and nothing else. */
  predicate OneForEach(updates: seq<Update>, targets: seq<Target>)
  {
    && |updates| == |targets| && Separate(updates)
    && forall i :: 0 <= i < |targets| ==> Names(updates, targets[i].target)
  }

  /* ---- the listed rows ---- */

  /** The row has the listed version and content; a row listed as missing is missing. */
  predicate Matches<K>(rows: map<K, Object>, k: K, expected: Meta)
  {
    if k in rows then rows[k].version == expected.version && Some(rows[k].content) == expected.checksum
    else expected.version == 0
  }

  predicate RowsMatch(db: Db, name: string, m: Manifest)
  {
    && (forall i :: 0 <= i < |m.sources| ==> Matches(db.sessions, m.sources[i].key, m.sources[i].meta))
    && (forall i :: 0 <= i < |m.targets| ==> Matches(db.targets, m.targets[i].target, m.targets[i].meta))
    && Matches(db.archives, name, m.archive)
  }

  lemma CheckIff<K>(rows: map<K, Object>, k: K, expected: Meta)
    ensures CheckObject(rows, k, expected).None? <==> Matches(rows, k, expected)
    ensures CheckObject(rows, k, expected).Some? ==>
      CheckObject(rows, k, expected).value == if k in rows then Conflict else NotFound
  {
  }

  lemma {:induction false} SourcesIff(sessions: map<Key, Object>, sources: seq<Source>)
    ensures CheckSources(sessions, sources).None? <==>
      forall i :: 0 <= i < |sources| ==> Matches(sessions, sources[i].key, sources[i].meta)
    ensures CheckSources(sessions, sources).Some? ==> CheckSources(sessions, sources).value in {Conflict, NotFound}
  {
    if sources != [] {
      var n := |sources| - 1;
      SourcesIff(sessions, sources[..n]);
      CheckIff(sessions, sources[n].key, sources[n].meta);
      assert forall i :: 0 <= i < n ==> sources[..n][i] == sources[i];
    }
  }

  lemma {:induction false} TargetsIff(rows: map<TargetKey, Object>, targets: seq<Target>)
    ensures CheckTargets(rows, targets).None? <==>
      forall i :: 0 <= i < |targets| ==> Matches(rows, targets[i].target, targets[i].meta)
    ensures CheckTargets(rows, targets).Some? ==> CheckTargets(rows, targets).value in {Conflict, NotFound}
  {
    if targets != [] {
      var n := |targets| - 1;
      TargetsIff(rows, targets[..n]);
      CheckIff(rows, targets[n].target, targets[n].meta);
      assert forall i :: 0 <= i < n ==> targets[..n][i] == targets[i];
    }
  }

  /* ---- admission ---- */

  predicate Fits(m: Manifest) { |m.sources| <= MAX_SESSIONS && |m.targets| <= MAX_CONCEPTS + 2 }

  /** The prefix is valid and every listed row is as it was claimed. */
  predicate Undisturbed(db: Db, job: Job, m: Manifest)
  {
    PrefixValid(db.sessions, m.startKey, m.next) && RowsMatch(db, job.period.name, m)
  }

  lemma AdmitIff(db: Db, job: Job, m: Manifest, content: Digest)
    ensures
      var r := Admit(db, job, m, content);
      && (r.Ok? <==> Fits(m) && OneForEach(content.updates, m.targets) && Undisturbed(db, job, m))
      && (Fits(m) && |content.updates| == |m.targets| && Separate(content.updates) && !Undisturbed(db, job, m) ==>
            r.Err? && r.error in {Conflict, NotFound})
      && (Fits(m) && |content.updates| != |m.targets| ==> r == Err(WrongCount))
      && (Fits(m) && |content.updates| == |m.targets| && !Separate(content.updates) ==>
            r in {Err(Budget), Err(DuplicateUpdate)})
      && (Fits(m) && |content.updates| == |m.targets| && Separate(content.updates) && Undisturbed(db, job, m) ==>
            OneForEach(content.updates, m.targets) || r == Err(MissingUpdate))
  {
    ValuesIff(content.updates);
    SourcesIff(db.sessions, m.sources);
    TargetsIff(db.targets, m.targets);
    CheckIff(db.archives, job.period.name, m.archive);
  }

  /** The one job that holds the token, by the frame of every run. */
  lemma HolderIsFound(s: Sys, j: nat, token: Token)
    requires Frame(s) && j < |s.db.jobs| && s.db.jobs[j].token == Some(token)
    ensures FindJob(s.db.jobs, token) == Some(j) && s.db.jobs[j].lastToken != Some(token)
  {
    var jobs, found := s.db.jobs, FindJob(s.db.jobs, token);
    assert found.Some? && jobs[found.value].lastToken != Some(token);
    assert jobs[found.value].token == Some(token);
  }

  /** A job with that token, a live lease and a page. */
  predicate Holder(db: Db, j: nat, token: Token, now: Time)
  {
    j < |db.jobs| && db.jobs[j].token == Some(token) && Live(db.jobs[j], now) && db.jobs[j].manifest.Some?
  }

  /** In every state of every run, for the holder of a live lease: its commit takes effect exactly when
      it is non-blank and in size, names every listed target once and nothing else, the prefix is valid,
      every listed source, target and archive row is as it was claimed, and the quotas admit it. */
  lemma CommitTakesEffectIff(env: Env, s: Sys, j: nat, req: CommitRequest, now: Time, at: Time, quota: bool)
    requires Frame(s) && Holder(s.db, j, req.token, now)
    ensures
      var job := s.db.jobs[j];
      var m, out := job.manifest.value, CommitStep(env, s.db, req, now, at, quota).1;
      && (out.Committed? <==>
            && !Blank(req.content.summary) && WellSized(env, req.content) && Fits(m)
            && OneForEach(req.content.updates, m.targets) && Undisturbed(s.db, job, m) && quota)
      && (out.Committed? ==> !out.replayed && (out.completed <==> Finishes(s.db, m)))
  {
    HolderIsFound(s, j, req.token);
    AdmitIff(s.db, s.db.jobs[j], s.db.jobs[j].manifest.value, req.content);
  }

  /** And when it does not: a blank summary, a size, a disturbed row, a wrong set of updates or the
      quotas, in that order of precedence for well-formed contents. */
  lemma CommitRefusal(env: Env, s: Sys, j: nat, req: CommitRequest, now: Time, at: Time, quota: bool)
    requires Frame(s) && Holder(s.db, j, req.token, now)
    ensures
      var job := s.db.jobs[j];
      var m, (db, out) := job.manifest.value, CommitStep(env, s.db, req, now, at, quota);
      && (out.Rejected? ==> db == s.db)
      && (Blank(req.content.summary) ==> out == Rejected(BadRequest))
      && (!Blank(req.content.summary) && !WellSized(env, req.content) ==> out == Rejected(Budget))
      && (!Blank(req.content.summary) && WellSized(env, req.content) && Fits(m) ==>
            && (|req.content.updates| == |m.targets| && Separate(req.content.updates) && !Undisturbed(s.db, job, m) ==>
                  out in {Rejected(Conflict), Rejected(NotFound)})
            && (|req.content.updates| != |m.targets| ==> out == Rejected(WrongCount))
            && (|req.content.updates| == |m.targets| && !Separate(req.content.updates) ==>
                  out in {Rejected(Budget), Rejected(DuplicateUpdate)})
            && (OneForEach(req.content.updates, m.targets) && Undisturbed(s.db, job, m) && !quota ==>
                  out == Rejected(Quota)))
  {
    HolderIsFound(s, j, req.token);
    AdmitIff(s.db, s.db.jobs[j], s.db.jobs[j].manifest.value, req.content);
  }

  /** Without a live lease of its own, a token that is nobody's latest writes nothing and is told so. */
  lemma NoLeaseIsLost(env: Env, s: Sys, req: CommitRequest, now: Time, at: Time, quota: bool)
    requires Frame(s) && !Blank(req.content.summary) && WellSized(env, req.content)
    requires forall j :: 0 <= j < |s.db.jobs| ==>
      s.db.jobs[j].lastToken != Some(req.token) && !Holder(s.db, j, req.token, now)
    ensures CommitStep(env, s.db, req, now, at, quota) == (s.db, Rejected(LeaseLost))
  {
    var found := FindJob(s.db.jobs, req.token);
    if found.Some? { assert !Holder(s.db, found.value, req.token, now); }
  }

  /* ---- no lost update ---- */

  /** A commit that takes effect overwrites every row at the version its claim saw: each target, and the
      archive when it completes, goes one version up and carries the supplied content. */
  lemma NoLostUpdate(env: Env, s: Sys, j: nat, req: CommitRequest, now: Time, at: Time, quota: bool)
    requires Frame(s) && Holder(s.db, j, req.token, now)
    requires CommitStep(env, s.db, req, now, at, quota).1.Committed?
    ensures
      var job := s.db.jobs[j];
      var m, (db', out) := job.manifest.value, CommitStep(env, s.db, req, now, at, quota);
      && (forall i :: 0 <= i < |m.targets| ==>
            && var t := m.targets[i].target;
            && t in db'.targets && db'.targets[t].version == MetaAt(s.db.targets, t).version + 1
            && Update(t, db'.targets[t].content) in req.content.updates)
      && (out.completed ==>
            && job.period.name in db'.archives
            && db'.archives[job.period.name].version == MetaAt(s.db.archives, job.period.name).version + 1
            && db'.archives[job.period.name].content == req.content.summary)
      && (!out.completed ==> db'.archives == s.db.archives)
  {
    HolderIsFound(s, j, req.token);
    CommitTakesEffectIff(env, s, j, req, now, at, quota);
    CommitIsAtomic(env, s.db, req, now, at, quota);
    var m := s.db.jobs[j].manifest.value;
    forall i | 0 <= i < |m.targets|
      ensures MetaAt(s.db.targets, m.targets[i].target).version == m.targets[i].meta.version
    {
      assert Matches(s.db.targets, m.targets[i].target, m.targets[i].meta);
    }
  }
}
