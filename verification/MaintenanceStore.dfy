/** The two maintenance transactions as they are written: loops over rows, a page that is halved
    until it fits, and a bundle of compare-and-swap writes. */
module MaintenanceStore {
  import opened Options
  import opened Texts
  import opened Ordering
  import opened Maintenance

  /** Reading one more source of a page. */
  lemma ReadOneMore(env: Env, sessions: map<Key, Object>, keys: seq<Key>, i: nat, items: seq<SessionItem>)
    requires i < |keys| && (forall k :: k in keys ==> k in sessions) && (forall k :: k in keys[..i] ==> k in sessions)
    requires ReadSessions(env, sessions, keys[..i]) == Ok(items)
    ensures keys[i] in sessions && forall k :: k in keys[..i + 1] ==> k in sessions
    ensures
      var item := ReadSession(env, sessions, keys[i]);
      ReadSessions(env, sessions, keys[..i + 1]) == if item.Err? then Err(item.error) else Ok(items + [item.value])
  {
    assert keys[i] in keys;
    assert keys[..i + 1][..i] == keys[..i];
  }

  lemma ConceptsOneMore(items: seq<SessionItem>, item: SessionItem)
    ensures Concepts(items + [item]) == Concepts(items) + item.concepts
  {
    assert (items + [item])[..|items|] == items;
  }

  class Store {
    var sessions: map<Key, Object>
    var targets: map<TargetKey, Object>
    var archives: map<string, Object>
    var jobs: seq<Job>
    var receipts: map<string, Receipt>

    constructor (sessions: map<Key, Object>, targets: map<TargetKey, Object>, archives: map<string, Object>)
      ensures State() == Db(sessions, targets, archives, [], map[])
    {
      this.sessions, this.targets, this.archives := sessions, targets, archives;
      jobs, receipts := [], map[];
    }

    function State(): Db
      reads this
    {
      Db(sessions, targets, archives, jobs, receipts)
    }

    /** SELECT COUNT(*) of live leases. */
    method HasLiveLease(now: Time) returns (live: bool)
      ensures live == AnyLive(jobs, now)
    {
      live := false;
      for i := 0 to |jobs|
        invariant live <==> exists k :: 0 <= k < i && Live(jobs[k], now)
      {
        if Live(jobs[i], now) {
          live := true;
        }
      }
    }

    /** The oldest eligible job. */
    method PickJob(now: Time) returns (best: Option<nat>)
      ensures best == NextJob(jobs, now)
    {
      best := None;
      for i := 0 to |jobs|
        invariant best == NextJob(jobs[..i], now)
      {
        assert jobs[..i + 1][..i] == jobs[..i];
        if Eligible(jobs[i], now) && (best.None? || jobs[i].detectedAt < jobs[best.value].detectedAt) {
          best := Some(i);
        }
      }
      assert jobs[..|jobs|] == jobs;
    }

    /** Read the sources of a page and collect the concepts they touch. */
    method ReadPage(env: Env, keys: seq<Key>) returns (r: Result<seq<SessionItem>>, concepts: set<Key>)
      requires forall k :: k in keys ==> k in sessions
      ensures r == ReadSessions(env, sessions, keys)
      ensures r.Ok? ==> concepts == Concepts(r.value)
    {
      var items: seq<SessionItem> := [];
      concepts := {};
      for i := 0 to |keys|
        invariant forall k :: k in keys[..i] ==> k in sessions
        invariant ReadSessions(env, sessions, keys[..i]) == Ok(items)
        invariant concepts == Concepts(items)
      {
        assert keys[i] in keys;
        var item := ReadSession(env, sessions, keys[i]);
        ReadOneMore(env, sessions, keys, i, items);
        if item.Err? {
          ReadFails(env, keys, i + 1);
          return Err(item.error), {};
        }
        ConceptsOneMore(items, item.value);
        items := items + [item.value];
        concepts := concepts + item.value.concepts;
      }
      assert keys[..|keys|] == keys;
      r := Ok(items);
    }

    /** The first failing read decides the whole page. */
    lemma ReadFails(env: Env, keys: seq<Key>, n: nat)
      requires n <= |keys| && forall k :: k in keys ==> k in sessions
      requires (forall k :: k in keys[..n] ==> k in sessions) && ReadSessions(env, sessions, keys[..n]).Err?
      ensures ReadSessions(env, sessions, keys) == ReadSessions(env, sessions, keys[..n])
      decreases |keys|
    {
      if n < |keys| {
        assert keys[..|keys| - 1][..n] == keys[..n];
        ReadFails(env, keys[..|keys| - 1], n);
      } else {
        assert keys[..n] == keys;
      }
    }

    method ReadSnapshots(list: seq<TargetKey>) returns (r: Result<seq<TargetItem>>)
      ensures r == ReadTargets(targets, list)
    {
      var items: seq<TargetItem> := [];
      for i := 0 to |list|
        invariant ReadTargets(targets, list[..i]) == Ok(items)
      {
        assert list[..i + 1][..i] == list[..i];
        var item := ReadTarget(targets, list[i]);
        if item.Err? {
          SnapshotFails(list, i + 1);
          return Err(item.error);
        }
        items := items + [item.value];
      }
      assert list[..|list|] == list;
      r := Ok(items);
    }

    lemma SnapshotFails(list: seq<TargetKey>, n: nat)
      requires n <= |list| && ReadTargets(targets, list[..n]).Err?
      ensures ReadTargets(targets, list) == ReadTargets(targets, list[..n])
      decreases |list|
    {
      if n < |list| {
        assert list[..|list| - 1][..n] == list[..n];
        SnapshotFails(list[..|list| - 1], n);
      } else {
        assert list[..n] == list;
      }
    }

    /** The page-shrink loop. */
    method ShrinkPage(env: Env, h: Header, page: seq<Key>, more: bool) returns (r: Result<Batch>)
      requires forall k :: k in page ==> k in sessions
      ensures r == FitPage(env, State(), h, page, |page|, more)
    {
      var keys := page;
      while true
        invariant forall k :: k in keys ==> k in sessions
        invariant FitPage(env, State(), h, page, |page|, more) == FitPage(env, State(), h, keys, |page|, more)
        decreases |keys|
      {
        var items, concepts := ReadPage(env, keys);
        if items.Err? {
          return Err(items.error);
        }
        if |concepts| <= MAX_CONCEPTS {
          var ordered := SortKeys(concepts);
          var snapshots := ReadSnapshots(TargetsFor(ordered));
          if snapshots.Err? {
            return Err(snapshots.error);
          }
          var batch := Batch(h, more || |keys| < |page|, items.value, snapshots.value);
          if env.batchBytes(batch) <= MAX_BATCH_BYTES {
            return Ok(batch);
          }
        }
        if |keys| <= 1 {
          return Err(Budget);
        }
        keys := keys[..|keys| / 2];
      }
    }

    /** Plan a claim of job j: resume or restart, take the next page, shrink it. */
    method BuildPlan(env: Env, j: nat, now: Time, token: Token) returns (r: Result<Plan>)
      requires j < |jobs|
      ensures r == PlanClaim(env, State(), j, now, token)
    {
      var job := jobs[j];
      if job.period.bounds.None? {
        return Err(InvalidPeriod);
      }
      var b := job.period.bounds.value;
      var archive := MetaAt(archives, job.period.name);
      if job.period.name in archives && |archives[job.period.name].content| > MAX_OBJECT_BYTES {
        return Err(Budget);
      }
      var p := Resume(State(), job, b, now);
      var rows := SortKeys(Remaining(sessions, b, p.cursor));
      var more := |rows| > MAX_SESSIONS;
      var keys := rows[..Min(|rows|, MAX_SESSIONS)];
      assert keys == PageOf(State(), b, p);
      var batch := ShrinkPage(env, Header(j, token, now + LEASE, p.summary), keys, more);
      if batch.Err? {
        return Err(batch.error);
      }
      var sources := SourcesOf(batch.value.sessions);
      r := Ok(Plan(p, Manifest(sources, TargetsOf(batch.value.snapshots), archive,
                               Advance(p, sources).(summary := ""), b.startKey, b.endKey, batch.value.hasMore),
                                 batch.value));
    }

    /** One claim transaction. */
    method Claim(env: Env, request: string, now: Time, token: Token) returns (out: ClaimOutcome)
      modifies this
      ensures (State(), out) == ClaimStep(env, old(State()), request, now, token)
    {
      if !SafeKey(request) {
        return Refused(BadRequest);
      }
      if request in receipts {
        return ReplayClaim(env, State(), receipts[request], now);
      }
      var live := HasLiveLease(now);
      if live {
        receipts := receipts[request := BusyReceipt];
        return Busy;
      }
      var next := PickJob(now);
      if next.None? {
        receipts := receipts[request := IdleReceipt];
        return Idle;
      }
      var j := next.value;
      var plan := BuildPlan(env, j, now, token);
      if plan.Err? {
        return Refused(plan.error);
      }
      jobs := jobs[j := Lease(jobs[j], plan.value, now, token)];
      receipts := receipts[request := ClaimReceipt(j, token, now + LEASE, plan.value.batch.hasMore)];
      out := Claimed(plan.value.batch);
    }

    method Locate(token: Token) returns (r: Option<nat>)
      ensures r == FindJob(jobs, token)
    {
      r := None;
      for i := 0 to |jobs|
        invariant r == FindJob(jobs[..i], token)
      {
        assert jobs[..i + 1][..i] == jobs[..i];
        if r.None? && (jobs[i].token == Some(token) || jobs[i].lastToken == Some(token)) {
          r := Some(i);
        }
      }
      assert jobs[..|jobs|] == jobs;
    }

    /** Collect the supplied contents by target, refusing duplicates. */
    static method CollectValues(updates: seq<Update>) returns (r: Result<map<TargetKey, string>>)
      ensures r == Values(updates)
    {
      r := Ok(map[]);
      for i := 0 to |updates|
        invariant r == Values(updates[..i])
      {
        assert updates[..i + 1][..i] == updates[..i];
        if r.Ok? {
          if |updates[i].content| > MAX_OBJECT_BYTES {
            r := Err(Budget);
          } else if updates[i].target in r.value {
            r := Err(DuplicateUpdate);
          } else {
            r := Ok(r.value[updates[i].target := updates[i].content]);
          }
        }
      }
      assert updates[..|updates|] == updates;
    }

    /** Re-check the versions of every source, every target and the archive. */
    method CheckManifest(m: Manifest, name: string) returns (bad: Option<Error>)
      ensures bad == (if CheckSources(sessions, m.sources).Some? then CheckSources(sessions, m.sources)
                      else if CheckTargets(targets, m.targets).Some? then CheckTargets(targets, m.targets)
                      else CheckObject(archives, name, m.archive))
    {
      bad := None;
      for i := 0 to |m.sources|
        invariant bad == CheckSources(sessions, m.sources[..i])
      {
        assert m.sources[..i + 1][..i] == m.sources[..i];
        if bad.None? {
          bad := CheckObject(sessions, m.sources[i].key, m.sources[i].meta);
        }
      }
      assert m.sources[..|m.sources|] == m.sources;
      if bad.None? {
        for i := 0 to |m.targets|
          invariant bad == CheckTargets(targets, m.targets[..i])
        {
          assert m.targets[..i + 1][..i] == m.targets[..i];
          if bad.None? {
            bad := CheckObject(targets, m.targets[i].target, m.targets[i].meta);
          }
        }
        assert m.targets[..|m.targets|] == m.targets;
        if bad.None? {
          bad := CheckObject(archives, name, m.archive);
        }
      }
    }

    method AdmitBundle(job: Job, m: Manifest, content: Digest) returns (r: Result<map<TargetKey, string>>)
      ensures r == Admit(State(), job, m, content)
    {
      if |m.sources| > MAX_SESSIONS || |m.targets| > MAX_CONCEPTS + 2 {
        return Err(Budget);
      }
      if |content.updates| != |m.targets| {
        return Err(WrongCount);
      }
      r := CollectValues(content.updates);
      if r.Err? {
        return;
      }
      if !PrefixValid(sessions, m.startKey, m.next) {
        return Err(Conflict);
      }
      var bad := CheckManifest(m, job.period.name);
      if bad.Some? {
        return Err(bad.value);
      }
      if !AllSupplied(m.targets, r.value) {
        return Err(MissingUpdate);
      }
    }

    /** Compare-and-swap every target of the bundle. */
    method WriteTargets(list: seq<Target>, values: map<TargetKey, string>, at: Time)
      requires AllSupplied(list, values)
      modifies this`targets
      ensures targets == SwapTargets(old(targets), list, values, at)
    {
      for i := 0 to |list|
        invariant AllSupplied(list[..i], values)
        invariant targets == SwapTargets(old(targets), list[..i], values, at)
      {
        assert list[..i + 1][..i] == list[..i];
        targets := Swap(targets, list[i].target, list[i].meta, values[list[i].target], at);
      }
      assert list[..|list|] == list;
    }

    /** One commit transaction. */
    method Commit(env: Env, req: CommitRequest, now: Time, at: Time, quota: bool) returns (out: CommitOutcome)
      modifies this
      ensures (State(), out) == CommitStep(env, old(State()), req, now, at, quota)
    {
      if Blank(req.content.summary) {
        return Rejected(BadRequest);
      }
      if !WellSized(env, req.content) {
        return Rejected(Budget);
      }
      var found := Locate(req.token);
      if found.None? {
        return Rejected(LeaseLost);
      }
      var j := found.value;
      var job := jobs[j];
      if job.lastToken == Some(req.token) {
        return if job.lastDigest != Some(req.content) then Rejected(MutationConflict)
          else Committed(job.lastCompleted, true);
      }
      if job.token != Some(req.token) || !Live(job, now) || job.manifest.None? {
        return Rejected(LeaseLost);
      }
      var m := job.manifest.value;
      var values := AdmitBundle(job, m, req.content);
      if values.Err? {
        return Rejected(values.error);
      }
      if !quota {
        return Rejected(Quota);
      }
      var completed := Finishes(State(), m);
      WriteTargets(m.targets, values.value, at);
      if completed {
        archives := Swap(archives, job.period.name, m.archive, req.content.summary, at);
      }
      jobs := jobs[j := Settle(job, m, req, completed)];
      out := Committed(completed, false);
    }
  }
}
