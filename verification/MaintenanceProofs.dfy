/** What every interleaving of claims, commits and other writers keeps. */
module MaintenanceProofs {
  import opened Options
  import opened Sets
  import opened Ordering
  import opened Maintenance

  /* ---- runs ---- */

  /** The tables with an observer: `log[j]` lists the sources committed for job j since its
      last restart, `lastClaim` is the latest claim instant, `issued` and `spent` are the
      tokens handed out and the tokens that took effect. */
  datatype Sys = Sys(db: Db, log: seq<seq<Source>>, lastClaim: Time, issued: set<Token>, spent: seq<Token>)

  datatype Event =
    | Claim(request: string, now: Time, token: Token)
    | Commit(req: CommitRequest, now: Time, at: Time, quota: bool)
    | WriteSession(key: Key, content: string, at: Time)
    | DeleteSession(key: Key)
    | WriteTarget(target: TargetKey, content: string, at: Time)
    | DeleteTarget(target: TargetKey)
    | WriteArchive(name: string, content: string, at: Time)
    | DeleteArchive(name: string)
    | RequeueStale(cutoff: Time)
    | EnqueueJob(period: Period, now: Time)

  /** The row lies where the job has already read: at or before its checkpoint or its leased page. */
  predicate Consumed(job: Job, k: Key)
  {
    && job.state.Some? && job.period.bounds.Some?
    && !TextBefore(k.major, job.period.bounds.value.startKey)
    && (|| UpToCursor(job.state.value.cursor, k)
        || (job.manifest.Some? && UpToCursor(job.manifest.value.next.cursor, k)))
  }

  /** A write where the job has already read is stamped after the job's checkpoint began. */
  predicate Noticed(job: Job, k: Key, at: Time)
  {
    Consumed(job, k) ==> at > job.state.value.startedAt
  }

  /** A claim draws a token that was never issued. */
  predicate DrawsFresh(s: Sys, e: Event) { e.Claim? ==> e.token !in s.issued }

  /** And every job can notice a session write. */
  predicate Enabled(s: Sys, e: Event)
  {
    && DrawsFresh(s, e)
    && (e.WriteSession? ==> forall j :: 0 <= j < |s.db.jobs| ==> Noticed(s.db.jobs[j], e.key, e.at))
  }

  function Max(a: Time, b: Time): Time { if a < b then b else a }

  ghost function Step(env: Env, s: Sys, e: Event): Sys
  {
    match e
    case Claim(request, now, token) =>
      var (db, out) := ClaimStep(env, s.db, request, now, token);
      s.(db := db, lastClaim := Max(s.lastClaim, now), issued := s.issued + {token},
         log := if out.Claimed? && out.batch.header.job < |s.log| && out.batch.header.job < |s.db.jobs|
                then LogAfterClaim(s, out.batch.header.job) else s.log)
    case Commit(req, now, at, quota) =>
      var (db, out) := CommitStep(env, s.db, req, now, at, quota);
      if out.Committed? && !out.replayed then LogCommit(s, req, db) else s.(db := db)
    case WriteSession(k, content, at) => s.(db := s.db.(sessions := Write(s.db.sessions, k, content, at)))
    case DeleteSession(k) => s.(db := s.db.(sessions := s.db.sessions - {k}))
    case WriteTarget(t, content, at) => s.(db := s.db.(targets := Write(s.db.targets, t, content, at)))
    case DeleteTarget(t) => s.(db := s.db.(targets := s.db.targets - {t}))
    case WriteArchive(n, content, at) => s.(db := s.db.(archives := Write(s.db.archives, n, content, at)))
    case DeleteArchive(n) => s.(db := s.db.(archives := s.db.archives - {n}))
    case RequeueStale(cutoff) => s.(db := s.db.(jobs := Requeue(s.db.jobs, cutoff)))
    case EnqueueJob(period, now) =>
      var jobs := Enqueue(s.db.jobs, period, now);
      s.(db := s.db.(jobs := jobs), log := if |jobs| > |s.db.jobs| then s.log + [[]] else s.log)
  }

  function LogAfterClaim(s: Sys, j: nat): seq<seq<Source>>
    requires j < |s.log| && j < |s.db.jobs|
  {
    var job := s.db.jobs[j];
    if job.period.bounds.Some? && Restarts(s.db, job, job.period.bounds.value) then s.log[j := []] else s.log
  }

  function LogCommit(s: Sys, req: CommitRequest, db: Db): Sys
  {
    var found := FindJob(s.db.jobs, req.token);
    if found.Some? && found.value < |s.log| && s.db.jobs[found.value].manifest.Some? then
      s.(db := db, spent := s.spent + [req.token],
         log := s.log[found.value := s.log[found.value] + s.db.jobs[found.value].manifest.value.sources])
    else s.(db := db)
  }

  /** Any events at all, with fresh tokens. */
  ghost predicate Arbitrary(env: Env, s: Sys, events: seq<Event>)
    decreases |events|
  {
    events == [] || (DrawsFresh(s, events[0]) && Arbitrary(env, Step(env, s, events[0]), events[1..]))
  }

  ghost predicate Possible(env: Env, s: Sys, events: seq<Event>)
    decreases |events|
  {
    events == [] || (Enabled(s, events[0]) && Possible(env, Step(env, s, events[0]), events[1..]))
  }

  ghost function Run(env: Env, s: Sys, events: seq<Event>): Sys
    decreases |events|
  {
    if events == [] then s else Run(env, Step(env, s, events[0]), events[1..])
  }

  /** A learner with some stored notes and no maintenance history. */
  predicate Initial(s: Sys)
  {
    s.db.jobs == [] && s.log == [] && s.issued == {} && s.spent == []
  }

  /* ---- the invariant ---- */

  ghost predicate AscendingSources(l: seq<Source>)
  {
    forall i, j :: 0 <= i < j < |l| ==> Before(l[i].key, l[j].key)
  }

  ghost predicate AllInPeriod(l: seq<Source>, b: Bounds)
  {
    forall i :: 0 <= i < |l| ==> InPeriod(l[i].key, b)
  }

  predicate InSpan(b: Bounds, from: Option<Key>, upTo: Option<Key>, k: Key)
  {
    !TextBefore(k.major, b.startKey) && AfterCursor(from, k) && UpToCursor(upTo, k)
  }

  /** Every unchanged source of the range is listed, with the version it still has. */
  ghost predicate ListsUnchanged(sessions: map<Key, Object>, b: Bounds, from: Option<Key>, upTo: Option<Key>,
                                 startedAt: Time, l: seq<Source>)
  {
    forall k :: k in sessions && InSpan(b, from, upTo, k) && sessions[k].updatedAt <= startedAt ==>
      Source(k, MetaOf(sessions[k])) in l
  }

  /** A checkpoint and the list of sources it stands for. */
  ghost predicate LogInv(sessions: map<Key, Object>, b: Bounds, l: seq<Source>, p: Progress, lastClaim: Time)
  {
    && p.startedAt <= lastClaim
    && |l| == p.consumed
    && AscendingSources(l)
    && AllInPeriod(l, b)
    && p.cursor == (if l == [] then None else Some(l[|l| - 1].key))
    && ListsUnchanged(sessions, b, None, p.cursor, p.startedAt, l)
  }

  ghost predicate ManifestInv(sessions: map<Key, Object>, b: Bounds, p: Progress, m: Manifest)
  {
    && m.startKey == b.startKey && m.endKey == b.endKey
    && AscendingSources(m.sources)
    && AllInPeriod(m.sources, b)
    && (forall i :: 0 <= i < |m.sources| ==> AfterCursor(p.cursor, m.sources[i].key))
    && m.next == Advance(p, m.sources).(summary := "")
    && ListsUnchanged(sessions, b, p.cursor, m.next.cursor, p.startedAt, m.sources)
  }

  ghost predicate JobInv(sessions: map<Key, Object>, job: Job, l: seq<Source>, lastClaim: Time)
  {
    && (job.token.Some? <==> job.manifest.Some?)
    && (job.manifest.Some? ==> job.state.Some?)
    && (job.state.Some? ==> job.period.bounds.Some?)
    && (job.state.Some? ==> LogInv(sessions, job.period.bounds.value, l, job.state.value, lastClaim))
    && (job.manifest.Some? ==> ManifestInv(sessions, job.period.bounds.value, job.state.value, job.manifest.value))
  }

  ghost predicate TokenInv(jobs: seq<Job>, issued: set<Token>, spent: seq<Token>)
  {
    && (forall i :: 0 <= i < |jobs| && jobs[i].token.Some? ==>
      jobs[i].token.value in issued && jobs[i].token.value !in spent)
    && (forall i :: 0 <= i < |jobs| && jobs[i].lastToken.Some? ==> jobs[i].lastToken.value in spent)
    && (forall i, j :: 0 <= i < j < |jobs| && jobs[i].token.Some? ==> jobs[i].token != jobs[j].token)
    && (forall i, j :: 0 <= i < j < |jobs| && jobs[i].lastToken.Some? ==> jobs[i].lastToken != jobs[j].lastToken)
    && (forall i :: 0 <= i < |spent| ==> spent[i] in issued)
    && (forall i, j :: 0 <= i < j < |spent| ==> spent[i] != spent[j])
  }

  /** At most one lease is live at any instant not before the latest claim. */
  ghost predicate OneLease(jobs: seq<Job>, lastClaim: Time)
  {
    forall t: Time, i, j :: lastClaim <= t && 0 <= i < j < |jobs| ==> !(Live(jobs[i], t) && Live(jobs[j], t))
  }

  ghost predicate DistinctPeriods(jobs: seq<Job>)
  {
    forall i, j :: 0 <= i < j < |jobs| ==> jobs[i].period.name != jobs[j].period.name
  }

  /** What no session write can touch. */
  ghost predicate Frame(s: Sys)
  {
    && |s.log| == |s.db.jobs|
    && TokenInv(s.db.jobs, s.issued, s.spent)
    && OneLease(s.db.jobs, s.lastClaim)
    && DistinctPeriods(s.db.jobs)
  }

  ghost predicate Inv(s: Sys)
  {
    && Frame(s)
    && (forall i :: 0 <= i < |s.db.jobs| ==> JobInv(s.db.sessions, s.db.jobs[i], s.log[i], s.lastClaim))
  }

  /* ---- exact coverage at completion ---- */

  /** The listed sources are exactly the period's sources, each once, each unchanged since startedAt. */
  ghost predicate Exact(sessions: map<Key, Object>, b: Bounds, l: seq<Source>, startedAt: Time)
  {
    && AscendingSources(l)
    && (forall i :: 0 <= i < |l| ==>
          InPeriod(l[i].key, b) && l[i].key in sessions &&
          MetaOf(sessions[l[i].key]) == l[i].meta && sessions[l[i].key].updatedAt <= startedAt)
    && (forall k :: k in sessions && InPeriod(k, b) ==> Source(k, MetaOf(sessions[k])) in l)
  }

  function KeysOf(l: seq<Source>): (r: seq<Key>)
    ensures |r| == |l| && forall i :: 0 <= i < |l| ==> r[i] == l[i].key
  {
    seq(|l|, i requires 0 <= i < |l| => l[i].key)
  }

  lemma InPeriodUpTo(k: Key, last: Key, b: Bounds)
    requires !TextBefore(k.major, b.startKey) && AtOrBefore(k, last) && InPeriod(last, b)
    ensures InPeriod(k, b)
  {
    if TextBefore(k.major, last.major) {
      TextBeforeTransitive(k.major, last.major, b.endKey);
    }
  }

  /** A valid prefix is exactly the list the checkpoint stands for. */
  lemma ValidPrefixIsLog(sessions: map<Key, Object>, b: Bounds, l: seq<Source>, p: Progress, lastClaim: Time)
    requires LogInv(sessions, b, l, p, lastClaim)
    requires PrefixValid(sessions, b.startKey, p)
    ensures Prefix(sessions, b.startKey, p.cursor) == set k | k in KeysOf(l)
    ensures forall i :: 0 <= i < |l| ==>
      l[i].key in sessions && MetaOf(sessions[l[i].key]) == l[i].meta && sessions[l[i].key].updatedAt <= p.startedAt
  {
    var done := Prefix(sessions, b.startKey, p.cursor);
    var keys := KeysOf(l);
    var listed := set k | k in keys;
    AscendingCard(keys);
    if p.cursor.None? {
      assert done == {} && l == [];
    } else {
      forall k | k in done ensures k in listed {
        assert Source(k, MetaOf(sessions[k])) in l;
        var i :| 0 <= i < |l| && l[i] == Source(k, MetaOf(sessions[k]));
        assert keys[i] == k;
      }
      SubsetSameSize(done, listed);
      forall i | 0 <= i < |l|
        ensures l[i].key in sessions && MetaOf(sessions[l[i].key]) == l[i].meta
        ensures sessions[l[i].key].updatedAt <= p.startedAt
      {
        var k := l[i].key;
        assert keys[i] == k && k in done;
        var j :| 0 <= j < |l| && l[j] == Source(k, MetaOf(sessions[k]));
        KeyOrder();
        assert i == j;
      }
    }
  }

  /** A valid checkpoint with nothing left after it covers the period exactly. */
  lemma CompletionExact(sessions: map<Key, Object>, b: Bounds, l: seq<Source>, p: Progress, lastClaim: Time)
    requires LogInv(sessions, b, l, p, lastClaim)
    requires PrefixValid(sessions, b.startKey, p)
    requires Remaining(sessions, b, p.cursor) == {}
    ensures Exact(sessions, b, l, p.startedAt)
  {
    ValidPrefixIsLog(sessions, b, l, p, lastClaim);
    KeyOrder();
    forall k | k in sessions && InPeriod(k, b)
      ensures Source(k, MetaOf(sessions[k])) in l
    {
      assert k !in Remaining(sessions, b, p.cursor);
      assert k in Prefix(sessions, b.startKey, p.cursor);
      assert k in KeysOf(l);
      var i :| 0 <= i < |l| && KeysOf(l)[i] == k;
      assert l[i] == Source(k, MetaOf(sessions[k]));
    }
  }

  lemma {:induction false} SourcesPass(sessions: map<Key, Object>, sources: seq<Source>)
    requires forall i :: 0 <= i < |sources| ==> CheckObject(sessions, sources[i].key, sources[i].meta).None?
    ensures CheckSources(sessions, sources).None?
  {
    if sources != [] { SourcesPass(sessions, sources[..|sources| - 1]); }
  }

  /* ---- steps ---- */

  /** Appending a manifest's sources to the log keeps the log invariant for the next checkpoint. */
  lemma AppendManifest(sessions: map<Key, Object>, b: Bounds, l: seq<Source>, p: Progress, m: Manifest, lastClaim: Time)
    requires LogInv(sessions, b, l, p, lastClaim)
    requires ManifestInv(sessions, b, p, m)
    ensures LogInv(sessions, b, l + m.sources, m.next, lastClaim)
  {
    var l' := l + m.sources;
    KeyOrder();
    assert AscendingSources(l') by {
      forall i, j | 0 <= i < j < |l'| ensures Before(l'[i].key, l'[j].key) {
        if i < |l| <= j {
          assert AfterCursor(p.cursor, m.sources[j - |l|].key);
          assert i == |l| - 1 || Before(l[i].key, l[|l| - 1].key);
        }
      }
    }
    assert ListsUnchanged(sessions, b, None, m.next.cursor, m.next.startedAt, l') by {
      forall k | k in sessions && InSpan(b, None, m.next.cursor, k) && sessions[k].updatedAt <= m.next.startedAt
        ensures Source(k, MetaOf(sessions[k])) in l'
      {
        if UpToCursor(p.cursor, k) {
          assert Source(k, MetaOf(sessions[k])) in l;
        } else {
          assert AfterCursor(p.cursor, k);
          assert Source(k, MetaOf(sessions[k])) in m.sources;
        }
      }
    }
  }

  /** A write that the job can notice, or a delete, keeps its invariant. */
  lemma WriteKeepsJob(before: map<Key, Object>, after: map<Key, Object>, job: Job, l: seq<Source>, lastClaim: Time)
    requires JobInv(before, job, l, lastClaim)
    requires forall k :: k in after ==> (k in before && after[k] == before[k]) || Noticed(job, k, after[k].updatedAt)
    ensures JobInv(after, job, l, lastClaim)
  {
  }

  /** The claimed page lists every source between the old and the new cursor. */
  lemma PlanKeeps(env: Env, db: Db, j: nat, now: Time, token: Token, l: seq<Source>, lastClaim: Time)
    requires j < |db.jobs|
    requires JobInv(db.sessions, db.jobs[j], l, lastClaim)
    requires PlanClaim(env, db, j, now, token).Ok?
    ensures
      var job := db.jobs[j];
      var plan := PlanClaim(env, db, j, now, token).value;
      var l' := if Restarts(db, job, job.period.bounds.value) then [] else l;
      JobInv(db.sessions, Lease(job, plan, now, token), l', Max(lastClaim, now))
  {
    var job := db.jobs[j];
    var b := job.period.bounds.value;
    var plan := PlanClaim(env, db, j, now, token).value;
    var p := plan.progress;
    var l' := if Restarts(db, job, b) then [] else l;
    assert p == Resume(db, job, b, now);
    ResumeKeeps(db, job, b, now, l, lastClaim);
    PageCovers(env, db, b, p, plan.batch.header);
  }

  lemma ResumeKeeps(db: Db, job: Job, b: Bounds, now: Time, l: seq<Source>, lastClaim: Time)
    requires job.state.Some? ==> LogInv(db.sessions, b, l, job.state.value, lastClaim)
    ensures LogInv(db.sessions, b, if Restarts(db, job, b) then [] else l, Resume(db, job, b, now), Max(lastClaim, now))
  {
  }

  /** A prefix of the ordered remaining rows lists everything up to its last key. */
  lemma SortedPrefixCovers(sessions: map<Key, Object>, b: Bounds, p: Progress, sources: seq<Source>)
    requires
      var rows := Sorted(Remaining(sessions, b, p.cursor));
      |sources| <= |rows| && forall i :: 0 <= i < |sources| ==>
        rows[i] in sessions && sources[i] == Source(rows[i], MetaOf(sessions[rows[i]]))
    ensures AscendingSources(sources)
    ensures AllInPeriod(sources, b)
    ensures forall i :: 0 <= i < |sources| ==> AfterCursor(p.cursor, sources[i].key)
    ensures forall k :: k in sessions && InSpan(b, p.cursor, Advance(p, sources).cursor, k) ==>
      Source(k, MetaOf(sessions[k])) in sources
  {
    var rows := Sorted(Remaining(sessions, b, p.cursor));
    var n := |sources|;
    forall i | 0 <= i < n
      ensures InPeriod(sources[i].key, b) && AfterCursor(p.cursor, sources[i].key)
    {
      assert rows[i] in rows;
    }
    forall k | k in sessions && InSpan(b, p.cursor, Advance(p, sources).cursor, k)
      ensures Source(k, MetaOf(sessions[k])) in sources
    {
      if n > 0 {
        assert rows[n - 1] in rows;
        var i := RowUpTo(sessions, b, p, rows, n, k);
        assert sources[i] == Source(k, MetaOf(sessions[k]));
      } else {
        KeyOrder();
      }
    }
  }

  /** A remaining key at or before the nth row is among the first n rows. */
  lemma RowUpTo(sessions: map<Key, Object>, b: Bounds, p: Progress, rows: seq<Key>, n: nat, k: Key) returns (i: nat)
    requires rows == Sorted(Remaining(sessions, b, p.cursor)) && 0 < n <= |rows|
    requires k in sessions && InSpan(b, p.cursor, Some(rows[n - 1]), k) && InPeriod(rows[n - 1], b)
    ensures i < n && rows[i] == k
  {
    InPeriodUpTo(k, rows[n - 1], b);
    assert k in rows;
    i :| 0 <= i < |rows| && rows[i] == k;
    KeyTrichotomy(k, rows[n - 1]);
    KeyTrichotomy(k, k);
  }

  lemma PageCovers(env: Env, db: Db, b: Bounds, p: Progress, h: Header)
    requires
      var page := PageOf(db, b, p);
      FitPage(env, db, h, page, |page|, MoreAfterPage(db, b, p)).Ok?
    ensures
      var page := PageOf(db, b, p);
      var sources := SourcesOf(FitPage(env, db, h, page, |page|, MoreAfterPage(db, b, p)).value.sessions);
      && AscendingSources(sources)
      && AllInPeriod(sources, b)
      && (forall i :: 0 <= i < |sources| ==> AfterCursor(p.cursor, sources[i].key))
      && ListsUnchanged(db.sessions, b, p.cursor, Advance(p, sources).cursor, p.startedAt, sources)
  {
    var page := PageOf(db, b, p);
    var rows := Sorted(Remaining(db.sessions, b, p.cursor));
    var batch := FitPage(env, db, h, page, |page|, MoreAfterPage(db, b, p)).value;
    var sources := SourcesOf(batch.sessions);
    assert |sources| <= |page|;
    forall i | 0 <= i < |sources|
      ensures rows[i] in db.sessions && sources[i] == Source(rows[i], MetaOf(db.sessions[rows[i]]))
    {
      assert rows[i] == page[i] && page[i] in page;
      assert batch.sessions[i].key == page[i];
    }
    SortedPrefixCovers(db.sessions, b, p, sources);
  }

  lemma MillisMonotone(a: Time, b: Time)
    requires a <= b
    ensures Millis(a) <= Millis(b)
  {
  }

  /** What a claim does to the observed system, without the planning detail. */
  lemma ClaimShape(env: Env, s: Sys, request: string, now: Time, token: Token)
    requires |s.log| == |s.db.jobs|
    ensures
      var s' := Step(env, s, Claim(request, now, token));
      var out := ClaimStep(env, s.db, request, now, token).1;
      && s'.db.sessions == s.db.sessions && s'.spent == s.spent
      && s'.issued == s.issued + {token} && s'.lastClaim == Max(s.lastClaim, now)
      && (!out.Claimed? ==> s'.db.jobs == s.db.jobs && s'.log == s.log)
      && (out.Claimed? ==>
            var next := NextJob(s.db.jobs, now);
            && !AnyLive(s.db.jobs, now) && next.Some?
            && PlanClaim(env, s.db, next.value, now, token).Ok?
            && s'.db.jobs == s.db.jobs[next.value := Lease(s.db.jobs[next.value],
              PlanClaim(env, s.db, next.value, now, token).value, now, token)]
            && s'.log == LogAfterClaim(s, next.value))
  {
    ClaimStepShape(env, s.db, request, now, token);
  }

  lemma PlanHeader(env: Env, db: Db, j: nat, now: Time, token: Token)
    requires j < |db.jobs| && PlanClaim(env, db, j, now, token).Ok?
    ensures PlanClaim(env, db, j, now, token).value.batch.header.job == j
  {
  }

  lemma ClaimTaken(env: Env, db: Db, request: string, now: Time, token: Token)
    requires ClaimStep(env, db, request, now, token).1.Claimed?
    ensures !AnyLive(db.jobs, now) && NextJob(db.jobs, now).Some?
    ensures
      var j := NextJob(db.jobs, now).value;
      var plan := PlanClaim(env, db, j, now, token);
      && plan.Ok? && ClaimStep(env, db, request, now, token).1.batch == plan.value.batch
      && ClaimStep(env, db, request, now, token).0.jobs == db.jobs[j := Lease(db.jobs[j], plan.value, now, token)]
  {
  }

  lemma ClaimStepShape(env: Env, db: Db, request: string, now: Time, token: Token)
    ensures
      var (db', out) := ClaimStep(env, db, request, now, token);
      && db'.sessions == db.sessions
      && (!out.Claimed? ==> db'.jobs == db.jobs)
      && (out.Claimed? ==>
            var next := NextJob(db.jobs, now);
            && !AnyLive(db.jobs, now) && next.Some? && PlanClaim(env, db, next.value, now, token).Ok?
            && out.batch.header.job == next.value
            && db'.jobs == db.jobs[next.value := Lease(db.jobs[next.value],
              PlanClaim(env, db, next.value, now, token).value, now, token)])
  {
    if ClaimStep(env, db, request, now, token).1.Claimed? {
      ClaimTaken(env, db, request, now, token);
      PlanHeader(env, db, NextJob(db.jobs, now).value, now, token);
    }
  }

  lemma JobInvLater(sessions: map<Key, Object>, job: Job, l: seq<Source>, c: Time, c': Time)
    requires JobInv(sessions, job, l, c) && c <= c'
    ensures JobInv(sessions, job, l, c')
  {
  }

  lemma TokensAfterLease(jobs: seq<Job>, j: nat, job: Job, issued: set<Token>, spent: seq<Token>, token: Token)
    requires TokenInv(jobs, issued, spent) && j < |jobs| && token !in issued
    requires job.token == Some(token) && job.lastToken == jobs[j].lastToken
    ensures TokenInv(jobs[j := job], issued + {token}, spent)
  {
  }

  lemma TokensAfterSettle(jobs: seq<Job>, j: nat, job: Job, issued: set<Token>, spent: seq<Token>, token: Token)
    requires TokenInv(jobs, issued, spent) && j < |jobs|
    requires jobs[j].token == Some(token) && job.token == None && job.lastToken == Some(token)
    ensures TokenInv(jobs[j := job], issued, spent + [token])
  {
  }

  lemma ClaimKeeps(env: Env, s: Sys, request: string, now: Time, token: Token)
    requires Inv(s) && token !in s.issued
    ensures Inv(Step(env, s, Claim(request, now, token)))
  {
    ClaimShape(env, s, request, now, token);
    FrameByClaim(env, s, request, now, token);
    var s' := Step(env, s, Claim(request, now, token));
    if ClaimStep(env, s.db, request, now, token).1.Claimed? {
      var j := NextJob(s.db.jobs, now).value;
      LeaseKeepsInv(env, s, s', j, now, token);
    } else {
      NoClaimKeepsInv(s, s', now, token);
    }
  }

  lemma FrameByClaim(env: Env, s: Sys, request: string, now: Time, token: Token)
    requires Frame(s) && token !in s.issued
    ensures Frame(Step(env, s, Claim(request, now, token)))
  {
    ClaimShape(env, s, request, now, token);
    if ClaimStep(env, s.db, request, now, token).1.Claimed? {
      var j := NextJob(s.db.jobs, now).value;
      var leased := Lease(s.db.jobs[j], PlanClaim(env, s.db, j, now, token).value, now, token);
      LeaseKeepsOneLease(s.db.jobs, j, leased, s.lastClaim, now);
      TokensAfterLease(s.db.jobs, j, leased, s.issued, s.spent, token);
    }
  }

  lemma NoClaimKeepsInv(s: Sys, s': Sys, now: Time, token: Token)
    requires Inv(s)
    requires s'.db.jobs == s.db.jobs && s'.db.sessions == s.db.sessions && s'.log == s.log && s'.spent == s.spent
    requires s'.issued == s.issued + {token} && s'.lastClaim == Max(s.lastClaim, now) && Frame(s')
    ensures Inv(s')
  {
    forall i | 0 <= i < |s.db.jobs| ensures JobInv(s'.db.sessions, s'.db.jobs[i], s'.log[i], s'.lastClaim) {
      JobInvLater(s.db.sessions, s.db.jobs[i], s.log[i], s.lastClaim, s'.lastClaim);
    }
  }

  lemma LeaseKeepsInv(env: Env, s: Sys, s': Sys, j: nat, now: Time, token: Token)
    requires Inv(s) && token !in s.issued && j < |s.db.jobs| && !AnyLive(s.db.jobs, now)
    requires PlanClaim(env, s.db, j, now, token).Ok?
    requires s'.db.jobs == s.db.jobs[j := Lease(s.db.jobs[j], PlanClaim(env, s.db, j, now, token).value, now, token)]
    requires s'.db.sessions == s.db.sessions && s'.log == LogAfterClaim(s, j) && s'.spent == s.spent
    requires s'.issued == s.issued + {token} && s'.lastClaim == Max(s.lastClaim, now) && Frame(s')
    ensures Inv(s')
  {
    forall i | 0 <= i < |s.db.jobs| ensures JobInv(s'.db.sessions, s'.db.jobs[i], s'.log[i], s'.lastClaim) {
      if i == j {
        PlanKeeps(env, s.db, j, now, token, s.log[j], s.lastClaim);
      } else {
        JobInvLater(s.db.sessions, s.db.jobs[i], s.log[i], s.lastClaim, s'.lastClaim);
      }
    }
  }

  /** A new lease is granted only when none is live, so no later instant sees two. */
  lemma LeaseKeepsOneLease(jobs: seq<Job>, j: nat, leased: Job, lastClaim: Time, now: Time)
    requires j < |jobs| && OneLease(jobs, lastClaim) && !AnyLive(jobs, now)
    ensures OneLease(jobs[j := leased], Max(lastClaim, now))
  {
    var jobs' := jobs[j := leased];
    forall t: Time, a, b | Max(lastClaim, now) <= t && 0 <= a < b < |jobs'|
      ensures !(Live(jobs'[a], t) && Live(jobs'[b], t))
    {
      MillisMonotone(now, t);
      var other := if a == j then b else a;
      assert !Live(jobs[other], now);
      assert jobs'[other] == jobs[other] || other == j;
    }
  }

  /** What a commit does to the observed system, without the admission detail. */
  lemma CommitShape(env: Env, s: Sys, req: CommitRequest, now: Time, at: Time, quota: bool)
    requires |s.log| == |s.db.jobs|
    ensures
      var s' := Step(env, s, Commit(req, now, at, quota));
      var out := CommitStep(env, s.db, req, now, at, quota).1;
      && s'.db.sessions == s.db.sessions && s'.issued == s.issued && s'.lastClaim == s.lastClaim
      && (out.Committed? && !out.replayed ==>
            var found := FindJob(s.db.jobs, req.token);
            && found.Some? && s.db.jobs[found.value].manifest.Some?
            && s.db.jobs[found.value].token == Some(req.token)
            && var m := s.db.jobs[found.value].manifest.value;
            && PrefixValid(s.db.sessions, m.startKey, m.next)
            && CheckSources(s.db.sessions, m.sources).None?
            && out.completed == Finishes(s.db, m)
            && s'.db.jobs == s.db.jobs[found.value := Settle(s.db.jobs[found.value], m, req, out.completed)]
            && s'.log == s.log[found.value := s.log[found.value] + m.sources]
            && s'.spent == s.spent + [req.token])
      && (!(out.Committed? && !out.replayed) ==> s' == s)
  {
  }

  lemma CommitKeeps(env: Env, s: Sys, req: CommitRequest, now: Time, at: Time, quota: bool)
    requires Inv(s)
    ensures Inv(Step(env, s, Commit(req, now, at, quota)))
  {
    CommitShape(env, s, req, now, at, quota);
    FrameByCommit(env, s, req, now, at, quota);
    var s' := Step(env, s, Commit(req, now, at, quota));
    var out := CommitStep(env, s.db, req, now, at, quota).1;
    if out.Committed? && !out.replayed {
      SettleKeepsInv(s, s', FindJob(s.db.jobs, req.token).value, req, out.completed);
    }
  }

  lemma FrameByCommit(env: Env, s: Sys, req: CommitRequest, now: Time, at: Time, quota: bool)
    requires Frame(s)
    ensures Frame(Step(env, s, Commit(req, now, at, quota)))
  {
    CommitShape(env, s, req, now, at, quota);
    var s' := Step(env, s, Commit(req, now, at, quota));
    var out := CommitStep(env, s.db, req, now, at, quota).1;
    if out.Committed? && !out.replayed {
      var j := FindJob(s.db.jobs, req.token).value;
      TokensAfterSettle(s.db.jobs, j, s'.db.jobs[j], s.issued, s.spent, req.token);
      SettleOneLease(s.db.jobs, j, s'.db.jobs[j], s.lastClaim);
    }
  }

  lemma SettleOneLease(jobs: seq<Job>, j: nat, job: Job, lastClaim: Time)
    requires OneLease(jobs, lastClaim) && j < |jobs| && job.token.None?
    ensures OneLease(jobs[j := job], lastClaim)
  {
    assert forall t :: !Live(job, t);
  }

  lemma SettleKeepsInv(s: Sys, s': Sys, j: nat, req: CommitRequest, completed: bool)
    requires Inv(s) && j < |s.db.jobs|
    requires s.db.jobs[j].manifest.Some? && s.db.jobs[j].token == Some(req.token)
    requires s'.db.sessions == s.db.sessions && s'.issued == s.issued && s'.lastClaim == s.lastClaim
    requires s'.db.jobs == s.db.jobs[j := Settle(s.db.jobs[j], s.db.jobs[j].manifest.value, req, completed)]
    requires s'.log == s.log[j := s.log[j] + s.db.jobs[j].manifest.value.sources]
    requires s'.spent == s.spent + [req.token] && Frame(s')
    ensures Inv(s')
  {
    var job := s.db.jobs[j];
    var m := job.manifest.value;
    AppendManifest(s.db.sessions, job.period.bounds.value, s.log[j], job.state.value, m, s.lastClaim);
    assert JobInv(s'.db.sessions, s'.db.jobs[j], s'.log[j], s'.lastClaim);
  }

  lemma OtherKeeps(env: Env, s: Sys, e: Event)
    requires Inv(s) && Enabled(s, e)
    requires !e.Claim? && !e.Commit?
    ensures Inv(Step(env, s, e))
  {
    var s' := Step(env, s, e);
    if e.WriteSession? || e.DeleteSession? {
      SourcesChangeKeeps(s, s');
    } else if e.RequeueStale? {
      RequeueKeeps(s, s', e.cutoff);
    } else if e.EnqueueJob? {
      EnqueueKeeps(s, s', e.period, e.now);
    }
  }

  lemma SourcesChangeKeeps(s: Sys, s': Sys)
    requires Inv(s) && s' == s.(db := s.db.(sessions := s'.db.sessions))
    requires forall k :: k in s'.db.sessions ==>
      || (k in s.db.sessions && s'.db.sessions[k] == s.db.sessions[k])
      || forall j :: 0 <= j < |s.db.jobs| ==> Noticed(s.db.jobs[j], k, s'.db.sessions[k].updatedAt)
    ensures Inv(s')
  {
    forall i | 0 <= i < |s.db.jobs| ensures JobInv(s'.db.sessions, s'.db.jobs[i], s'.log[i], s'.lastClaim) {
      WriteKeepsJob(s.db.sessions, s'.db.sessions, s.db.jobs[i], s.log[i], s.lastClaim);
    }
  }

  lemma RequeueOneLease(jobs: seq<Job>, cutoff: Time, lastClaim: Time)
    requires OneLease(jobs, lastClaim)
    ensures OneLease(Requeue(jobs, cutoff), lastClaim)
  {
    var jobs' := Requeue(jobs, cutoff);
    forall t: Time, i, j | lastClaim <= t && 0 <= i < j < |jobs'| ensures !(Live(jobs'[i], t) && Live(jobs'[j], t)) {
      assert !(Live(jobs[i], t) && Live(jobs[j], t));
      assert jobs'[i] == RequeueOne(jobs[i], cutoff) && jobs'[j] == RequeueOne(jobs[j], cutoff);
    }
  }

  lemma RequeueTokens(jobs: seq<Job>, cutoff: Time, issued: set<Token>, spent: seq<Token>)
    requires TokenInv(jobs, issued, spent) && DistinctPeriods(jobs)
    ensures TokenInv(Requeue(jobs, cutoff), issued, spent) && DistinctPeriods(Requeue(jobs, cutoff))
  {
    var jobs' := Requeue(jobs, cutoff);
    assert forall i :: 0 <= i < |jobs| ==>
      jobs'[i].token == jobs[i].token && jobs'[i].lastToken == jobs[i].lastToken && jobs'[i].period == jobs[i].period;
  }

  lemma RequeueJob(sessions: map<Key, Object>, job: Job, cutoff: Time, l: seq<Source>, lastClaim: Time)
    requires JobInv(sessions, job, l, lastClaim)
    ensures JobInv(sessions, RequeueOne(job, cutoff), l, lastClaim)
  {
  }

  lemma RequeueFrame(s: Sys, s': Sys, cutoff: Time)
    requires Frame(s) && s' == s.(db := s.db.(jobs := Requeue(s.db.jobs, cutoff)))
    ensures Frame(s')
  {
    RequeueOneLease(s.db.jobs, cutoff, s.lastClaim);
    RequeueTokens(s.db.jobs, cutoff, s.issued, s.spent);
  }

  lemma RequeueKeeps(s: Sys, s': Sys, cutoff: Time)
    requires Inv(s) && s' == s.(db := s.db.(jobs := Requeue(s.db.jobs, cutoff)))
    ensures Inv(s')
  {
    RequeueFrame(s, s', cutoff);
    forall i | 0 <= i < |s.db.jobs| ensures JobInv(s'.db.sessions, s'.db.jobs[i], s'.log[i], s'.lastClaim) {
      RequeueJob(s.db.sessions, s.db.jobs[i], cutoff, s.log[i], s.lastClaim);
    }
  }

  lemma EnqueueKeeps(s: Sys, s': Sys, period: Period, now: Time)
    requires Inv(s)
    requires s'.db.jobs == Enqueue(s.db.jobs, period, now) && s'.db.sessions == s.db.sessions
    requires s' == s.(db := s'.db, log := if |s'.db.jobs| > |s.db.jobs| then s.log + [[]] else s.log)
    ensures Inv(s')
  {
    forall i | 0 <= i < |s'.db.jobs| ensures JobInv(s'.db.sessions, s'.db.jobs[i], s'.log[i], s'.lastClaim) {
      if i < |s.db.jobs| {
        assert JobInv(s.db.sessions, s.db.jobs[i], s.log[i], s.lastClaim);
      }
    }
    EnqueueFrame(s, s', period, now);
  }

  lemma EnqueueFrame(s: Sys, s': Sys, period: Period, now: Time)
    requires Frame(s)
    requires s'.db.jobs == Enqueue(s.db.jobs, period, now) && s'.db.sessions == s.db.sessions
    requires s' == s.(db := s'.db, log := if |s'.db.jobs| > |s.db.jobs| then s.log + [[]] else s.log)
    ensures Frame(s')
  {
    EnqueueLease(s.db.jobs, period, now, s.lastClaim);
    EnqueueTokens(s.db.jobs, period, now, s.issued, s.spent);
  }

  lemma EnqueueLease(jobs: seq<Job>, period: Period, now: Time, lastClaim: Time)
    requires OneLease(jobs, lastClaim)
    ensures OneLease(Enqueue(jobs, period, now), lastClaim)
  {
    var jobs' := Enqueue(jobs, period, now);
    assert forall t :: |jobs| < |jobs'| ==> !Live(jobs'[|jobs|], t);
  }

  lemma EnqueueTokens(jobs: seq<Job>, period: Period, now: Time, issued: set<Token>, spent: seq<Token>)
    requires TokenInv(jobs, issued, spent) && DistinctPeriods(jobs)
    ensures TokenInv(Enqueue(jobs, period, now), issued, spent) && DistinctPeriods(Enqueue(jobs, period, now))
  {
  }

  lemma StepKeeps(env: Env, s: Sys, e: Event)
    requires Inv(s) && Enabled(s, e)
    ensures Inv(Step(env, s, e))
  {
    match e
    case Claim(request, now, token) => ClaimKeeps(env, s, request, now, token);
    case Commit(req, now, at, quota) => CommitKeeps(env, s, req, now, at, quota);
    case _ => OtherKeeps(env, s, e);
  }

  /** Whatever is written, and with whatever stamp. */
  lemma FrameKeeps(env: Env, s: Sys, e: Event)
    requires Frame(s) && DrawsFresh(s, e)
    ensures Frame(Step(env, s, e))
  {
    var s' := Step(env, s, e);
    match e
    case Claim(request, now, token) => FrameByClaim(env, s, request, now, token);
    case Commit(req, now, at, quota) => FrameByCommit(env, s, req, now, at, quota);
    case RequeueStale(cutoff) => RequeueFrame(s, s', cutoff);
    case EnqueueJob(period, now) => EnqueueFrame(s, s', period, now);
    case _ =>
  }

  lemma {:induction false} RunFrame(env: Env, s: Sys, events: seq<Event>)
    requires Frame(s) && Arbitrary(env, s, events)
    ensures Frame(Run(env, s, events))
    decreases |events|
  {
    if events != [] {
      FrameKeeps(env, s, events[0]);
      RunFrame(env, Step(env, s, events[0]), events[1..]);
    }
  }

  lemma {:induction false} RunKeeps(env: Env, s: Sys, events: seq<Event>)
    requires Inv(s) && Possible(env, s, events)
    ensures Inv(Run(env, s, events))
    decreases |events|
  {
    if events != [] {
      StepKeeps(env, s, events[0]);
      RunKeeps(env, Step(env, s, events[0]), events[1..]);
    }
  }

  lemma InitialInv(s: Sys)
    requires Initial(s)
    ensures Inv(s)
  {
  }

  /* ---- main results ---- */

  /** In every run, when a commit completes a job, the sources committed since the job's last
      restart are exactly the period's sources at that moment: none skipped, none twice, none
      changed since the restart. */
  lemma EveryCompletionIsExact(env: Env, start: Sys, events: seq<Event>, req: CommitRequest, now: Time, at: Time,
                               quota: bool)
    requires Initial(start) && Possible(env, start, events)
    requires CommitStep(env, Run(env, start, events).db, req, now, at, quota).1 == Committed(true, false)
    ensures
      var s := Run(env, start, events);
      var s' := Step(env, s, Commit(req, now, at, quota));
      var j := FindJob(s.db.jobs, req.token).value;
      && |s'.log| == |s'.db.jobs| == |s.db.jobs|
      && s'.db.jobs[j].status == Completed && s'.db.sessions == s.db.sessions
      && s.db.jobs[j].period.bounds.Some? && s.db.jobs[j].state.Some?
      && Exact(s'.db.sessions, s.db.jobs[j].period.bounds.value, s'.log[j], s.db.jobs[j].state.value.startedAt)
  {
    InitialInv(start);
    RunKeeps(env, start, events);
    var s := Run(env, start, events);
    var j := FindJob(s.db.jobs, req.token).value;
    var job := s.db.jobs[j];
    var m := job.manifest.value;
    var b := job.period.bounds.value;
    CommitShape(env, s, req, now, at, quota);
    AppendManifest(s.db.sessions, b, s.log[j], job.state.value, m, s.lastClaim);
    assert Bounds(m.startKey, m.endKey) == b;
    CompletionExact(s.db.sessions, b, s.log[j] + m.sources, m.next, s.lastClaim);
  }

  /** In every run, whatever is written and stamped, no two jobs hold a live lease at any instant from
      the latest claim on. */
  lemma AtMostOneLiveLease(env: Env, start: Sys, events: seq<Event>, t: Time, i: nat, j: nat)
    requires Initial(start) && Arbitrary(env, start, events)
    requires
      var s := Run(env, start, events);
      s.lastClaim <= t && i < |s.db.jobs| && j < |s.db.jobs| && Live(s.db.jobs[i], t) && Live(s.db.jobs[j], t)
    ensures i == j
  {
    InitialInv(start);
    RunFrame(env, start, events);
  }

  /** In every such run each token takes effect at most once, and a token that took effect, or that
      was never issued, changes nothing when presented again. */
  lemma TokenTakesEffectOnce(env: Env, start: Sys, events: seq<Event>, req: CommitRequest, now: Time, at: Time,
                             quota: bool)
    requires Initial(start) && Arbitrary(env, start, events)
    ensures
      var s := Run(env, start, events);
      && (forall a, b :: 0 <= a < b < |s.spent| ==> s.spent[a] != s.spent[b])
      && (req.token in s.spent || req.token !in s.issued ==> CommitStep(env, s.db, req, now, at, quota).0 == s.db)
  {
    InitialInv(start);
    RunFrame(env, start, events);
  }

  /** A commit changes the tables only for the live lease that carries its token. */
  lemma OnlyTheLiveLeaseWrites(env: Env, db: Db, req: CommitRequest, now: Time, at: Time, quota: bool)
    requires CommitStep(env, db, req, now, at, quota).0 != db
    ensures exists j :: 0 <= j < |db.jobs| && db.jobs[j].token == Some(req.token) && Live(db.jobs[j], now)
    ensures CommitStep(env, db, req, now, at, quota).1.Committed?
    ensures !CommitStep(env, db, req, now, at, quota).1.replayed
  {
    var j := FindJob(db.jobs, req.token).value;
    assert db.jobs[j].token == Some(req.token) && Live(db.jobs[j], now);
  }
}
