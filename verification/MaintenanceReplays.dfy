/** What a claim request is answered, the first time and every later one. */
module MaintenanceReplays {
  import opened Options
  import opened Texts
  import opened Ordering
  import opened Maintenance
  import opened MaintenanceProofs
  import opened MaintenanceProgress
  import opened MaintenanceClaims

  /* ---- the first answer ---- */

  /** No job that may be claimed was detected before job j. */
  predicate OldestEligible(jobs: seq<Job>, j: nat, now: Time)
  {
    && j < |jobs| && Eligible(jobs[j], now)
    && forall i :: 0 <= i < |jobs| && Eligible(jobs[i], now) ==>
         jobs[j].detectedAt < jobs[i].detectedAt || (jobs[j].detectedAt == jobs[i].detectedAt && j <= i)
  }

  /** A new request: busy exactly while some lease is live, idle exactly when no job may be claimed, and
      otherwise it takes the oldest such job or is refused. Its answer is recorded. */
  lemma FirstAnswer(env: Env, db: Db, request: string, now: Time, token: Token)
    requires SafeKey(request) && request !in db.receipts
    ensures
      var (db', out) := ClaimStep(env, db, request, now, token);
      && (out == Busy <==> exists i :: 0 <= i < |db.jobs| && Live(db.jobs[i], now))
      && (out == Idle <==> out != Busy && forall i :: 0 <= i < |db.jobs| ==> !Eligible(db.jobs[i], now))
      && (out.Claimed? ==> OldestEligible(db.jobs, out.batch.header.job, now))
      && (out.Busy? || out.Idle? || out.Claimed? || out.Refused?)
      && (out.Refused? ==> db' == db)
      && (out == Busy ==> db'.receipts == db.receipts[request := BusyReceipt])
      && (out == Idle ==> db'.receipts == db.receipts[request := IdleReceipt])
      && (out.Claimed? ==> db'.receipts == db.receipts[request :=
            ClaimReceipt(out.batch.header.job, token, now + LEASE, out.batch.hasMore)])
  {
    if ClaimStep(env, db, request, now, token).1.Claimed? {
      ClaimTaken(env, db, request, now, token);
      PlanHeader(env, db, NextJob(db.jobs, now).value, now, token);
    }
  }

  /** A leased job is live until its five minutes are over and may be claimed again from then on. */
  lemma LeaseLasts(job: Job, plan: Plan, now: Time, token: Token, t: Time)
    ensures
      var leased := Lease(job, plan, now, token);
      && (Live(leased, t) <==> Millis(t) < Millis(now + 300_000_000_000))
      && (Eligible(leased, t) <==> !Live(leased, t))
  {
  }

  /** A job may be claimed while it waits; a delivered one once its lease is over, or, delivered without a
      lease, half an hour later; a completed one never. */
  lemma ClaimableIff(job: Job, now: Time)
    ensures Eligible(job, now) <==>
      || job.status == Pending
      || (job.status == Delivered && job.token.Some? && job.lease <= Millis(now))
      || (job.status == Delivered && job.token.None? && job.deliveredAt.Some?
          && job.deliveredAt.value + 1_800_000_000_000 < now)
    ensures Eligible(job, now) ==> !Live(job, now)
  {
  }

  /** The scheduler puts back exactly the jobs delivered before the cutoff, with no delivery on record and
      everything else as it was. */
  lemma RequeuedIff(jobs: seq<Job>, cutoff: Time, i: nat)
    requires i < |jobs|
    ensures
      var job, job' := jobs[i], Requeue(jobs, cutoff)[i];
      var stale := job.status == Delivered && job.deliveredAt.Some? && job.deliveredAt.value < cutoff;
      && (stale ==> job'.status == Pending && job'.deliveredAt.None?)
      && (stale ==> job' == job.(status := job'.status, deliveredAt := job'.deliveredAt))
      && (!stale ==> job' == job)
  {
  }

  /* ---- replaying a batch ---- */

  predicate RowsAs<K>(rows: map<K, Object>, k: K, expected: Meta) { MetaAt(rows, k) == expected }

  /** Every listed row is as the batch shows it, and so is the archive. */
  predicate AsClaimed(db: Db, batch: Batch, name: string, archive: Meta)
  {
    && (forall i :: 0 <= i < |batch.sessions| ==> RowsAs(db.sessions, batch.sessions[i].key, batch.sessions[i].meta))
    && (forall i :: 0 <= i < |batch.snapshots| ==>
          RowsAs(db.targets, batch.snapshots[i].target, batch.snapshots[i].meta))
    && RowsAs(db.archives, name, archive)
  }

  lemma SessionAgain(env: Env, rows: map<Key, Object>, rows': map<Key, Object>, item: SessionItem)
    requires item.key in rows && ReadSession(env, rows, item.key) == Ok(item)
    requires RowsAs(rows', item.key, item.meta)
    ensures item.key in rows' && ReadSession(env, rows', item.key) == Ok(item)
  {
    assert rows'[item.key].content == rows[item.key].content;
  }

  lemma {:induction false} SessionsAgain(env: Env, rows: map<Key, Object>, rows': map<Key, Object>,
                                         items: seq<SessionItem>)
    requires ReadItems(env, rows, items)
    requires forall i :: 0 <= i < |items| ==> RowsAs(rows', items[i].key, items[i].meta)
    ensures ReplaySources(env, rows', SourcesOf(items)) == Ok(items)
  {
    if items != [] {
      var n := |items| - 1;
      SessionsAgain(env, rows, rows', items[..n]);
      assert SourcesOf(items)[..n] == SourcesOf(items[..n]);
      SessionAgain(env, rows, rows', items[n]);
      assert items[..n] + [items[n]] == items;
    }
  }

  lemma TargetAgain(rows: map<TargetKey, Object>, rows': map<TargetKey, Object>, item: TargetItem)
    requires ReadTarget(rows, item.target) == Ok(item) && RowsAs(rows', item.target, item.meta)
    ensures ReadTarget(rows', item.target) == Ok(item) && CheckObject(rows', item.target, item.meta).None?
  {
    assert item.target in rows <==> item.target in rows';
  }

  lemma {:induction false} TargetsAgain(rows: map<TargetKey, Object>, rows': map<TargetKey, Object>,
                                        items: seq<TargetItem>)
    requires ReadSnapshots(rows, items)
    requires forall i :: 0 <= i < |items| ==> RowsAs(rows', items[i].target, items[i].meta)
    ensures ReplayTargets(rows', TargetsOf(items)) == Ok(items)
  {
    if items != [] {
      var n := |items| - 1;
      TargetsAgain(rows, rows', items[..n]);
      assert TargetsOf(items)[..n] == TargetsOf(items[..n]);
      TargetAgain(rows, rows', items[n]);
      assert items[..n] + [items[n]] == items;
    }
  }

  /** A successful replay checked every source against its listed version. */
  lemma {:induction false} ReplayedSourcesAsListed(env: Env, rows: map<Key, Object>, sources: seq<Source>)
    requires ReplaySources(env, rows, sources).Ok?
    ensures forall i :: 0 <= i < |sources| ==> RowsAs(rows, sources[i].key, sources[i].meta)
  {
    if sources != [] { ReplayedSourcesAsListed(env, rows, sources[..|sources| - 1]); }
  }

  lemma {:induction false} ReplayedTargetsAsListed(rows: map<TargetKey, Object>, targets: seq<Target>)
    requires ReplayTargets(rows, targets).Ok?
    requires forall i :: 0 <= i < |targets| ==> targets[i].meta == ABSENT || targets[i].meta.version > 0
    ensures forall i :: 0 <= i < |targets| ==> RowsAs(rows, targets[i].target, targets[i].meta)
  {
    if targets != [] { ReplayedTargetsAsListed(rows, targets[..|targets| - 1]); }
  }

  /** Stored versions count from 1. */
  predicate Versioned(db: Db)
  {
    && (forall t <- db.targets :: db.targets[t].version > 0)
    && (forall n <- db.archives :: db.archives[n].version > 0)
  }

  /** What a leased job holds is what its claim handed out. */
  ghost predicate Holds(env: Env, db: Db, job: Job, batch: Batch, archive: Meta)
  {
    && Reads(env, db, batch) && job.manifest.Some? && job.state.Some?
    && var m := job.manifest.value;
    && m.sources == SourcesOf(batch.sessions) && m.targets == TargetsOf(batch.snapshots) && m.archive == archive
    && |m.sources| <= MAX_SESSIONS && |m.targets| <= MAX_CONCEPTS + 2
    && archive == MetaAt(db.archives, job.period.name)
    && batch.header.summary == job.state.value.summary
  }

  function ReceiptOf(batch: Batch): Receipt
  {
    ClaimReceipt(batch.header.job, batch.header.token, batch.header.leaseUntil, batch.hasMore)
  }

  lemma ReplayReturns(env: Env, db: Db, db': Db, job: Job, batch: Batch, archive: Meta, now: Time)
    requires Holds(env, db, job, batch, archive)
    requires batch.header.job < |db'.jobs| && db'.jobs[batch.header.job] == job
    requires job.token == Some(batch.header.token) && Live(job, now)
    requires AsClaimed(db', batch, job.period.name, archive)
    ensures ReplayClaim(env, db', ReceiptOf(batch), now) == Replayed(batch)
  {
    SessionsAgain(env, db.sessions, db'.sessions, batch.sessions);
    TargetsAgain(db.targets, db'.targets, batch.snapshots);
    ReplayAnswers(env, db', ReceiptOf(batch), now, batch.sessions, batch.snapshots);
  }

  lemma ReplayAnswers(env: Env, db: Db, r: Receipt, now: Time, items: seq<SessionItem>, snapshots: seq<TargetItem>)
    requires r.ClaimReceipt? && r.job < |db.jobs| && db.jobs[r.job].token == Some(r.token) && Live(db.jobs[r.job], now)
    requires db.jobs[r.job].manifest.Some? && db.jobs[r.job].state.Some?
    requires
      var m := db.jobs[r.job].manifest.value;
      && |m.sources| <= MAX_SESSIONS && |m.targets| <= MAX_CONCEPTS + 2
      && RowsAs(db.archives, db.jobs[r.job].period.name, m.archive)
      && ReplaySources(env, db.sessions, m.sources) == Ok(items)
      && ReplayTargets(db.targets, m.targets) == Ok(snapshots)
    ensures ReplayClaim(env, db, r, now) ==
      Replayed(Batch(Header(r.job, r.token, r.leaseUntil, db.jobs[r.job].state.value.summary), r.hasMore, items,
                     snapshots))
  {
  }

  /** A replay that is not refused has passed every check. */
  lemma ReplayChecked(env: Env, db: Db, receipt: Receipt, now: Time)
    requires receipt.ClaimReceipt? && ReplayClaim(env, db, receipt, now).Replayed?
    ensures
      && receipt.job < |db.jobs| && db.jobs[receipt.job].manifest.Some?
      && var job, m := db.jobs[receipt.job], db.jobs[receipt.job].manifest.value;
      && CheckObject(db.archives, job.period.name, m.archive).None?
      && ReplaySources(env, db.sessions, m.sources).Ok? && ReplayTargets(db.targets, m.targets).Ok?
  {
  }

  lemma NotExpired(env: Env, db: Db, receipt: Receipt, now: Time)
    requires receipt.ClaimReceipt? && receipt.job < |db.jobs| && db.jobs[receipt.job].token == Some(receipt.token)
    requires Live(db.jobs[receipt.job], now) && db.jobs[receipt.job].manifest.Some?
    ensures var out := ReplayClaim(env, db, receipt, now); out.Replayed? || out.Refused?
  {
  }

  lemma CheckedIsAsClaimed(env: Env, db: Db, db': Db, batch: Batch, name: string)
    requires Versioned(db) && ReadSnapshots(db.targets, batch.snapshots)
    requires CheckObject(db'.archives, name, MetaAt(db.archives, name)).None?
    requires ReplaySources(env, db'.sessions, SourcesOf(batch.sessions)).Ok?
    requires ReplayTargets(db'.targets, TargetsOf(batch.snapshots)).Ok?
    ensures AsClaimed(db', batch, name, MetaAt(db.archives, name))
  {
    var sources, targets := SourcesOf(batch.sessions), TargetsOf(batch.snapshots);
    ReplayedSourcesAsListed(env, db'.sessions, sources);
    SnapshotsVersioned(db.targets, batch.snapshots);
    ReplayedTargetsAsListed(db'.targets, targets);
    forall i | 0 <= i < |batch.sessions| ensures RowsAs(db'.sessions, batch.sessions[i].key, batch.sessions[i].meta) {
      assert sources[i] == Source(batch.sessions[i].key, batch.sessions[i].meta);
    }
    forall i | 0 <= i < |batch.snapshots|
      ensures RowsAs(db'.targets, batch.snapshots[i].target, batch.snapshots[i].meta)
    {
      assert targets[i] == Target(batch.snapshots[i].target, batch.snapshots[i].meta);
    }
  }

  lemma ReplayRefuses(env: Env, db: Db, db': Db, job: Job, batch: Batch, archive: Meta, now: Time)
    requires Holds(env, db, job, batch, archive)
    requires batch.header.job < |db'.jobs| && db'.jobs[batch.header.job] == job
    requires job.token == Some(batch.header.token) && Live(job, now)
    requires Versioned(db) && !AsClaimed(db', batch, job.period.name, archive)
    ensures ReplayClaim(env, db', ReceiptOf(batch), now).Refused?
  {
    NotExpired(env, db', ReceiptOf(batch), now);
    if ReplayClaim(env, db', ReceiptOf(batch), now).Replayed? {
      ReplayChecked(env, db', ReceiptOf(batch), now);
      CheckedIsAsClaimed(env, db, db', batch, job.period.name);
    }
  }

  lemma SnapshotsVersioned(rows: map<TargetKey, Object>, items: seq<TargetItem>)
    requires ReadSnapshots(rows, items) && forall t <- rows :: rows[t].version > 0
    ensures
      var targets := TargetsOf(items);
      forall i :: 0 <= i < |targets| ==> targets[i].meta == ABSENT || targets[i].meta.version > 0
  {
    forall i | 0 <= i < |items| ensures items[i].meta == ABSENT || items[i].meta.version > 0 {
      assert ReadTarget(rows, items[i].target) == Ok(items[i]);
    }
  }

  /* ---- through a run ---- */

  /** The receipt of the request is kept, and while the job carries the token it is as leased. */
  ghost predicate Kept(s: Sys, request: string, receipt: Receipt, token: Token, j: nat, leased: Job)
  {
    && Frame(s) && request in s.db.receipts && s.db.receipts[request] == receipt && token in s.issued
    && j < |s.db.jobs|
    && (s.db.jobs[j].token == Some(token) ==>
          && s.db.jobs[j].manifest == leased.manifest && s.db.jobs[j].state == leased.state
          && s.db.jobs[j].period == leased.period)
  }

  lemma ReceiptsGrow(env: Env, s: Sys, e: Event, request: string)
    requires request in s.db.receipts
    ensures
      var receipts := Step(env, s, e).db.receipts;
      request in receipts && receipts[request] == s.db.receipts[request]
  {
  }

  lemma KeptStep(env: Env, s: Sys, e: Event, request: string, receipt: Receipt, token: Token, j: nat, leased: Job)
    requires Kept(s, request, receipt, token, j, leased) && DrawsFresh(s, e)
    ensures Kept(Step(env, s, e), request, receipt, token, j, leased)
  {
    FrameKeeps(env, s, e);
    ReceiptsGrow(env, s, e, request);
    match e
    case Claim(r, now, t) => ClaimShape(env, s, r, now, t);
    case Commit(req, now, at, quota) => CommitShape(env, s, req, now, at, quota);
    case _ =>
  }

  lemma {:induction false} KeptThrough(env: Env, s: Sys, events: seq<Event>, request: string, receipt: Receipt,
                                       token: Token, j: nat, leased: Job)
    requires Kept(s, request, receipt, token, j, leased) && Arbitrary(env, s, events)
    ensures Kept(Run(env, s, events), request, receipt, token, j, leased)
    decreases |events|
  {
    if events != [] {
      KeptStep(env, s, events[0], request, receipt, token, j, leased);
      KeptThrough(env, Step(env, s, events[0]), events[1..], request, receipt, token, j, leased);
    }
  }

  lemma LeaseHolds(env: Env, s: Sys, request: string, now: Time, token: Token)
    requires Frame(s) && token !in s.issued && SafeKey(request) && request !in s.db.receipts
    requires ClaimStep(env, s.db, request, now, token).1.Claimed?
    ensures
      var s1, batch := Step(env, s, Claim(request, now, token)), ClaimStep(env, s.db, request, now, token).1.batch;
      var j := batch.header.job;
      && j < |s.db.jobs| && j < |s1.db.jobs| && s1.db.jobs[j].period == s.db.jobs[j].period
      && batch.header.token == token && batch.header.leaseUntil == now + LEASE
      && Holds(env, s.db, s1.db.jobs[j], batch, MetaAt(s.db.archives, s1.db.jobs[j].period.name))
      && Kept(s1, request, ReceiptOf(batch), token, j, s1.db.jobs[j])
  {
    var j := NextJob(s.db.jobs, now).value;
    ClaimShape(env, s, request, now, token);
    FirstAnswer(env, s.db, request, now, token);
    ClaimTaken(env, s.db, request, now, token);
    PlanReads(env, s.db, j, now, token);
    PlanHasParts(env, s.db, j, now, token);
    FrameByClaim(env, s, request, now, token);
  }

  /** After a claim, and any events at all: the same request changes nothing. While the lease is live it
      returns the very batch of the claim exactly as long as every row it lists and the archive are as
      they were, and is refused otherwise; afterwards it is answered as expired. */
  lemma SameRequestSameBatch(env: Env, s: Sys, request: string, now: Time, token: Token, events: seq<Event>,
                             now': Time, token': Token)
    requires Frame(s) && token !in s.issued && SafeKey(request) && request !in s.db.receipts
    requires ClaimStep(env, s.db, request, now, token).1.Claimed?
    requires Arbitrary(env, Step(env, s, Claim(request, now, token)), events)
    ensures
      var batch := ClaimStep(env, s.db, request, now, token).1.batch;
      var s' := Run(env, Step(env, s, Claim(request, now, token)), events);
      var (db, out) := ClaimStep(env, s'.db, request, now', token');
      var j := batch.header.job;
      && db == s'.db && j < |s'.db.jobs| && j < |s.db.jobs|
      && var held := s'.db.jobs[j].token == Some(token) && Live(s'.db.jobs[j], now');
      && var name := s.db.jobs[j].period.name;
      && var same := AsClaimed(s'.db, batch, name, MetaAt(s.db.archives, name));
      && (!held ==> out == Expired(j))
      && (held && same ==> out == Replayed(batch))
      && (held && !same && Versioned(s.db) ==> out.Refused?)
  {
    var batch := ClaimStep(env, s.db, request, now, token).1.batch;
    var s1 := Step(env, s, Claim(request, now, token));
    var s', j := Run(env, s1, events), batch.header.job;
    LeaseHolds(env, s, request, now, token);
    KeptThrough(env, s1, events, request, ReceiptOf(batch), token, j, s1.db.jobs[j]);
    KnownRequest(env, s'.db, request, now', token');
    assert s'.db.receipts[request] == ReceiptOf(batch);
    LostAnswer(env, s'.db, ReceiptOf(batch), now');
    if s'.db.jobs[j].token == Some(token) && Live(s'.db.jobs[j], now') {
      HeldAnswer(env, s.db, s'.db, s'.db.jobs[j], batch, MetaAt(s.db.archives, s.db.jobs[j].period.name), now');
    }
  }

  lemma KnownRequest(env: Env, db: Db, request: string, now: Time, token: Token)
    requires SafeKey(request) && request in db.receipts
    ensures ClaimStep(env, db, request, now, token) == (db, ReplayClaim(env, db, db.receipts[request], now))
  {
  }

  lemma LostAnswer(env: Env, db: Db, r: Receipt, now: Time)
    requires r.ClaimReceipt? && r.job < |db.jobs|
    ensures !(db.jobs[r.job].token == Some(r.token) && Live(db.jobs[r.job], now)) ==>
      ReplayClaim(env, db, r, now) == Expired(r.job)
  {
  }

  lemma HeldAnswer(env: Env, db: Db, db': Db, job: Job, batch: Batch, archive: Meta, now: Time)
    requires Holds(env, db, job, batch, archive)
    requires batch.header.job < |db'.jobs| && db'.jobs[batch.header.job] == job
    requires job.token == Some(batch.header.token) && Live(job, now)
    ensures
      var out := ReplayClaim(env, db', ReceiptOf(batch), now);
      && (AsClaimed(db', batch, job.period.name, archive) ==> out == Replayed(batch))
      && (Versioned(db) && !AsClaimed(db', batch, job.period.name, archive) ==> out.Refused?)
  {
    if AsClaimed(db', batch, job.period.name, archive) {
      ReplayReturns(env, db, db', job, batch, archive, now);
    } else if Versioned(db) {
      ReplayRefuses(env, db, db', job, batch, archive, now);
    }
  }

  lemma {:induction false} ReceiptThrough(env: Env, s: Sys, events: seq<Event>, request: string)
    requires request in s.db.receipts
    ensures
      var receipts := Run(env, s, events).db.receipts;
      request in receipts && receipts[request] == s.db.receipts[request]
    decreases |events|
  {
    if events != [] {
      ReceiptsGrow(env, s, events[0], request);
      ReceiptThrough(env, Step(env, s, events[0]), events[1..], request);
    }
  }

  /** A request that was answered idle or busy is answered so for good. */
  lemma SameRequestSameAnswer(env: Env, s: Sys, request: string, now: Time, token: Token, events: seq<Event>,
                              now': Time, token': Token)
    requires SafeKey(request) && request !in s.db.receipts
    requires ClaimStep(env, s.db, request, now, token).1 in {Idle, Busy}
    ensures
      var s' := Run(env, Step(env, s, Claim(request, now, token)), events);
      ClaimStep(env, s'.db, request, now', token') == (s'.db, ClaimStep(env, s.db, request, now, token).1)
  {
    FirstAnswer(env, s.db, request, now, token);
    ReceiptThrough(env, Step(env, s, Claim(request, now, token)), events, request);
  }

  /* ---- the running summary ---- */

  /** A checkpoint that covers anything carries the summary of the job's latest commit. */
  predicate CarriesSummary(job: Job)
  {
    job.state.Some? && job.state.value.consumed > 0 ==>
      job.lastDigest.Some? && job.state.value.summary == job.lastDigest.value.summary
  }

  ghost predicate AllCarry(s: Sys)
  {
    |s.log| == |s.db.jobs| && forall i :: 0 <= i < |s.db.jobs| ==> CarriesSummary(s.db.jobs[i])
  }

  function StoredArchive(db: Db, name: string): string
  {
    if name in db.archives then db.archives[name].content else ""
  }

  lemma ResumeSummary(db: Db, job: Job, b: Bounds, now: Time)
    requires CarriesSummary(job)
    ensures
      var p := Resume(db, job, b, now);
      && (p.consumed == 0 ==> p.summary == StoredArchive(db, job.period.name))
      && (p.consumed > 0 ==> !Restarts(db, job, b) && job.lastDigest.Some? && p.summary == job.lastDigest.value.summary)
      && (Restarts(db, job, b) ==> p.consumed == 0)
  {
  }

  lemma CarryStep(env: Env, s: Sys, e: Event)
    requires AllCarry(s)
    ensures AllCarry(Step(env, s, e))
  {
    match e
    case Claim(request, now, token) =>
      ClaimShape(env, s, request, now, token);
      if ClaimStep(env, s.db, request, now, token).1.Claimed? {
        var j := NextJob(s.db.jobs, now).value;
        PlanProgress(env, s.db, j, now, token);
        ResumeSummary(s.db, s.db.jobs[j], s.db.jobs[j].period.bounds.value, now);
      }
    case Commit(req, now, at, quota) => CommitShape(env, s, req, now, at, quota);
    case _ =>
  }

  lemma {:induction false} CarryThrough(env: Env, s: Sys, events: seq<Event>)
    requires AllCarry(s)
    ensures AllCarry(Run(env, s, events))
    decreases |events|
  {
    if events != [] {
      CarryStep(env, s, events[0]);
      CarryThrough(env, Step(env, s, events[0]), events[1..]);
    }
  }

  /** On every run, a claim that continues a checkpoint hands out the summary of the job's latest commit,
      and one that starts over, or has nothing behind it, the stored archive. */
  lemma ClaimHandsOutSummary(env: Env, start: Sys, events: seq<Event>, request: string, now: Time, token: Token)
    requires Initial(start)
    requires ClaimStep(env, Run(env, start, events).db, request, now, token).1.Claimed?
    ensures
      var s := Run(env, start, events);
      var h := ClaimStep(env, s.db, request, now, token).1.batch.header;
      && h.job < |s.db.jobs| && s.db.jobs[h.job].period.bounds.Some?
      && var job := s.db.jobs[h.job];
      var continues := !Restarts(s.db, job, job.period.bounds.value) && job.state.value.consumed > 0;
      && (continues ==> job.lastDigest.Some? && h.summary == job.lastDigest.value.summary)
      && (!continues ==> h.summary == StoredArchive(s.db, job.period.name))
  {
    CarryThrough(env, start, events);
    var s := Run(env, start, events);
    var j := NextJob(s.db.jobs, now).value;
    ClaimTaken(env, s.db, request, now, token);
    PlanReads(env, s.db, j, now, token);
    PlanProgress(env, s.db, j, now, token);
    ResumeSummary(s.db, s.db.jobs[j], s.db.jobs[j].period.bounds.value, now);
  }
}
