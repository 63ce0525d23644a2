/** Leased, checkpointed consolidation of one learner's session notes.
    Each store transaction is one atomic step from a table state `Db` to the next. Claims, commits and
    writes hold the learner's row lock for it. */
module Maintenance {
  import opened Options
  import opened Texts
  import opened Ordering

  datatype Result<+T> = Ok(value: T) | Err(error: Error)

  datatype Error =
    | BadRequest | InvalidPeriod | Budget | BadSession | NotFound | Conflict
    | LeaseLost | MutationConflict | WrongCount | DuplicateUpdate | MissingUpdate | Quota

  /** Instants in nanoseconds. */
  type Time = int
  /** A random claim token. */
  type Token = nat

  const MAX_SESSIONS: nat := 8
  const MAX_CONCEPTS: nat := 16
  const MAX_OBJECT_BYTES: nat := 32768
  const MAX_BATCH_BYTES: nat := 131072
  const LEASE: Time := 300_000_000_000
  const STALE_DELIVERY: Time := 1_800_000_000_000

  function Millis(t: Time): int { t / 1_000_000 }

  /* ---- tables ---- */

  /** A narrative row. The stored checksum is modelled by the content itself. */
  datatype Object = Object(version: nat, content: string, updatedAt: Time)

  /** Version and checksum of a row, or (0, None) for a missing row. */
  datatype Meta = Meta(version: nat, checksum: Option<string>)

  const ABSENT := Meta(0, None)

  function MetaOf(o: Object): Meta { Meta(o.version, Some(o.content)) }

  function MetaAt<K(==)>(rows: map<K, Object>, k: K): Meta
  {
    if k in rows then MetaOf(rows[k]) else ABSENT
  }

  datatype TargetKey = Memory | MemoryPending | ConceptNote(key: Key)

  datatype Source = Source(key: Key, meta: Meta)
  datatype Target = Target(target: TargetKey, meta: Meta)

  datatype Progress = Progress(cursor: Option<Key>, consumed: nat, startedAt: Time, summary: string, archive: Meta)

  datatype Manifest = Manifest(sources: seq<Source>, targets: seq<Target>, archive: Meta,
                               next: Progress, startKey: string, endKey: string, hasMore: bool)

  /** The parsed bounds of a period key, None when the key does not parse. */
  datatype Period = Period(name: string, bounds: Option<Bounds>)
  datatype Bounds = Bounds(startKey: string, endKey: string)

  datatype Status = Pending | Delivered | Completed

  /** The request digest is modelled by the digested content. */
  datatype Digest = Digest(summary: string, updates: seq<Update>)
  datatype Update = Update(target: TargetKey, content: string)

  datatype Job = Job(period: Period, detectedAt: Time, status: Status, deliveredAt: Option<Time>,
                     token: Option<Token>, lease: int, manifest: Option<Manifest>, state: Option<Progress>,
                     lastToken: Option<Token>, lastDigest: Option<Digest>, lastCompleted: bool)

  datatype Receipt = IdleReceipt | BusyReceipt | ClaimReceipt(job: nat, token: Token, leaseUntil: Time, hasMore: bool)

  datatype Db = Db(sessions: map<Key, Object>, targets: map<TargetKey, Object>, archives: map<string, Object>,
                   jobs: seq<Job>, receipts: map<string, Receipt>)

  /* ---- caller-visible values ---- */

  datatype SessionItem = SessionItem(key: Key, meta: Meta, content: string, concepts: set<Key>)
  datatype TargetItem = TargetItem(target: TargetKey, meta: Meta, content: string)

  datatype Header = Header(job: nat, token: Token, leaseUntil: Time, summary: string)
  datatype Batch = Batch(header: Header, hasMore: bool, sessions: seq<SessionItem>, snapshots: seq<TargetItem>)

  datatype ClaimOutcome =
    | Idle | Busy | Claimed(batch: Batch) | Replayed(batch: Batch) | Expired(job: nat) | Refused(error: Error)
  datatype CommitOutcome = Committed(completed: bool, replayed: bool) | Rejected(error: Error)

  /** A parsed session note: its domain and the concept slugs it touches. */
  datatype SessionNote = SessionNote(domain: string, slugs: set<string>)

  /** Code outside the protocol: the session parser and the two JSON encoders' lengths. */
  datatype Env = Env(parse: string -> Option<SessionNote>, batchBytes: Batch -> nat, commitBytes: Digest -> nat)

  /* ---- source ranges ---- */

  predicate InPeriod(k: Key, b: Bounds)
  {
    !TextBefore(k.major, b.startKey) && TextBefore(k.major, b.endKey)
  }

  predicate AfterCursor(cursor: Option<Key>, k: Key)
  {
    cursor.None? || Before(cursor.value, k)
  }

  predicate UpToCursor(cursor: Option<Key>, k: Key)
  {
    cursor.Some? && AtOrBefore(k, cursor.value)
  }

  /** Source keys already consumed according to a cursor. */
  function Prefix(sessions: map<Key, Object>, startKey: string, cursor: Option<Key>): set<Key>
  {
    set k | k in sessions && !TextBefore(k.major, startKey) && UpToCursor(cursor, k)
  }

  /** Source keys of the period still to be consumed. */
  function Remaining(sessions: map<Key, Object>, b: Bounds, cursor: Option<Key>): set<Key>
  {
    set k | k in sessions && InPeriod(k, b) && AfterCursor(cursor, k)
  }

  predicate PrefixValid(sessions: map<Key, Object>, startKey: string, p: Progress)
  {
    p.cursor.None? ||
    var done := Prefix(sessions, startKey, p.cursor);
    |done| == p.consumed && forall k :: k in done ==> sessions[k].updatedAt <= p.startedAt
  }

  /* ---- claim ---- */

  predicate SafeChar(c: char)
  {
    'a' <= c <= 'z' || 'A' <= c <= 'Z' || '0' <= c <= '9' || c in "._:-"
  }

  predicate SafeKey(key: string)
  {
    1 <= |key| <= 128 && forall i :: 0 <= i < |key| ==> SafeChar(key[i])
  }

  predicate Live(job: Job, now: Time)
  {
    job.status == Delivered && job.token.Some? && job.lease > Millis(now)
  }

  predicate Eligible(job: Job, now: Time)
  {
    job.status == Pending ||
    (job.status == Delivered &&
     if job.token.Some? then job.lease <= Millis(now)
     else job.deliveredAt.Some? && job.deliveredAt.value < now - STALE_DELIVERY)
  }

  predicate AnyLive(jobs: seq<Job>, now: Time)
  {
    exists i :: 0 <= i < |jobs| && Live(jobs[i], now)
  }

  /** ORDER BY detected_at, id LIMIT 1 over the eligible jobs. */
  function NextJob(jobs: seq<Job>, now: Time): (r: Option<nat>)
    ensures r.Some? ==> r.value < |jobs| && Eligible(jobs[r.value], now)
    ensures r.Some? ==> forall i :: 0 <= i < |jobs| && Eligible(jobs[i], now) ==>
      jobs[r.value].detectedAt < jobs[i].detectedAt || (jobs[r.value].detectedAt == jobs[i].detectedAt && r.value <= i)
    ensures r.None? ==> forall i :: 0 <= i < |jobs| ==> !Eligible(jobs[i], now)
  {
    if jobs == [] then None else
      var n := |jobs| - 1;
      var best := NextJob(jobs[..n], now);
      if Eligible(jobs[n], now) && (best.None? || jobs[n].detectedAt < jobs[best.value].detectedAt) then Some(n)
        else best
  }

  function Fresh(now: Time): Progress { Progress(None, 0, now, "", ABSENT) }

  /** The checkpoint a claim works from, after the prefix check and the archive check. */
  function Resume(db: Db, job: Job, b: Bounds, now: Time): Progress
  {
    var stored := if job.state.Some? then job.state.value else Fresh(now);
    var checked := if PrefixValid(db.sessions, b.startKey, stored) then stored else Fresh(now);
    var archive := MetaAt(db.archives, job.period.name);
    var kept := if checked.archive == archive then checked else Fresh(now);
    if kept.consumed == 0
    then kept.(archive := archive,
      summary := if job.period.name in db.archives then db.archives[job.period.name].content else "")
    else kept
  }

  /** Whether the claim discards the accumulated checkpoint. */
  predicate Restarts(db: Db, job: Job, b: Bounds)
  {
    job.state.None? ||
    !PrefixValid(db.sessions, b.startKey, job.state.value) ||
    job.state.value.archive != MetaAt(db.archives, job.period.name)
  }

  function ReadSession(env: Env, sessions: map<Key, Object>, k: Key): Result<SessionItem>
    requires k in sessions
  {
    var o := sessions[k];
    if |o.content| > MAX_OBJECT_BYTES then Err(Budget)
    else match env.parse(o.content)
      case None => Err(BadSession)
      case Some(note) => Ok(SessionItem(k, MetaOf(o), o.content, set slug | slug in note.slugs ::
        Key(note.domain, slug)))
  }

  function ReadSessions(env: Env, sessions: map<Key, Object>, keys: seq<Key>): (r: Result<seq<SessionItem>>)
    requires forall k :: k in keys ==> k in sessions
    ensures r.Ok? ==> |r.value| == |keys|
    ensures r.Ok? ==> forall i :: 0 <= i < |keys| ==>
      r.value[i].key == keys[i] && r.value[i].meta == MetaOf(sessions[keys[i]])
  {
    if keys == [] then Ok([]) else
      var n := |keys| - 1;
      match ReadSessions(env, sessions, keys[..n])
      case Err(e) => Err(e)
      case Ok(items) =>
        match ReadSession(env, sessions, keys[n])
        case Err(e) => Err(e)
        case Ok(item) => Ok(items + [item])
  }

  function Concepts(items: seq<SessionItem>): set<Key>
  {
    if items == [] then {} else Concepts(items[..|items| - 1]) + items[|items| - 1].concepts
  }

  ghost function TargetList(concepts: set<Key>): seq<TargetKey>
  {
    TargetsFor(Sorted(concepts))
  }

  function TargetsFor(concepts: seq<Key>): seq<TargetKey>
  {
    [Memory, MemoryPending] + seq(|concepts|, i requires 0 <= i < |concepts| => ConceptNote(concepts[i]))
  }

  function ReadTarget(targets: map<TargetKey, Object>, t: TargetKey): Result<TargetItem>
  {
    if t !in targets then Ok(TargetItem(t, ABSENT, ""))
    else if |targets[t].content| > MAX_OBJECT_BYTES then Err(Budget)
    else Ok(TargetItem(t, MetaOf(targets[t]), targets[t].content))
  }

  function ReadTargets(targets: map<TargetKey, Object>, list: seq<TargetKey>): (r: Result<seq<TargetItem>>)
    ensures r.Ok? ==> |r.value| == |list|
    ensures r.Ok? ==> forall i :: 0 <= i < |list| ==>
      r.value[i].target == list[i] && r.value[i].meta == MetaAt(targets, list[i])
  {
    if list == [] then Ok([]) else
      var n := |list| - 1;
      match ReadTargets(targets, list[..n])
      case Err(e) => Err(e)
      case Ok(items) =>
        match ReadTarget(targets, list[n])
        case Err(e) => Err(e)
        case Ok(item) => Ok(items + [item])
  }

  /** The page-shrink loop: halve the page until the concepts and the encoded batch fit. */
  ghost function FitPage(env: Env, db: Db, h: Header, keys: seq<Key>, initial: nat, more: bool): (r: Result<Batch>)
    requires forall k :: k in keys ==> k in db.sessions
    ensures r.Ok? ==> r.value.header == h
    ensures r.Ok? ==> |r.value.sessions| <= |keys| && (keys != [] ==> r.value.sessions != [])
    ensures r.Ok? ==> forall i :: 0 <= i < |r.value.sessions| ==>
      r.value.sessions[i].key == keys[i] && r.value.sessions[i].meta == MetaOf(db.sessions[keys[i]])
    ensures r.Ok? ==> forall i :: 0 <= i < |r.value.snapshots| ==>
      r.value.snapshots[i].meta == MetaAt(db.targets, r.value.snapshots[i].target)
    ensures r.Ok? ==> r.value.hasMore == (more || |r.value.sessions| < initial)
    ensures r.Ok? ==> |Concepts(r.value.sessions)| <= MAX_CONCEPTS && env.batchBytes(r.value) <= MAX_BATCH_BYTES
    ensures r.Ok? ==> |r.value.snapshots| == 2 + |Concepts(r.value.sessions)|
    decreases |keys|
  {
    match ReadSessions(env, db.sessions, keys)
    case Err(e) => Err(e)
    case Ok(items) =>
      if |Concepts(items)| > MAX_CONCEPTS then HalvePage(env, db, h, keys, initial, more)
      else match ReadTargets(db.targets, TargetList(Concepts(items)))
        case Err(e) => Err(e)
        case Ok(snapshots) =>
          var batch := Batch(h, more || |keys| < initial, items, snapshots);
          if env.batchBytes(batch) > MAX_BATCH_BYTES then HalvePage(env, db, h, keys, initial, more)
          else Ok(batch)
  }

  ghost function HalvePage(env: Env, db: Db, h: Header, keys: seq<Key>, initial: nat, more: bool): (r: Result<Batch>)
    requires forall k :: k in keys ==> k in db.sessions
    ensures r.Ok? ==> r.value.header == h
    ensures r.Ok? ==> |r.value.sessions| <= |keys| && (keys != [] ==> r.value.sessions != [])
    ensures r.Ok? ==> forall i :: 0 <= i < |r.value.sessions| ==>
      r.value.sessions[i].key == keys[i] && r.value.sessions[i].meta == MetaOf(db.sessions[keys[i]])
    ensures r.Ok? ==> forall i :: 0 <= i < |r.value.snapshots| ==>
      r.value.snapshots[i].meta == MetaAt(db.targets, r.value.snapshots[i].target)
    ensures r.Ok? ==> r.value.hasMore == (more || |r.value.sessions| < initial)
    ensures r.Ok? ==> |Concepts(r.value.sessions)| <= MAX_CONCEPTS && env.batchBytes(r.value) <= MAX_BATCH_BYTES
    ensures r.Ok? ==> |r.value.snapshots| == 2 + |Concepts(r.value.sessions)|
    decreases |keys|, 0
  {
    if |keys| <= 1 then Err(Budget) else FitPage(env, db, h, keys[..|keys| / 2], initial, more)
  }

  function SourcesOf(items: seq<SessionItem>): (r: seq<Source>)
    ensures |r| == |items|
    ensures forall i :: 0 <= i < |r| ==> r[i] == Source(items[i].key, items[i].meta)
  {
    seq(|items|, i requires 0 <= i < |items| => Source(items[i].key, items[i].meta))
  }

  function TargetsOf(items: seq<TargetItem>): (r: seq<Target>)
    ensures |r| == |items|
    ensures forall i :: 0 <= i < |r| ==> r[i] == Target(items[i].target, items[i].meta)
  {
    seq(|items|, i requires 0 <= i < |items| => Target(items[i].target, items[i].meta))
  }

  /** The checkpoint after consuming a list of sources. */
  function Advance(p: Progress, sources: seq<Source>): Progress
  {
    if sources == [] then p
    else p.(cursor := Some(sources[|sources| - 1].key), consumed := p.consumed + |sources|)
  }

  function Min(a: nat, b: nat): nat { if a <= b then a else b }

  /** The ordered page after the cursor, at most MAX_SESSIONS long. */
  ghost function PageOf(db: Db, b: Bounds, p: Progress): (r: seq<Key>)
    ensures forall k :: k in r ==> k in db.sessions
  {
    var rows := Sorted(Remaining(db.sessions, b, p.cursor));
    assert forall k :: k in rows ==> k in db.sessions;
    rows[..Min(|rows|, MAX_SESSIONS)]
  }

  ghost function MoreAfterPage(db: Db, b: Bounds, p: Progress): bool
  {
    |Remaining(db.sessions, b, p.cursor)| > MAX_SESSIONS
  }

  datatype Plan = Plan(progress: Progress, manifest: Manifest, batch: Batch)

  ghost function PlanClaim(env: Env, db: Db, j: nat, now: Time, token: Token): Result<Plan>
    requires j < |db.jobs|
  {
    var job := db.jobs[j];
    match job.period.bounds
    case None => Err(InvalidPeriod)
    case Some(b) =>
      var archive := MetaAt(db.archives, job.period.name);
      if job.period.name in db.archives && |db.archives[job.period.name].content| > MAX_OBJECT_BYTES then Err(Budget)
      else
        var p := Resume(db, job, b, now);
        var page := PageOf(db, b, p);
        var h := Header(j, token, now + LEASE, p.summary);
        match FitPage(env, db, h, page, |page|, MoreAfterPage(db, b, p))
        case Err(e) => Err(e)
        case Ok(batch) =>
          var sources := SourcesOf(batch.sessions);
          Ok(Plan(p, Manifest(sources, TargetsOf(batch.snapshots), archive,
                              Advance(p, sources).(summary := ""), b.startKey, b.endKey, batch.hasMore), batch))
  }

  function Lease(job: Job, plan: Plan, now: Time, token: Token): Job
  {
    job.(status := Delivered, deliveredAt := Some(now), token := Some(token), lease := Millis(now + LEASE),
         manifest := Some(plan.manifest), state := Some(plan.progress))
  }

  /* ---- object checks, shared by claim replay and commit ---- */

  function CheckObject<K(==)>(rows: map<K, Object>, k: K, expected: Meta): Option<Error>
  {
    if k !in rows then (if expected.version == 0 then None else Some(NotFound))
    else if MetaOf(rows[k]) == expected then None else Some(Conflict)
  }

  function CheckSources(sessions: map<Key, Object>, sources: seq<Source>): (r: Option<Error>)
    ensures r.None? ==> forall i :: 0 <= i < |sources| ==> CheckObject(sessions, sources[i].key, sources[i].meta).None?
  {
    if sources == [] then None else
      var n := |sources| - 1;
      var first := CheckSources(sessions, sources[..n]);
      if first.Some? then first else CheckObject(sessions, sources[n].key, sources[n].meta)
  }

  function CheckTargets(rows: map<TargetKey, Object>, targets: seq<Target>): (r: Option<Error>)
    ensures r.None? ==> forall i :: 0 <= i < |targets| ==> CheckObject(rows, targets[i].target, targets[i].meta).None?
  {
    if targets == [] then None else
      var n := |targets| - 1;
      var first := CheckTargets(rows, targets[..n]);
      if first.Some? then first else CheckObject(rows, targets[n].target, targets[n].meta)
  }

  /* ---- claim, first time or replayed ---- */

  function ReplaySources(env: Env, sessions: map<Key, Object>, sources: seq<Source>): (r: Result<seq<SessionItem>>)
    ensures r.Ok? ==> |r.value| == |sources|
    ensures r.Ok? ==> forall i :: 0 <= i < |sources| ==>
      r.value[i].key == sources[i].key && r.value[i].meta == sources[i].meta
  {
    if sources == [] then Ok([]) else
      var n := |sources| - 1;
      match ReplaySources(env, sessions, sources[..n])
      case Err(e) => Err(e)
      case Ok(items) =>
        var bad := CheckObject(sessions, sources[n].key, sources[n].meta);
        if bad.Some? then Err(bad.value)
        else if sources[n].key !in sessions then Err(BadSession)
        else match ReadSession(env, sessions, sources[n].key)
          case Err(e) => Err(e)
          case Ok(item) => Ok(items + [item])
  }

  function ReplayTargets(rows: map<TargetKey, Object>, targets: seq<Target>): (r: Result<seq<TargetItem>>)
  {
    if targets == [] then Ok([]) else
      var n := |targets| - 1;
      match ReplayTargets(rows, targets[..n])
      case Err(e) => Err(e)
      case Ok(items) =>
        var bad := CheckObject(rows, targets[n].target, targets[n].meta);
        if bad.Some? then Err(bad.value)
        else match ReadTarget(rows, targets[n].target)
          case Err(e) => Err(e)
          case Ok(item) => Ok(items + [item])
  }

  function ReplayClaim(env: Env, db: Db, receipt: Receipt, now: Time): ClaimOutcome
  {
    match receipt
    case IdleReceipt => Idle
    case BusyReceipt => Busy
    case ClaimReceipt(j, token, leaseUntil, hasMore) =>
      if j >= |db.jobs| || db.jobs[j].token != Some(token) || !Live(db.jobs[j], now)
        || db.jobs[j].manifest.None? then Expired(j)
      else
        var job := db.jobs[j];
        var m := job.manifest.value;
        if |m.sources| > MAX_SESSIONS || |m.targets| > MAX_CONCEPTS + 2 then Refused(Budget)
        else
          var bad := CheckObject(db.archives, job.period.name, m.archive);
          if bad.Some? then Refused(bad.value)
          else match ReplaySources(env, db.sessions, m.sources)
            case Err(e) => Refused(e)
            case Ok(items) =>
              match ReplayTargets(db.targets, m.targets)
              case Err(e) => Refused(e)
              case Ok(snapshots) =>
                var summary := if job.state.Some? then job.state.value.summary else "";
                Replayed(Batch(Header(j, token, leaseUntil, summary), hasMore, items, snapshots))
  }

  /** One claim transaction. */
  ghost function ClaimStep(env: Env, db: Db, request: string, now: Time, token: Token): (Db, ClaimOutcome)
  {
    if !SafeKey(request) then (db, Refused(BadRequest))
    else if request in db.receipts then (db, ReplayClaim(env, db, db.receipts[request], now))
    else if AnyLive(db.jobs, now) then (db.(receipts := db.receipts[request := BusyReceipt]), Busy)
    else match NextJob(db.jobs, now)
      case None => (db.(receipts := db.receipts[request := IdleReceipt]), Idle)
      case Some(j) =>
        match PlanClaim(env, db, j, now, token)
        case Err(e) => (db, Refused(e))
        case Ok(plan) =>
          (db.(jobs := db.jobs[j := Lease(db.jobs[j], plan, now, token)],
               receipts := db.receipts[request := ClaimReceipt(j, token, now + LEASE, plan.batch.hasMore)]),
           Claimed(plan.batch))
  }

  /* ---- commit ---- */

  datatype CommitRequest = CommitRequest(token: Token, content: Digest)

  /** WHERE maintenance_token = ? OR maintenance_last_token = ? LIMIT 1. */
  function FindJob(jobs: seq<Job>, token: Token): (r: Option<nat>)
    ensures r.Some? ==>
      r.value < |jobs| && (jobs[r.value].token == Some(token) || jobs[r.value].lastToken == Some(token))
    ensures r.None? ==> forall i :: 0 <= i < |jobs| ==> jobs[i].token != Some(token) && jobs[i].lastToken != Some(token)
  {
    if jobs == [] then None else
      var n := |jobs| - 1;
      var first := FindJob(jobs[..n], token);
      if first.Some? then first
      else if jobs[n].token == Some(token) || jobs[n].lastToken == Some(token) then Some(n) else None
  }

  function Values(updates: seq<Update>): (r: Result<map<TargetKey, string>>)
  {
    if updates == [] then Ok(map[]) else
      var n := |updates| - 1;
      match Values(updates[..n])
      case Err(e) => Err(e)
      case Ok(m) =>
        if |updates[n].content| > MAX_OBJECT_BYTES then Err(Budget)
        else if updates[n].target in m then Err(DuplicateUpdate)
        else Ok(m[updates[n].target := updates[n].content])
  }

  predicate AllSupplied(targets: seq<Target>, values: map<TargetKey, string>)
  {
    forall i :: 0 <= i < |targets| ==> targets[i].target in values
  }

  /** Compare-and-swap of one row whose version was just checked under the lock. */
  function Swap<K(==)>(rows: map<K, Object>, k: K, expected: Meta, content: string, at: Time): map<K, Object>
  {
    rows[k := Object(expected.version + 1, content, at)]
  }

  function SwapTargets(rows: map<TargetKey, Object>, targets: seq<Target>, values: map<TargetKey, string>,
                       at: Time): map<TargetKey, Object>
    requires AllSupplied(targets, values)
  {
    if targets == [] then rows else
      var n := |targets| - 1;
      Swap(SwapTargets(rows, targets[..n], values, at), targets[n].target, targets[n].meta, values[targets[n].target],
        at)
  }

  /** All checks of a commit against the leased job, in order; the supplied values when they pass. */
  function Admit(db: Db, job: Job, m: Manifest, content: Digest): Result<map<TargetKey, string>>
  {
    if |m.sources| > MAX_SESSIONS || |m.targets| > MAX_CONCEPTS + 2 then Err(Budget)
    else if |content.updates| != |m.targets| then Err(WrongCount)
    else match Values(content.updates)
      case Err(e) => Err(e)
      case Ok(values) =>
        if !PrefixValid(db.sessions, m.startKey, m.next) then Err(Conflict)
        else
          var badSource := CheckSources(db.sessions, m.sources);
          var badTarget := CheckTargets(db.targets, m.targets);
          var badArchive := CheckObject(db.archives, job.period.name, m.archive);
          if badSource.Some? then Err(badSource.value)
          else if badTarget.Some? then Err(badTarget.value)
          else if badArchive.Some? then Err(badArchive.value)
          else if !AllSupplied(m.targets, values) then Err(MissingUpdate)
          else Ok(values)
  }

  function Settle(job: Job, m: Manifest, req: CommitRequest, completed: bool): Job
  {
    job.(status := if completed then Completed else Pending,
         state := if completed then None else Some(m.next.(summary := req.content.summary)),
         manifest := None, token := None, lease := 0,
         lastToken := Some(req.token), lastDigest := Some(req.content), lastCompleted := completed)
  }

  predicate WellSized(env: Env, content: Digest)
  {
    |content.summary| <= MAX_OBJECT_BYTES && |content.updates| <= MAX_CONCEPTS + 2
      && env.commitBytes(content) <= MAX_BATCH_BYTES
  }

  /** No source of the period is left after the manifest's cursor. */
  predicate Finishes(db: Db, m: Manifest)
  {
    Remaining(db.sessions, Bounds(m.startKey, m.endKey), m.next.cursor) == {}
  }

  function Apply(db: Db, j: nat, m: Manifest, req: CommitRequest, values: map<TargetKey, string>, at: Time): Db
    requires j < |db.jobs| && AllSupplied(m.targets, values)
  {
    var completed := Finishes(db, m);
    var job := db.jobs[j];
    db.(targets := SwapTargets(db.targets, m.targets, values, at),
        archives := if completed then Swap(db.archives, job.period.name, m.archive, req.content.summary, at)
          else db.archives,
        jobs := db.jobs[j := Settle(job, m, req, completed)])
  }

  /** One commit transaction; `quota` says whether the narrative quotas admit the writes. */
  function CommitStep(env: Env, db: Db, req: CommitRequest, now: Time, at: Time, quota: bool): (Db, CommitOutcome)
  {
    if Blank(req.content.summary) then (db, Rejected(BadRequest))
    else if !WellSized(env, req.content) then (db, Rejected(Budget))
    else match FindJob(db.jobs, req.token)
      case None => (db, Rejected(LeaseLost))
      case Some(j) =>
        var job := db.jobs[j];
        if job.lastToken == Some(req.token) then
          if job.lastDigest != Some(req.content) then (db, Rejected(MutationConflict))
          else (db, Committed(job.lastCompleted, true))
        else if job.token != Some(req.token) || !Live(job, now) || job.manifest.None? then (db, Rejected(LeaseLost))
        else match Admit(db, job, job.manifest.value, req.content)
          case Err(e) => (db, Rejected(e))
          case Ok(values) =>
            if !quota then (db, Rejected(Quota))
            else (Apply(db, j, job.manifest.value, req, values, at), Committed(Finishes(db, job.manifest.value), false))
  }

  /* ---- the other writers ---- */

  /** A create or an edit of one row. */
  function Write<K(==)>(rows: map<K, Object>, k: K, content: string, at: Time): map<K, Object>
  {
    rows[k := Object(if k in rows then rows[k].version + 1 else 1, content, at)]
  }

  /** The scheduler returns stale delivered jobs to the queue. */
  function Requeue(jobs: seq<Job>, cutoff: Time): (r: seq<Job>)
    ensures |r| == |jobs|
    ensures forall i :: 0 <= i < |jobs| ==> r[i] == RequeueOne(jobs[i], cutoff)
  {
    seq(|jobs|, i requires 0 <= i < |jobs| => RequeueOne(jobs[i], cutoff))
  }

  function RequeueOne(job: Job, cutoff: Time): Job
  {
    if job.status == Delivered && job.deliveredAt.Some? && job.deliveredAt.value < cutoff
    then job.(status := Pending, deliveredAt := None) else job
  }

  /** Insert a pending job unless the period already has one. */
  function Enqueue(jobs: seq<Job>, period: Period, now: Time): seq<Job>
  {
    if exists i :: 0 <= i < |jobs| && jobs[i].period.name == period.name then jobs
    else jobs + [Job(period, now, Pending, None, None, 0, None, None, None, None, false)]
  }
}
