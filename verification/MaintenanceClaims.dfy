/** What a claim hands out: the stored notes, the notes of exactly the concepts they touch, and the
    running summary; and what the same request is answered later. */
module MaintenanceClaims {
  import opened Options
  import opened Texts
  import opened Ordering
  import opened Maintenance
  import opened MaintenanceProofs

  /* ---- the batch is what is stored ---- */

  /** The note stored under k is about slug s of domain d. */
  predicate Touches(env: Env, sessions: map<Key, Object>, k: Key, d: string, s: string)
  {
    && k in sessions
    && var note := env.parse(sessions[k].content);
    note.Some? && note.value.domain == d && s in note.value.slugs
  }

  /** The item is the stored row, with the concepts its note touches. */
  ghost predicate StoredItem(env: Env, sessions: map<Key, Object>, item: SessionItem)
  {
    && item.key in sessions && item.content == sessions[item.key].content && item.meta == MetaOf(sessions[item.key])
    && forall d, s :: Key(d, s) in item.concepts <==> Touches(env, sessions, item.key, d, s)
  }

  ghost predicate StoredItems(env: Env, sessions: map<Key, Object>, items: seq<SessionItem>)
  {
    forall i :: 0 <= i < |items| ==> StoredItem(env, sessions, items[i])
  }

  lemma ReadIsStored(env: Env, sessions: map<Key, Object>, k: Key)
    requires k in sessions && ReadSession(env, sessions, k).Ok?
    ensures StoredItem(env, sessions, ReadSession(env, sessions, k).value)
  {
  }

  /** The items are what reading these rows gives. */
  ghost predicate ReadItems(env: Env, sessions: map<Key, Object>, items: seq<SessionItem>)
  {
    forall i :: 0 <= i < |items| ==>
      items[i].key in sessions && ReadSession(env, sessions, items[i].key) == Ok(items[i])
  }

  lemma {:induction false} AllAreRead(env: Env, sessions: map<Key, Object>, keys: seq<Key>)
    requires (forall k :: k in keys ==> k in sessions) && ReadSessions(env, sessions, keys).Ok?
    ensures ReadItems(env, sessions, ReadSessions(env, sessions, keys).value)
  {
    if keys != [] { AllAreRead(env, sessions, keys[..|keys| - 1]); }
  }

  lemma ReadAreStored(env: Env, sessions: map<Key, Object>, items: seq<SessionItem>)
    requires ReadItems(env, sessions, items)
    ensures StoredItems(env, sessions, items)
  {
    forall i | 0 <= i < |items| ensures StoredItem(env, sessions, items[i]) {
      ReadIsStored(env, sessions, items[i].key);
    }
  }

  lemma {:induction false} ConceptsAreTouched(items: seq<SessionItem>, c: Key)
    ensures c in Concepts(items) <==> exists i :: 0 <= i < |items| && c in items[i].concepts
  {
    if items != [] {
      var n := |items| - 1;
      ConceptsAreTouched(items[..n], c);
      assert forall i :: 0 <= i < n ==> items[..n][i] == items[i];
    }
  }

  /** The snapshot is the stored row, or empty for a missing one. */
  predicate StoredSnapshot(targets: map<TargetKey, Object>, item: TargetItem)
  {
    && item.meta == MetaAt(targets, item.target)
    && item.content == if item.target in targets then targets[item.target].content else ""
  }

  ghost predicate ReadSnapshots(targets: map<TargetKey, Object>, items: seq<TargetItem>)
  {
    forall i :: 0 <= i < |items| ==> ReadTarget(targets, items[i].target) == Ok(items[i])
  }

  lemma {:induction false} AllTargetsAreRead(targets: map<TargetKey, Object>, list: seq<TargetKey>)
    requires ReadTargets(targets, list).Ok?
    ensures ReadSnapshots(targets, ReadTargets(targets, list).value)
  {
    if list != [] { AllTargetsAreRead(targets, list[..|list| - 1]); }
  }

  /** The two memory documents first, then the concepts' notes. */
  ghost predicate ListsTargets(concepts: set<Key>, list: seq<TargetKey>)
  {
    && |list| >= 2 && list[0] == Memory && list[1] == MemoryPending
    && (forall i :: 2 <= i < |list| ==> list[i].ConceptNote? && list[i].key in concepts)
    && (forall c :: c in concepts ==> ConceptNote(c) in list)
    && (forall i, j :: 0 <= i < j < |list| ==> list[i] != list[j])
  }

  lemma NotesAreDistinct(rows: seq<Key>, i: nat, j: nat)
    requires Ascending(rows) && i < j < |rows|
    ensures ConceptNote(rows[i]) != ConceptNote(rows[j])
  {
    KeyTrichotomy(rows[i], rows[i]);
    assert Before(rows[i], rows[j]);
  }

  lemma TargetsForLists(rows: seq<Key>)
    requires Ascending(rows)
    ensures ListsTargets((set c | c in rows), TargetsFor(rows))
  {
    var list := TargetsFor(rows);
    forall c | c in rows ensures ConceptNote(c) in list {
      var i :| 0 <= i < |rows| && rows[i] == c;
      assert list[i + 2] == ConceptNote(c);
    }
    forall i, j | 2 <= i < j < |list| ensures list[i] != list[j] {
      NotesAreDistinct(rows, i - 2, j - 2);
    }
  }

  lemma TargetListLists(concepts: set<Key>)
    ensures ListsTargets(concepts, TargetList(concepts))
  {
    TargetsForLists(Sorted(concepts));
    assert concepts == (set c | c in Sorted(concepts));
  }

  /** The concept is touched by one of the listed notes, as stored. */
  ghost predicate TouchedBy(env: Env, sessions: map<Key, Object>, items: seq<SessionItem>, c: Key)
  {
    exists i :: 0 <= i < |items| && Touches(env, sessions, items[i].key, c.major, c.minor)
  }

  function TargetNames(items: seq<TargetItem>): (r: seq<TargetKey>)
    ensures |r| == |items| && forall i :: 0 <= i < |r| ==> r[i] == items[i].target
  {
    seq(|items|, i requires 0 <= i < |items| => items[i].target)
  }

  /** Sessions and snapshots are the stored rows, and the snapshots are the two memory documents and
      the note of each concept that the listed sessions touch, each once. */
  ghost predicate Faithful(env: Env, db: Db, batch: Batch)
  {
    && StoredItems(env, db.sessions, batch.sessions)
    && (forall i :: 0 <= i < |batch.snapshots| ==> StoredSnapshot(db.targets, batch.snapshots[i]))
    && var list := TargetNames(batch.snapshots);
    && |list| >= 2 && list[0] == Memory && list[1] == MemoryPending
    && (forall i :: 2 <= i < |list| ==>
          list[i].ConceptNote? && TouchedBy(env, db.sessions, batch.sessions, list[i].key))
    && (forall c :: TouchedBy(env, db.sessions, batch.sessions, c) ==> ConceptNote(c) in list)
    && (forall i, j :: 0 <= i < j < |list| ==> list[i] != list[j])
  }

  lemma TouchedAreConcepts(env: Env, sessions: map<Key, Object>, items: seq<SessionItem>, c: Key)
    requires StoredItems(env, sessions, items)
    ensures TouchedBy(env, sessions, items, c) <==> c in Concepts(items)
  {
    ConceptsAreTouched(items, c);
    assert Key(c.major, c.minor) == c;
    if TouchedBy(env, sessions, items, c) {
      var i :| 0 <= i < |items| && Touches(env, sessions, items[i].key, c.major, c.minor);
      assert StoredItem(env, sessions, items[i]);
      assert c in items[i].concepts;
    }
    if c in Concepts(items) {
      var i :| 0 <= i < |items| && c in items[i].concepts;
      assert StoredItem(env, sessions, items[i]);
      assert Touches(env, sessions, items[i].key, c.major, c.minor);
    }
  }

  /** The batch is what reading gives, and its snapshots are the listed targets of its concepts. */
  ghost predicate Reads(env: Env, db: Db, batch: Batch)
  {
    && ReadItems(env, db.sessions, batch.sessions) && ReadSnapshots(db.targets, batch.snapshots)
    && TargetNames(batch.snapshots) == TargetList(Concepts(batch.sessions))
  }

  lemma BatchReads(env: Env, db: Db, h: Header, more: bool, keys: seq<Key>)
    requires (forall k :: k in keys ==> k in db.sessions) && ReadSessions(env, db.sessions, keys).Ok?
    requires ReadTargets(db.targets, TargetList(Concepts(ReadSessions(env, db.sessions, keys).value))).Ok?
    ensures
      var items := ReadSessions(env, db.sessions, keys).value;
      Reads(env, db, Batch(h, more, items, ReadTargets(db.targets, TargetList(Concepts(items))).value))
  {
    var list := TargetList(Concepts(ReadSessions(env, db.sessions, keys).value));
    AllAreRead(env, db.sessions, keys);
    AllTargetsAreRead(db.targets, list);
    assert TargetNames(ReadTargets(db.targets, list).value) == list;
  }

  lemma {:induction false} PageReads(env: Env, db: Db, h: Header, keys: seq<Key>, initial: nat, more: bool)
    requires (forall k :: k in keys ==> k in db.sessions) && FitPage(env, db, h, keys, initial, more).Ok?
    ensures Reads(env, db, FitPage(env, db, h, keys, initial, more).value)
    decreases |keys|
  {
    var items := ReadSessions(env, db.sessions, keys).value;
    var half := keys[..|keys| / 2];
    if |Concepts(items)| <= MAX_CONCEPTS {
      BatchReads(env, db, h, more || |keys| < initial, keys);
    }
    if |keys| > 1 && FitPage(env, db, h, half, initial, more).Ok? { PageReads(env, db, h, half, initial, more); }
  }

  lemma ReadIsFaithful(env: Env, db: Db, batch: Batch)
    requires Reads(env, db, batch)
    ensures Faithful(env, db, batch)
  {
    var items := batch.sessions;
    ReadAreStored(env, db.sessions, items);
    TargetListLists(Concepts(items));
    forall c ensures TouchedBy(env, db.sessions, items, c) <==> c in Concepts(items) {
      TouchedAreConcepts(env, db.sessions, items, c);
    }
  }

  lemma PlanReads(env: Env, db: Db, j: nat, now: Time, token: Token)
    requires j < |db.jobs| && PlanClaim(env, db, j, now, token).Ok?
    ensures
      var plan := PlanClaim(env, db, j, now, token).value;
      && Reads(env, db, plan.batch)
      && plan.manifest.sources == SourcesOf(plan.batch.sessions)
      && plan.manifest.targets == TargetsOf(plan.batch.snapshots)
      && plan.batch.header == Header(j, token, now + LEASE, plan.progress.summary)
  {
    var b := db.jobs[j].period.bounds.value;
    var p := Resume(db, db.jobs[j], b, now);
    var page := PageOf(db, b, p);
    PageReads(env, db, Header(j, token, now + LEASE, p.summary), page, |page|, MoreAfterPage(db, b, p));
  }

  /** Whatever is claimed is stored: every item and snapshot carries the stored row, and the snapshots
      are exactly the memory documents and the notes of the concepts touched. */
  lemma ClaimedIsStored(env: Env, db: Db, request: string, now: Time, token: Token)
    requires ClaimStep(env, db, request, now, token).1.Claimed?
    ensures Faithful(env, db, ClaimStep(env, db, request, now, token).1.batch)
  {
    ClaimTaken(env, db, request, now, token);
    PlanReads(env, db, NextJob(db.jobs, now).value, now, token);
    ReadIsFaithful(env, db, ClaimStep(env, db, request, now, token).1.batch);
  }

  lemma PlanLimits(env: Env, db: Db, j: nat, now: Time, token: Token)
    requires j < |db.jobs| && PlanClaim(env, db, j, now, token).Ok?
    ensures
      var batch := PlanClaim(env, db, j, now, token).value.batch;
      && |batch.sessions| <= 8 && |batch.snapshots| <= 18 && env.batchBytes(batch) <= 131072
  {
  }

  /** No batch is larger than 8 sessions, 16 concepts beside the two memory documents, 32 KiB an object and
      128 KiB in all. */
  lemma ClaimLimits(env: Env, db: Db, request: string, now: Time, token: Token)
    requires ClaimStep(env, db, request, now, token).1.Claimed?
    ensures
      var batch := ClaimStep(env, db, request, now, token).1.batch;
      && |batch.sessions| <= 8 && |batch.snapshots| <= 18 && env.batchBytes(batch) <= 131072
      && (forall i :: 0 <= i < |batch.sessions| ==> |batch.sessions[i].content| <= 32768)
      && (forall i :: 0 <= i < |batch.snapshots| ==> |batch.snapshots[i].content| <= 32768)
  {
    ClaimTaken(env, db, request, now, token);
    var j := NextJob(db.jobs, now).value;
    PlanLimits(env, db, j, now, token);
    PlanReads(env, db, j, now, token);
  }
}
