/** The in-memory token-bucket table with its idle cleanup and capacity bound.
    Instants and durations are seconds. */
module RateLimits {
  import opened Lru

  datatype Limits = Limits(rate: real, burst: int)

  datatype Bucket = Bucket(tokens: real, lastTime: real)

  datatype Table = Table(buckets: map<string, Bucket>, lru: seq<string>)

  const CAPACITY: nat := 10_000
  const IDLE: real := 600.0

  const EMPTY := Table(map[], [])

  /** Tokens gained over a stretch of time. */
  function Gain(elapsed: real, rate: real): real { elapsed * rate }

  function Refill(l: Limits, b: Bucket, now: real): real
  {
    var tokens := b.tokens + Gain(now - b.lastTime, l.rate);
    if tokens > l.burst as real then l.burst as real else tokens
  }

  /** One request against an existing bucket. */
  function Take(l: Limits, b: Bucket, now: real): (Bucket, bool)
  {
    var tokens := Refill(l, b, now);
    if tokens < 1.0 then (Bucket(tokens, now), false) else (Bucket(tokens - 1.0, now), true)
  }

  function NewBucket(l: Limits, now: real): Bucket { Bucket(l.burst as real - 1.0, now) }

  function Forget(buckets: map<string, Bucket>, gone: set<string>): map<string, Bucket>
  {
    map k <- buckets | k !in gone :: buckets[k]
  }

  /** Room for a new key: at capacity the key at the back of the list goes. */
  function MakeRoom(t: Table): Table
  {
    if |t.buckets| < CAPACITY || t.lru == [] then t
    else Table(Forget(t.buckets, {t.lru[|t.lru| - 1]}), t.lru[..|t.lru| - 1])
  }

  function Allow(l: Limits, t: Table, key: string, now: real): (Table, bool)
  {
    if key !in t.buckets then
      var room := MakeRoom(t);
      (Table(room.buckets[key := NewBucket(l, now)], [key] + room.lru), true)
    else
      var (b, ok) := Take(l, t.buckets[key], now);
      (Table(t.buckets[key := b], ToFront(t.lru, key)), ok)
  }

  function Without(t: Table, gone: set<string>): Table
  {
    Table(Forget(t.buckets, gone), Drop(t.lru, gone))
  }

  function Stale(buckets: map<string, Bucket>, now: real): set<string>
  {
    set k <- buckets | buckets[k].lastTime < now - IDLE
  }

  function Clean(t: Table, now: real): Table
  {
    Without(t, Stale(t.buckets, now))
  }

  /** The specification: one bucket per key that is never forgotten. */
  function Reference(l: Limits, refs: map<string, Bucket>, key: string, now: real): (map<string, Bucket>, bool)
  {
    if key !in refs then (refs[key := NewBucket(l, now)], true)
    else
      var (b, ok) := Take(l, refs[key], now);
      (refs[key := b], ok)
  }

  /* ---- runs ---- */

  datatype Event = Request(key: string, at: real) | Sweep(at: real)

  function After(l: Limits, events: seq<Event>): Table
  {
    if events == [] then EMPTY
    else
      var t, e := After(l, events[..|events| - 1]), events[|events| - 1];
      if e.Request? then Allow(l, t, e.key, e.at).0 else Clean(t, e.at)
  }

  function ReferenceAfter(l: Limits, events: seq<Event>): map<string, Bucket>
  {
    if events == [] then map[]
    else
      var refs, e := ReferenceAfter(l, events[..|events| - 1]), events[|events| - 1];
      if e.Request? then Reference(l, refs, e.key, e.at).0 else refs
  }

  predicate Monotone(events: seq<Event>)
  {
    forall i, j :: 0 <= i < j < |events| ==> events[i].at <= events[j].at
  }

  /** What request i is answered. */
  function Answer(l: Limits, events: seq<Event>, i: nat): bool
    requires i < |events| && events[i].Request?
  {
    Allow(l, After(l, events[..i]), events[i].key, events[i].at).1
  }

  function ReferenceAnswer(l: Limits, events: seq<Event>, i: nat): bool
    requires i < |events| && events[i].Request?
  {
    Reference(l, ReferenceAfter(l, events[..i]), events[i].key, events[i].at).1
  }

  predicate Crowded(t: Table, e: Event)
  {
    e.Request? && e.key !in t.buckets && |t.buckets| >= CAPACITY
  }

  /** No request of the run finds the table full of other keys. */
  predicate NoEviction(l: Limits, events: seq<Event>)
  {
    forall i :: 0 <= i < |events| ==> !Crowded(After(l, events[..i]), events[i])
  }

  /* ---- the shape of the table ---- */

  function LastTimes(buckets: map<string, Bucket>): map<string, real>
  {
    map k <- buckets :: buckets[k].lastTime
  }

  /** The list holds the keys of the map, most recent request first, within capacity. */
  predicate Valid(t: Table)
  {
    Shaped(t) && Descending(t.lru, LastTimes(t.buckets))
  }

  /** The list holds the keys of the map, within capacity. */
  predicate Shaped(t: Table)
  {
    Lists(t.lru, t.buckets.Keys) && |t.lru| <= CAPACITY
  }

  predicate UsedBy(t: Table, now: real)
  {
    forall k <- t.buckets :: t.buckets[k].lastTime <= now
  }

  lemma TouchKeepsOrder(t: Table, key: string, b: Bucket, now: real)
    requires Valid(t) && UsedBy(t, now) && b.lastTime == now
    ensures Descending(ToFront(t.lru, key), LastTimes(t.buckets[key := b]))
  {
    ToFrontDescending(t.lru, key, LastTimes(t.buckets), now);
    assert LastTimes(t.buckets)[key := now] == LastTimes(t.buckets[key := b]);
  }

  predicate Oldest(buckets: map<string, Bucket>, key: string)
  {
    key in buckets && forall k <- buckets :: buckets[key].lastTime <= buckets[k].lastTime
  }

  lemma BackIsOldest(t: Table)
    requires Valid(t) && t.lru != []
    ensures Oldest(t.buckets, t.lru[|t.lru| - 1])
  {
    var last := LastTimes(t.buckets);
    forall k <- t.buckets ensures last[t.lru[|t.lru| - 1]] <= last[k] {
      var i :| 0 <= i < |t.lru| && t.lru[i] == k;
    }
  }

  lemma DropShaped(t: Table, gone: set<string>)
    requires Shaped(t)
    ensures Shaped(Without(t, gone))
  {
    DropLists(t.lru, t.buckets.Keys, gone);
    assert Without(t, gone).buckets.Keys == t.buckets.Keys - gone;
  }

  lemma DropValid(t: Table, gone: set<string>)
    requires Valid(t)
    ensures Valid(Without(t, gone))
  {
    var t' := Without(t, gone);
    DropShaped(t, gone);
    DropDescending(t.lru, gone, LastTimes(t.buckets));
    SubDescending(t'.lru, LastTimes(t.buckets), LastTimes(t'.buckets));
  }

  /** Room is made by dropping the back of the list, or was there. */
  lemma MakeRoomDrops(t: Table)
    requires Shaped(t)
    ensures MakeRoom(t) == t || (t.lru != [] && MakeRoom(t) == Without(t, {t.lru[|t.lru| - 1]}))
    ensures |MakeRoom(t).lru| < CAPACITY && MakeRoom(t).buckets.Keys <= t.buckets.Keys
  {
    ListLength(t.lru, t.buckets.Keys);
    if t.lru != [] { DropLast(t.lru); }
  }

  lemma MakeRoomValid(t: Table)
    requires Valid(t)
    ensures Valid(MakeRoom(t)) && |MakeRoom(t).lru| < CAPACITY
    ensures MakeRoom(t).buckets.Keys <= t.buckets.Keys
    ensures forall k <- MakeRoom(t).buckets :: MakeRoom(t).buckets[k] == t.buckets[k]
  {
    MakeRoomDrops(t);
    if MakeRoom(t) != t { DropValid(t, {t.lru[|t.lru| - 1]}); }
  }

  lemma TouchShaped(t: Table, key: string, b: Bucket)
    requires Shaped(t) && (key in t.buckets || |t.lru| < CAPACITY)
    ensures Shaped(Table(t.buckets[key := b], ToFront(t.lru, key)))
  {
    var keys := t.buckets.Keys;
    assert t.buckets[key := b].Keys == keys + {key};
    ToFrontLists(t.lru, keys, key);
    if key in t.buckets {
      assert keys + {key} == keys;
      ListLength(t.lru, keys);
      ListLength(ToFront(t.lru, key), keys);
    }
  }

  /** Touching a known key, or adding one where there is room. */
  lemma TouchValid(t: Table, key: string, b: Bucket, now: real)
    requires Valid(t) && UsedBy(t, now) && b.lastTime == now && (key in t.buckets || |t.lru| < CAPACITY)
    ensures Valid(Table(t.buckets[key := b], ToFront(t.lru, key)))
    ensures UsedBy(Table(t.buckets[key := b], ToFront(t.lru, key)), now)
  {
    TouchKeepsOrder(t, key, b, now);
    TouchShaped(t, key, b);
  }

  lemma AllowValid(l: Limits, t: Table, key: string, now: real)
    requires Valid(t) && UsedBy(t, now)
    ensures Valid(Allow(l, t, key, now).0) && UsedBy(Allow(l, t, key, now).0, now)
  {
    if key in t.buckets {
      TouchValid(t, key, Take(l, t.buckets[key], now).0, now);
    } else {
      MakeRoomValid(t);
      var room := MakeRoom(t);
      TouchValid(room, key, NewBucket(l, now), now);
      assert key !in room.buckets.Keys && key !in room.lru;
      DropNothing(room.lru, key);
    }
  }

  lemma CleanValid(t: Table, now: real)
    requires Valid(t) && UsedBy(t, now)
    ensures Valid(Clean(t, now)) && UsedBy(Clean(t, now), now)
  {
    DropValid(t, Stale(t.buckets, now));
  }

  lemma MonotonePrefix(events: seq<Event>)
    requires Monotone(events) && events != []
    ensures Monotone(events[..|events| - 1])
    ensures |events| >= 2 ==> events[|events| - 2].at <= events[|events| - 1].at
  {
  }

  lemma MakeRoomShaped(t: Table)
    requires Shaped(t)
    ensures Shaped(MakeRoom(t)) && |MakeRoom(t).lru| < CAPACITY && MakeRoom(t).buckets.Keys <= t.buckets.Keys
  {
    MakeRoomDrops(t);
    if MakeRoom(t) != t { DropShaped(t, {t.lru[|t.lru| - 1]}); }
  }

  lemma AllowShaped(l: Limits, t: Table, key: string, now: real)
    requires Shaped(t)
    ensures Shaped(Allow(l, t, key, now).0)
  {
    if key in t.buckets {
      TouchShaped(t, key, Take(l, t.buckets[key], now).0);
    } else {
      MakeRoomShaped(t);
      var room := MakeRoom(t);
      TouchShaped(room, key, NewBucket(l, now));
      assert key !in room.buckets.Keys && key !in room.lru;
      DropNothing(room.lru, key);
    }
  }

  /** Whatever the clock does, map keys and recency list agree and never exceed the capacity. */
  lemma {:induction false} EveryTableIsShaped(l: Limits, events: seq<Event>)
    ensures Shaped(After(l, events))
  {
    if events != [] {
      EveryTableIsShaped(l, events[..|events| - 1]);
      var t, e := After(l, events[..|events| - 1]), events[|events| - 1];
      if e.Request? { AllowShaped(l, t, e.key, e.at); } else { DropShaped(t, Stale(t.buckets, e.at)); }
    }
  }

  lemma NeverMoreKeys(l: Limits, events: seq<Event>)
    ensures |After(l, events).buckets| <= 10_000
  {
    EveryTableIsShaped(l, events);
    ListLength(After(l, events).lru, After(l, events).buckets.Keys);
  }

  /** With a monotone clock the list is also in order of use. */
  lemma {:induction false} EveryTableIsValid(l: Limits, events: seq<Event>)
    requires Monotone(events)
    ensures Valid(After(l, events))
    ensures events != [] ==> UsedBy(After(l, events), events[|events| - 1].at)
    ensures events == [] ==> After(l, events).buckets == map[]
  {
    if events != [] {
      MonotonePrefix(events);
      EveryTableIsValid(l, events[..|events| - 1]);
      var t, e := After(l, events[..|events| - 1]), events[|events| - 1];
      assert UsedBy(t, e.at);
      if e.Request? { AllowValid(l, t, e.key, e.at); } else { CleanValid(t, e.at); }
    }
  }

  /** A key forgotten by a request was used no later than any other key of the table. */
  lemma EvictsLeastRecentlyUsed(l: Limits, events: seq<Event>, key: string, now: real, gone: string)
    requires Monotone(events + [Request(key, now)])
    requires gone in After(l, events).buckets && gone !in Allow(l, After(l, events), key, now).0.buckets
    ensures Oldest(After(l, events).buckets, gone)
  {
    var all := events + [Request(key, now)];
    MonotonePrefix(all);
    assert all[..|all| - 1] == events;
    EveryTableIsValid(l, events);
    EvictedIsOldest(l, After(l, events), key, now, gone);
  }

  lemma EvictedIsOldest(l: Limits, t: Table, key: string, now: real, gone: string)
    requires Valid(t) && gone in t.buckets && gone !in Allow(l, t, key, now).0.buckets
    ensures Oldest(t.buckets, gone)
  {
    assert gone !in MakeRoom(t).buckets;
    assert t.lru != [];
    BackIsOldest(t);
  }

  /* ---- agreement with the reference ---- */

  /** Ten idle minutes refill the whole burst. */
  predicate RefillsWhenIdle(l: Limits) { Gain(IDLE, l.rate) >= l.burst as real }

  /** There is a burst, and ten idle minutes refill it. */
  predicate Sufficient(l: Limits) { l.burst >= 1 && RefillsWhenIdle(l) }

  predicate Policy(l: Limits) { l.rate >= 0.0 && l.burst >= 1 }

  predicate Filled(l: Limits, b: Bucket, now: real)
  {
    0.0 <= b.tokens <= l.burst as real && b.lastTime <= now
  }

  /** Every remembered key has the reference's bucket; every forgotten one was idle too long. */
  predicate Simulates(l: Limits, t: Table, refs: map<string, Bucket>, now: real)
  {
    && (forall k <- refs :: Filled(l, refs[k], now))
    && (forall k <- t.buckets :: k in refs && refs[k] == t.buckets[k])
    && (forall k <- refs :: k !in t.buckets ==> refs[k].lastTime + IDLE < now)
  }

  lemma Scale(rate: real, x: real, y: real)
    requires rate >= 0.0 && x <= y
    ensures Gain(x, rate) <= Gain(y, rate)
  {
  }

  lemma TakeFilled(l: Limits, b: Bucket, now: real)
    requires Policy(l) && Filled(l, b, now)
    ensures Filled(l, Take(l, b, now).0, now)
  {
    Scale(l.rate, 0.0, now - b.lastTime);
  }

  /** After a long idle spell a bucket is full again, so it is as good as new. */
  lemma IdleIsNew(l: Limits, b: Bucket, now: real)
    requires Sufficient(l) && Filled(l, b, now) && b.lastTime + IDLE < now
    ensures Take(l, b, now) == (NewBucket(l, now), true)
  {
    Scale(l.rate, IDLE, now - b.lastTime);
    assert Refill(l, b, now) == l.burst as real;
  }

  lemma RequestSimulates(l: Limits, t: Table, refs: map<string, Bucket>, key: string, now: real)
    requires Sufficient(l)
    requires Simulates(l, t, refs, now) && !Crowded(t, Request(key, now))
    ensures Simulates(l, Allow(l, t, key, now).0, Reference(l, refs, key, now).0, now)
    ensures Allow(l, t, key, now).1 == Reference(l, refs, key, now).1
  {
    if key in refs {
      TakeFilled(l, refs[key], now);
      if key !in t.buckets { IdleIsNew(l, refs[key], now); }
    }
  }

  lemma LaterSimulates(l: Limits, t: Table, refs: map<string, Bucket>, now: real, later: real)
    requires Simulates(l, t, refs, now) && now <= later
    ensures Simulates(l, t, refs, later)
  {
  }

  lemma NoEvictionPrefix(l: Limits, events: seq<Event>, n: nat)
    requires NoEviction(l, events) && n <= |events|
    ensures NoEviction(l, events[..n])
  {
    forall i | 0 <= i < n ensures !Crowded(After(l, events[..n][..i]), events[..n][i]) {
      assert events[..n][..i] == events[..i];
      assert !Crowded(After(l, events[..i]), events[i]);
    }
  }

  lemma {:induction false} RunSimulates(l: Limits, events: seq<Event>, now: real)
    requires Sufficient(l)
    requires Monotone(events) && NoEviction(l, events) && (events != [] ==> events[|events| - 1].at <= now)
    ensures Simulates(l, After(l, events), ReferenceAfter(l, events), now)
  {
    if events != [] {
      var init, e := events[..|events| - 1], events[|events| - 1];
      MonotonePrefix(events);
      NoEvictionPrefix(l, events, |events| - 1);
      RunSimulates(l, init, e.at);
      if e.Request? {
        assert !Crowded(After(l, init), e);
        RequestSimulates(l, After(l, init), ReferenceAfter(l, init), e.key, e.at);
      }
      LaterSimulates(l, After(l, events), ReferenceAfter(l, events), e.at, now);
    }
  }

  /** When ten idle minutes refill a bucket, the table answers every request of every monotone run
      without capacity eviction exactly as the never-forgetting reference does. */
  lemma AnswersLikeReference(l: Limits, events: seq<Event>, i: nat)
    requires Sufficient(l)
    requires Monotone(events) && NoEviction(l, events) && i < |events| && events[i].Request?
    ensures Answer(l, events, i) == ReferenceAnswer(l, events, i)
  {
    NoEvictionPrefix(l, events, i);
    RunSimulates(l, events[..i], events[i].at);
    assert !Crowded(After(l, events[..i]), events[i]);
    RequestSimulates(l, After(l, events[..i]), ReferenceAfter(l, events[..i]), events[i].key, events[i].at);
  }

  /* ---- the condition is necessary ---- */

  /** The run followed by n requests of one key at one instant. */
  function Volley(k: string, head: seq<Event>, n: nat, at: real): (r: seq<Event>)
    ensures |r| == |head| + n
  {
    if n == 0 then head else Volley(k, head, n - 1, at) + [Request(k, at)]
  }

  /** Use up the burst at 0 and sweep later. */
  function Idle(k: string, l: Limits, at: real): seq<Event>
    requires l.burst >= 1
  {
    Volley(k, [], l.burst, 0.0) + [Sweep(at)]
  }

  /** Then ask for the burst again. */
  function Drain(k: string, l: Limits, at: real): seq<Event>
    requires l.burst >= 1
  {
    Volley(k, Idle(k, l, at), l.burst, at)
  }

  lemma AfterOneMore(l: Limits, events: seq<Event>, e: Event)
    ensures After(l, events + [e]) == if e.Request? then Allow(l, After(l, events), e.key, e.at).0
      else Clean(After(l, events), e.at)
  {
    assert (events + [e])[..|events|] == events;
  }

  lemma ReferenceOneMore(l: Limits, events: seq<Event>, e: Event)
    ensures ReferenceAfter(l, events + [e]) ==
      if e.Request? then Reference(l, ReferenceAfter(l, events), e.key, e.at).0 else ReferenceAfter(l, events)
  {
    assert (events + [e])[..|events|] == events;
  }

  lemma {:induction false} VolleyPrefix(k: string, head: seq<Event>, n: nat, at: real, i: nat)
    requires i <= n
    ensures Volley(k, head, n, at)[..|head| + i] == Volley(k, head, i, at)
  {
    if i < n {
      VolleyPrefix(k, head, n - 1, at, i);
    }
  }

  lemma {:induction false} VolleyEvents(k: string, head: seq<Event>, n: nat, at: real)
    ensures head <= Volley(k, head, n, at)
    ensures forall i :: |head| <= i < |head| + n ==> Volley(k, head, n, at)[i] == Request(k, at)
  {
    if n > 0 { VolleyEvents(k, head, n - 1, at); }
  }

  /** The bucket after n of the burst's tokens were taken at one instant. */
  function Spent(l: Limits, n: nat, at: real): Bucket
  {
    Bucket((l.burst - n) as real, at)
  }

  function SpentTable(k: string, l: Limits, n: nat, at: real): Table
  {
    if n == 0 then EMPTY else Table(map[k := Spent(l, n, at)], [k])
  }

  lemma TakeSpent(l: Limits, n: nat, at: real)
    requires n < l.burst
    ensures Take(l, Spent(l, n, at), at) == (Spent(l, n + 1, at), true)
  {
    var b := Spent(l, n, at);
    assert Refill(l, b, at) == b.tokens;
    assert (l.burst - n - 1) as real == b.tokens - 1.0;
  }

  lemma AllowSpent(k: string, l: Limits, n: nat, at: real)
    requires n < l.burst
    ensures Allow(l, SpentTable(k, l, n, at), k, at) == (SpentTable(k, l, n + 1, at), true)
  {
    if n == 0 {
      assert [k] + [] == [k];
      assert Spent(l, 1, at) == NewBucket(l, at);
    } else {
      TakeSpent(l, n, at);
      assert ToFront([k], k) == [k];
      assert map[k := Spent(l, n, at)][k := Spent(l, n + 1, at)] == map[k := Spent(l, n + 1, at)];
    }
  }

  lemma VolleyStep(k: string, l: Limits, events: seq<Event>, n: nat, at: real)
    requires n < l.burst && After(l, events) == SpentTable(k, l, n, at)
    ensures After(l, events + [Request(k, at)]) == SpentTable(k, l, n + 1, at)
  {
    AfterOneMore(l, events, Request(k, at));
    AllowSpent(k, l, n, at);
  }

  /** What each request of a volley keeps, the volley keeps. */
  lemma {:induction false} VolleyKeeps(P: (seq<Event>, nat) -> bool, k: string, head: seq<Event>, n: nat, at: real)
    requires P(head, 0)
    requires forall events, i: nat :: i < n && P(events, i) ==> P(events + [Request(k, at)], i + 1)
    ensures P(Volley(k, head, n, at), n)
  {
    if n > 0 {
      VolleyKeeps(P, k, head, n - 1, at);
      assert P(Volley(k, head, n - 1, at) + [Request(k, at)], n - 1 + 1);
    }
  }

  /** A volley within the burst on an empty table is granted and spends one token a request. */
  lemma {:induction false} VolleyOnEmpty(k: string, l: Limits, head: seq<Event>, n: nat, at: real)
    requires n <= l.burst && After(l, head) == EMPTY
    ensures After(l, Volley(k, head, n, at)) == SpentTable(k, l, n, at)
  {
    if n > 0 {
      var before := Volley(k, head, n - 1, at);
      assert After(l, before) == SpentTable(k, l, n - 1, at) by { VolleyOnEmpty(k, l, head, n - 1, at); }
      assert After(l, before + [Request(k, at)]) == SpentTable(k, l, n, at) by { VolleyStep(k, l, before, n - 1, at); }
      assert Volley(k, head, n, at) == before + [Request(k, at)];
    }
  }

  lemma {:induction false} FirstVolleyReference(k: string, l: Limits, n: nat)
    requires n <= l.burst
    ensures ReferenceAfter(l, Volley(k, [], n, 0.0)) == if n == 0 then map[] else map[k := Spent(l, n, 0.0)]
  {
    if n > 0 {
      FirstVolleyReference(k, l, n - 1);
      ReferenceOneMore(l, Volley(k, [], n - 1, 0.0), Request(k, 0.0));
      assert Spent(l, 1, 0.0) == NewBucket(l, 0.0);
      if n > 1 { TakeSpent(l, n - 1, 0.0); }
    }
  }

  lemma CleanSpent(k: string, l: Limits, n: nat, at: real)
    requires at > IDLE
    ensures Clean(SpentTable(k, l, n, 0.0), at) == EMPTY
  {
    var t := SpentTable(k, l, n, 0.0);
    if n > 0 {
      assert Stale(t.buckets, at) == {k};
      assert Drop([k], {k}) == [];
    }
    assert Clean(t, at).buckets == map[];
  }

  lemma IdleTable(k: string, l: Limits, at: real)
    requires l.burst >= 1 && at > IDLE
    ensures After(l, Idle(k, l, at)) == EMPTY
  {
    VolleyOnEmpty(k, l, [], l.burst, 0.0);
    AfterOneMore(l, Volley(k, [], l.burst, 0.0), Sweep(at));
    CleanSpent(k, l, l.burst, at);
  }

  lemma IdleReference(k: string, l: Limits, at: real)
    requires l.burst >= 1
    ensures ReferenceAfter(l, Idle(k, l, at)) == map[k := Bucket(0.0, 0.0)]
  {
    FirstVolleyReference(k, l, l.burst);
    ReferenceOneMore(l, Volley(k, [], l.burst, 0.0), Sweep(at));
  }

  /** What a bucket drained at 0 has left after n requests at one later instant. */
  predicate Left(l: Limits, b: Bucket, at: real, n: nat)
  {
    var tokens := Refill(l, b, at);
    tokens < l.burst as real && (tokens < 1.0 || tokens == Gain(at, l.rate) - n as real)
  }

  lemma LeftStep(l: Limits, b: Bucket, at: real, n: nat)
    requires Left(l, b, at, n)
    ensures Left(l, Take(l, b, at).0, at, n + 1)
  {
    var b' := Take(l, b, at).0;
    assert Refill(l, b', at) == b'.tokens;
  }

  predicate LeftIn(k: string, l: Limits, events: seq<Event>, n: nat, at: real)
  {
    k in ReferenceAfter(l, events) && Left(l, ReferenceAfter(l, events)[k], at, n)
  }

  lemma LeftOneMore(k: string, l: Limits, events: seq<Event>, n: nat, at: real)
    requires LeftIn(k, l, events, n, at)
    ensures LeftIn(k, l, events + [Request(k, at)], n + 1, at)
  {
    ReferenceOneMore(l, events, Request(k, at));
    LeftStep(l, ReferenceAfter(l, events)[k], at, n);
  }

  lemma VolleyOnReference(k: string, l: Limits, head: seq<Event>, n: nat, at: real)
    requires LeftIn(k, l, head, 0, at)
    ensures LeftIn(k, l, Volley(k, head, n, at), n, at)
  {
    var P := (events: seq<Event>, i: nat) => LeftIn(k, l, events, i, at);
    forall events, i: nat | i < n && P(events, i) ensures P(events + [Request(k, at)], i + 1) {
      LeftOneMore(k, l, events, i, at);
    }
    VolleyKeeps(P, k, head, n, at);
  }

  lemma DivideOut(n: real, d: real)
    requires d != 0.0
    ensures n / d * d == n
  {
  }

  /** An instant after the idle limit at which a drained bucket is still not full. */
  lemma NotYetFull(l: Limits) returns (at: real)
    requires l.burst >= 1 && !RefillsWhenIdle(l)
    ensures at > IDLE && Gain(at, l.rate) < l.burst as real
  {
    var burst := l.burst as real;
    if l.rate <= 0.0 {
      at := IDLE + 1.0;
    } else {
      var full := burst / l.rate;
      DivideOut(burst, l.rate);
      at := (IDLE + full) / 2.0;
      assert Gain(at, l.rate) == (Gain(IDLE, l.rate) + Gain(full, l.rate)) / 2.0;
      assert full > IDLE by {
        if full <= IDLE { Scale(l.rate, full, IDLE); }
      }
    }
  }

  lemma DrainPrefix(k: string, l: Limits, at: real, i: nat)
    requires l.burst >= 1 && i <= 2 * l.burst
    ensures i <= l.burst ==> Drain(k, l, at)[..i] == Volley(k, [], i, 0.0)
    ensures i > l.burst ==> Drain(k, l, at)[..i] == Volley(k, Idle(k, l, at), i - l.burst - 1, at)
  {
    VolleyEvents(k, Idle(k, l, at), l.burst, at);
    if i <= l.burst {
      VolleyPrefix(k, [], l.burst, 0.0, i);
      assert Drain(k, l, at)[..i] == Idle(k, l, at)[..i] == Volley(k, [], l.burst, 0.0)[..i];
    } else {
      VolleyPrefix(k, Idle(k, l, at), l.burst, at, i - l.burst - 1);
    }
  }

  lemma SmallVolley(k: string, l: Limits, head: seq<Event>, n: nat, at: real)
    requires n <= l.burst && After(l, head) == EMPTY
    ensures |After(l, Volley(k, head, n, at)).buckets| <= 1
  {
    VolleyOnEmpty(k, l, head, n, at);
  }

  predicate Small(l: Limits, events: seq<Event>) { |After(l, events).buckets| <= 1 }

  lemma DrainStaysSmall(k: string, l: Limits, at: real, i: nat)
    requires l.burst >= 1 && at > IDLE && i <= 2 * l.burst
    ensures Small(l, Drain(k, l, at)[..i])
  {
    var events := Drain(k, l, at)[..i];
    if i <= l.burst {
      assert events == Volley(k, [], i, 0.0) by { DrainPrefix(k, l, at, i); }
      SmallVolley(k, l, [], i, 0.0);
    } else {
      var n := i - l.burst - 1;
      assert events == Volley(k, Idle(k, l, at), n, at) by { DrainPrefix(k, l, at, i); }
      assert Small(l, Volley(k, Idle(k, l, at), n, at)) by {
        IdleTable(k, l, at);
        SmallVolley(k, l, Idle(k, l, at), n, at);
      }
    }
  }

  lemma DrainIsMonotone(k: string, l: Limits, at: real)
    requires l.burst >= 1 && at > IDLE
    ensures Monotone(Drain(k, l, at))
  {
    VolleyEvents(k, [], l.burst, 0.0);
    VolleyEvents(k, Idle(k, l, at), l.burst, at);
    var events := Drain(k, l, at);
    assert forall i :: 0 <= i < l.burst ==> events[i] == Idle(k, l, at)[i] == Volley(k, [], l.burst, 0.0)[i];
    assert events[l.burst] == Idle(k, l, at)[l.burst] == Sweep(at);
  }

  lemma DrainIsFair(k: string, l: Limits, at: real)
    requires l.burst >= 1 && at > IDLE
    ensures Monotone(Drain(k, l, at)) && NoEviction(l, Drain(k, l, at))
  {
    DrainIsMonotone(k, l, at);
    forall i | 0 <= i < |Drain(k, l, at)| ensures !Crowded(After(l, Drain(k, l, at)[..i]), Drain(k, l, at)[i]) {
      DrainStaysSmall(k, l, at, i);
    }
  }

  lemma DrainGranted(k: string, l: Limits, at: real)
    requires l.burst >= 1 && at > IDLE
    ensures Drain(k, l, at)[2 * l.burst] == Request(k, at) && Answer(l, Drain(k, l, at), 2 * l.burst)
  {
    VolleyEvents(k, Idle(k, l, at), l.burst, at);
    DrainPrefix(k, l, at, 2 * l.burst);
    IdleTable(k, l, at);
    VolleyOnEmpty(k, l, Idle(k, l, at), l.burst - 1, at);
    AllowSpent(k, l, l.burst - 1, at);
  }

  lemma DrainedLeft(l: Limits, at: real)
    requires Gain(at, l.rate) < l.burst as real
    ensures Left(l, Bucket(0.0, 0.0), at, 0)
  {
    assert at - 0.0 == at;
  }

  lemma NothingLeft(l: Limits, b: Bucket, at: real)
    requires l.burst >= 1 && Gain(at, l.rate) < l.burst as real && Left(l, b, at, l.burst - 1)
    ensures !Take(l, b, at).1
  {
  }

  lemma LastLeft(k: string, l: Limits, at: real)
    requires l.burst >= 1 && Gain(at, l.rate) < l.burst as real
    ensures
      var refs := ReferenceAfter(l, Volley(k, Idle(k, l, at), l.burst - 1, at));
      k in refs && !Take(l, refs[k], at).1
  {
    IdleReference(k, l, at);
    DrainedLeft(l, at);
    VolleyOnReference(k, l, Idle(k, l, at), l.burst - 1, at);
    NothingLeft(l, ReferenceAfter(l, Volley(k, Idle(k, l, at), l.burst - 1, at))[k], at);
  }

  lemma DrainRefused(k: string, l: Limits, at: real)
    requires l.burst >= 1 && at > IDLE && Gain(at, l.rate) < l.burst as real
    ensures Drain(k, l, at)[2 * l.burst] == Request(k, at) && !ReferenceAnswer(l, Drain(k, l, at), 2 * l.burst)
  {
    assert Drain(k, l, at)[2 * l.burst] == Request(k, at) by { VolleyEvents(k, Idle(k, l, at), l.burst, at); }
    var before := Volley(k, Idle(k, l, at), l.burst - 1, at);
    assert Drain(k, l, at)[..2 * l.burst] == before by { DrainPrefix(k, l, at, 2 * l.burst); }
    LastLeft(k, l, at);
  }

  /** Without the condition, a fair run is answered differently: the table grants the last request
      of the second volley and the reference refuses it. */
  lemma DrainTellsApart(k: string, l: Limits, at: real)
    requires l.burst >= 1 && at > IDLE && Gain(at, l.rate) < l.burst as real
    ensures
      var i := 2 * l.burst;
      Drain(k, l, at)[i].Request? && Answer(l, Drain(k, l, at), i) && !ReferenceAnswer(l, Drain(k, l, at), i)
  {
    DrainGranted(k, l, at);
    DrainRefused(k, l, at);
  }

  /* A burst below one: a key's first request is granted and no later one, until it is forgotten. */

  function Again(k: string): seq<Event>
  {
    [Request(k, 0.0), Sweep(IDLE + 1.0), Request(k, IDLE + 1.0)]
  }

  lemma AgainTable(k: string, l: Limits)
    ensures After(l, Again(k)[..1]) == Table(map[k := NewBucket(l, 0.0)], [k])
    ensures After(l, Again(k)[..2]) == EMPTY
  {
    assert Again(k)[..1] == [] + [Request(k, 0.0)];
    AfterOneMore(l, [], Request(k, 0.0));
    assert Again(k)[..2] == Again(k)[..1] + [Sweep(IDLE + 1.0)];
    AfterOneMore(l, Again(k)[..1], Sweep(IDLE + 1.0));
    var t := After(l, Again(k)[..1]);
    assert Stale(t.buckets, IDLE + 1.0) == {k};
    assert Drop([k], {k}) == [];
  }

  lemma AgainReference(k: string, l: Limits)
    ensures ReferenceAfter(l, Again(k)[..2]) == map[k := NewBucket(l, 0.0)]
  {
    assert Again(k)[..1] == [] + [Request(k, 0.0)];
    ReferenceOneMore(l, [], Request(k, 0.0));
    assert Again(k)[..2] == Again(k)[..1] + [Sweep(IDLE + 1.0)];
    ReferenceOneMore(l, Again(k)[..1], Sweep(IDLE + 1.0));
  }

  lemma AgainIsFair(k: string, l: Limits)
    ensures Monotone(Again(k)) && NoEviction(l, Again(k))
  {
    AgainTable(k, l);
    assert Again(k)[..0] == [];
    assert forall i :: 0 <= i < 3 ==> |After(l, Again(k)[..i]).buckets| <= 1;
  }

  lemma AgainTellsApart(k: string, l: Limits)
    requires l.burst < 1
    ensures Answer(l, Again(k), 2) && !ReferenceAnswer(l, Again(k), 2)
  {
    AgainTable(k, l);
    AgainReference(k, l);
  }

  /** Whatever rate and burst are configured, the table is indistinguishable from the never-forgetting
      reference, on every monotone run without capacity eviction, exactly when there is a burst and
      ten idle minutes refill it. */
  lemma ForgettingIsInvisibleIff(l: Limits)
    ensures Sufficient(l) <==>
      (forall events: seq<Event>, i: nat ::
        Monotone(events) && NoEviction(l, events) && i < |events| && events[i].Request? ==>
        Answer(l, events, i) == ReferenceAnswer(l, events, i))
  {
    if Sufficient(l) {
      forall events: seq<Event>, i: nat | Monotone(events) && NoEviction(l, events) && i < |events|
        && events[i].Request?
        ensures Answer(l, events, i) == ReferenceAnswer(l, events, i)
      {
        AnswersLikeReference(l, events, i);
      }
    } else if l.burst >= 1 {
      var at := NotYetFull(l);
      DrainIsFair("k", l, at);
      DrainTellsApart("k", l, at);
      var events := Drain("k", l, at);
      assert Answer(l, events, 2 * l.burst) != ReferenceAnswer(l, events, 2 * l.burst);
    } else {
      AgainIsFair("k", l);
      AgainTellsApart("k", l);
      assert Answer(l, Again("k"), 2) != ReferenceAnswer(l, Again("k"), 2);
    }
  }

  /* ---- the rate bound ---- */

  predicate Granted(l: Limits, events: seq<Event>, i: nat, key: string)
    requires i < |events|
  {
    events[i].Request? && events[i].key == key && ReferenceAnswer(l, events, i)
  }

  /** Requests of the key granted by the reference among events[i..j]. */
  function Grants(l: Limits, events: seq<Event>, i: nat, j: nat, key: string): nat
    requires i <= j <= |events|
  {
    if i == j then 0 else Grants(l, events, i, j - 1, key) + (if Granted(l, events, j - 1, key) then 1 else 0)
  }

  /** Grants since `from` are paid for by the burst and by what was refilled since. */
  predicate Paid(l: Limits, refs: map<string, Bucket>, key: string, grants: nat, from: real)
  {
    && (key in refs ==> 0.0 <= refs[key].tokens <= l.burst as real)
    && (grants > 0 ==>
          && key in refs && from <= refs[key].lastTime
          && grants as real + refs[key].tokens <= l.burst as real + Gain(refs[key].lastTime - from, l.rate))
  }

  lemma PaidStep(l: Limits, refs: map<string, Bucket>, key: string, grants: nat, from: real, now: real)
    requires Policy(l) && Paid(l, refs, key, grants, from) && from <= now && (key in refs ==> refs[key].lastTime <= now)
    ensures
      var (refs', ok) := Reference(l, refs, key, now);
      Paid(l, refs', key, if ok then grants + 1 else grants, from)
  {
    Scale(l.rate, 0.0, now - from);
    if key in refs {
      var last := refs[key].lastTime;
      TakeFilled(l, refs[key], now);
      assert Gain(now - last, l.rate) + Gain(last - from, l.rate) == Gain(now - from, l.rate);
    }
  }

  lemma PaidBound(l: Limits, refs: map<string, Bucket>, key: string, grants: nat, from: real, to: real)
    requires Policy(l) && Paid(l, refs, key, grants, from) && from <= to && TimedBy(refs, to)
    ensures grants as real <= l.burst as real + Gain(to - from, l.rate)
  {
    if grants == 0 {
      Scale(l.rate, 0.0, to - from);
    } else {
      var b := refs[key];
      var paid, most := Gain(b.lastTime - from, l.rate), Gain(to - from, l.rate);
      assert paid <= most by { Scale(l.rate, b.lastTime - from, to - from); }
      assert grants as real + b.tokens <= l.burst as real + paid;
    }
  }

  predicate TimedBy(refs: map<string, Bucket>, now: real)
  {
    forall k <- refs :: refs[k].lastTime <= now
  }

  lemma {:induction false} ReferenceTimed(l: Limits, events: seq<Event>, now: real)
    requires Monotone(events) && (events != [] ==> events[|events| - 1].at <= now)
    ensures TimedBy(ReferenceAfter(l, events), now)
  {
    if events != [] {
      MonotonePrefix(events);
      ReferenceTimed(l, events[..|events| - 1], events[|events| - 1].at);
    }
  }

  lemma PrefixTimed(l: Limits, events: seq<Event>, j: nat)
    requires Monotone(events) && 0 < j <= |events|
    ensures TimedBy(ReferenceAfter(l, events[..j]), events[j - 1].at)
  {
    assert Monotone(events[..j]);
    ReferenceTimed(l, events[..j], events[j - 1].at);
  }

  lemma {:induction false} ReferenceTokens(l: Limits, events: seq<Event>, key: string)
    requires Policy(l) && Monotone(events) && key in ReferenceAfter(l, events)
    ensures 0.0 <= ReferenceAfter(l, events)[key].tokens <= l.burst as real
  {
    if events != [] {
      var init, e := events[..|events| - 1], events[|events| - 1];
      MonotonePrefix(events);
      if key in ReferenceAfter(l, init) { ReferenceTokens(l, init, key); }
      ReferenceTimed(l, init, e.at);
      if e.Request? && e.key == key
        && key in ReferenceAfter(l, init) { TakeFilled(l, ReferenceAfter(l, init)[key], e.at); }
    }
  }

  lemma PaidEvent(l: Limits, events: seq<Event>, i: nat, j: nat, key: string)
    requires Policy(l) && Monotone(events) && i <= j < |events|
    requires Paid(l, ReferenceAfter(l, events[..j]), key, Grants(l, events, i, j, key), events[i].at)
    ensures Paid(l, ReferenceAfter(l, events[..j + 1]), key, Grants(l, events, i, j + 1, key), events[i].at)
  {
    var e, refs := events[j], ReferenceAfter(l, events[..j]);
    assert events[..j + 1][..j] == events[..j];
    assert TimedBy(refs, e.at) by {
      assert Monotone(events[..j]);
      ReferenceTimed(l, events[..j], e.at);
    }
    if e.Request? && e.key == key {
      PaidStep(l, refs, key, Grants(l, events, i, j, key), events[i].at, e.at);
    }
  }

  lemma {:induction false} GrantsPaid(l: Limits, events: seq<Event>, i: nat, j: nat, key: string)
    requires Policy(l) && Monotone(events) && i <= j <= |events| && i < |events|
    ensures Paid(l, ReferenceAfter(l, events[..j]), key, Grants(l, events, i, j, key), events[i].at)
  {
    if i == j {
      if key in ReferenceAfter(l, events[..j]) { ReferenceTokens(l, events[..j], key); }
    } else {
      GrantsPaid(l, events, i, j - 1, key);
      PaidEvent(l, events, i, j - 1, key);
    }
  }

  /** Over any stretch of a monotone run, a key is granted at most the burst plus what the rate
      refills between the first and the last event of the stretch. */
  lemma ReferenceGrantsBounded(l: Limits, events: seq<Event>, i: nat, j: nat, key: string)
    requires Policy(l) && Monotone(events) && i < j <= |events|
    ensures Grants(l, events, i, j, key) as real <= l.burst as real + Gain(events[j - 1].at - events[i].at, l.rate)
  {
    var to := events[j - 1].at;
    var refs, grants := ReferenceAfter(l, events[..j]), Grants(l, events, i, j, key);
    assert Paid(l, refs, key, grants, events[i].at) by { GrantsPaid(l, events, i, j, key); }
    assert TimedBy(refs, to) by { PrefixTimed(l, events, j); }
    PaidBound(l, refs, key, grants, events[i].at, to);
  }

  /** The same count over the answers of the table itself. */
  function TableGrants(l: Limits, events: seq<Event>, i: nat, j: nat, key: string): nat
    requires i <= j <= |events|
  {
    if i == j then 0
    else
      var e := events[j - 1];
      TableGrants(l, events, i, j - 1, key) + (if e.Request? && e.key == key && Answer(l, events, j - 1) then 1 else 0)
  }

  lemma {:induction false} SameGrants(l: Limits, events: seq<Event>, i: nat, j: nat, key: string)
    requires Sufficient(l)
    requires Monotone(events) && NoEviction(l, events) && i <= j <= |events|
    ensures TableGrants(l, events, i, j, key) == Grants(l, events, i, j, key)
  {
    if i < j {
      SameGrants(l, events, i, j - 1, key);
      if events[j - 1].Request? { AnswersLikeReference(l, events, j - 1); }
    }
  }

  /** Within the burst and what was refilled over the stretch. */
  predicate Bounded(l: Limits, events: seq<Event>, i: nat, j: nat, key: string)
    requires i < j <= |events|
  {
    TableGrants(l, events, i, j, key) as real <= l.burst as real + Gain(events[j - 1].at - events[i].at, l.rate)
  }

  lemma GrantsBounded(l: Limits, events: seq<Event>, i: nat, j: nat, key: string)
    requires Sufficient(l)
    requires Monotone(events) && NoEviction(l, events) && i < j <= |events|
    ensures Bounded(l, events, i, j, key)
  {
    SameGrants(l, events, i, j, key);
    ReferenceGrantsBounded(l, events, i, j, key);
  }

  /** The next request of the key is granted. */
  predicate Grantable(l: Limits, before: seq<Event>, k: string, at: real) { Allow(l, After(l, before), k, at).1 }

  lemma VolleyGranted(k: string, l: Limits, head: seq<Event>, n: nat, at: real)
    requires n < l.burst && After(l, head) == EMPTY
    ensures Grantable(l, Volley(k, head, n, at), k, at)
  {
    VolleyOnEmpty(k, l, head, n, at);
    AllowSpent(k, l, n, at);
  }

  lemma DrainEvent(k: string, l: Limits, at: real, p: nat)
    requires l.burst >= 1 && p <= 2 * l.burst && p != l.burst
    ensures Drain(k, l, at)[p] == Request(k, if p < l.burst then 0.0 else at)
  {
    VolleyEvents(k, Idle(k, l, at), l.burst, at);
    if p < l.burst {
      VolleyEvents(k, [], l.burst, 0.0);
      assert Drain(k, l, at)[p] == Idle(k, l, at)[p] == Volley(k, [], l.burst, 0.0)[p];
    }
  }

  /** Every request of the two volleys is granted. */
  lemma DrainAnswers(k: string, l: Limits, at: real, p: nat)
    requires l.burst >= 1 && at > IDLE && p <= 2 * l.burst && p != l.burst
    ensures var e := Drain(k, l, at)[p]; e.Request? && e.key == k && Answer(l, Drain(k, l, at), p)
  {
    DrainEvent(k, l, at, p);
    var before := Drain(k, l, at)[..p];
    if p < l.burst {
      assert before == Volley(k, [], p, 0.0) by { DrainPrefix(k, l, at, p); }
      VolleyGranted(k, l, [], p, 0.0);
    } else {
      var head, n := Idle(k, l, at), p - l.burst - 1;
      assert before == Volley(k, head, n, at) by { DrainPrefix(k, l, at, p); }
      assert Grantable(l, before, k, at) by {
        IdleTable(k, l, at);
        VolleyGranted(k, l, head, n, at);
      }
    }
  }

  lemma {:induction false} DrainCounts(k: string, l: Limits, at: real, j: nat)
    requires l.burst >= 1 && at > IDLE && j <= |Drain(k, l, at)|
    ensures TableGrants(l, Drain(k, l, at), 0, j, k) >= if j > l.burst then j - 1 else j
  {
    if j > 0 {
      DrainCounts(k, l, at, j - 1);
      if j - 1 != l.burst { DrainAnswers(k, l, at, j - 1); }
    }
  }

  /** When ten idle minutes do not refill the burst, a key that empties it, waits to be forgotten and
      empties it again is granted more than the bound. */
  lemma DrainExceedsBound(k: string, l: Limits, at: real)
    requires l.burst >= 1 && at > IDLE && Gain(at, l.rate) < l.burst as real
    ensures !Bounded(l, Drain(k, l, at), 0, 2 * l.burst + 1, k)
  {
    var events := Drain(k, l, at);
    assert |events| == 2 * l.burst + 1;
    DrainCounts(k, l, at, |events|);
    VolleyEvents(k, Idle(k, l, at), l.burst, at);
    VolleyEvents(k, [], l.burst, 0.0);
    assert events[0] == Idle(k, l, at)[0] == Volley(k, [], l.burst, 0.0)[0];
    assert events[2 * l.burst].at - events[0].at == at;
  }

  /** Without a burst, the first request of a key already exceeds the bound. */
  lemma FirstExceedsBound(k: string, l: Limits)
    requires l.burst < 1
    ensures !Bounded(l, Again(k), 0, 1, k)
  {
    assert Again(k)[..0] == [];
    assert TableGrants(l, Again(k), 0, 0, k) == 0;
    assert Answer(l, Again(k), 0);
    assert TableGrants(l, Again(k), 0, 1, k) == 1;
  }

  /** Whatever rate and burst are configured, every key is granted at most the burst plus what the
      rate refills, over every stretch of every monotone run without capacity eviction, exactly when
      there is a burst and ten idle minutes refill it. */
  lemma GrantsBoundedIff(l: Limits)
    ensures Sufficient(l) <==>
      (forall events: seq<Event>, i: nat, j: nat, key: string ::
        Monotone(events) && NoEviction(l, events) && i < j <= |events| ==> Bounded(l, events, i, j, key))
  {
    if Sufficient(l) {
      forall events: seq<Event>, i: nat, j: nat, key: string
        | Monotone(events) && NoEviction(l, events) && i < j <= |events|
        ensures Bounded(l, events, i, j, key)
      {
        GrantsBounded(l, events, i, j, key);
      }
    } else if l.burst >= 1 {
      var at := NotYetFull(l);
      DrainIsFair("k", l, at);
      DrainExceedsBound("k", l, at);
    } else {
      AgainIsFair("k", l);
      FirstExceedsBound("k", l);
    }
  }

  /* ---- who is granted ---- */

  /** The bucket is not in debt and was last used by a request of its key. */
  predicate UsedLast(events: seq<Event>, key: string, b: Bucket)
  {
    b.tokens >= 0.0 && exists j :: 0 <= j < |events| && events[j] == Request(key, b.lastTime)
  }

  predicate AllUsedLast(events: seq<Event>, t: Table)
  {
    forall k <- t.buckets :: UsedLast(events, k, t.buckets[k])
  }

  lemma UsedBefore(events: seq<Event>, e: Event, key: string, b: Bucket)
    requires UsedLast(events, key, b)
    ensures UsedLast(events + [e], key, b)
  {
    var j :| 0 <= j < |events| && events[j] == Request(key, b.lastTime);
    assert (events + [e])[j] == events[j];
  }

  lemma UsedNow(events: seq<Event>, key: string, b: Bucket)
    requires b.tokens >= 0.0
    ensures UsedLast(events + [Request(key, b.lastTime)], key, b)
  {
    assert (events + [Request(key, b.lastTime)])[|events|] == Request(key, b.lastTime);
  }

  lemma TakeNotInDebt(l: Limits, b: Bucket, now: real)
    requires Policy(l) && b.tokens >= 0.0 && b.lastTime <= now
    ensures Take(l, b, now).0.tokens >= 0.0 && Take(l, b, now).0.lastTime == now
  {
    Scale(l.rate, 0.0, now - b.lastTime);
  }

  lemma AllowUsedLast(l: Limits, events: seq<Event>, t: Table, key: string, now: real)
    requires Policy(l) && AllUsedLast(events, t) && UsedBy(t, now)
    ensures AllUsedLast(events + [Request(key, now)], Allow(l, t, key, now).0)
  {
    var t' := Allow(l, t, key, now).0;
    forall k <- t'.buckets ensures UsedLast(events + [Request(key, now)], k, t'.buckets[k]) {
      if k == key {
        if key in t.buckets { TakeNotInDebt(l, t.buckets[key], now); }
        UsedNow(events, key, t'.buckets[key]);
      } else {
        assert k in t.buckets && t'.buckets[k] == t.buckets[k];
        UsedBefore(events, Request(key, now), k, t.buckets[k]);
      }
    }
  }

  lemma {:induction false} EveryBucketUsedLast(l: Limits, events: seq<Event>)
    requires Policy(l) && Monotone(events)
    ensures AllUsedLast(events, After(l, events))
  {
    if events != [] {
      var init, e := events[..|events| - 1], events[|events| - 1];
      MonotonePrefix(events);
      EveryBucketUsedLast(l, init);
      EveryTableIsValid(l, init);
      assert init + [e] == events;
      var t := After(l, init);
      if e.Request? {
        AllowUsedLast(l, init, t, e.key, e.at);
      } else {
        forall k <- Clean(t, e.at).buckets ensures UsedLast(events, k, Clean(t, e.at).buckets[k]) {
          UsedBefore(init, e, k, t.buckets[k]);
        }
      }
    }
  }

  /** On every monotone run, evictions and sweeps included: a request is granted if every earlier request of
      its key is long enough ago for one token. */
  lemma PatientKeyIsGranted(l: Limits, events: seq<Event>, i: nat)
    requires Policy(l) && Monotone(events) && i < |events| && events[i].Request?
    requires forall j :: 0 <= j < i && events[j].Request? && events[j].key == events[i].key ==>
      Gain(events[i].at - events[j].at, l.rate) >= 1.0
    ensures Answer(l, events, i)
  {
    var init, key, now := events[..i], events[i].key, events[i].at;
    assert Monotone(init);
    EveryBucketUsedLast(l, init);
    var t := After(l, init);
    if key in t.buckets {
      var b := t.buckets[key];
      assert UsedLast(init, key, b);
      var j :| 0 <= j < |init| && init[j] == Request(key, b.lastTime);
      assert events[j] == init[j];
      EnoughTokens(l, b, now);
    }
  }

  lemma EnoughTokens(l: Limits, b: Bucket, now: real)
    requires l.burst >= 1 && b.tokens >= 0.0 && Gain(now - b.lastTime, l.rate) >= 1.0
    ensures Take(l, b, now).1
  {
  }

  /** And a burst at one instant is all there is: the next request of that instant is refused. */
  lemma BurstIsSpent(k: string, l: Limits, head: seq<Event>, at: real)
    requires l.burst >= 1 && After(l, head) == EMPTY
    ensures !Allow(l, After(l, Volley(k, head, l.burst, at)), k, at).1
  {
    VolleyOnEmpty(k, l, head, l.burst, at);
    SpentOut(l, at);
    assert SpentTable(k, l, l.burst, at).buckets[k] == Spent(l, l.burst, at);
  }

  lemma SpentOut(l: Limits, at: real)
    requires l.burst >= 1
    ensures !Take(l, Spent(l, l.burst, at), at).1
  {
    var b := Spent(l, l.burst, at);
    assert b.tokens == 0.0 && at - b.lastTime == 0.0;
    assert Gain(0.0, l.rate) == 0.0;
  }

  /* ---- the table updated in place ---- */

  lemma WithoutNone(t: Table)
    ensures Without(t, {}) == t
  {
    DropEmpty(t.lru);
    assert Forget(t.buckets, {}) == t.buckets;
  }

  lemma WithoutMore(t: Table, gone: set<string>, key: string)
    ensures Without(Without(t, gone), {key}) == Without(t, gone + {key})
  {
    DropTwice(t.lru, gone, {key});
    assert Forget(Forget(t.buckets, gone), {key}) == Forget(t.buckets, gone + {key});
  }

  lemma StaleShrinks(buckets: map<string, Bucket>, now: real, todo: set<string>, key: string)
    requires key in todo && key in buckets
    ensures Stale(buckets, now) - (todo - {key}) ==
      if buckets[key].lastTime < now - IDLE then Stale(buckets, now) - todo + {key} else Stale(buckets, now) - todo
  {
  }

  class RateLimiter {
    const limits: Limits
    var buckets: map<string, Bucket>
    var lru: seq<string>

    constructor (rate: real, burst: int)
      ensures limits == Limits(rate, burst) && Contents() == EMPTY
    {
      limits := Limits(rate, burst);
      buckets, lru := map[], [];
    }

    function Contents(): Table
      reads this
    {
      Table(buckets, lru)
    }

    method AllowLocal(key: string, now: real) returns (ok: bool)
      modifies this
      ensures (Contents(), ok) == Allow(limits, old(Contents()), key, now)
    {
      if key !in buckets {
        if |buckets| >= CAPACITY {
          if lru != [] {
            buckets := Forget(buckets, {lru[|lru| - 1]});
            lru := lru[..|lru| - 1];
          }
        }
        lru := [key] + lru;
        buckets := buckets[key := NewBucket(limits, now)];
        return true;
      }
      lru := ToFront(lru, key);
      var b;
      b, ok := TakeToken(buckets[key], now);
      buckets := buckets[key := b];
    }

    method TakeToken(b: Bucket, now: real) returns (b': Bucket, ok: bool)
      ensures (b', ok) == Take(limits, b, now)
    {
      var tokens := b.tokens + Gain(now - b.lastTime, limits.rate);
      if tokens > limits.burst as real {
        tokens := limits.burst as real;
      }
      if tokens < 1.0 {
        return Bucket(tokens, now), false;
      }
      tokens := tokens - 1.0;
      return Bucket(tokens, now), true;
    }

    /** One tick of the cleanup: the buckets are visited in any order. */
    method Cleanup(now: real)
      modifies this
      ensures Contents() == Clean(old(Contents()), now)
    {
      var todo := buckets.Keys;
      ghost var gone: set<string> := {};
      WithoutNone(Contents());
      while todo != {}
        invariant todo <= old(buckets).Keys
        invariant gone == Stale(old(buckets), now) - todo
        invariant Contents() == Without(old(Contents()), gone)
        decreases |todo|
      {
        var key :| key in todo;
        StaleShrinks(old(buckets), now, todo, key);
        if buckets[key].lastTime < now - IDLE {
          WithoutMore(old(Contents()), gone, key);
          buckets := Forget(buckets, {key});
          lru := Drop(lru, {key});
          gone := gone + {key};
        }
        todo := todo - {key};
      }
      assert gone == Stale(old(buckets), now);
    }
  }
}
