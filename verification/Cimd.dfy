/** The single-flight cache of client metadata documents.
    Every section under the cache lock is one atomic step; a flight is named by its index. */
module Cimd {
  import opened Options
  import opened Sets
  import opened Ordering

  type Time = int

  const CAPACITY: nat := 256

  datatype Client = Client(clientId: string, name: string, redirectUris: string)

  datatype Entry = Entry(client: Option<Client>, expiresAt: Time, lastUsed: nat, flight: Option<nat>)

  /** What a metadata request came back with. */
  datatype Fetch = Got(client: Client, ttl: int) | Failed(error: string)

  datatype Flight = Flight(id: string, outcome: Option<Fetch>, doneAt: Time)

  datatype Server = Server(cache: map<string, Entry>, flights: seq<Flight>, used: nat)

  const EMPTY := Server(map[], [], 0)

  datatype Answer = Served(client: Client) | Waiting(flight: nat) | AtCapacity

  predicate Stale(e: Entry, now: Time)
  {
    e.flight == None && (e.client == None || e.expiresAt <= now)
  }

  function Prune(cache: map<string, Entry>, now: Time): map<string, Entry>
  {
    map k <- cache | !Stale(cache[k], now) :: cache[k]
  }

  function Without(cache: map<string, Entry>, id: string): map<string, Entry>
  {
    map k <- cache | k != id :: cache[k]
  }

  predicate Finished(cache: map<string, Entry>, id: string)
  {
    id in cache && cache[id].flight == None
  }

  /** Used less recently; equal uses are broken by the id. */
  predicate UsedBefore(cache: map<string, Entry>, a: string, b: string)
    requires a in cache && b in cache
  {
    cache[a].lastUsed < cache[b].lastUsed || (cache[a].lastUsed == cache[b].lastUsed && TextBefore(a, b))
  }

  /** The finished entry that eviction takes. */
  predicate Victim(cache: map<string, Entry>, id: string)
  {
    Finished(cache, id) && forall k <- cache :: Finished(cache, k) && k != id ==> UsedBefore(cache, id, k)
  }

  lemma VictimUnique(cache: map<string, Entry>, a: string, b: string)
    requires Victim(cache, a) && Victim(cache, b)
    ensures a == b
  {
    TextBeforeAsymmetric(a, b);
  }

  /** An entry used before every finished one of the keys. */
  predicate LeastAmong(cache: map<string, Entry>, keys: set<string>, id: string)
    requires keys <= cache.Keys
  {
    id in keys && Finished(cache, id) && forall k <- keys :: Finished(cache, k) && k != id ==> UsedBefore(cache, id, k)
  }

  lemma LeastWins(cache: map<string, Entry>, keys: set<string>, least: string, id: string)
    requires keys + {id} <= cache.Keys && LeastAmong(cache, keys, least) && Finished(cache, id)
    requires id !in keys
    ensures LeastAmong(cache, keys + {id}, if UsedBefore(cache, id, least) then id else least)
  {
    TextBeforeTotal(id, least);
    forall k <- keys | Finished(cache, k) && k != least
      && UsedBefore(cache, id, least) ensures UsedBefore(cache, id, k) {
      if TextBefore(id, least) && TextBefore(least, k) { TextBeforeTransitive(id, least, k); }
    }
  }

  lemma {:induction false} LeastExists(cache: map<string, Entry>, keys: set<string>) returns (least: string)
    requires keys <= cache.Keys && exists k <- keys :: Finished(cache, k)
    ensures LeastAmong(cache, keys, least)
    decreases keys
  {
    var id :| id in keys && Finished(cache, id);
    var rest := keys - {id};
    assert keys == rest + {id};
    if exists k <- rest :: Finished(cache, k) {
      var other := LeastExists(cache, rest);
      LeastWins(cache, rest, other, id);
      least := if UsedBefore(cache, id, other) then id else other;
    } else {
      least := id;
    }
  }

  predicate AnyFinished(cache: map<string, Entry>)
  {
    exists k <- cache :: Finished(cache, k)
  }

  ghost function ChooseVictim(cache: map<string, Entry>): (v: string)
    requires AnyFinished(cache)
    ensures Victim(cache, v)
  {
    VictimExists(cache);
    var v :| Victim(cache, v);
    v
  }

  lemma VictimExists(cache: map<string, Entry>)
    requires AnyFinished(cache)
    ensures exists v :: Victim(cache, v)
  {
    var v := LeastExists(cache, cache.Keys);
    assert Victim(cache, v);
  }

  lemma WithoutSmaller(cache: map<string, Entry>, id: string)
    requires id in cache
    ensures |Without(cache, id)| == |cache| - 1
  {
    assert Without(cache, id).Keys == cache.Keys - {id};
    assert |cache.Keys - {id}| == |cache.Keys| - 1;
  }

  /** Evict until there is room; false when everything left is in flight. */
  ghost function MakeRoom(cache: map<string, Entry>): (map<string, Entry>, bool)
    decreases |cache|
  {
    if |cache| < CAPACITY then (cache, true)
    else if !AnyFinished(cache) then (cache, false)
    else
      WithoutSmaller(cache, ChooseVictim(cache));
      MakeRoom(Without(cache, ChooseVictim(cache)))
  }

  /** A lookup in a cache free of stale entries: served, joined, refused, or a new flight. */
  ghost function Answered(s: Server, id: string): (Server, Answer)
  {
    if id in s.cache && s.cache[id].client.Some? then
      (Server(s.cache[id := s.cache[id].(lastUsed := s.used + 1)], s.flights, s.used + 1),
        Served(s.cache[id].client.value))
    else if id in s.cache && s.cache[id].flight.Some? then
      (s, Waiting(s.cache[id].flight.value))
    else
      var (room, ok) := MakeRoom(s.cache);
      if !ok then (s.(cache := room), AtCapacity)
      else (Start(s.(cache := room), id), Waiting(|s.flights|))
  }

  function Start(s: Server, id: string): Server
  {
    Server(s.cache[id := Entry(None, 0, 0, Some(|s.flights|))], s.flights + [Flight(id, None, 0)], s.used)
  }

  ghost function Resolve(s: Server, id: string, now: Time): (Server, Answer)
  {
    Answered(s.(cache := Prune(s.cache, now)), id)
  }

  /** The end of a flight: its answer is published and its entry is replaced or dropped. */
  function Complete(s: Server, f: nat, fetch: Fetch, now: Time): Server
    requires f < |s.flights|
  {
    var id := s.flights[f].id;
    var flights := s.flights[f := Flight(id, Some(fetch), now)];
    if id !in s.cache || s.cache[id].flight != Some(f) then s.(flights := flights)
    else if fetch.Failed? || fetch.ttl <= 0 then Server(Without(s.cache, id), flights, s.used)
    else Server(s.cache[id := Entry(Some(fetch.client), now + fetch.ttl, s.used + 1, None)], flights, s.used + 1)
  }

  /* ---- the invariant ---- */

  predicate InFlight(s: Server, f: nat)
  {
    f < |s.flights| && s.flights[f].outcome == None
  }

  /** A cached client is the answer of a completed flight of that very id, with its lifetime. */
  predicate Provenance(flights: seq<Flight>, id: string, e: Entry)
  {
    exists f :: 0 <= f < |flights| && Source(flights[f], id, e)
  }

  predicate Source(flight: Flight, id: string, e: Entry)
  {
    && flight.id == id && flight.outcome.Some? && flight.outcome.value.Got?
    && e.client == Some(flight.outcome.value.client)
    && flight.outcome.value.ttl > 0 && e.expiresAt == flight.doneAt + flight.outcome.value.ttl
  }

  predicate EntryOk(flights: seq<Flight>, used: nat, id: string, e: Entry)
  {
    if e.flight.Some? then
      e.client == None && e.flight.value < |flights| && flights[e.flight.value].id == id
        && flights[e.flight.value].outcome == None
    else
      e.lastUsed <= used && Provenance(flights, id, e)
  }

  /** Every flight still under way holds its own entry. */
  predicate FlightOk(cache: map<string, Entry>, flights: seq<Flight>, f: nat)
    requires f < |flights|
  {
    flights[f].outcome == None ==> flights[f].id in cache && cache[flights[f].id].flight == Some(f)
  }

  predicate DistinctUses(cache: map<string, Entry>)
  {
    forall a <- cache, b <- cache :: Finished(cache, a) && Finished(cache, b) && a != b ==>
      cache[a].lastUsed != cache[b].lastUsed
  }

  predicate Inv(s: Server)
  {
    && |s.cache| <= CAPACITY
    && (forall id <- s.cache :: EntryOk(s.flights, s.used, id, s.cache[id]))
    && (forall f: nat :: f < |s.flights| ==> FlightOk(s.cache, s.flights, f))
    && DistinctUses(s.cache)
  }

  /** A smaller cache that keeps every entry in flight. */
  predicate Shrunk(cache: map<string, Entry>, cache': map<string, Entry>)
  {
    && cache'.Keys <= cache.Keys
    && (forall k <- cache' :: cache'[k] == cache[k])
    && (forall k <- cache :: cache[k].flight.Some? ==> k in cache')
  }

  lemma ShrunkKeeps(s: Server, cache: map<string, Entry>)
    requires Inv(s) && Shrunk(s.cache, cache)
    ensures Inv(s.(cache := cache))
  {
    SubsetSize(cache.Keys, s.cache.Keys);
    forall f: nat | f < |s.flights| ensures FlightOk(cache, s.flights, f) {
      assert FlightOk(s.cache, s.flights, f);
    }
  }

  lemma {:induction false} MakeRoomShrinks(cache: map<string, Entry>)
    ensures Shrunk(cache, MakeRoom(cache).0)
    ensures MakeRoom(cache).1 <==> |MakeRoom(cache).0| < CAPACITY
    ensures !MakeRoom(cache).1 ==> !AnyFinished(MakeRoom(cache).0)
    decreases |cache|
  {
    if |cache| >= CAPACITY && AnyFinished(cache) {
      var v := ChooseVictim(cache);
      WithoutSmaller(cache, v);
      MakeRoomShrinks(Without(cache, v));
    }
  }

  lemma PruneShrinks(cache: map<string, Entry>, now: Time)
    ensures Shrunk(cache, Prune(cache, now))
  {
  }

  lemma ServeKeeps(s: Server, id: string)
    requires Inv(s) && Finished(s.cache, id)
    ensures Inv(Server(s.cache[id := s.cache[id].(lastUsed := s.used + 1)], s.flights, s.used + 1))
  {
    var cache := s.cache[id := s.cache[id].(lastUsed := s.used + 1)];
    assert cache.Keys == s.cache.Keys;
    assert EntryOk(s.flights, s.used, id, s.cache[id]);
    var f :| 0 <= f < |s.flights| && Source(s.flights[f], id, s.cache[id]);
    assert Source(s.flights[f], id, cache[id]);
    forall k <- cache ensures EntryOk(s.flights, s.used + 1, k, cache[k]) {
      assert EntryOk(s.flights, s.used, k, s.cache[k]);
    }
    forall f: nat | f < |s.flights| ensures FlightOk(cache, s.flights, f) {
      assert FlightOk(s.cache, s.flights, f);
    }
    forall a <- cache, b <- cache | Finished(cache, a) && Finished(cache, b)
      && a != b ensures cache[a].lastUsed != cache[b].lastUsed {
      assert EntryOk(s.flights, s.used, a, s.cache[a]) && EntryOk(s.flights, s.used, b, s.cache[b]);
      assert Finished(s.cache, a) && Finished(s.cache, b);
    }
  }

  lemma ProvenanceGrows(flights: seq<Flight>, flights': seq<Flight>, id: string, e: Entry)
    requires Provenance(flights, id, e) && |flights| <= |flights'|
    requires forall f :: 0 <= f < |flights| && flights[f].outcome.Some? ==> flights'[f] == flights[f]
    ensures Provenance(flights', id, e)
  {
    var f :| 0 <= f < |flights| && Source(flights[f], id, e);
    assert Source(flights'[f], id, e);
  }

  lemma StartEntry(s: Server, id: string, k: string)
    requires Inv(s) && id !in s.cache && k in s.cache.Keys + {id}
    ensures EntryOk(Start(s, id).flights, s.used, k, Start(s, id).cache[k])
  {
    if k != id {
      assert EntryOk(s.flights, s.used, k, s.cache[k]);
      if s.cache[k].flight == None { ProvenanceGrows(s.flights, Start(s, id).flights, k, s.cache[k]); }
    }
  }

  lemma StartFlight(s: Server, id: string, f: nat)
    requires Inv(s) && id !in s.cache && f <= |s.flights|
    ensures FlightOk(Start(s, id).cache, Start(s, id).flights, f)
  {
    if f < |s.flights| { assert FlightOk(s.cache, s.flights, f); }
  }

  lemma StartKeeps(s: Server, id: string)
    requires Inv(s) && id !in s.cache && |s.cache| < CAPACITY
    ensures Inv(Start(s, id))
  {
    var s' := Start(s, id);
    assert s'.cache.Keys == s.cache.Keys + {id};
    forall k <- s'.cache ensures EntryOk(s'.flights, s'.used, k, s'.cache[k]) {
      StartEntry(s, id, k);
    }
    forall f: nat | f < |s'.flights| ensures FlightOk(s'.cache, s'.flights, f) {
      StartFlight(s, id, f);
    }
    assert DistinctUses(s'.cache) by {
      assert forall k <- s'.cache :: Finished(s'.cache, k) ==> Finished(s.cache, k) && s'.cache[k] == s.cache[k];
    }
  }

  lemma RoomKeeps(s: Server, id: string)
    requires Inv(s) && id !in s.cache
    ensures
      var (room, ok) := MakeRoom(s.cache);
      if ok then Inv(Start(s.(cache := room), id)) else Inv(s.(cache := room))
  {
    var (room, ok) := MakeRoom(s.cache);
    MakeRoomShrinks(s.cache);
    ShrunkKeeps(s, room);
    if ok { StartKeeps(s.(cache := room), id); }
  }

  /** Within capacity, at most one entry makes room. */
  lemma RoomForOne(cache: map<string, Entry>)
    requires |cache| <= CAPACITY
    ensures MakeRoom(cache) ==
      if |cache| < CAPACITY then (cache, true)
      else if !AnyFinished(cache) then (cache, false)
      else (Without(cache, ChooseVictim(cache)), true)
  {
    if |cache| == CAPACITY && AnyFinished(cache) {
      WithoutSmaller(cache, ChooseVictim(cache));
    }
  }

  lemma AnsweredKeeps(s: Server, id: string)
    requires Inv(s)
    ensures Inv(Answered(s, id).0)
  {
    if id in s.cache {
      KnownKeeps(s, id);
    } else {
      RoomKeeps(s, id);
    }
  }

  lemma KnownKeeps(s: Server, id: string)
    requires Inv(s) && id in s.cache
    ensures Inv(Answered(s, id).0)
  {
    AnsweredKnown(s, id);
    if s.cache[id].client.Some? { ServeKeeps(s, id); }
  }

  /** A known client is served, or joined while its request is under way. */
  lemma AnsweredKnown(s: Server, id: string)
    requires Inv(s) && id in s.cache
    ensures s.cache[id].client.Some? ==> Finished(s.cache, id)
    ensures Answered(s, id).0 ==
      if s.cache[id].client.None? then s
      else Server(s.cache[id := s.cache[id].(lastUsed := s.used + 1)], s.flights, s.used + 1)
  {
    assert EntryOk(s.flights, s.used, id, s.cache[id]);
  }

  lemma PruneKeeps(s: Server, now: Time)
    requires Inv(s)
    ensures Inv(s.(cache := Prune(s.cache, now)))
  {
    PruneShrinks(s.cache, now);
    ShrunkKeeps(s, Prune(s.cache, now));
  }

  lemma ResolveKeeps(s: Server, id: string, now: Time)
    requires Inv(s)
    ensures Inv(Resolve(s, id, now).0)
  {
    PruneKeeps(s, now);
    AnsweredKeeps(s.(cache := Prune(s.cache, now)), id);
  }

  /** A flight under way always finds its own entry when it ends. */
  lemma CompletionOwnsEntry(s: Server, f: nat)
    requires Inv(s) && InFlight(s, f)
    ensures s.flights[f].id in s.cache && s.cache[s.flights[f].id].flight == Some(f)
  {
    assert FlightOk(s.cache, s.flights, f);
  }

  lemma OthersAfterCompletion(s: Server, f: nat, done: Flight, cache: map<string, Entry>, used: nat, k: string)
    requires Inv(s) && InFlight(s, f) && done.id == s.flights[f].id && k in s.cache && k != done.id && s.used <= used
    ensures EntryOk(s.flights[f := done], used, k, s.cache[k])
  {
    assert EntryOk(s.flights, s.used, k, s.cache[k]);
    if s.cache[k].flight == None { ProvenanceGrows(s.flights, s.flights[f := done], k, s.cache[k]); }
  }

  lemma CompleteEntry(s: Server, f: nat, fetch: Fetch, now: Time, k: string)
    requires Inv(s) && InFlight(s, f) && k in Complete(s, f, fetch, now).cache
    ensures
      var s' := Complete(s, f, fetch, now);
      EntryOk(s'.flights, s'.used, k, s'.cache[k])
  {
    CompletionOwnsEntry(s, f);
    var id, s' := s.flights[f].id, Complete(s, f, fetch, now);
    if k != id {
      OthersAfterCompletion(s, f, Flight(id, Some(fetch), now), s'.cache, s'.used, k);
    } else {
      assert Source(s'.flights[f], id, s'.cache[id]);
    }
  }

  lemma CompleteUses(s: Server, f: nat, fetch: Fetch, now: Time)
    requires Inv(s) && InFlight(s, f)
    ensures DistinctUses(Complete(s, f, fetch, now).cache)
  {
    CompletionOwnsEntry(s, f);
    var id, s' := s.flights[f].id, Complete(s, f, fetch, now);
    forall a <- s'.cache, b <- s'.cache | Finished(s'.cache, a) && Finished(s'.cache, b) && a != b
      ensures s'.cache[a].lastUsed != s'.cache[b].lastUsed
    {
      assert a != id ==> EntryOk(s.flights, s.used, a, s.cache[a]) && Finished(s.cache, a);
      assert b != id ==> EntryOk(s.flights, s.used, b, s.cache[b]) && Finished(s.cache, b);
    }
  }

  lemma CompleteKeeps(s: Server, f: nat, fetch: Fetch, now: Time)
    requires Inv(s) && InFlight(s, f)
    ensures Inv(Complete(s, f, fetch, now))
  {
    CompletionOwnsEntry(s, f);
    var s' := Complete(s, f, fetch, now);
    SubsetSize(s'.cache.Keys, s.cache.Keys);
    forall k <- s'.cache ensures EntryOk(s'.flights, s'.used, k, s'.cache[k]) {
      CompleteEntry(s, f, fetch, now, k);
    }
    forall g: nat | g < |s'.flights| ensures FlightOk(s'.cache, s'.flights, g) {
      assert FlightOk(s.cache, s.flights, g);
    }
    CompleteUses(s, f, fetch, now);
  }

  /* ---- every interleaving ---- */

  datatype Event = Lookup(id: string, at: Time) | Finish(flight: nat, fetch: Fetch, at: Time)

  predicate Possible(s: Server, e: Event)
  {
    e.Finish? ==> InFlight(s, e.flight)
  }

  ghost function Next(s: Server, e: Event): Server
    requires Possible(s, e)
  {
    match e
    case Lookup(id, at) => Resolve(s, id, at).0
    case Finish(f, fetch, at) => Complete(s, f, fetch, at)
  }

  ghost predicate Run(events: seq<Event>, states: seq<Server>)
  {
    && |states| == |events| + 1
    && states[0] == EMPTY
    && forall i {:trigger Possible(states[i], events[i])} :: 0 <= i < |events| ==>
        Possible(states[i], events[i]) && states[i + 1] == Next(states[i], events[i])
  }

  lemma NextKeeps(s: Server, e: Event)
    requires Inv(s) && Possible(s, e)
    ensures Inv(Next(s, e))
  {
    match e
    case Lookup(id, at) => ResolveKeeps(s, id, at);
    case Finish(f, fetch, at) => CompleteKeeps(s, f, fetch, at);
  }

  lemma {:induction false} RunKeeps(events: seq<Event>, states: seq<Server>, n: nat)
    requires Run(events, states) && n <= |events|
    ensures Inv(states[n])
  {
    if n > 0 {
      RunKeeps(events, states, n - 1);
      assert Possible(states[n - 1], events[n - 1]);
      NextKeeps(states[n - 1], events[n - 1]);
    }
  }

  /** On every interleaving: at most 256 entries, and two metadata requests under way are never for
      the same client. */
  lemma OneFetchPerClient(events: seq<Event>, states: seq<Server>, n: nat)
    requires Run(events, states) && n <= |events|
    ensures |states[n].cache| <= 256
    ensures forall f: nat, g: nat ::
      InFlight(states[n], f) && InFlight(states[n], g) && states[n].flights[f].id == states[n].flights[g].id ==> f == g
  {
    RunKeeps(events, states, n);
    var s := states[n];
    forall f: nat, g: nat | InFlight(s, f) && InFlight(s, g) && s.flights[f].id == s.flights[g].id ensures f == g {
      CompletionOwnsEntry(s, f);
      CompletionOwnsEntry(s, g);
    }
  }

  /** What is served was fetched for that very id and is still alive; nothing expired is served. */
  lemma ServedIsFresh(events: seq<Event>, states: seq<Server>, n: nat, id: string, now: Time)
    requires Run(events, states) && n <= |events|
    ensures
      var s := states[n];
      var answer := Resolve(s, id, now).1;
      answer.Served? ==>
        exists f :: 0 <= f < |s.flights| && ServedFrom(s.flights[f], id, answer.client, now)
  {
    RunKeeps(events, states, n);
    var s := states[n];
    var answer := Resolve(s, id, now).1;
    if answer.Served? {
      assert EntryOk(s.flights, s.used, id, s.cache[id]);
      var f :| 0 <= f < |s.flights| && Source(s.flights[f], id, s.cache[id]);
      assert ServedFrom(s.flights[f], id, answer.client, now);
    }
  }

  predicate ServedFrom(flight: Flight, id: string, client: Client, now: Time)
  {
    flight.id == id && flight.outcome.Some? && flight.outcome.value.Got? && flight.outcome.value.client == client
      && now < flight.doneAt + flight.outcome.value.ttl
  }

  /** A finished flight keeps its one answer for ever, whoever asks and whenever. */
  lemma {:induction false} FlightsKeepTheirAnswer(events: seq<Event>, states: seq<Server>, i: nat, j: nat, f: nat)
    requires Run(events, states) && i <= j <= |events| && f < |states[i].flights|
    ensures f < |states[j].flights| && states[j].flights[f].id == states[i].flights[f].id
    ensures states[i].flights[f].outcome.Some? ==> states[j].flights[f] == states[i].flights[f]
  {
    if i < j {
      FlightsKeepTheirAnswer(events, states, i, j - 1, f);
      assert Possible(states[j - 1], events[j - 1]);
    }
  }

  lemma LookupKeepsFlights(s: Server, asked: string, id: string)
    requires Inv(s) && id in s.cache && s.cache[id].flight.Some?
    ensures id in Answered(s, asked).0.cache && Answered(s, asked).0.cache[id] == s.cache[id]
  {
    assert EntryOk(s.flights, s.used, id, s.cache[id]);
    MakeRoomShrinks(s.cache);
  }

  /** An entry in flight is gone only by its own completion. */
  lemma OnlyCompletionEndsFlight(s: Server, e: Event, id: string)
    requires Inv(s) && Possible(s, e) && id in s.cache && s.cache[id].flight.Some?
    ensures (id in Next(s, e).cache && Next(s, e).cache[id] == s.cache[id])
      || (e.Finish? && e.flight == s.cache[id].flight.value)
  {
    assert EntryOk(s.flights, s.used, id, s.cache[id]);
    match e
    case Lookup(asked, at) =>
      PruneKeeps(s, at);
      LookupKeepsFlights(s.(cache := Prune(s.cache, at)), asked, id);
    case Finish(f, fetch, at) => CompletionOwnsEntry(s, f);
  }

  /** A lookup drops an entry only when it has expired or, in a full cache, as the least recently
      used of the finished ones. */
  lemma LookupDropsOnly(s: Server, id: string, now: Time, gone: string)
    requires Inv(s) && gone in s.cache && gone !in Resolve(s, id, now).0.cache
    ensures Stale(s.cache[gone], now) || (|Prune(s.cache, now)| == CAPACITY && Victim(Prune(s.cache, now), gone))
    ensures !Stale(s.cache[gone], now) ==> forall k <- Prune(s.cache, now) ::
      s.cache[k].flight.None? ==> s.cache[gone].lastUsed <= s.cache[k].lastUsed
  {
    var cache := Prune(s.cache, now);
    PruneShrinks(s.cache, now);
    ShrunkKeeps(s, cache);
    RoomForOne(cache);
  }

  /** A caller that waits, waits for a flight of its own client that is still under way. */
  lemma WaitsForOwnFlight(s: Server, id: string, now: Time)
    requires Inv(s) && Resolve(s, id, now).1.Waiting?
    ensures
      var (s', answer) := Resolve(s, id, now);
      InFlight(s', answer.flight) && s'.flights[answer.flight].id == id
  {
    var cache := Prune(s.cache, now);
    if id in cache { assert EntryOk(s.flights, s.used, id, s.cache[id]); }
  }

  /** The client just served is the most recently used of all finished entries. */
  lemma ServedIsNewest(s: Server, id: string, now: Time)
    requires Inv(s) && Resolve(s, id, now).1.Served?
    ensures
      var cache := Resolve(s, id, now).0.cache;
      id in cache && forall k <- cache :: k != id && cache[k].flight.None? ==> cache[k].lastUsed < cache[id].lastUsed
  {
    var cache := Prune(s.cache, now);
    forall k <- cache | cache[k].flight.None? ensures cache[k].lastUsed <= s.used {
      assert EntryOk(s.flights, s.used, k, s.cache[k]);
    }
  }

  /** A lookup is refused exactly when its client is unknown and 256 requests are under way. */
  lemma RefusedIff(s: Server, id: string, now: Time)
    requires Inv(s)
    ensures Resolve(s, id, now).1 == AtCapacity <==>
      id !in Prune(s.cache, now) && |Prune(s.cache, now)| == CAPACITY && forall k <- Prune(s.cache, now) ::
        s.cache[k].flight.Some?
  {
    var cache := Prune(s.cache, now);
    PruneShrinks(s.cache, now);
    ShrunkKeeps(s, cache);
    RoomForOne(cache);
    if id in cache { assert EntryOk(s.flights, s.used, id, cache[id]); }
    assert forall k <- cache :: cache[k] == s.cache[k] && (Finished(cache, k) || s.cache[k].flight.Some?);
  }

  /* ---- the cache updated in place ---- */

  class ClientCache {
    var cache: map<string, Entry>
    var flights: seq<Flight>
    var used: nat

    constructor ()
      ensures Contents() == EMPTY
    {
      cache, flights, used := map[], [], 0;
    }

    function Contents(): Server
      reads this
    {
      Server(cache, flights, used)
    }

    method PruneExpired(now: Time)
      modifies this`cache
      ensures cache == Prune(old(cache), now)
    {
      var todo := cache.Keys;
      while todo != {}
        invariant todo <= cache.Keys <= old(cache).Keys
        invariant forall k <- cache :: cache[k] == old(cache)[k]
        invariant forall k <- old(cache) :: k !in todo ==> (k in cache <==> !Stale(old(cache)[k], now))
        decreases |todo|
      {
        var id :| id in todo;
        todo := todo - {id};
        if Stale(cache[id], now) {
          cache := Without(cache, id);
        }
      }
    }

    method Evict() returns (found: bool)
      modifies this`cache
      ensures found == AnyFinished(old(cache))
      ensures cache == if found then Without(old(cache), ChooseVictim(old(cache))) else old(cache)
    {
      var victim, todo := "", cache.Keys;
      found := false;
      ghost var seen: set<string> := {};
      while todo != {}
        invariant cache == old(cache) && seen == cache.Keys - todo && todo <= cache.Keys
        invariant found ==> LeastAmong(cache, seen, victim)
        invariant !found ==> forall k <- seen :: !Finished(cache, k)
        decreases |todo|
      {
        var id :| id in todo;
        if cache[id].flight == None {
          if !found || UsedBefore(cache, id, victim) {
            if found { LeastWins(cache, seen, victim, id); }
            victim, found := id, true;
          } else {
            LeastWins(cache, seen, victim, id);
          }
        }
        todo := todo - {id};
        seen := seen + {id};
      }
      assert seen == cache.Keys;
      assert found ==> Finished(cache, victim);
      assert found == AnyFinished(cache);
      if found {
        assert Victim(cache, victim);
        VictimUnique(cache, victim, ChooseVictim(cache));
        cache := Without(cache, victim);
      }
    }

    method Lookup(id: string, now: Time) returns (answer: Answer)
      modifies this
      ensures (Contents(), answer) == Resolve(old(Contents()), id, now)
    {
      PruneExpired(now);
      if id in cache && cache[id].client.Some? {
        used := used + 1;
        cache := cache[id := cache[id].(lastUsed := used)];
        return Served(cache[id].client.value);
      }
      if id in cache && cache[id].flight.Some? {
        return Waiting(cache[id].flight.value);
      }
      ghost var pruned := cache;
      while |cache| >= CAPACITY
        invariant MakeRoom(cache) == MakeRoom(pruned)
        invariant flights == old(flights) && used == old(used)
        decreases |cache|
      {
        ghost var full := cache;
        var found := Evict();
        if !found {
          return AtCapacity;
        }
        WithoutSmaller(full, ChooseVictim(full));
      }
      cache := cache[id := Entry(None, 0, 0, Some(|flights|))];
      flights := flights + [Flight(id, None, 0)];
      return Waiting(|flights| - 1);
    }

    method Finish(f: nat, fetch: Fetch, now: Time)
      requires f < |flights|
      modifies this
      ensures Contents() == Complete(old(Contents()), f, fetch, now)
    {
      var id := flights[f].id;
      flights := flights[f := Flight(id, Some(fetch), now)];
      if id in cache && cache[id].flight == Some(f) {
        if fetch.Failed? || fetch.ttl <= 0 {
          cache := Without(cache, id);
        } else {
          used := used + 1;
          cache := cache[id := Entry(Some(fetch.client), now + fetch.ttl, used, None)];
        }
      }
    }
  }
}
