/** Which account the failure tracker forgets when it is full. */
module LoginRecency {
  import opened Options
  import opened Lru
  import opened LoginFailures

  /** The latest check or failure of the account, -1 if there was none. */
  function LastTouch(events: seq<Event>, email: string): (r: int)
    ensures -1 <= r < |events|
    ensures r >= 0 ==> events[r].email == email && !events[r].Success?
    ensures forall i :: r < i < |events| ==> events[i].email != email || events[i].Success?
  {
    if events == [] then -1
    else
      var e := events[|events| - 1];
      if e.email == email && !e.Success? then |events| - 1 else LastTouch(events[..|events| - 1], email)
  }

  function Touches(keys: set<string>, events: seq<Event>): map<string, real>
  {
    map k <- keys :: LastTouch(events, k) as real
  }

  lemma TouchStep(events: seq<Event>, e: Event, k: string)
    ensures LastTouch(events + [e], k) == if e.email == k && !e.Success? then |events| else LastTouch(events, k)
  {
    assert (events + [e])[..|events|] == events;
  }

  /** The list is in order of the latest touch. */
  predicate InOrder(t: Tracker, events: seq<Event>)
  {
    Descending(t.lru, Touches(t.fails.Keys, events))
  }

  lemma FewerInOrder(t: Tracker, t': Tracker, gone: set<string>, events: seq<Event>)
    requires InOrder(t, events) && t'.lru == Drop(t.lru, gone) && t'.fails.Keys == t.fails.Keys - gone
    ensures InOrder(t', events)
  {
    DropDescending(t.lru, gone, Touches(t.fails.Keys, events));
    DropMeaning(t.lru, gone);
    forall i | 0 <= i < |t'.lru| ensures t'.lru[i] in t'.fails.Keys {
      assert t'.lru[i] in Drop(t.lru, gone);
      var j :| 0 <= j < |t.lru| && t.lru[j] == t'.lru[i];
    }
    SubDescending(t'.lru, Touches(t.fails.Keys, events), Touches(t'.fails.Keys, events));
  }

  lemma PruneInOrder(c: Config, t: Tracker, email: string, now: Time, events: seq<Event>)
    requires InOrder(t, events)
    ensures InOrder(Prune(c, t, email, now), events)
  {
    var t' := Prune(c, t, email, now);
    if email !in t'.fails && email in t.fails {
      FewerInOrder(t, t', {email}, events);
    } else {
      assert t'.fails.Keys == t.fails.Keys;
    }
  }

  lemma PruneAllInOrder(c: Config, t: Tracker, now: Time, events: seq<Event>)
    requires InOrder(t, events)
    ensures InOrder(PruneAll(c, t, now), events)
  {
    if !(t.lastPrune.Some? && now - t.lastPrune.value < MINUTE) {
      var gone := Expired(c, t.fails, t.fails.Keys, now);
      FewerInOrder(t, PruneAll(c, t, now), gone, events);
    }
  }

  lemma RefreshInOrder(c: Config, t: Tracker, email: string, now: Time, events: seq<Event>)
    requires InOrder(t, events)
    ensures InOrder(Refresh(c, t, email, now), events)
  {
    PruneAllInOrder(c, t, now, events);
    PruneInOrder(c, PruneAll(c, t, now), email, now, events);
  }

  /** Another event leaves the order of the others alone; its own account comes to the front. */
  lemma LaterInOrder(t: Tracker, events: seq<Event>, e: Event)
    requires InOrder(t, events) && (e.email in t.fails ==> e.Success?)
    ensures InOrder(t, events + [e])
  {
    forall k <- t.fails.Keys ensures LastTouch(events + [e], k) == LastTouch(events, k) { TouchStep(events, e, k); }
    SubDescending(t.lru, Touches(t.fails.Keys, events), Touches(t.fails.Keys, events + [e]));
  }

  lemma FrontInOrder(t: Tracker, t': Tracker, events: seq<Event>, e: Event)
    requires InOrder(t, events) && !e.Success?
    requires t'.lru == ToFront(t.lru, e.email) && t'.fails.Keys == t.fails.Keys + {e.email}
    ensures InOrder(t', events + [e])
  {
    var last, n := Touches(t.fails.Keys, events), |events| as real;
    ToFrontDescending(t.lru, e.email, last, n);
    DropMeaning(t.lru, {e.email});
    forall i | 0 <= i < |t'.lru|
      ensures t'.lru[i] in t'.fails.Keys
      ensures LastTouch(events + [e], t'.lru[i]) as real == last[e.email := n][t'.lru[i]]
    {
      TouchStep(events, e, t'.lru[i]);
      if i > 0 {
        assert t'.lru[i] in Drop(t.lru, {e.email});
        var j :| 0 <= j < |t.lru| && t.lru[j] == t'.lru[i];
      }
    }
    SubDescending(t'.lru, last[e.email := n], Touches(t'.fails.Keys, events + [e]));
  }

  lemma MakeRoomInOrder(c: Config, t: Tracker, events: seq<Event>)
    requires InOrder(t, events)
    ensures InOrder(MakeRoom(t), events)
  {
    if |t.fails| >= CAPACITY && t.lru != [] {
      var last := t.lru[|t.lru| - 1];
      assert last in Touches(t.fails.Keys, events);
      FewerInOrder(t, MakeRoom(t), {last}, events);
    }
  }

  lemma NextInOrder(c: Config, t: Tracker, events: seq<Event>, e: Event)
    requires c.threshold > 0 && InOrder(t, events)
    ensures InOrder(Next(c, t, e), events + [e])
  {
    match e
    case Success(email, _) =>
      if email in t.fails { FewerInOrder(t, Next(c, t, e), {email}, events); }
      LaterInOrder(Next(c, t, e), events, e);
    case Check(email, at) =>
      RefreshInOrder(c, t, email, at, events);
      var p := Refresh(c, t, email, at);
      if email in p.fails {
        assert p.fails.Keys + {email} == p.fails.Keys;
        FrontInOrder(p, Next(c, t, e), events, e);
      } else {
        LaterInOrder(p, events, e);
      }
    case Fail(email, at) =>
      RefreshInOrder(c, t, email, at, events);
      var p := Refresh(c, t, email, at);
      if email in p.fails {
        assert Next(c, t, e).fails.Keys == p.fails.Keys + {email};
        FrontInOrder(p, Next(c, t, e), events, e);
      } else {
        MakeRoomInOrder(c, p, events);
        assert Next(c, t, e).fails.Keys == MakeRoom(p).fails.Keys + {email};
        FrontInOrder(MakeRoom(p), Next(c, t, e), events, e);
      }
  }

  /** On every run the list is in order of the latest check or failure of each account. */
  lemma {:induction false} EveryListIsInOrder(c: Config, events: seq<Event>, states: seq<Tracker>, n: nat)
    requires c.threshold > 0 && Run(c, events, states) && n <= |events|
    ensures InOrder(states[n], events[..n])
  {
    if n > 0 {
      EveryListIsInOrder(c, events, states, n - 1);
      assert states[n] == Next(c, states[n - 1], events[n - 1]);
      NextInOrder(c, states[n - 1], events[..n - 1], events[n - 1]);
      assert events[..n] == events[..n - 1] + [events[n - 1]];
    }
  }

  /** An account that a failure of another one pushes out of a full table was checked or failed no later than
      any account that stays. */
  lemma ForgetsLeastRecent(c: Config, events: seq<Event>, states: seq<Tracker>, n: nat, gone: string, k: string)
    requires c.threshold > 0 && Run(c, events, states) && n < |events| && events[n].Fail?
    requires
      var p := Refresh(c, states[n], events[n].email, events[n].at);
      gone in p.fails && gone !in states[n + 1].fails && k in p.fails
    ensures LastTouch(events[..n], gone) <= LastTouch(events[..n], k)
  {
    EveryListIsInOrder(c, events, states, n);
    EveryTrackerIsValid(c, events, states, n);
    assert states[n + 1] == Next(c, states[n], events[n]);
    StepForgetsLeast(c, states[n], events[..n], events[n].email, events[n].at, gone, k);
  }

  lemma StepForgetsLeast(c: Config, t: Tracker, events: seq<Event>, email: string, now: Time, gone: string, k: string)
    requires c.threshold > 0 && InOrder(t, events) && Valid(c, t)
    requires gone in Refresh(c, t, email, now).fails && gone !in Record(c, t, email, now).0.fails
    requires k in Refresh(c, t, email, now).fails
    ensures LastTouch(events, gone) <= LastTouch(events, k)
  {
    RefreshInOrder(c, t, email, now, events);
    RefreshValid(c, t, email, now);
    if gone in MakeRoom(Refresh(c, t, email, now)).fails { RecordKeepsOthers(c, t, email, now, gone); }
    RoomForgetsLeast(Refresh(c, t, email, now), events, gone, k);
  }

  lemma RecordKeepsOthers(c: Config, t: Tracker, email: string, now: Time, k: string)
    requires c.threshold > 0 && k in MakeRoom(Refresh(c, t, email, now)).fails
    ensures k in Record(c, t, email, now).0.fails
  {
    OpenKeepsOthers(Refresh(c, t, email, now), email, k);
  }

  lemma OpenKeepsOthers(p: Tracker, email: string, k: string)
    requires k in MakeRoom(p).fails
    ensures k in Open(p, email).fails
  {
  }

  lemma RoomForgetsLeast(p: Tracker, events: seq<Event>, gone: string, k: string)
    requires InOrder(p, events) && Lists(p.lru, p.fails.Keys)
    requires gone in p.fails && gone !in MakeRoom(p).fails && k in p.fails
    ensures LastTouch(events, gone) <= LastTouch(events, k)
  {
    BackIsLeast(p, events, k);
  }

  lemma BackIsLeast(p: Tracker, events: seq<Event>, k: string)
    requires InOrder(p, events) && Lists(p.lru, p.fails.Keys) && k in p.fails
    ensures p.lru != [] && LastTouch(events, p.lru[|p.lru| - 1]) <= LastTouch(events, k)
  {
    var last := Touches(p.fails.Keys, events);
    var i :| 0 <= i < |p.lru| && p.lru[i] == k;
    assert last[p.lru[|p.lru| - 1]] <= last[k];
  }
}
