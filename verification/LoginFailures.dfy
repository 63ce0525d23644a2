/** Per-account failure counts: a capped, lazily pruned table against the full history. */
module LoginFailures {
  import opened Options
  import opened Lru

  type Time = int

  const MINUTE: int := 60_000_000_000
  const SECOND: int := 1_000_000_000
  const CAPACITY: nat := 10_000

  datatype Config = Config(threshold: int, window: int)

  datatype Tracker = Tracker(fails: map<string, seq<Time>>, lru: seq<string>, lastPrune: Option<Time>)

  const EMPTY := Tracker(map[], [], None)

  function StampCap(c: Config): int
  {
    if c.threshold + 6 < 1 then 1 else c.threshold + 6
  }

  /** The stamps strictly after the cutoff, in order. */
  function Within(stamps: seq<Time>, cutoff: Time): (r: seq<Time>)
    ensures |r| <= |stamps|
  {
    if stamps == [] then []
    else
      var rest, last := Within(stamps[..|stamps| - 1], cutoff), stamps[|stamps| - 1];
      if last > cutoff then rest + [last] else rest
  }

  function Stored(fails: map<string, seq<Time>>, email: string): seq<Time>
  {
    if email in fails then fails[email] else []
  }

  function Remove(t: Tracker, gone: set<string>): Tracker
  {
    t.(fails := map k <- t.fails | k !in gone :: t.fails[k], lru := Drop(t.lru, gone))
  }

  function Prune(c: Config, t: Tracker, email: string, now: Time): Tracker
  {
    if email !in t.fails then t
    else
      var kept := Within(t.fails[email], now - c.window);
      if kept == [] then Remove(t, {email}) else t.(fails := t.fails[email := kept])
  }

  /** Those of the emails whose every stamp has left the window. */
  function Expired(c: Config, fails: map<string, seq<Time>>, emails: set<string>, now: Time): set<string>
  {
    set k <- fails | k in emails && Within(fails[k], now - c.window) == []
  }

  /** The given emails pruned, the others left alone. */
  function PruneSome(c: Config, t: Tracker, emails: set<string>, now: Time): Tracker
  {
    var gone := Expired(c, t.fails, emails, now);
    t.(fails := map k <- t.fails | k !in gone :: if k in emails then Within(t.fails[k], now - c.window) else t.fails[k],
       lru := Drop(t.lru, gone))
  }

  /** The full sweep, at most once a minute. */
  function PruneAll(c: Config, t: Tracker, now: Time): Tracker
  {
    if t.lastPrune.Some? && now - t.lastPrune.value < MINUTE then t
    else PruneSome(c, t, t.fails.Keys, now).(lastPrune := Some(now))
  }

  function Refresh(c: Config, t: Tracker, email: string, now: Time): Tracker
  {
    Prune(c, PruneAll(c, t, now), email, now)
  }

  function Allow(c: Config, t: Tracker, email: string, now: Time): (Tracker, bool)
  {
    if c.threshold <= 0 then (t, true)
    else
      var p := Refresh(c, t, email, now);
      if email !in p.fails then (p, true)
      else (p.(lru := ToFront(p.lru, email)), |p.fails[email]| < c.threshold)
  }

  function MakeRoom(t: Tracker): Tracker
  {
    if |t.fails| >= CAPACITY && t.lru != [] then Reset(t, t.lru[|t.lru| - 1]) else t
  }

  /** The account's bucket, new if there was none, moved to the front. */
  function Open(t: Tracker, email: string): (r: Tracker)
    ensures email in r.fails
  {
    if email in t.fails then t.(lru := ToFront(t.lru, email))
    else
      var room := MakeRoom(t);
      room.(fails := room.fails[email := []], lru := ToFront(room.lru, email))
  }

  /** The stamps after one more failure: the newest ones up to the cap. */
  function Append(c: Config, stamps: seq<Time>, now: Time): seq<Time>
  {
    (if |stamps| >= StampCap(c) then stamps[|stamps| - StampCap(c) + 1..] else stamps) + [now]
  }

  function Record(c: Config, t: Tracker, email: string, now: Time): (Tracker, int)
  {
    if c.threshold <= 0 then (t, 0)
    else
      var p := Refresh(c, t, email, now);
      var ready := Open(p, email);
      var stamps := Append(c, ready.fails[email], now);
      (ready.(fails := ready.fails[email := stamps]), |stamps|)
  }

  function Reset(t: Tracker, email: string): Tracker
  {
    if email in t.fails then Remove(t, {email}) else t
  }

  function PowerOfTwo(n: nat): nat { if n == 0 then 1 else 2 * PowerOfTwo(n - 1) }

  function RetryAfter(c: Config, count: int): int
  {
    if c.threshold <= 0 || count < c.threshold then 0
    else
      var exponent := if count - c.threshold > 5 then 5 else count - c.threshold;
      var seconds := PowerOfTwo(exponent);
      (if seconds > 30 then 30 else seconds) * SECOND
  }

  /* ---- runs and the full history ---- */

  datatype Event =
    | Fail(email: string, at: Time)
    | Check(email: string, at: Time)
    | Success(email: string, at: Time)

  function Next(c: Config, t: Tracker, e: Event): Tracker
  {
    match e
    case Fail(email, at) => Record(c, t, email, at).0
    case Check(email, at) => Allow(c, t, email, at).0
    case Success(email, _) => Reset(t, email)
  }

  /** The trackers a run goes through, from the empty one. */
  predicate Run(c: Config, events: seq<Event>, states: seq<Tracker>)
  {
    && |states| == |events| + 1
    && states[0] == EMPTY
    && forall i {:trigger Next(c, states[i], events[i])} :: 0 <= i < |events| ==>
      states[i + 1] == Next(c, states[i], events[i])
  }

  /** Every failure of the account since its last success. */
  function History(events: seq<Event>, email: string): seq<Time>
  {
    if events == [] then []
    else
      Extend(History(events[..|events| - 1], email), events[|events| - 1], email)
  }

  predicate Monotone(events: seq<Event>)
  {
    forall i, j :: 0 <= i < j < |events| ==> events[i].at <= events[j].at
  }

  predicate Over(events: seq<Event>, now: Time)
  {
    forall i :: 0 <= i < |events| ==> events[i].at <= now
  }

  predicate Crowded(c: Config, t: Tracker, e: Event)
  {
    && c.threshold > 0 && e.Fail?
    && var p := Refresh(c, t, e.email, e.at);
      e.email !in p.fails && |p.fails| >= CAPACITY
  }

  predicate NoEviction(c: Config, events: seq<Event>, states: seq<Tracker>)
    requires Run(c, events, states)
  {
    forall i {:trigger Crowded(c, states[i], events[i])} :: 0 <= i < |events| ==> !Crowded(c, states[i], events[i])
  }

  /* ---- windows over sorted stamps ---- */

  predicate Ascending(stamps: seq<Time>)
  {
    forall i, j :: 0 <= i < j < |stamps| ==> stamps[i] <= stamps[j]
  }

  /** The first k stamps have left the window and the others have not. */
  predicate Splits(stamps: seq<Time>, k: int, cutoff: Time)
  {
    && 0 <= k <= |stamps|
    && (forall i :: 0 <= i < k ==> stamps[i] <= cutoff)
    && (forall i :: k <= i < |stamps| ==> stamps[i] > cutoff)
  }

  /** Where the window of ascending stamps begins. */
  function Start(stamps: seq<Time>, cutoff: Time): int { |stamps| - |Within(stamps, cutoff)| }

  /** In ascending stamps the window is a suffix: what it leaves out has expired, the rest has not. */
  lemma {:induction false} WindowIsSuffix(stamps: seq<Time>, cutoff: Time)
    requires Ascending(stamps)
    ensures Splits(stamps, Start(stamps, cutoff), cutoff) && Within(stamps, cutoff) == stamps[Start(stamps, cutoff)..]
  {
    if stamps != [] {
      var init, last := stamps[..|stamps| - 1], stamps[|stamps| - 1];
      assert stamps == init + [last];
      assert Ascending(init);
      WindowIsSuffix(init, cutoff);
      WindowAppend(init, last, cutoff);
    }
  }

  lemma WindowAppend(stamps: seq<Time>, last: Time, cutoff: Time)
    requires Ascending(stamps + [last]) && Splits(stamps, Start(stamps, cutoff), cutoff)
    requires Within(stamps, cutoff) == stamps[Start(stamps, cutoff)..]
    ensures Splits(stamps + [last], Start(stamps + [last], cutoff), cutoff)
    ensures Within(stamps + [last], cutoff) == (stamps + [last])[Start(stamps + [last], cutoff)..]
  {
    assert (stamps + [last])[..|stamps|] == stamps;
    SplitAppend(stamps, Start(stamps, cutoff), last, cutoff);
  }

  lemma SplitAppend(stamps: seq<Time>, k: int, last: Time, cutoff: Time)
    requires Splits(stamps, k, cutoff) && Ascending(stamps + [last])
    ensures last > cutoff ==> Splits(stamps + [last], k, cutoff) && (stamps + [last])[k..] == stamps[k..] + [last]
    ensures last <= cutoff ==> Splits(stamps + [last], |stamps| + 1, cutoff) && k == |stamps|
  {
    var all := stamps + [last];
    assert all[|stamps|] == last && (k < |stamps| ==> all[k] == stamps[k] <= all[|stamps|]);
  }

  lemma SplitUnique(stamps: seq<Time>, k: int, k': int, cutoff: Time)
    requires Splits(stamps, k, cutoff) && Splits(stamps, k', cutoff)
    ensures k == k'
  {
    assert k < |stamps| ==> stamps[k] > cutoff;
    assert k' < |stamps| ==> stamps[k'] > cutoff;
  }

  lemma SplitSuffix(stamps: seq<Time>, d: nat, k: int, cutoff: Time)
    requires Splits(stamps, k, cutoff) && d <= |stamps|
    ensures Splits(stamps[d..], if d < k then k - d else 0, cutoff)
  {
    assert forall i :: 0 <= i < |stamps| - d ==> stamps[d..][i] == stamps[d + i];
  }

  lemma AscendingSuffix(stamps: seq<Time>, d: nat)
    requires Ascending(stamps) && d <= |stamps|
    ensures Ascending(stamps[d..])
  {
  }

  function Later(a: int, b: int): int { if a < b then b else a }

  /** The window of a suffix is the window of the whole, or the whole suffix when that is shorter. */
  lemma WindowOfSuffix(stamps: seq<Time>, d: nat, cutoff: Time)
    requires Ascending(stamps) && d <= |stamps|
    ensures Splits(stamps, Start(stamps, cutoff), cutoff)
    ensures Within(stamps[d..], cutoff) == stamps[Later(d, Start(stamps, cutoff))..]
  {
    var s, k := stamps[d..], Start(stamps, cutoff);
    WindowIsSuffix(stamps, cutoff);
    AscendingSuffix(stamps, d);
    WindowIsSuffix(s, cutoff);
    SplitSuffix(stamps, d, k, cutoff);
    SplitUnique(s, Start(s, cutoff), if d < k then k - d else 0, cutoff);
    assert s[Start(s, cutoff)..] == stamps[d + Start(s, cutoff)..];
  }

  /* ---- what is stored against what happened ---- */

  /** The stored stamps are the newest of the history, and whatever is missing has expired unless
      the cap is reached. */
  predicate Faithful(c: Config, stored: seq<Time>, history: seq<Time>, now: Time)
  {
    && |stored| <= |history| && |stored| <= StampCap(c)
    && stored == history[|history| - |stored|..]
    && (|stored| == StampCap(c) || forall i :: 0 <= i < |history| - |stored| ==> history[i] <= now - c.window)
  }

  lemma KeptFaithful(c: Config, history: seq<Time>, d: nat, now: Time)
    requires d <= |history| <= d + StampCap(c)
    requires |history| == d + StampCap(c) || forall i :: 0 <= i < d ==> history[i] <= now - c.window
    ensures Faithful(c, history[d..], history, now)
  {
  }

  lemma PruneFaithful(c: Config, stored: seq<Time>, history: seq<Time>, now: Time)
    requires Ascending(history) && Faithful(c, stored, history, now)
    ensures Faithful(c, Within(stored, now - c.window), history, now)
  {
    var d := |history| - |stored|;
    WindowOfSuffix(history, d, now - c.window);
    KeptFaithful(c, history, Later(d, Start(history, now - c.window)), now);
  }

  lemma LaterFaithful(c: Config, stored: seq<Time>, history: seq<Time>, now: Time, later: Time)
    requires Faithful(c, stored, history, now) && now <= later
    ensures Faithful(c, stored, history, later)
  {
  }

  lemma AppendFaithful(c: Config, stored: seq<Time>, history: seq<Time>, now: Time)
    requires Faithful(c, stored, history, now)
    ensures Faithful(c, Append(c, stored, now), history + [now], now)
  {
    var s := Append(c, stored, now);
    var h := history + [now];
    assert s == h[|h| - |s|..];
  }

  /** Pruned stamps count the window exactly, up to the cap. */
  lemma PrunedCount(c: Config, stored: seq<Time>, history: seq<Time>, now: Time)
    requires Ascending(history) && Faithful(c, stored, history, now)
    ensures |Within(stored, now - c.window)| == Min(|Within(history, now - c.window)|, StampCap(c))
  {
    var cutoff, d := now - c.window, |history| - |stored|;
    WindowOfSuffix(history, d, cutoff);
    var k := Start(history, cutoff);
    assert k < |history| ==> history[k] > cutoff;
  }

  function Min(a: int, b: int): int { if a <= b then a else b }

  /* ---- what each step does to one account's stamps ---- */

  /** A sweep leaves the stamps alone or cuts them to the window. */
  predicate Swept(before: seq<Time>, after: seq<Time>, cutoff: Time)
  {
    after == before || after == Within(before, cutoff)
  }

  lemma PruneStored(c: Config, t: Tracker, email: string, now: Time, other: string)
    ensures Stored(Prune(c, t, email, now).fails, other) ==
      if email == other then Within(Stored(t.fails, email), now - c.window) else Stored(t.fails, other)
  {
  }

  lemma PruneAllStored(c: Config, t: Tracker, now: Time, email: string)
    ensures Swept(Stored(t.fails, email), Stored(PruneAll(c, t, now).fails, email), now - c.window)
  {
  }

  lemma {:induction false} WithinTwice(stamps: seq<Time>, cutoff: Time)
    ensures Within(Within(stamps, cutoff), cutoff) == Within(stamps, cutoff)
  {
    if stamps != [] {
      var init := stamps[..|stamps| - 1];
      WithinTwice(init, cutoff);
      var w := Within(init, cutoff);
      assert (w + [stamps[|stamps| - 1]])[..|w|] == w;
    }
  }

  lemma RefreshStored(c: Config, t: Tracker, email: string, now: Time, other: string)
    ensures Stored(Refresh(c, t, email, now).fails, email) == Within(Stored(t.fails, email), now - c.window)
    ensures Swept(Stored(t.fails, other), Stored(Refresh(c, t, email, now).fails, other), now - c.window)
  {
    var p := PruneAll(c, t, now);
    PruneAllStored(c, t, now, email);
    PruneAllStored(c, t, now, other);
    PruneStored(c, p, email, now, email);
    PruneStored(c, p, email, now, other);
    WithinTwice(Stored(t.fails, email), now - c.window);
  }

  lemma AllowStored(c: Config, t: Tracker, email: string, now: Time, other: string)
    ensures Swept(Stored(t.fails, other), Stored(Allow(c, t, email, now).0.fails, other), now - c.window)
    ensures c.threshold > 0 ==>
      Allow(c, t, email, now).1 == (|Within(Stored(t.fails, email), now - c.window)| < c.threshold)
  {
    RefreshStored(c, t, email, now, other);
  }

  lemma RecordStored(c: Config, t: Tracker, email: string, now: Time, other: string)
    requires c.threshold > 0 && !Crowded(c, t, Fail(email, now))
    ensures
      var (t', count) := Record(c, t, email, now);
      && count == |Append(c, Within(Stored(t.fails, email), now - c.window), now)|
      && (email == other ==> Stored(t'.fails, other) == Append(c, Within(Stored(t.fails, email), now - c.window), now))
      && (email != other ==> Swept(Stored(t.fails, other), Stored(t'.fails, other), now - c.window))
  {
    RefreshStored(c, t, email, now, other);
  }

  lemma ResetStored(t: Tracker, email: string, other: string)
    ensures Stored(Reset(t, email).fails, other) == if email == other then [] else Stored(t.fails, other)
  {
  }

  lemma {:induction false} HistoryOrdered(events: seq<Event>, email: string)
    requires Monotone(events)
    ensures Ascending(History(events, email))
    ensures forall i :: 0 <= i < |History(events, email)| ==>
      events != [] && History(events, email)[i] <= events[|events| - 1].at
  {
    if events != [] {
      HistoryOrdered(events[..|events| - 1], email);
    }
  }

  lemma SweptFaithful(c: Config, before: seq<Time>, after: seq<Time>, history: seq<Time>, now: Time)
    requires Ascending(history) && Faithful(c, before, history, now) && Swept(before, after, now - c.window)
    ensures Faithful(c, after, history, now)
  {
    PruneFaithful(c, before, history, now);
  }

  lemma FailFaithful(c: Config, t: Tracker, failed: string, now: Time, email: string, history: seq<Time>)
    requires c.threshold > 0 && !Crowded(c, t, Fail(failed, now))
    requires Ascending(history) && Faithful(c, Stored(t.fails, email), history, now)
    ensures Faithful(c, Stored(Record(c, t, failed, now).0.fails, email), if failed == email then history + [now]
      else history, now)
  {
    var before, after := Stored(t.fails, email), Stored(Record(c, t, failed, now).0.fails, email);
    RecordStored(c, t, failed, now, email);
    if failed == email {
      PruneFaithful(c, before, history, now);
      AppendFaithful(c, Within(before, now - c.window), history, now);
    } else {
      SweptFaithful(c, before, after, history, now);
    }
  }

  lemma CheckFaithful(c: Config, t: Tracker, checked: string, now: Time, email: string, history: seq<Time>)
    requires Ascending(history) && Faithful(c, Stored(t.fails, email), history, now)
    ensures Faithful(c, Stored(Allow(c, t, checked, now).0.fails, email), history, now)
  {
    var before, after := Stored(t.fails, email), Stored(Allow(c, t, checked, now).0.fails, email);
    AllowStored(c, t, checked, now, email);
    SweptFaithful(c, before, after, history, now);
  }

  /** What one more event does to the history of an account. */
  function Extend(history: seq<Time>, e: Event, email: string): seq<Time>
  {
    if e.email != email || e.Check? then history
    else if e.Fail? then history + [e.at]
    else []
  }

  lemma StepFaithful(c: Config, t: Tracker, e: Event, email: string, history: seq<Time>)
    requires c.threshold > 0 && !Crowded(c, t, e)
    requires Ascending(history) && Faithful(c, Stored(t.fails, email), history, e.at)
    ensures Faithful(c, Stored(Next(c, t, e).fails, email), Extend(history, e, email), e.at)
  {
    match e
    case Fail(failed, at) => FailFaithful(c, t, failed, at, email, history);
    case Check(checked, at) => CheckFaithful(c, t, checked, at, email, history);
    case Success(reset, _) => ResetStored(t, reset, email);
  }

  lemma HistoryStep(events: seq<Event>, n: nat, email: string)
    requires Monotone(events) && n < |events|
    ensures History(events[..n + 1], email) == Extend(History(events[..n], email), events[n], email)
    ensures Ascending(History(events[..n], email))
  {
    assert events[..n + 1][..n] == events[..n];
    assert Monotone(events[..n]);
    HistoryOrdered(events[..n], email);
  }

  /** After every monotone run without capacity eviction, the table holds the newest failures of each
      account since its last success, missing only expired ones unless the cap is reached. */
  lemma {:induction false} RunFaithful(c: Config, events: seq<Event>, states: seq<Tracker>, n: nat, email: string,
                                       now: Time)
    requires c.threshold > 0 && Run(c, events, states) && Monotone(events) && NoEviction(c, events, states)
    requires n <= |events| && (n > 0 ==> events[n - 1].at <= now)
    ensures Faithful(c, Stored(states[n].fails, email), History(events[..n], email), now)
  {
    if n > 0 {
      var e := events[n - 1];
      RunFaithful(c, events, states, n - 1, email, e.at);
      HistoryStep(events, n - 1, email);
      StepFaithful(c, states[n - 1], e, email, History(events[..n - 1], email));
      LaterFaithful(c, Stored(states[n].fails, email), History(events[..n], email), e.at, now);
    }
  }

  /** Failures of the account still in the window. */
  function TrueCount(c: Config, events: seq<Event>, email: string, now: Time): nat
  {
    |Within(History(events, email), now - c.window)|
  }

  lemma AllowExact(c: Config, t: Tracker, email: string, now: Time, history: seq<Time>)
    requires c.threshold > 0 && Ascending(history) && Faithful(c, Stored(t.fails, email), history, now)
    ensures Allow(c, t, email, now).1 <==> |Within(history, now - c.window)| < c.threshold
  {
    AllowStored(c, t, email, now, email);
    PrunedCount(c, Stored(t.fails, email), history, now);
  }

  lemma RecordExact(c: Config, t: Tracker, email: string, now: Time, history: seq<Time>)
    requires c.threshold > 0 && !Crowded(c, t, Fail(email, now))
    requires Ascending(history) && Faithful(c, Stored(t.fails, email), history, now)
    ensures Record(c, t, email, now).1 == Min(|Within(history, now - c.window)| + 1, c.threshold + 6)
  {
    RecordStored(c, t, email, now, email);
    PrunedCount(c, Stored(t.fails, email), history, now);
  }

  lemma LastFaithful(c: Config, events: seq<Event>, states: seq<Tracker>, email: string, now: Time)
    requires c.threshold > 0 && Run(c, events, states) && Monotone(events) && NoEviction(c, events, states)
    requires Over(events, now)
    ensures Faithful(c, Stored(states[|events|].fails, email), History(events, email), now)
    ensures Ascending(History(events, email))
  {
    RunFaithful(c, events, states, |events|, email, now);
    assert events[..|events|] == events;
    HistoryOrdered(events, email);
  }

  /** After any run, a check decides as the full history does. */
  lemma AllowsLikeHistory(c: Config, events: seq<Event>, states: seq<Tracker>, email: string, now: Time)
    requires Run(c, events, states) && Monotone(events) && NoEviction(c, events, states)
    requires Over(events, now)
    ensures Allow(c, states[|events|], email, now).1 <==>
      c.threshold <= 0 || TrueCount(c, events, email, now) < c.threshold
  {
    if c.threshold > 0 {
      LastFaithful(c, events, states, email, now);
      AllowExact(c, states[|events|], email, now, History(events, email));
    }
  }

  /** The recorded count is the true one up to the cap, and the penalty cannot tell them apart. */
  lemma RecordsLikeHistory(c: Config, events: seq<Event>, states: seq<Tracker>, email: string, now: Time)
    requires Run(c, events, states) && Monotone(events) && NoEviction(c, events, states)
    requires Over(events, now)
    requires c.threshold > 0 && !Crowded(c, states[|events|], Fail(email, now))
    ensures
      var count := Record(c, states[|events|], email, now).1;
      var truth := TrueCount(c, events, email, now) + 1;
      count == Min(truth, c.threshold + 6) && RetryAfter(c, count) == RetryAfter(c, truth)
  {
    LastFaithful(c, events, states, email, now);
    RecordExact(c, states[|events|], email, now, History(events, email));
    RetryAfterSaturates(c, TrueCount(c, events, email, now) + 1);
  }

  /** Counts above threshold + 5 all carry the same penalty, which never falls as the count grows. */
  lemma RetryAfterSaturates(c: Config, count: int)
    ensures RetryAfter(c, Min(count, c.threshold + 6)) == RetryAfter(c, count)
    ensures 0 <= RetryAfter(c, count) <= 30 * SECOND
    ensures RetryAfter(c, count) == 0 <==> c.threshold <= 0 || count < c.threshold
    ensures RetryAfter(c, count) <= RetryAfter(c, count + 1)
  {
    assert PowerOfTwo(0) == 1 && PowerOfTwo(1) == 2 && PowerOfTwo(2) == 4;
    assert PowerOfTwo(3) == 8 && PowerOfTwo(4) == 16 && PowerOfTwo(5) == 32;
  }

  /* ---- the shape of the table ---- */

  predicate Valid(c: Config, t: Tracker)
  {
    && Lists(t.lru, t.fails.Keys)
    && |t.lru| <= CAPACITY
    && forall k <- t.fails :: 1 <= |t.fails[k]| <= StampCap(c)
  }

  lemma RemoveValid(c: Config, t: Tracker, gone: set<string>)
    requires Valid(c, t)
    ensures Valid(c, Remove(t, gone))
  {
    DropLists(t.lru, t.fails.Keys, gone);
    assert Remove(t, gone).fails.Keys == t.fails.Keys - gone;
  }

  lemma PruneValid(c: Config, t: Tracker, email: string, now: Time)
    requires Valid(c, t)
    ensures Valid(c, Prune(c, t, email, now))
  {
    RemoveValid(c, t, {email});
    if email in t.fails {
      assert t.fails[email := Within(t.fails[email], now - c.window)].Keys == t.fails.Keys;
    }
  }

  lemma PruneAllValid(c: Config, t: Tracker, now: Time)
    requires Valid(c, t)
    ensures Valid(c, PruneAll(c, t, now))
  {
    var gone := Expired(c, t.fails, t.fails.Keys, now);
    DropLists(t.lru, t.fails.Keys, gone);
    assert PruneSome(c, t, t.fails.Keys, now).fails.Keys == t.fails.Keys - gone;
  }

  lemma RefreshValid(c: Config, t: Tracker, email: string, now: Time)
    requires Valid(c, t)
    ensures Valid(c, Refresh(c, t, email, now))
  {
    PruneAllValid(c, t, now);
    PruneValid(c, PruneAll(c, t, now), email, now);
  }

  lemma TouchValid(c: Config, t: Tracker, email: string, stamps: seq<Time>)
    requires Valid(c, t) && 1 <= |stamps| <= StampCap(c) && (email in t.fails || |t.lru| < CAPACITY)
    ensures Valid(c, t.(fails := t.fails[email := stamps], lru := ToFront(t.lru, email)))
  {
    var keys := t.fails.Keys;
    assert t.fails[email := stamps].Keys == keys + {email};
    ToFrontLists(t.lru, keys, email);
    ListLength(t.lru, keys);
    ListLength(ToFront(t.lru, email), keys + {email});
    if email in keys { assert keys + {email} == keys; }
  }

  lemma MakeRoomValid(c: Config, t: Tracker)
    requires Valid(c, t)
    ensures Valid(c, MakeRoom(t)) && |MakeRoom(t).lru| < CAPACITY
  {
    ListLength(t.lru, t.fails.Keys);
    if t.lru != [] {
      RemoveValid(c, t, {t.lru[|t.lru| - 1]});
      DropLast(t.lru);
    }
  }

  lemma FrontValid(c: Config, t: Tracker, email: string)
    requires Valid(c, t) && email in t.fails
    ensures Valid(c, t.(lru := ToFront(t.lru, email)))
  {
    ToFrontLists(t.lru, t.fails.Keys, email);
    assert t.fails.Keys + {email} == t.fails.Keys;
    ListLength(t.lru, t.fails.Keys);
    ListLength(ToFront(t.lru, email), t.fails.Keys);
  }

  lemma AllowValid(c: Config, t: Tracker, email: string, now: Time)
    requires Valid(c, t)
    ensures Valid(c, Allow(c, t, email, now).0)
  {
    RefreshValid(c, t, email, now);
    if email in Refresh(c, t, email, now).fails { FrontValid(c, Refresh(c, t, email, now), email); }
  }

  lemma AppendLength(c: Config, stamps: seq<Time>, now: Time)
    requires |stamps| <= StampCap(c)
    ensures 1 <= |Append(c, stamps, now)| <= StampCap(c)
  {
  }

  lemma OpenValid(c: Config, t: Tracker, email: string, stamps: seq<Time>)
    requires Valid(c, t) && 1 <= |stamps| <= StampCap(c)
    ensures Valid(c, Open(t, email).(fails := Open(t, email).fails[email := stamps]))
  {
    MakeRoomValid(c, t);
    var room := if email in t.fails then t else MakeRoom(t);
    TouchValid(c, room, email, stamps);
    assert Open(t, email).fails[email := stamps] == room.fails[email := stamps];
  }

  lemma RecordValid(c: Config, t: Tracker, email: string, now: Time)
    requires Valid(c, t)
    ensures Valid(c, Record(c, t, email, now).0)
  {
    if c.threshold > 0 {
      var p := Refresh(c, t, email, now);
      RefreshValid(c, t, email, now);
      var stored := Open(p, email).fails[email];
      assert stored == [] || (email in p.fails && stored == p.fails[email]);
      AppendLength(c, stored, now);
      OpenValid(c, p, email, Append(c, stored, now));
    }
  }

  lemma NextValid(c: Config, t: Tracker, e: Event)
    requires Valid(c, t)
    ensures Valid(c, Next(c, t, e))
  {
    match e
    case Fail(email, at) => RecordValid(c, t, email, at);
    case Check(email, at) => AllowValid(c, t, email, at);
    case Success(email, _) => RemoveValid(c, t, {email});
  }

  /** On every run, whatever the clock does: map and list agree, at most 10,000 accounts are kept,
      and each holds between one stamp and the cap. */
  lemma {:induction false} EveryTrackerIsValid(c: Config, events: seq<Event>, states: seq<Tracker>, n: nat)
    requires Run(c, events, states) && n <= |events|
    ensures Valid(c, states[n])
    ensures |states[n].lru| <= 10_000
  {
    if n > 0 {
      EveryTrackerIsValid(c, events, states, n - 1);
      NextValid(c, states[n - 1], events[n - 1]);
    }
  }

  /* ---- the table updated in place ---- */

  /** Filtering into the same backing array: the write position never overtakes the read position. */
  method KeepWithin(stamps: array<Time>, len: nat, cutoff: Time) returns (kept: nat)
    requires len <= stamps.Length
    modifies stamps
    ensures kept <= len && stamps[..kept] == Within(old(stamps[..len]), cutoff)
    ensures stamps[len..] == old(stamps[len..])
  {
    kept := 0;
    for i := 0 to len
      invariant kept <= i
      invariant stamps[..kept] == Within(old(stamps[..i]), cutoff)
      invariant stamps[i..] == old(stamps[i..])
    {
      assert old(stamps[..i + 1])[..i] == old(stamps[..i]);
      assert stamps[i] == stamps[i..][0] == old(stamps[i]);
      assert stamps[i + 1..] == stamps[i..][1..];
      if stamps[i] > cutoff {
        stamps[kept] := stamps[i];
        kept := kept + 1;
      }
    }
  }

  /** From the threshold on the wait is 1, 2, 4, 8, 16 and then 30 seconds; below it there is none. */
  lemma WaitsInSeconds(c: Config, count: int)
    ensures c.threshold <= 0 || count < c.threshold ==> RetryAfter(c, count) == 0
    ensures c.threshold > 0 && count == c.threshold ==> RetryAfter(c, count) == 1_000_000_000
    ensures c.threshold > 0 && count == c.threshold + 1 ==> RetryAfter(c, count) == 2_000_000_000
    ensures c.threshold > 0 && count == c.threshold + 2 ==> RetryAfter(c, count) == 4_000_000_000
    ensures c.threshold > 0 && count == c.threshold + 3 ==> RetryAfter(c, count) == 8_000_000_000
    ensures c.threshold > 0 && count == c.threshold + 4 ==> RetryAfter(c, count) == 16_000_000_000
    ensures c.threshold > 0 && count >= c.threshold + 5 ==> RetryAfter(c, count) == 30_000_000_000
  {
    assert PowerOfTwo(1) == 2 && PowerOfTwo(2) == 4 && PowerOfTwo(3) == 8 && PowerOfTwo(4) == 16 && PowerOfTwo(5) == 32;
  }

  /* ---- nothing is kept for long ---- */

  predicate AllAfter(stamps: seq<Time>, cutoff: Time)
  {
    forall i :: 0 <= i < |stamps| ==> stamps[i] > cutoff
  }

  /** A sweep was made less than a minute ago, and every stored stamp was in the window then. */
  predicate JustSwept(c: Config, t: Tracker, now: Time)
  {
    && t.lastPrune.Some? && t.lastPrune.value <= now < t.lastPrune.value + 60_000_000_000
    && forall k <- t.fails :: AllAfter(t.fails[k], t.lastPrune.value - c.window)
  }

  /** Every stored stamp was in the window at the last sweep. */
  predicate SweptOnce(c: Config, t: Tracker)
  {
    t.lastPrune.Some? ==> forall k <- t.fails :: AllAfter(t.fails[k], t.lastPrune.value - c.window)
  }

  lemma {:induction false} WithinAfter(stamps: seq<Time>, cutoff: Time, earlier: Time)
    ensures AllAfter(Within(stamps, cutoff), cutoff)
    ensures AllAfter(stamps, earlier) ==> AllAfter(Within(stamps, cutoff), earlier)
  {
    if stamps != [] { WithinAfter(stamps[..|stamps| - 1], cutoff, earlier); }
  }

  lemma PruneAllSweeps(c: Config, t: Tracker, now: Time)
    requires SweptOnce(c, t) && (t.lastPrune.Some? ==> t.lastPrune.value <= now)
    ensures JustSwept(c, PruneAll(c, t, now), now)
  {
    forall k <- t.fails ensures AllAfter(Within(t.fails[k], now - c.window), now - c.window) {
      WithinAfter(t.fails[k], now - c.window, 0);
    }
  }

  lemma PruneSwept(c: Config, t: Tracker, email: string, now: Time)
    requires JustSwept(c, t, now)
    ensures JustSwept(c, Prune(c, t, email, now), now)
  {
    if email in t.fails { WithinAfter(t.fails[email], now - c.window, t.lastPrune.value - c.window); }
  }

  lemma OpenSwept(c: Config, t: Tracker, email: string, now: Time)
    requires JustSwept(c, t, now)
    ensures JustSwept(c, Open(t, email), now)
  {
  }

  lemma AppendSwept(c: Config, t: Tracker, email: string, now: Time)
    requires JustSwept(c, t, now) && email in t.fails && c.window > 0
    ensures JustSwept(c, t.(fails := t.fails[email := Append(c, t.fails[email], now)]), now)
  {
    assert AllAfter(t.fails[email], t.lastPrune.value - c.window);
    assert AllAfter(Append(c, t.fails[email], now), t.lastPrune.value - c.window);
  }

  lemma NextSwept(c: Config, t: Tracker, e: Event)
    requires c.threshold > 0 && c.window > 0 && SweptOnce(c, t) && (t.lastPrune.Some? ==> t.lastPrune.value <= e.at)
    ensures SweptOnce(c, Next(c, t, e))
    ensures Next(c, t, e).lastPrune.Some? ==> Next(c, t, e).lastPrune.value <= e.at
    ensures !e.Success? ==> JustSwept(c, Next(c, t, e), e.at)
  {
    if !e.Success? {
      PruneAllSweeps(c, t, e.at);
      PruneSwept(c, PruneAll(c, t, e.at), e.email, e.at);
      var p := Refresh(c, t, e.email, e.at);
      if e.Fail? {
        OpenSwept(c, p, e.email, e.at);
        AppendSwept(c, Open(p, e.email), e.email, e.at);
      }
    }
  }

  lemma {:induction false} RunSwept(c: Config, events: seq<Event>, states: seq<Tracker>, n: nat)
    requires c.threshold > 0 && c.window > 0 && Monotone(events) && Run(c, events, states) && n <= |events|
    ensures SweptOnce(c, states[n])
    ensures states[n].lastPrune.Some? ==> n > 0 && states[n].lastPrune.value <= events[n - 1].at
  {
    if n > 0 {
      RunSwept(c, events, states, n - 1);
      assert states[n] == Next(c, states[n - 1], events[n - 1]);
      NextSwept(c, states[n - 1], events[n - 1]);
    }
  }

  /** On every run with a monotone clock: after a check or a recorded failure, every stamp still stored, of
      any account, is younger than the window and one minute. */
  lemma NothingKeptForLong(c: Config, events: seq<Event>, states: seq<Tracker>, n: nat, email: string, i: nat)
    requires c.threshold > 0 && c.window > 0 && Monotone(events) && Run(c, events, states) && n < |events|
    requires !events[n].Success? && email in states[n + 1].fails && i < |states[n + 1].fails[email]|
    ensures states[n + 1].fails[email][i] > events[n].at - c.window - 60_000_000_000
  {
    RunSwept(c, events, states, n);
    assert states[n + 1] == Next(c, states[n], events[n]);
    NextSwept(c, states[n], events[n]);
  }

  lemma PruneNone(c: Config, t: Tracker, now: Time)
    ensures PruneSome(c, t, t.fails.Keys - t.fails.Keys, now) == t
  {
    assert Expired(c, t.fails, t.fails.Keys - t.fails.Keys, now) == {};
    DropEmpty(t.lru);
  }

  lemma PruneOneMore(c: Config, t: Tracker, emails: set<string>, email: string, now: Time)
    requires email in t.fails && email !in emails
    ensures Prune(c, PruneSome(c, t, emails, now), email, now) == PruneSome(c, t, emails + {email}, now)
  {
    var gone := Expired(c, t.fails, emails, now);
    var more := Expired(c, t.fails, emails + {email}, now);
    var t', t'' := PruneSome(c, t, emails, now), PruneSome(c, t, emails + {email}, now);
    assert t'.fails[email] == t.fails[email];
    if Within(t.fails[email], now - c.window) == [] {
      assert more == gone + {email};
      DropTwice(t.lru, gone, {email});
      assert Remove(t', {email}).fails == t''.fails;
    } else {
      assert more == gone;
    }
  }

  class LoginFailureTracker {
    const config: Config
    var fails: map<string, seq<Time>>
    var lru: seq<string>
    var lastPrune: Option<Time>

    constructor (threshold: int, window: int)
      ensures config == Config(threshold, window) && Contents() == EMPTY
    {
      config := Config(threshold, window);
      fails, lru, lastPrune := map[], [], None;
    }

    function Contents(): Tracker
      reads this
    {
      Tracker(fails, lru, lastPrune)
    }

    method RemoveBucket(email: string)
      modifies this`fails, this`lru
      ensures Contents() == Reset(old(Contents()), email)
    {
      if email in fails {
        lru := Drop(lru, {email});
        fails := map k <- fails | k !in {email} :: fails[k];
      }
    }

    method PruneOne(email: string, now: Time)
      modifies this`fails, this`lru
      ensures Contents() == Prune(config, old(Contents()), email, now)
    {
      if email !in fails { return; }
      var stamps := fails[email];
      var backing := new Time[|stamps|](i requires 0 <= i < |stamps| => stamps[i]);
      assert backing[..] == stamps && backing[..|stamps|] == stamps;
      var n := KeepWithin(backing, |stamps|, now - config.window);
      var kept := backing[..n];
      if kept == [] {
        RemoveBucket(email);
      } else {
        fails := fails[email := kept];
      }
    }

    method AllowLocal(email: string, now: Time) returns (ok: bool)
      requires config.threshold > 0
      modifies this
      ensures (Contents(), ok) == Allow(config, old(Contents()), email, now)
    {
      PruneAllBuckets(now);
      PruneOne(email, now);
      if email !in fails { return true; }
      lru := ToFront(lru, email);
      ok := |fails[email]| < config.threshold;
    }

    /** The account's bucket, new if there was none, moved to the front. */
    method OpenBucket(email: string)
      modifies this`fails, this`lru
      ensures Contents() == Open(old(Contents()), email)
    {
      if email !in fails {
        if |fails| >= CAPACITY && lru != [] {
          RemoveBucket(lru[|lru| - 1]);
        }
        fails := fails[email := []];
        lru := ToFront(lru, email);
      } else {
        lru := ToFront(lru, email);
      }
    }

    method PushStamp(email: string, now: Time) returns (count: int)
      requires email in fails
      modifies this`fails
      ensures fails == old(fails)[email := Append(config, old(fails)[email], now)] && count == |fails[email]|
    {
      var stamps, cap := fails[email], config.threshold + 6;
      if cap < 1 {
        cap := 1;
      }
      if |stamps| >= cap {
        stamps := stamps[|stamps| - cap + 1..];
      }
      stamps := stamps + [now];
      fails := fails[email := stamps];
      count := |stamps|;
    }

    method RecordLocal(email: string, now: Time) returns (count: int)
      requires config.threshold > 0
      modifies this
      ensures (Contents(), count) == Record(config, old(Contents()), email, now)
    {
      PruneAllBuckets(now);
      PruneOne(email, now);
      OpenBucket(email);
      count := PushStamp(email, now);
    }

    method PruneAllBuckets(now: Time)
      modifies this
      ensures Contents() == PruneAll(config, old(Contents()), now)
    {
      if lastPrune.Some? && now - lastPrune.value < MINUTE { return; }
      var todo := fails.Keys;
      PruneNone(config, Contents(), now);
      while todo != {}
        invariant todo <= old(fails).Keys
        invariant Contents() == PruneSome(config, old(Contents()), old(fails).Keys - todo, now)
        decreases |todo|
      {
        var email :| email in todo;
        PruneOneMore(config, old(Contents()), old(fails).Keys - todo, email, now);
        PruneOne(email, now);
        assert old(fails).Keys - todo + {email} == old(fails).Keys - (todo - {email});
        todo := todo - {email};
      }
      assert old(fails).Keys - todo == old(fails).Keys;
      lastPrune := Some(now);
    }
  }
}
