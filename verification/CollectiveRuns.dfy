/** Weight versions applied to learners over whole runs, by programs of any policies. */
module CollectiveRuns {
  import opened Options
  import opened Collective

  /** One application: the learner, the policy of the program that made it, and when it ran. */
  datatype Entry = Entry(learner: string, policy: string, step: nat, application: Application)

  /** One tenant's concept: its versions, its learners, the applications made and the steps taken. */
  datatype Sys = Sys(rows: seq<Weight>, accounts: map<string, Account>, log: seq<Entry>, steps: nat)

  datatype Action =
    | Recompute(median: Params, contributors: nat)
    | Use(learner: string)
    | Reviewed(learner: string)
    | Adjusted(learner: string, params: Params)

  /** An action of a program built with that policy. */
  datatype Event = Event(policy: string, action: Action)

  function Perform(s: Sys, policy: string, action: Action): Sys
  {
    match action
    case Recompute(median, contributors) => s.(rows := Publish(s.rows, policy, median, contributors))
    case Use(l) =>
      if l !in s.accounts then s
      else
        var (account, application) := Apply(s.rows, policy, s.accounts[l]);
        s.(accounts := s.accounts[l := account],
           log := if application.Some? then s.log + [Entry(l, policy, s.steps, application.value)] else s.log)
    case Reviewed(l) =>
      if l !in s.accounts then s else s.(accounts := s.accounts[l := s.accounts[l].(reps := s.accounts[l].reps + 1)])
    case Adjusted(l, params) =>
      if l !in s.accounts then s else s.(accounts := s.accounts[l := s.accounts[l].(params := params)])
  }

  function Next(s: Sys, e: Event): Sys
  {
    Perform(s, e.policy, e.action).(steps := s.steps + 1)
  }

  function RunAll(s: Sys, events: seq<Event>): Sys
  {
    if events == [] then s else Next(RunAll(s, events[..|events| - 1]), events[|events| - 1])
  }

  /** Any stored rows and applications, before the run's own log begins. */
  predicate Start(s: Sys)
  {
    Numbered(s.rows) && s.log == [] && s.steps == 0
  }

  /* ---- the trail of one learner ---- */

  /** Position of the learner's latest entry, -1 if there is none. */
  function LastOf(log: seq<Entry>, l: string): (r: int)
    ensures -1 <= r < |log|
    ensures r >= 0 ==> log[r].learner == l
    ensures forall i :: r < i < |log| ==> log[i].learner != l
  {
    if log == [] then -1
    else if log[|log| - 1].learner == l then |log| - 1
    else LastOf(log[..|log| - 1], l)
  }

  predicate SameTrail(a: Entry, b: Entry)
  {
    a.learner == b.learner && a.policy == b.policy
  }

  /** Between the two entries the learner took a version of another policy. */
  predicate Left(log: seq<Entry>, i: int, j: int)
    requires 0 <= i < j <= |log|
  {
    exists k :: i < k < j && log[k].learner == log[i].learner && log[k].policy != log[i].policy
  }

  /** Under one policy the versions a learner takes rise, and one comes back only after the learner
      took a version of another policy. */
  predicate Trail(log: seq<Entry>)
  {
    forall i, j :: 0 <= i < j < |log| && SameTrail(log[i], log[j]) ==>
      || log[i].application.version < log[j].application.version
      || (log[i].application.version == log[j].application.version && Left(log, i, j))
  }

  /** Every entry names a row of its own policy. */
  predicate Named(rows: seq<Weight>, log: seq<Entry>)
  {
    forall i :: 0 <= i < |log| ==> NamedRow(rows, log[i])
  }

  predicate NamedRow(rows: seq<Weight>, e: Entry)
  {
    1 <= e.application.version <= |rows| && rows[e.application.version - 1].policy == e.policy
  }

  /** The stored applied version is the learner's latest entry. */
  ghost predicate Recorded(accounts: map<string, Account>, log: seq<Entry>)
  {
    forall l :: LastOf(log, l) >= 0 ==> RecordedFor(accounts, log, l)
  }

  predicate RecordedFor(accounts: map<string, Account>, log: seq<Entry>, l: string)
    requires LastOf(log, l) >= 0
  {
    l in accounts && accounts[l].applied == Some(log[LastOf(log, l)].application.version)
  }

  predicate Timed(log: seq<Entry>, steps: nat)
  {
    && (forall i :: 0 <= i < |log| ==> log[i].step < steps)
    && (forall i, j :: 0 <= i < j < |log| ==> log[i].step < log[j].step)
  }

  ghost predicate Inv(s: Sys)
  {
    Numbered(s.rows) && Trail(s.log) && Named(s.rows, s.log) && Recorded(s.accounts, s.log) && Timed(s.log, s.steps)
  }

  /** When a use applies a version, in terms of what was applied last. */
  lemma AppliesIff(rows: seq<Weight>, policy: string, a: Account)
    requires Numbered(rows) && (a.applied.Some? ==> 1 <= a.applied.value <= |rows|)
    ensures
      var w, application := CurrentWeight(rows, policy), Apply(rows, policy, a).1;
      && (application.Some? <==>
            w.Some?
              && !(a.applied.Some? && rows[a.applied.value - 1].policy == policy && a.applied.value == w.value.version))
      && (application.Some? ==> application.value.version == w.value.version)
      && (w.Some? && a.applied.Some? && rows[a.applied.value - 1].policy == policy ==>
        a.applied.value <= w.value.version)
  {
    CurrentIsLast(rows, policy);
    if a.applied.Some? { PolicyOfRow(rows, a.applied.value); }
  }

  lemma EntryAtMostCurrent(rows: seq<Weight>, e: Entry)
    requires Numbered(rows) && NamedRow(rows, e)
    ensures
      var w := CurrentWeight(rows, e.policy);
      w.Some? && e.application.version <= w.value.version
        && NamedRow(rows, e.(application := e.application.(version := w.value.version)))
  {
    CurrentIsLast(rows, e.policy);
  }

  lemma LastOfAppend(log: seq<Entry>, e: Entry, l: string)
    ensures LastOf(log + [e], l) == if e.learner == l then |log| else LastOf(log, l)
  {
    assert (log + [e])[..|log|] == log;
  }

  lemma LeftKept(log: seq<Entry>, e: Entry, i: int, j: int)
    requires 0 <= i < j <= |log|
    ensures Left(log, i, j) ==> Left(log + [e], i, j)
  {
    if Left(log, i, j) {
      var k :| i < k < j && log[k].learner == log[i].learner && log[k].policy != log[i].policy;
      assert (log + [e])[k] == log[k];
    }
  }

  /** An entry may follow when each earlier one of its trail is lower, or equal with a departure. */
  lemma TrailAppend(log: seq<Entry>, e: Entry)
    requires Trail(log)
    requires forall i :: 0 <= i < |log| && SameTrail(log[i], e) ==>
      || log[i].application.version < e.application.version
      || (log[i].application.version == e.application.version && Left(log, i, |log|))
    ensures Trail(log + [e])
  {
    var log' := log + [e];
    forall i, j | 0 <= i < j < |log'| && SameTrail(log'[i], log'[j])
      && !(log'[i].application.version < log'[j].application.version)
      ensures log'[i].application.version == log'[j].application.version && Left(log', i, j)
    {
      assert log'[i] == log[i];
      LeftKept(log, e, i, j);
    }
  }

  /** What the trail and the stored version say of an earlier entry with the current version. */
  lemma CurrentAgain(s: Sys, policy: string, l: string, i: int)
    requires Inv(s) && l in s.accounts && Apply(s.rows, policy, s.accounts[l]).1.Some?
    requires 0 <= i < |s.log| && s.log[i].learner == l && s.log[i].policy == policy
    ensures
      var v := Apply(s.rows, policy, s.accounts[l]).1.value.version;
      s.log[i].application.version < v
        || (s.log[i].application.version == v && s.log[LastOf(s.log, l)].policy != policy)
  {
    var m := LastOf(s.log, l);
    assert RecordedFor(s.accounts, s.log, l) && NamedRow(s.rows, s.log[m]) && NamedRow(s.rows, s.log[i]);
    AppliesIff(s.rows, policy, s.accounts[l]);
    EntryAtMostCurrent(s.rows, s.log[i]);
    assert i < m && s.log[m].policy == policy ==> SameTrail(s.log[i], s.log[m]);
  }

  lemma UseTrail(s: Sys, policy: string, l: string)
    requires Inv(s) && l in s.accounts && Apply(s.rows, policy, s.accounts[l]).1.Some?
    ensures Trail(s.log + [Entry(l, policy, s.steps, Apply(s.rows, policy, s.accounts[l]).1.value)])
  {
    var e := Entry(l, policy, s.steps, Apply(s.rows, policy, s.accounts[l]).1.value);
    forall i | 0 <= i < |s.log| && SameTrail(s.log[i], e)
      ensures
        || s.log[i].application.version < e.application.version
        || (s.log[i].application.version == e.application.version && Left(s.log, i, |s.log|))
    {
      CurrentAgain(s, policy, l, i);
    }
    TrailAppend(s.log, e);
  }

  lemma LoggedRecords(accounts: map<string, Account>, log: seq<Entry>, e: Entry, a: Account)
    requires Recorded(accounts, log) && a.applied == Some(e.application.version)
    ensures Recorded(accounts[e.learner := a], log + [e])
  {
    forall k | LastOf(log + [e], k) >= 0 ensures RecordedFor(accounts[e.learner := a], log + [e], k) {
      LastOfAppend(log, e, k);
      if k != e.learner { assert RecordedFor(accounts, log, k); }
    }
  }

  lemma UseKeeps(s: Sys, policy: string, l: string)
    requires Inv(s) && l in s.accounts
    ensures Inv(Next(s, Event(policy, Use(l))))
  {
    var s' := Next(s, Event(policy, Use(l)));
    var application := Apply(s.rows, policy, s.accounts[l]).1;
    if application.Some? {
      var e := Entry(l, policy, s.steps, application.value);
      UseTrail(s, policy, l);
      assert NamedRow(s.rows, e) by { CurrentIsLast(s.rows, policy); }
      LoggedRecords(s.accounts, s.log, e, s'.accounts[l]);
    } else {
      KeptRecords(s, s');
    }
  }

  /** A step that logs nothing and changes no applied version keeps the records. */
  lemma KeptRecords(s: Sys, s': Sys)
    requires Inv(s) && s'.log == s.log && s'.steps == s.steps + 1 && s.rows <= s'.rows && Numbered(s'.rows)
    requires forall l <- s.accounts :: l in s'.accounts && s'.accounts[l].applied == s.accounts[l].applied
    ensures Inv(s')
  {
    forall l | LastOf(s'.log, l) >= 0 ensures RecordedFor(s'.accounts, s'.log, l) {
      assert RecordedFor(s.accounts, s.log, l);
    }
    forall i | 0 <= i < |s'.log| ensures NamedRow(s'.rows, s'.log[i]) {
      assert NamedRow(s.rows, s.log[i]);
    }
  }

  lemma NextKeeps(s: Sys, e: Event)
    requires Inv(s)
    ensures Inv(Next(s, e))
  {
    if e.action.Use? && e.action.learner in s.accounts {
      UseKeeps(s, e.policy, e.action.learner);
    } else {
      if e.action.Recompute? { PublishNumbers(s.rows, e.policy, e.action.median, e.action.contributors); }
      KeptRecords(s, Next(s, e));
    }
  }

  lemma {:induction false} RunKeeps(s: Sys, events: seq<Event>)
    requires Start(s)
    ensures Inv(RunAll(s, events)) && RunAll(s, events).steps == |events|
  {
    if events != [] {
      RunKeeps(s, events[..|events| - 1]);
      NextKeeps(RunAll(s, events[..|events| - 1]), events[|events| - 1]);
    }
  }

  /* ---- how often a version moves a learner ---- */

  /** On every run, under whatever policies: of two applications to a learner under one policy the
      later has the higher version, or the same one after the learner took another policy's. */
  lemma VersionsRiseUnderPolicy(s: Sys, events: seq<Event>)
    requires Start(s)
    ensures Trail(RunAll(s, events).log)
  {
    RunKeeps(s, events);
  }

  predicate Took(log: seq<Entry>, l: string, version: int)
  {
    exists i :: 0 <= i < |log| && log[i].learner == l && log[i].application.version == version
  }

  /** On every run: a use applies a version the learner already took exactly when that version is
      still the current one of the policy and the learner's latest version is of another policy. */
  lemma ReappliedIff(start: Sys, events: seq<Event>, policy: string, l: string)
    requires Start(start) && l in RunAll(start, events).accounts
    ensures
      var s := RunAll(start, events);
      var w, application := CurrentWeight(s.rows, policy), Apply(s.rows, policy, s.accounts[l]).1;
      application.Some? && Took(s.log, l, application.value.version) <==>
        w.Some? && Took(s.log, l, w.value.version) && s.log[LastOf(s.log, l)].policy != policy
  {
    RunKeeps(start, events);
    var s := RunAll(start, events);
    var w, application := CurrentWeight(s.rows, policy), Apply(s.rows, policy, s.accounts[l]).1;
    if w.Some? && Took(s.log, l, w.value.version) {
      TookIsCurrent(s, policy, l);
    }
    if application.Some? {
      CurrentIsLast(s.rows, policy);
    }
  }

  /** A learner who took the current version and whose latest version is of that policy holds it. */
  lemma HoldsCurrent(s: Sys, w: Weight, l: string, i: int, m: int)
    requires Trail(s.log) && Named(s.rows, s.log) && Numbered(s.rows) && CurrentWeight(s.rows, w.policy) == Some(w)
    requires 0 <= i <= m < |s.log| && s.log[i].learner == s.log[m].learner == l
    requires s.log[i].application.version == w.version
    ensures s.log[i].policy == w.policy
    ensures s.log[m].policy == w.policy ==> s.log[m].application.version == w.version
  {
    CurrentIsLast(s.rows, w.policy);
    assert NamedRow(s.rows, s.log[i]) && NamedRow(s.rows, s.log[m]);
    EntryAtMostCurrent(s.rows, s.log[m]);
    assert i < m && s.log[m].policy == w.policy ==> SameTrail(s.log[i], s.log[m]);
  }

  lemma AppliedLatest(s: Sys, l: string)
    requires Inv(s) && LastOf(s.log, l) >= 0
    ensures RecordedFor(s.accounts, s.log, l) && NamedRow(s.rows, s.log[LastOf(s.log, l)])
  {
  }

  lemma TookIsCurrent(s: Sys, policy: string, l: string)
    requires Inv(s) && l in s.accounts
    requires CurrentWeight(s.rows, policy).Some? && Took(s.log, l, CurrentWeight(s.rows, policy).value.version)
    ensures
      var application := Apply(s.rows, policy, s.accounts[l]).1;
      && (application.Some? <==> s.log[LastOf(s.log, l)].policy != policy)
      && (application.Some? ==> application.value.version == CurrentWeight(s.rows, policy).value.version)
  {
    var w := CurrentWeight(s.rows, policy).value;
    var i :| 0 <= i < |s.log| && s.log[i].learner == l && s.log[i].application.version == w.version;
    var m := LastOf(s.log, l);
    AppliedLatest(s, l);
    assert w.policy == policy by { CurrentIsLast(s.rows, policy); }
    assert s.log[m].policy == policy ==> s.log[m].application.version == w.version by { HoldsCurrent(s, w, l, i, m); }
    AppliesIff(s.rows, policy, s.accounts[l]);
  }

  predicate OncePerVersion(log: seq<Entry>)
  {
    forall i, j :: 0 <= i < j < |log| && log[i].learner == log[j].learner ==>
      log[i].application.version != log[j].application.version
  }

  /** No policy is returned to once another one was in use. */
  predicate NeverReturns(events: seq<Event>)
  {
    forall i, k, j :: 0 <= i < k < j < |events| && events[i].policy == events[j].policy ==>
      events[k].policy == events[i].policy
  }

  predicate Stamped(log: seq<Entry>, events: seq<Event>)
  {
    forall i :: 0 <= i < |log| ==> log[i].step < |events| && log[i].policy == events[log[i].step].policy
  }

  lemma {:induction false} RunStamped(s: Sys, events: seq<Event>)
    requires Start(s)
    ensures Stamped(RunAll(s, events).log, events)
  {
    if events != [] {
      var init := events[..|events| - 1];
      RunStamped(s, init);
      RunKeeps(s, init);
      var before, log := RunAll(s, init).log, RunAll(s, events).log;
      forall i | 0 <= i < |log| ensures log[i].step < |events| && log[i].policy == events[log[i].step].policy {
        if i < |before| { assert log[i] == before[i] && init[before[i].step] == events[before[i].step]; }
      }
    }
  }

  /** While no policy is returned to, and so under a single one, every version moves a learner at
      most once. */
  lemma EachVersionMovesOnce(s: Sys, events: seq<Event>)
    requires Start(s) && NeverReturns(events)
    ensures OncePerVersion(RunAll(s, events).log)
  {
    RunKeeps(s, events);
    RunStamped(s, events);
    var end := RunAll(s, events);
    forall i, j | 0 <= i < j < |end.log| && end.log[i].learner == end.log[j].learner
      ensures end.log[i].application.version != end.log[j].application.version
    {
      NotTwice(end, events, i, j);
    }
  }

  lemma NotTwice(s: Sys, events: seq<Event>, i: int, j: int)
    requires Inv(s) && Stamped(s.log, events) && NeverReturns(events)
    requires 0 <= i < j < |s.log| && s.log[i].learner == s.log[j].learner
    ensures s.log[i].application.version != s.log[j].application.version
  {
    assert NamedRow(s.rows, s.log[i]) && NamedRow(s.rows, s.log[j]);
    if s.log[i].policy == s.log[j].policy {
      assert SameTrail(s.log[i], s.log[j]);
      assert !Left(s.log, i, j) by {
        forall k | i < k < j ensures s.log[k].policy == s.log[i].policy {
          assert events[s.log[k].step].policy == events[s.log[i].step].policy;
        }
      }
    }
  }

  /** Returning to a policy whose version is still current applies that version a second time. */
  lemma ReturningPolicyReapplies(a: Account, params: Params)
    requires a.applied == None
    ensures
      var rows := [Weight(1, params, "v1"), Weight(2, params, "v2")];
      var (a1, first) := Apply(rows[..1], "v1", a);
      var (a2, second) := Apply(rows, "v2", a1);
      var (a3, third) := Apply(rows, "v1", a2);
      first.Some? && second.Some? && third.Some? && first.value.version == third.value.version == 1
  {
    var rows := [Weight(1, params, "v1"), Weight(2, params, "v2")];
    assert "v1"[1] != "v2"[1];
    assert rows[..1] == [Weight(1, params, "v1")] && rows[..1][..0] == [];
    assert CurrentWeight(rows[..1][..0], "v1") == None;
    assert CurrentWeight(rows[..1], "v1") == Some(rows[0]);
    assert CurrentWeight(rows, "v1") == Some(rows[0]);
    assert CurrentWeight(rows[..1], "v2") == None;
    assert CurrentWeight(rows, "v2") == Some(rows[1]);
    assert PolicyOf(rows, 2) == "v2";
    assert PolicyOf(rows, 1) == PolicyOf(rows[..1], 1) == "v1";
  }
}
