/** Collective weights: a bounded-step publisher of parameter versions for one concept of one
    tenant, and their application to learners, over exact reals. */
module Collective {
  import opened Options

  datatype Params = Params(learn: real, forget: real, slip: real, guess: real)

  const MIN_CHANGE: real := 0.01
  const MAX_STEP: real := 0.02
  const BLEND_FACTOR: real := 0.25
  const BLEND_MAX_STEP: real := 0.05
  const PARAM_MIN: real := 0.01
  const PARAM_MAX: real := 0.5
  const MIN_CONTRIBUTORS: int := 30
  const REFERENCE := Params(0.15, 0.05, 0.1, 0.2)

  function Min(a: real, b: real): real { if a <= b then a else b }

  function Max(a: real, b: real): real { if a <= b then b else a }

  function Distance(a: real, b: real): real { if a <= b then b - a else a - b }

  function ClampParam(v: real): real
  {
    Min(PARAM_MAX, Max(PARAM_MIN, v))
  }

  function StepToward(from: real, to: real, maxStep: real): real
  {
    from + Max(-maxStep, Min(maxStep, to - from))
  }

  function ClampAll(p: Params): Params
  {
    Params(ClampParam(p.learn), ClampParam(p.forget), ClampParam(p.slip), ClampParam(p.guess))
  }

  function Step(from: real, to: real): real { ClampParam(StepToward(from, to, MAX_STEP)) }

  /** The next version's parameters, or None inside the hysteresis band. */
  function NextParams(median: Params, current: Option<Params>): Option<Params>
  {
    var t := ClampAll(median);
    if current == None then Some(t)
    else
      var c := current.value;
      var moved :=
        || Distance(t.learn, c.learn) >= MIN_CHANGE || Distance(t.forget, c.forget) >= MIN_CHANGE
        || Distance(t.slip, c.slip) >= MIN_CHANGE || Distance(t.guess, c.guess) >= MIN_CHANGE;
      if !moved then None
      else Some(Params(Step(c.learn, t.learn), Step(c.forget, t.forget), Step(c.slip, t.slip), Step(c.guess, t.guess)))
  }

  function Blend(from: real, to: real): real
  {
    ClampParam(StepToward(from, from + BLEND_FACTOR * (to - from), BLEND_MAX_STEP))
  }

  function ApplyWeight(state: Params, weight: Params, prior: bool): Params
  {
    if prior then ClampAll(weight)
    else Params(Blend(state.learn, weight.learn), Blend(state.forget, weight.forget), Blend(state.slip, weight.slip),
      Blend(state.guess, weight.guess))
  }

  /* ---- one publication ---- */

  predicate InRange(v: real) { PARAM_MIN <= v <= PARAM_MAX }

  predicate InBounds(p: Params)
  {
    InRange(p.learn) && InRange(p.forget) && InRange(p.slip) && InRange(p.guess)
  }

  /** b lies between a and c, ends included. */
  predicate Between(a: real, b: real, c: real)
  {
    a <= b <= c || c <= b <= a
  }

  predicate AllBetween(a: Params, b: Params, c: Params)
  {
    Between(a.learn, b.learn, c.learn) && Between(a.forget, b.forget, c.forget) && Between(a.slip, b.slip, c.slip)
      && Between(a.guess, b.guess, c.guess)
  }

  /** The largest difference in one parameter. */
  function Gap(a: Params, b: Params): real
  {
    Largest(Distance(a.learn, b.learn), Distance(a.forget, b.forget), Distance(a.slip, b.slip),
      Distance(a.guess, b.guess))
  }

  function Largest(a: real, b: real, c: real, d: real): real { Max(Max(a, b), Max(c, d)) }

  lemma LargestShrinks(a: real, b: real, c: real, d: real, step: real)
    ensures Largest(Max(0.0, a - step), Max(0.0, b - step), Max(0.0, c - step), Max(0.0, d - step)) ==
      Max(0.0, Largest(a, b, c, d) - step)
  {
  }

  lemma LargestCapped(a: real, b: real, c: real, d: real, step: real)
    ensures Largest(Min(step, a), Min(step, b), Min(step, c), Min(step, d)) == Min(step, Largest(a, b, c, d))
  {
  }

  lemma ClampedInBounds(p: Params)
    ensures InBounds(ClampAll(p))
  {
  }

  lemma StepCloses(from: real, to: real)
    requires InRange(from) && InRange(to)
    ensures Between(from, Step(from, to), to) && InRange(Step(from, to))
    ensures Distance(to, Step(from, to)) == Max(0.0, Distance(to, from) - MAX_STEP)
    ensures Distance(from, Step(from, to)) == Min(MAX_STEP, Distance(to, from))
  {
  }

  function StepAll(c: Params, t: Params): Params
  {
    Params(Step(c.learn, t.learn), Step(c.forget, t.forget), Step(c.slip, t.slip), Step(c.guess, t.guess))
  }

  lemma StepAllCloses(c: Params, t: Params)
    requires InBounds(c) && InBounds(t)
    ensures InBounds(StepAll(c, t)) && AllBetween(c, StepAll(c, t), t)
    ensures Gap(t, StepAll(c, t)) == Max(0.0, Gap(t, c) - MAX_STEP)
    ensures Gap(c, StepAll(c, t)) == Min(MAX_STEP, Gap(t, c))
  {
    StepCloses(c.learn, t.learn);
    StepCloses(c.forget, t.forget);
    StepCloses(c.slip, t.slip);
    StepCloses(c.guess, t.guess);
    var a, b, d, e := Distance(t.learn, c.learn), Distance(t.forget, c.forget), Distance(t.slip, c.slip),
      Distance(t.guess, c.guess);
    LargestShrinks(a, b, d, e, MAX_STEP);
    LargestCapped(a, b, d, e, MAX_STEP);
  }

  lemma NextParamsForm(median: Params, current: Params)
    ensures NextParams(median, Some(current)) ==
      if Gap(ClampAll(median), current) < MIN_CHANGE then None else Some(StepAll(current, ClampAll(median)))
  {
  }

  /** A publication moves every parameter toward the clamped median without passing it and closes
      the largest gap by exactly the cap; nothing is published exactly when every gap is small. */
  lemma OnePublication(median: Params, current: Params)
    requires InBounds(current)
    ensures
      var target := ClampAll(median);
      var next := NextParams(median, Some(current));
      && (next == None <==> Gap(target, current) < MIN_CHANGE)
      && (next.Some? ==>
            && InBounds(next.value)
            && AllBetween(current, next.value, target)
            && Gap(target, next.value) == Max(0.0, Gap(target, current) - MAX_STEP)
            && Gap(current, next.value) == Min(MAX_STEP, Gap(target, current)))
  {
    NextParamsForm(median, current);
    ClampedInBounds(median);
    StepAllCloses(current, ClampAll(median));
  }

  /* ---- repeated publication under a fixed median ---- */

  /** The parameters in force after n rounds of recomputation. */
  function After(median: Params, current: Params, n: nat): Params
  {
    if n == 0 then current
    else
      var c := After(median, current, n - 1);
      var next := NextParams(median, Some(c));
      if next.Some? then next.value else c
  }

  /** The number of versions those rounds published. */
  function Published(median: Params, current: Params, n: nat): nat
  {
    if n == 0 then 0
    else Published(median, current, n - 1) + (if NextParams(median, Some(After(median, current, n - 1))).Some? then 1
      else 0)
  }

  /** Rounds needed to bring a gap under the hysteresis threshold. */
  function Rounds(gap: real): (r: nat)
    requires gap >= 0.0
  {
    if gap < MIN_CHANGE then 0 else ((gap - MIN_CHANGE) / MAX_STEP).Floor + 1
  }

  function Ceiling(x: real): int { -((-x).Floor) }

  function Least(a: nat, b: nat): nat { if a <= b then a else b }

  lemma RoundsStep(gap: real)
    requires gap >= MIN_CHANGE
    ensures Rounds(Max(0.0, gap - MAX_STEP)) == Rounds(gap) - 1
  {
    var q := (gap - MIN_CHANGE) / MAX_STEP;
    if gap - MAX_STEP >= MIN_CHANGE {
      assert (gap - MAX_STEP - MIN_CHANGE) / MAX_STEP == q - 1.0;
    } else {
      assert q < 1.0;
    }
  }

  lemma RoundsAtMostCeiling(gap: real)
    requires gap >= 0.0
    ensures Rounds(gap) <= Ceiling(gap / MAX_STEP)
  {
    var x := gap / MAX_STEP;
    assert (gap - MIN_CHANGE) / MAX_STEP == x - 0.5;
  }

  lemma AllBetweenTrans(a: Params, b: Params, c: Params, t: Params)
    requires AllBetween(a, b, t) && AllBetween(b, c, t)
    ensures AllBetween(a, b, c) && AllBetween(a, c, t)
  {
  }

  lemma {:induction false} ConvergesTo(median: Params, current: Params, n: nat)
    requires InBounds(current)
    ensures
      var p := After(median, current, n);
      && InBounds(p)
      && Published(median, current, n) + Rounds(Gap(ClampAll(median), p)) == Rounds(Gap(ClampAll(median), current))
      && (Published(median, current, n) < n ==> NextParams(median, Some(p)) == None)
  {
    if n > 0 {
      ConvergesTo(median, current, n - 1);
      var p := After(median, current, n - 1);
      OnePublication(median, p);
      if NextParams(median, Some(p)).Some? {
        RoundsStep(Gap(ClampAll(median), p));
      }
    }
  }

  lemma RoundMovesToward(median: Params, current: Params, n: nat)
    requires InBounds(current)
    ensures AllBetween(After(median, current, n), After(median, current, n + 1), ClampAll(median))
  {
    ConvergesTo(median, current, n);
    OnePublication(median, After(median, current, n));
  }

  /** A sequence of parameters moves toward t in step n. */
  predicate Closer(f: nat -> Params, t: Params, n: nat)
  {
    AllBetween(f(n), f(n + 1), t)
  }

  lemma {:induction false} CloserThroughout(f: nat -> Params, t: Params, i: nat, j: nat)
    requires i <= j && forall n: nat {:trigger Closer(f, t, n)} :: Closer(f, t, n)
    ensures AllBetween(f(i), f(j), t)
  {
    if i < j {
      CloserThroughout(f, t, i, j - 1);
      assert Closer(f, t, j - 1);
      AllBetweenTrans(f(i), f(j - 1), f(j), t);
    }
  }

  lemma MovesMonotonically(median: Params, current: Params, i: nat, j: nat)
    requires InBounds(current) && i <= j
    ensures AllBetween(After(median, current, i), After(median, current, j), ClampAll(median))
  {
    var f := (n: nat) => After(median, current, n);
    forall n: nat ensures Closer(f, ClampAll(median), n) {
      RoundMovesToward(median, current, n);
    }
    CloserThroughout(f, ClampAll(median), i, j);
  }

  /** With a fixed median, recomputation publishes exactly Rounds(gap) versions, at most the ceiling
      of the largest gap over the step cap, then never publishes again and leaves every parameter
      within the hysteresis band of the clamped median. */
  lemma PublicationStops(median: Params, current: Params, n: nat)
    requires InBounds(current)
    ensures
      var gap := Gap(ClampAll(median), current);
      && Published(median, current, n) == Least(n, Rounds(gap))
      && Published(median, current, n) <= Ceiling(gap / MAX_STEP)
      && (n >= Rounds(gap) ==>
            && NextParams(median, Some(After(median, current, n))) == None
            && Gap(ClampAll(median), After(median, current, n)) < MIN_CHANGE)
  {
    ConvergesTo(median, current, n);
    PublishedAtMost(median, current, n);
    RoundsAtMostCeiling(Gap(ClampAll(median), current));
    OnePublication(median, After(median, current, n));
  }

  lemma {:induction false} PublishedAtMost(median: Params, current: Params, n: nat)
    ensures Published(median, current, n) <= n
  {
    if n > 0 { PublishedAtMost(median, current, n - 1); }
  }

  /* ---- blending into a learner ---- */

  lemma BlendCloses(from: real, to: real)
    requires InRange(from) && InRange(to)
    ensures Between(from, Blend(from, to), to) && InRange(Blend(from, to))
    ensures Distance(from, Blend(from, to)) == Min(BLEND_MAX_STEP, BLEND_FACTOR * Distance(from, to))
    ensures from != to ==> Blend(from, to) != from && Blend(from, to) != to
  {
  }

  /** Blending in-bounds parameters lands between the state and the weight, moves by at most the cap,
      and reaches the weight only from the weight itself; a prior takes the weight over. */
  lemma BlendLandsBetween(state: Params, weight: Params)
    requires InBounds(state) && InBounds(weight)
    ensures
      var after := ApplyWeight(state, weight, false);
      && InBounds(after) && AllBetween(state, after, weight)
      && Gap(state, after) == Min(BLEND_MAX_STEP, BLEND_FACTOR * Gap(state, weight))
      && (after == weight <==> state == weight) && (after == state <==> state == weight)
    ensures ApplyWeight(state, weight, true) == weight
  {
    BlendCloses(state.learn, weight.learn);
    BlendCloses(state.forget, weight.forget);
    BlendCloses(state.slip, weight.slip);
    BlendCloses(state.guess, weight.guess);
  }

  /* ---- the version history of one concept ---- */

  datatype Weight = Weight(version: int, params: Params, policy: string)

  function LatestVersion(rows: seq<Weight>): int
  {
    if rows == [] then 0
    else
      var rest := LatestVersion(rows[..|rows| - 1]);
      if rows[|rows| - 1].version > rest then rows[|rows| - 1].version else rest
  }

  /** The row of this policy with the highest version. */
  function CurrentWeight(rows: seq<Weight>, policy: string): Option<Weight>
  {
    if rows == [] then None
    else
      var rest := CurrentWeight(rows[..|rows| - 1], policy);
      var row := rows[|rows| - 1];
      if row.policy == policy && (rest == None || row.version > rest.value.version) then Some(row) else rest
  }

  function Publish(rows: seq<Weight>, policy: string, median: Params, contributors: nat): seq<Weight>
  {
    if contributors < MIN_CONTRIBUTORS then rows
    else
      var current := CurrentWeight(rows, policy);
      var next := NextParams(median, if current.Some? then Some(current.value.params) else None);
      if next == None then rows else rows + [Weight(LatestVersion(rows) + 1, next.value, policy)]
  }

  /** Versions are allocated 1, 2, 3, … across all policies. */
  predicate Numbered(rows: seq<Weight>)
  {
    forall i :: 0 <= i < |rows| ==> rows[i].version == i + 1
  }

  predicate NextOfPolicy(rows: seq<Weight>, i: int, j: int)
    requires 0 <= i < j < |rows|
  {
    rows[i].policy == rows[j].policy && forall k :: i < k < j ==> rows[k].policy != rows[i].policy
  }

  predicate SteadyMove(from: Params, to: Params)
  {
    MIN_CHANGE <= Gap(from, to) <= MAX_STEP
  }

  /** Every version is in bounds, and consecutive versions of one policy differ by at least the
      hysteresis threshold in some parameter and by at most the step cap in every one. */
  predicate Steady(rows: seq<Weight>)
  {
    && Numbered(rows)
    && (forall i :: 0 <= i < |rows| ==> InBounds(rows[i].params))
    && (forall i, j :: 0 <= i < j < |rows| && NextOfPolicy(rows, i, j) ==>
          SteadyMove(rows[i].params, rows[j].params))
  }

  lemma {:induction false} LatestIsCount(rows: seq<Weight>)
    requires Numbered(rows)
    ensures LatestVersion(rows) == |rows|
  {
    if rows != [] { LatestIsCount(rows[..|rows| - 1]); }
  }

  lemma {:induction false} CurrentIsLast(rows: seq<Weight>, policy: string)
    requires Numbered(rows)
    ensures
      var c := CurrentWeight(rows, policy);
      && (c == None ==> forall i :: 0 <= i < |rows| ==> rows[i].policy != policy)
      && (c.Some? ==>
            && 1 <= c.value.version <= |rows| && rows[c.value.version - 1] == c.value && c.value.policy == policy
            && forall k :: c.value.version <= k < |rows| ==> rows[k].policy != policy)
  {
    if rows != [] { CurrentIsLast(rows[..|rows| - 1], policy); }
  }

  predicate LastOfPolicy(rows: seq<Weight>, i: int, policy: string)
    requires 0 <= i < |rows|
  {
    rows[i].policy == policy && forall k :: i < k < |rows| ==> rows[k].policy != policy
  }

  lemma AppendKeepsSteady(rows: seq<Weight>, w: Weight)
    requires Steady(rows) && w.version == |rows| + 1 && InBounds(w.params)
    requires forall i :: 0 <= i < |rows| && LastOfPolicy(rows, i, w.policy) ==> SteadyMove(rows[i].params, w.params)
    ensures Steady(rows + [w])
  {
    var rows' := rows + [w];
    forall i, j | 0 <= i < j < |rows'| && NextOfPolicy(rows', i, j)
      ensures SteadyMove(rows'[i].params, rows'[j].params)
    {
      assert forall k :: i < k < j ==> rows'[k] == rows[k];
      if j < |rows| {
        assert NextOfPolicy(rows, i, j);
      } else {
        assert LastOfPolicy(rows, i, w.policy);
      }
    }
  }

  lemma NextIsSteady(median: Params, current: Option<Params>)
    requires current.Some? ==> InBounds(current.value)
    ensures
      var next := NextParams(median, current);
      next.Some? ==> InBounds(next.value) && (current.Some? ==> SteadyMove(current.value, next.value))
  {
    ClampedInBounds(median);
    if current.Some? {
      OnePublication(median, current.value);
    }
  }

  lemma PublishKeepsSteady(rows: seq<Weight>, policy: string, median: Params, contributors: nat)
    requires Steady(rows)
    ensures Steady(Publish(rows, policy, median, contributors))
    ensures rows <= Publish(rows, policy, median, contributors)
  {
    var c := CurrentWeight(rows, policy);
    var current := if c.Some? then Some(c.value.params) else None;
    var next := NextParams(median, current);
    if next.Some? {
      LatestIsCount(rows);
      CurrentIsLast(rows, policy);
      NextIsSteady(median, current);
      var w := Weight(|rows| + 1, next.value, policy);
      forall i | 0 <= i < |rows| && LastOfPolicy(rows, i, policy)
        ensures SteadyMove(rows[i].params, w.params)
      {
        assert c.Some? && rows[c.value.version - 1].policy == policy;
        assert i == c.value.version - 1;
      }
      AppendKeepsSteady(rows, w);
    }
  }

  datatype Round = Round(policy: string, median: Params, contributors: nat)

  function PublishAll(rounds: seq<Round>): seq<Weight>
  {
    if rounds == [] then []
    else
      var r := rounds[|rounds| - 1];
      Publish(PublishAll(rounds[..|rounds| - 1]), r.policy, r.median, r.contributors)
  }

  /** Whatever the medians and policies over time, the history stays gapless, in bounds and steady. */
  lemma {:induction false} EveryHistoryIsSteady(rounds: seq<Round>)
    ensures Steady(PublishAll(rounds))
  {
    if rounds != [] {
      var r := rounds[|rounds| - 1];
      EveryHistoryIsSteady(rounds[..|rounds| - 1]);
      PublishKeepsSteady(PublishAll(rounds[..|rounds| - 1]), r.policy, r.median, r.contributors);
    }
  }

  /* ---- applying versions to learners ---- */

  /** One learner's parameters for the concept, review count and last applied version. */
  datatype Account = Account(params: Params, reps: nat, applied: Option<int>)

  datatype Application = Application(version: int, prior: bool, before: Params, after: Params)

  function PolicyOf(rows: seq<Weight>, version: int): string
  {
    if rows == [] then ""
    else if rows[|rows| - 1].version == version then rows[|rows| - 1].policy
    else PolicyOf(rows[..|rows| - 1], version)
  }

  /** The applied version counts only under the policy it was published for. */
  function Counted(rows: seq<Weight>, policy: string, a: Account): int
  {
    if a.applied == None || a.applied.value < 0 || PolicyOf(rows, a.applied.value) != policy then -1
      else a.applied.value
  }

  function Apply(rows: seq<Weight>, policy: string, a: Account): (Account, Option<Application>)
  {
    var weight := CurrentWeight(rows, policy);
    if weight == None then (a.(params := REFERENCE), None)
    else
      var applied := Counted(rows, policy, a);
      var before := if applied < 0 then REFERENCE else a.params;
      if applied >= weight.value.version then (a.(params := before), None)
      else
        var prior := applied < 0 && a.reps == 0;
        var after := ApplyWeight(before, weight.value.params, prior);
        (Account(after, a.reps, Some(weight.value.version)),
          Some(Application(weight.value.version, prior, before, after)))
  }

  /** A version is published exactly when 30 learners or more contributed and the policy has none yet or the
      median is a hundredth or more away in some parameter; it is numbered next. */
  lemma PublishIff(rows: seq<Weight>, policy: string, median: Params, contributors: nat)
    requires Numbered(rows)
    ensures
      var rows', current := Publish(rows, policy, median, contributors), CurrentWeight(rows, policy);
      && (rows' != rows <==>
            contributors >= 30 && (current.None? || Gap(ClampAll(median), current.value.params) >= 0.01))
      && (rows' != rows ==>
            && |rows'| == |rows| + 1 && rows <= rows'
            && rows'[|rows|].version == |rows| + 1 && rows'[|rows|].policy == policy)
  {
    LatestIsCount(rows);
  }

  /** What a learner's next use of the concept does. Without a version of the policy the parameters are the
      reference ones. A version applied before, or a later one, is not applied again. Otherwise the current
      version is: taken over by a learner who never reviewed and had none of the policy, blended into the
      reference parameters of one who had none, and into the learner's own of one who had. */
  lemma ApplyOutcome(rows: seq<Weight>, policy: string, a: Account)
    ensures
      var (a', done) := Apply(rows, policy, a);
      var current, had := CurrentWeight(rows, policy), Counted(rows, policy, a);
      && a'.reps == a.reps
      && (current.None? ==> done.None? && a' == a.(params := Params(0.15, 0.05, 0.1, 0.2)))
      && (current.Some? ==>
            && var w := current.value;
            && (had >= w.version ==> done.None? && a' == a.(params := if had < 0 then REFERENCE else a.params))
            && (had < w.version ==>
                  && a'.applied == Some(w.version)
                  && a'.params == (if had >= 0 then ApplyWeight(a.params, w.params, false)
                                   else ApplyWeight(REFERENCE, w.params, a.reps == 0))
                  && done == Some(Application(w.version, had < 0 && a.reps == 0,
                                              if had < 0 then REFERENCE else a.params, a'.params))))
  {
  }

  lemma {:induction false} CountedIff(rows: seq<Weight>, policy: string, a: Account)
    requires Numbered(rows)
    ensures
      var had := Counted(rows, policy, a);
      && (a.applied.Some? && 1 <= a.applied.value <= |rows| && rows[a.applied.value - 1].policy == policy ==>
            had == a.applied.value)
      && (a.applied.None? ==> had == -1)
      && (a.applied.Some? && 1 <= a.applied.value <= |rows| && rows[a.applied.value - 1].policy != policy ==> had == -1)
  {
    if a.applied.Some? && 1 <= a.applied.value <= |rows| { PolicyOfRow(rows, a.applied.value); }
  }

  lemma {:induction false} PolicyOfRow(rows: seq<Weight>, version: int)
    requires Numbered(rows) && 1 <= version <= |rows|
    ensures PolicyOf(rows, version) == rows[version - 1].policy
  {
    if version < |rows| { PolicyOfRow(rows[..|rows| - 1], version); }
  }

  lemma PublishNumbers(rows: seq<Weight>, policy: string, median: Params, contributors: nat)
    requires Numbered(rows)
    ensures Numbered(Publish(rows, policy, median, contributors)) && rows <= Publish(rows, policy, median, contributors)
  {
    LatestIsCount(rows);
  }

  /* ---- one vote per learner ---- */

  datatype Candidate = Candidate(concept: string, learner: string, params: Params, current: bool)

  /** The newest estimate of this learner for this concept that still matches its source; the
      candidates come newest first. */
  function NewestVote(candidates: seq<Candidate>, concept: string, learner: string): Option<Params>
  {
    if candidates == [] then None
    else
      var c := candidates[|candidates| - 1];
      var newer := NewestVote(candidates[..|candidates| - 1], concept, learner);
      if newer == None && c.current && c.concept == concept && c.learner == learner then Some(c.params) else newer
  }

  function Vote(votes: map<string, map<string, Params>>, concept: string, learner: string): Option<Params>
  {
    if concept in votes && learner in votes[concept] then Some(votes[concept][learner]) else None
  }

  method CollectVotes(candidates: seq<Candidate>) returns (votes: map<string, map<string, Params>>)
    ensures forall concept, learner :: Vote(votes, concept, learner) == NewestVote(candidates, concept, learner)
  {
    votes := map[];
    for i := 0 to |candidates|
      invariant forall concept, learner ::
        Vote(votes, concept, learner) == NewestVote(candidates[..i], concept, learner)
    {
      var c := candidates[i];
      assert candidates[..i + 1][..i] == candidates[..i];
      if c.current {
        ghost var was := votes;
        if c.concept !in votes {
          votes := votes[c.concept := map[]];
        }
        assert forall concept, learner :: Vote(votes, concept, learner) == Vote(was, concept, learner);
        if c.learner !in votes[c.concept] {
          votes := votes[c.concept := votes[c.concept][c.learner := c.params]];
        }
      }
    }
    assert candidates[..|candidates|] == candidates;
  }

  /** One concept of the store, with its rows updated in place. */
  class Concept {
    const policy: string
    var rows: seq<Weight>
    var accounts: map<string, Account>

    constructor (policy: string)
      ensures this.policy == policy && rows == [] && accounts == map[]
    {
      this.policy := policy;
      rows, accounts := [], map[];
    }

    method Latest() returns (version: int, weight: Option<Weight>)
      ensures version == LatestVersion(rows) && weight == CurrentWeight(rows, policy)
    {
      version, weight := 0, None;
      for i := 0 to |rows|
        invariant version == LatestVersion(rows[..i]) && weight == CurrentWeight(rows[..i], policy)
      {
        assert rows[..i + 1][..i] == rows[..i];
        if rows[i].version > version { version := rows[i].version; }
        if rows[i].policy == policy
          && (weight == None || rows[i].version > weight.value.version) { weight := Some(rows[i]); }
      }
      assert rows[..|rows|] == rows;
    }

    method Recompute(median: Params, contributors: nat) returns (inserted: nat)
      requires Steady(rows)
      modifies this`rows
      ensures rows == Publish(old(rows), policy, median, contributors) && Steady(rows)
      ensures inserted == |rows| - |old(rows)|
    {
      PublishKeepsSteady(rows, policy, median, contributors);
      inserted := 0;
      if contributors < MIN_CONTRIBUTORS { return; }
      var version, current := Latest();
      var next := NextParams(median, if current.Some? then Some(current.value.params) else None);
      if next.Some? {
        rows := rows + [Weight(version + 1, next.value, policy)];
        inserted := 1;
      }
    }

    /** Nothing applies to a learner without a state for the concept. */
    method Use(learner: string) returns (application: Option<Application>)
      modifies this`accounts
      ensures learner !in old(accounts) ==> accounts == old(accounts) && application == None
      ensures learner in old(accounts) ==>
        (accounts, application) == (old(accounts)[learner := Apply(rows, policy, old(accounts)[learner]).0],
                                    Apply(rows, policy, old(accounts)[learner]).1)
    {
      if learner !in accounts { return None; }
      var a := accounts[learner];
      var _, weight := Latest();
      application := None;
      if weight == None {
        accounts := accounts[learner := a.(params := REFERENCE)];
        return;
      }
      var applied := Counted(rows, policy, a);
      if applied < 0 {
        a := a.(params := REFERENCE);
      }
      if applied < weight.value.version {
        var prior := applied < 0 && a.reps == 0;
        var after := ApplyWeight(a.params, weight.value.params, prior);
        application := Some(Application(weight.value.version, prior, a.params, after));
        a := Account(after, a.reps, Some(weight.value.version));
      }
      accounts := accounts[learner := a];
    }
  }
}
