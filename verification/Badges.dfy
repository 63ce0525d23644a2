/** The unbroken run of delayed recalls behind a retention badge. */
module Badges {
  import opened Options

  /** Nanoseconds; 0 is the zero time. */
  type Time = nat

  const DAY: int := 86_400_000_000_000
  const RECALL: string := "RECALL_EXERCISE"
  const PROTOCOL: string := "response-feedback-v1"

  datatype Proof = Proof(attempt: string, concept: string, respondedAt: Time)

  /** The pedagogical snapshots around the observation. */
  datatype Snapshot = Snapshot(lastBefore: Time, nextBefore: Time, applied: bool, observedAt: Time, stability: real,
                               lastAfter: Time)

  /** `snapshot` is None when a stored snapshot cannot be read. */
  datatype Observation = Observation(proof: Proof, activity: string, passed: bool, valid: bool, hints: int,
                                     protocol: string,
                                     priorExposure: Option<Time>, snapshot: Option<Snapshot>)

  predicate Breaks(o: Observation)
  {
    !o.passed || (o.activity == RECALL && (!o.valid || o.hints != 0))
  }

  /** A delayed, unaided, applied recall, whatever came before it. */
  predicate Eligible(o: Observation)
  {
    o.snapshot.Some? &&
    var b, at := o.snapshot.value, o.proof.respondedAt;
    && o.activity == RECALL && o.valid && o.hints == 0 && o.protocol == PROTOCOL
    && o.priorExposure.Some? && at as int - o.priorExposure.value as int >= DAY
    && b.lastBefore != 0 && b.nextBefore != 0 && at >= b.nextBefore && at as int - b.lastBefore as int >= DAY
    && b.applied && b.observedAt == at && b.stability > 0.0 && b.lastAfter == at
  }

  /** The review before the observation. */
  function Reviewed(o: Observation): Time { if o.snapshot.Some? then o.snapshot.value.lastBefore else 0 }

  /** The loop's variables, with the run kept as positions. */
  datatype Acc = Acc(picked: seq<nat>, start: Time, previous: Time, earliest: Time, seen: set<string>)

  function Later(a: Time, b: Time): Time { if b > a then b else a }

  function Broken(acc: Acc, o: Observation): Acc
  {
    if Breaks(o) then Acc([], 0, 0, Later(acc.earliest, o.proof.respondedAt), acc.seen) else acc
  }

  predicate Takes(acc: Acc, o: Observation)
  {
    Eligible(o) && o.proof.respondedAt > acc.previous && o.proof.attempt !in acc.seen
  }

  function Take(acc: Acc, o: Observation, i: nat): Acc
  {
    if !Takes(acc, o) then acc
    else Acc(acc.picked + [i], if acc.start == 0 then Later(o.snapshot.value.lastBefore, acc.earliest) else acc.start,
             o.proof.respondedAt, acc.earliest, acc.seen + {o.proof.attempt})
  }

  function Scan(observations: seq<Observation>, earliest: Time): Acc
  {
    var n := |observations|;
    if n == 0 then Acc([], 0, 0, earliest, {})
    else Take(Broken(Scan(observations[..n - 1], earliest), observations[n - 1]), observations[n - 1], n - 1)
  }

  function ProofsAt(observations: seq<Observation>, picked: seq<nat>): (r: seq<Proof>)
    requires forall i :: 0 <= i < |picked| ==> picked[i] < |observations|
    ensures |r| == |picked| && forall i :: 0 <= i < |r| ==> r[i] == observations[picked[i]].proof
  {
    seq(|picked|, i requires 0 <= i < |picked| => observations[picked[i]].proof)
  }

  /** The position of the last break, -1 if there is none. */
  function LastBreak(observations: seq<Observation>): (r: int)
    ensures -1 <= r < |observations|
    ensures r >= 0 ==> Breaks(observations[r])
    ensures forall k :: r < k < |observations| ==> !Breaks(observations[k])
  {
    var n := |observations|;
    if n == 0 then -1
    else if Breaks(observations[n - 1]) then n - 1
    else
      var r := LastBreak(observations[..n - 1]);
      assert forall k :: 0 <= k < n - 1 ==> observations[..n - 1][k] == observations[k];
      r
  }

  /* ---- what every scan keeps ---- */

  /** The picked positions ascend from the last break on, and each is an eligible observation. */
  predicate Positions(observations: seq<Observation>, picked: seq<nat>)
  {
    && (forall i :: 0 <= i < |picked| ==>
      LastBreak(observations) <= picked[i] < |observations| && Eligible(observations[picked[i]]))
    && (forall i, j :: 0 <= i < j < |picked| ==> picked[i] < picked[j])
  }

  /** Response times strictly increase, up to the previous one. */
  predicate Times(observations: seq<Observation>, picked: seq<nat>, previous: Time)
    requires forall i :: 0 <= i < |picked| ==> picked[i] < |observations|
  {
    && (forall i, j :: 0 <= i < j < |picked| ==>
      observations[picked[i]].proof.respondedAt < observations[picked[j]].proof.respondedAt)
    && (forall i :: 0 <= i < |picked| ==> observations[picked[i]].proof.respondedAt <= previous)
    && (picked == [] ==> previous == 0)
    && (picked != [] ==> previous == observations[picked[|picked| - 1]].proof.respondedAt)
  }

  /** No attempt counts twice. */
  predicate Attempts(observations: seq<Observation>, picked: seq<nat>, seen: set<string>)
    requires forall i :: 0 <= i < |picked| ==> picked[i] < |observations|
  {
    && (forall i, j :: 0 <= i < j < |picked| ==>
      observations[picked[i]].proof.attempt != observations[picked[j]].proof.attempt)
    && (forall i :: 0 <= i < |picked| ==> observations[picked[i]].proof.attempt in seen)
  }

  /** The later of the given time and every break's response time. */
  predicate EarliestOk(observations: seq<Observation>, given: Time, earliest: Time)
  {
    && given <= earliest
    && (forall k :: 0 <= k < |observations| && Breaks(observations[k]) ==>
      observations[k].proof.respondedAt <= earliest)
    && (earliest == given || exists k ::
      0 <= k < |observations| && Breaks(observations[k]) && observations[k].proof.respondedAt == earliest)
  }

  predicate StartOk(observations: seq<Observation>, picked: seq<nat>, earliest: Time, start: Time)
    requires forall i :: 0 <= i < |picked| ==> picked[i] < |observations| && Eligible(observations[picked[i]])
  {
    if |picked| == 0 then start == 0
    else start == Later(Reviewed(observations[picked[0]]), earliest) && start > 0
  }

  predicate Sound(observations: seq<Observation>, given: Time, acc: Acc)
  {
    && Positions(observations, acc.picked)
    && Times(observations, acc.picked, acc.previous)
    && Attempts(observations, acc.picked, acc.seen)
    && EarliestOk(observations, given, acc.earliest)
    && StartOk(observations, acc.picked, acc.earliest, acc.start)
  }

  lemma EarliestStep(observations: seq<Observation>, given: Time, earliest: Time)
    requires observations != [] && EarliestOk(observations[..|observations| - 1], given, earliest)
    ensures
      var o := observations[|observations| - 1];
      EarliestOk(observations, given, if Breaks(o) then Later(earliest, o.proof.respondedAt) else earliest)
  {
    var n := |observations|;
    var init, o := observations[..n - 1], observations[n - 1];
    assert forall k :: 0 <= k < n - 1 ==> init[k] == observations[k];
    if earliest != given {
      var k :| 0 <= k < n - 1 && Breaks(init[k]) && init[k].proof.respondedAt == earliest;
      assert Breaks(observations[k]) && observations[k].proof.respondedAt == earliest;
    }
    assert Breaks(o) ==> observations[n - 1].proof.respondedAt == o.proof.respondedAt;
  }

  lemma StillAfterBreak(observations: seq<Observation>, picked: seq<nat>)
    requires observations != [] && !Breaks(observations[|observations| - 1])
    requires Positions(observations[..|observations| - 1], picked)
    ensures Positions(observations, picked)
    ensures forall i :: 0 <= i < |picked| ==> picked[i] < |observations| - 1
  {
    var n := |observations|;
    assert forall k :: 0 <= k < n - 1 ==> observations[..n - 1][k] == observations[k];
  }

  lemma StillSound(observations: seq<Observation>, given: Time, acc: Acc)
    requires observations != [] && !Breaks(observations[|observations| - 1])
    requires Sound(observations[..|observations| - 1], given, acc)
    ensures Sound(observations, given, acc)
    ensures forall i :: 0 <= i < |acc.picked| ==> acc.picked[i] < |observations| - 1
  {
    var n := |observations|;
    StillAfterBreak(observations, acc.picked);
    EarliestStep(observations, given, acc.earliest);
    assert forall i :: 0 <= i < |acc.picked| ==> observations[..n - 1][acc.picked[i]] == observations[acc.picked[i]];
  }

  /** The accumulator between the break test and the pick. */
  lemma BrokenSound(observations: seq<Observation>, given: Time, acc: Acc)
    requires observations != [] && Sound(observations[..|observations| - 1], given, acc)
    ensures Sound(observations, given, Broken(acc, observations[|observations| - 1]))
    ensures
      var picked := Broken(acc, observations[|observations| - 1]).picked;
      forall i :: 0 <= i < |picked| ==> picked[i] < |observations| - 1
  {
    if Breaks(observations[|observations| - 1]) {
      EarliestStep(observations, given, acc.earliest);
    } else {
      StillSound(observations, given, acc);
    }
  }

  lemma TakePositions(observations: seq<Observation>, picked: seq<nat>, i: nat)
    requires i == |observations| - 1 && Positions(observations, picked) && Eligible(observations[i])
    requires forall k :: 0 <= k < |picked| ==> picked[k] < i
    ensures Positions(observations, picked + [i])
  {
    assert forall k :: 0 <= k < |picked| ==> (picked + [i])[k] == picked[k];
  }

  lemma TakeTimes(observations: seq<Observation>, picked: seq<nat>, previous: Time, i: nat)
    requires i < |observations| && (forall k :: 0 <= k < |picked| ==> picked[k] < i)
    requires Times(observations, picked, previous)
    requires previous < observations[i].proof.respondedAt
    ensures Times(observations, picked + [i], observations[i].proof.respondedAt)
  {
    assert forall k :: 0 <= k < |picked| ==> (picked + [i])[k] == picked[k];
  }

  lemma TakeAttempts(observations: seq<Observation>, picked: seq<nat>, seen: set<string>, i: nat)
    requires i < |observations| && (forall k :: 0 <= k < |picked| ==> picked[k] < i)
    requires Attempts(observations, picked, seen)
    requires observations[i].proof.attempt !in seen
    ensures Attempts(observations, picked + [i], seen + {observations[i].proof.attempt})
  {
    assert forall k :: 0 <= k < |picked| ==> (picked + [i])[k] == picked[k];
  }

  lemma TakeSound(observations: seq<Observation>, given: Time, acc: Acc, i: nat)
    requires i == |observations| - 1 && Sound(observations, given, acc)
    requires forall k :: 0 <= k < |acc.picked| ==> acc.picked[k] < i
    ensures Sound(observations, given, Take(acc, observations[i], i))
  {
    if Takes(acc, observations[i]) {
      TakePositions(observations, acc.picked, i);
      TakeTimes(observations, acc.picked, acc.previous, i);
      TakeAttempts(observations, acc.picked, acc.seen, i);
      assert |acc.picked| > 0 ==> (acc.picked + [i])[0] == acc.picked[0];
    }
  }

  lemma ScanStepSound(observations: seq<Observation>, given: Time, acc: Acc)
    requires observations != [] && Sound(observations[..|observations| - 1], given, acc)
    ensures
      var n := |observations|;
      Sound(observations, given, Take(Broken(acc, observations[n - 1]), observations[n - 1], n - 1))
  {
    var n := |observations|;
    BrokenSound(observations, given, acc);
    TakeSound(observations, given, Broken(acc, observations[n - 1]), n - 1);
  }

  lemma {:induction false} EveryScanIsSound(observations: seq<Observation>, given: Time)
    ensures Sound(observations, given, Scan(observations, given))
  {
    if observations != [] {
      EveryScanIsSound(observations[..|observations| - 1], given);
      ScanStepSound(observations, given, Scan(observations[..|observations| - 1], given));
    }
  }

  /* ---- the run of an enrollment ---- */

  /** A valid answer is a passed one. */
  predicate Honest(observations: seq<Observation>)
  {
    forall k :: 0 <= k < |observations| ==> observations[k].valid ==> observations[k].passed
  }

  lemma BreakNotEligible(o: Observation)
    requires Breaks(o) && (o.valid ==> o.passed)
    ensures !Eligible(o)
  {
  }

  /** Given that valid implies passed, the run holds only observations after the last break, in
      strictly increasing order of response and with distinct attempts, and it starts no earlier than
      the given time or any break. */
  lemma RunIsUnbroken(observations: seq<Observation>, given: Time)
    requires Honest(observations)
    ensures
      var acc := Scan(observations, given);
      && (forall i :: 0 <= i < |acc.picked| ==>
        LastBreak(observations) < acc.picked[i] < |observations| && Eligible(observations[acc.picked[i]]))
      && (forall i, j :: 0 <= i < j < |acc.picked| ==>
            && acc.picked[i] < acc.picked[j]
            && observations[acc.picked[i]].proof.respondedAt < observations[acc.picked[j]].proof.respondedAt
            && observations[acc.picked[i]].proof.attempt != observations[acc.picked[j]].proof.attempt)
      && (acc.picked != [] ==>
            && given <= acc.start
            && (forall k :: 0 <= k < |observations| && Breaks(observations[k]) ==>
              observations[k].proof.respondedAt <= acc.start)
            && Reviewed(observations[acc.picked[0]]) <= acc.start)
  {
    EveryScanIsSound(observations, given);
    var acc := Scan(observations, given);
    forall i | 0 <= i < |acc.picked| ensures LastBreak(observations) < acc.picked[i] {
      var k := LastBreak(observations);
      if k >= 0 { BreakNotEligible(observations[k]); }
    }
  }

  /** While nothing breaks it, a run only grows. */
  lemma {:induction false} RunGrows(observations: seq<Observation>, given: Time, m: nat)
    requires LastBreak(observations) < m <= |observations|
    ensures Scan(observations[..m], given).picked <= Scan(observations, given).picked
  {
    var n := |observations|;
    if m < n {
      assert observations[..n - 1][..m] == observations[..m];
      RunGrows(observations[..n - 1], given, m);
    } else {
      assert observations[..m] == observations;
    }
  }

  /** Whether the last break is itself counted as a recall. */
  predicate BreakTaken(observations: seq<Observation>, given: Time)
  {
    var b := LastBreak(observations);
    b >= 0 && Eligible(observations[b]) && observations[b].proof.attempt !in Scan(observations[..b], given).seen
  }

  lemma ScanAtBreak(observations: seq<Observation>, given: Time)
    requires LastBreak(observations) >= 0
    ensures Scan(observations[..LastBreak(observations) + 1], given).picked ==
      if BreakTaken(observations, given) then [LastBreak(observations)] else []
  {
    var b := LastBreak(observations);
    assert observations[..b + 1][..b] == observations[..b];
  }

  lemma TakenBreakOpens(observations: seq<Observation>, given: Time)
    requires BreakTaken(observations, given)
    ensures LastBreak(observations) in Scan(observations, given).picked
  {
    var b := LastBreak(observations);
    var first, picked := Scan(observations[..b + 1], given).picked, Scan(observations, given).picked;
    assert first == [b] by { ScanAtBreak(observations, given); }
    assert first <= picked by { RunGrows(observations, given, b + 1); }
    assert picked[0] == b;
  }

  lemma BreakInRunIff(observations: seq<Observation>, given: Time)
    requires LastBreak(observations) >= 0
    ensures LastBreak(observations) in Scan(observations, given).picked <==> BreakTaken(observations, given)
  {
    if BreakTaken(observations, given) {
      TakenBreakOpens(observations, given);
    } else {
      BreakSkipped(observations, given, |observations|);
      assert observations[..|observations|] == observations;
    }
  }

  /** In general the run lies after the last break exactly when that break is not itself a recall
      of an attempt not counted before; valid implying passed rules this out. */
  lemma RunAfterBreakIff(observations: seq<Observation>, given: Time)
    ensures
      var picked := Scan(observations, given).picked;
      (forall i :: 0 <= i < |picked| ==> LastBreak(observations) < picked[i]) <==> !BreakTaken(observations, given)
  {
    var b, picked := LastBreak(observations), Scan(observations, given).picked;
    assert Positions(observations, picked) by { EveryScanIsSound(observations, given); }
    if b >= 0 {
      assert b in picked <==> BreakTaken(observations, given) by { BreakInRunIff(observations, given); }
    }
  }

  /** A break not taken when it was read is not taken later. */
  lemma {:induction false} BreakSkipped(observations: seq<Observation>, given: Time, n: nat)
    requires 0 <= LastBreak(observations) < n <= |observations| && !BreakTaken(observations, given)
    ensures LastBreak(observations) !in Scan(observations[..n], given).picked
  {
    var b := LastBreak(observations);
    if n == b + 1 {
      ScanAtBreak(observations, given);
    } else {
      BreakSkipped(observations, given, n - 1);
      assert observations[..n][..n - 1] == observations[..n - 1];
    }
  }

  /** A failed answer that is an eligible recall opens the run it breaks. */
  lemma FailedAnswerCanCount(o: Observation, given: Time)
    requires Eligible(o) && !o.passed
    ensures Breaks(o) && Scan([o], given).picked == [0]
  {
    assert [o][..0] == [];
    assert Scan([o][..0], given) == Acc([], 0, 0, given, {});
  }

  /* ---- nothing is left out ---- */

  predicate SameProof(a: Observation, b: Observation)
  {
    a.proof.respondedAt == b.proof.respondedAt && a.proof.attempt == b.proof.attempt
  }

  predicate NoBreakBetween(observations: seq<Observation>, i: int, j: int)
    requires 0 <= i <= j < |observations|
  {
    forall k :: i < k <= j ==> !Breaks(observations[k])
  }

  /** Eligible recalls come in order of response, one attempt each; the rows of one recall, one per
      snapshot, have no break between them. Nothing is asked of other observations. */
  predicate Chronological(observations: seq<Observation>)
  {
    forall i, j :: 0 <= i < j < |observations| && Eligible(observations[i]) && Eligible(observations[j]) ==>
      || (observations[i].proof.respondedAt < observations[j].proof.respondedAt
          && observations[i].proof.attempt != observations[j].proof.attempt)
      || (SameProof(observations[i], observations[j]) && NoBreakBetween(observations, i, j))
  }

  /** Position k holds an eligible recall since the last break. */
  predicate Candidate(observations: seq<Observation>, k: int)
  {
    0 <= k < |observations| && LastBreak(observations) <= k && Eligible(observations[k])
  }

  lemma {:induction false} SeenComesFrom(observations: seq<Observation>, given: Time, attempt: string)
    requires attempt in Scan(observations, given).seen
    ensures exists k :: 0 <= k < |observations| && Eligible(observations[k]) && observations[k].proof.attempt == attempt
  {
    if observations != [] {
      var n := |observations|;
      var init := observations[..n - 1];
      if attempt in Scan(init, given).seen {
        SeenComesFrom(init, given, attempt);
        var k :| 0 <= k < n - 1 && Eligible(init[k]) && init[k].proof.attempt == attempt;
        assert Eligible(observations[k]) && observations[k].proof.attempt == attempt;
      } else {
        assert Eligible(observations[n - 1]) && observations[n - 1].proof.attempt == attempt;
      }
    }
  }

  /** No candidate was answered after the latest recall taken. */
  ghost predicate CaughtUp(observations: seq<Observation>, previous: Time)
  {
    forall k :: Candidate(observations, k) ==> observations[k].proof.respondedAt <= previous
  }

  lemma ChronologicalPrefix(observations: seq<Observation>, n: nat)
    requires Chronological(observations) && n <= |observations|
    ensures Chronological(observations[..n])
  {
    var s := observations[..n];
    forall i, j | 0 <= i < j < n && Eligible(s[i]) && Eligible(s[j])
      && !(s[i].proof.respondedAt < s[j].proof.respondedAt
          && s[i].proof.attempt != s[j].proof.attempt)
      ensures SameProof(s[i], s[j]) && NoBreakBetween(s, i, j)
    {
      assert NoBreakBetween(observations, i, j);
    }
  }

  /** A seen attempt is one of the present run, so its candidate was already caught up with. */
  lemma SeenIsPast(observations: seq<Observation>, given: Time)
    requires observations != [] && Chronological(observations) && Eligible(observations[|observations| - 1])
    requires CaughtUp(observations[..|observations| - 1], Scan(observations[..|observations| - 1], given).previous)
    ensures
      var o := observations[|observations| - 1];
      var acc := Scan(observations[..|observations| - 1], given);
      o.proof.attempt in acc.seen ==> !Breaks(o) && o.proof.respondedAt <= acc.previous
  {
    var n := |observations|;
    var init, o := observations[..n - 1], observations[n - 1];
    if o.proof.attempt in Scan(init, given).seen {
      SeenComesFrom(init, given, o.proof.attempt);
      var k :| 0 <= k < n - 1 && Eligible(init[k]) && init[k].proof.attempt == o.proof.attempt;
      assert SameProof(observations[k], o) && NoBreakBetween(observations, k, n - 1);
      assert LastBreak(init) <= k by {
        assert LastBreak(init) >= 0 ==> Breaks(observations[LastBreak(init)]);
      }
      assert Candidate(init, k);
    }
  }

  /** In a chronological history the attempts already seen never decide: a recall is taken exactly
      when it is eligible and later than the previous one. */
  lemma TakesIff(observations: seq<Observation>, given: Time)
    requires observations != [] && Chronological(observations)
    requires CaughtUp(observations[..|observations| - 1], Scan(observations[..|observations| - 1], given).previous)
    ensures
      var o := observations[|observations| - 1];
      var acc := Broken(Scan(observations[..|observations| - 1], given), o);
      Takes(acc, o) <==> Eligible(o) && o.proof.respondedAt > acc.previous
  {
    if Eligible(observations[|observations| - 1]) { SeenIsPast(observations, given); }
  }

  lemma CandidateBefore(observations: seq<Observation>, k: int)
    requires observations != [] && Candidate(observations, k) && k < |observations| - 1
    ensures !Breaks(observations[|observations| - 1]) && Candidate(observations[..|observations| - 1], k)
  {
    assert observations[..|observations| - 1][k] == observations[k];
  }

  lemma {:induction false} EveryScanCatchesUp(observations: seq<Observation>, given: Time)
    requires Chronological(observations)
    ensures CaughtUp(observations, Scan(observations, given).previous)
  {
    if observations != [] {
      var n := |observations|;
      var init, o := observations[..n - 1], observations[n - 1];
      ChronologicalPrefix(observations, n - 1);
      EveryScanCatchesUp(init, given);
      TakesIff(observations, given);
      var acc := Scan(observations, given);
      forall k | Candidate(observations, k) ensures observations[k].proof.respondedAt <= acc.previous {
        if k < n - 1 { CandidateBefore(observations, k); }
      }
    }
  }

  /** An eligible recall that is not taken is another row of the last one taken. */
  lemma LastPickSameRecall(observations: seq<Observation>, given: Time)
    requires observations != [] && Chronological(observations) && Eligible(observations[|observations| - 1])
    requires
      var o := observations[|observations| - 1];
      o.proof.respondedAt <= Broken(Scan(observations[..|observations| - 1], given), o).previous
    ensures
      var o := observations[|observations| - 1];
      var picked := Broken(Scan(observations[..|observations| - 1], given), o).picked;
      && |picked| > 0 && picked[|picked| - 1] < |observations| - 1
      && SameProof(observations[picked[|picked| - 1]], o)
  {
    var n := |observations|;
    var init, o := observations[..n - 1], observations[n - 1];
    var acc := Scan(init, given);
    EveryScanIsSound(init, given);
    assert !Breaks(o) && |acc.picked| > 0;
    var p := acc.picked[|acc.picked| - 1];
    assert init[p] == observations[p];
  }

  /** Position k is in the run, itself or by an earlier row of the same recall. */
  predicate Represented(observations: seq<Observation>, picked: seq<nat>, k: nat)
    requires k < |observations|
  {
    exists i :: 0 <= i < |picked| && picked[i] <= k && SameProof(observations[picked[i]], observations[k])
  }

  lemma RepresentedLater(observations: seq<Observation>, picked: seq<nat>, picked': seq<nat>, k: nat)
    requires k < |observations| - 1 && picked <= picked' && Represented(observations[..|observations| - 1], picked, k)
    ensures Represented(observations, picked', k)
  {
    var init := observations[..|observations| - 1];
    var i :| 0 <= i < |picked| && picked[i] <= k && SameProof(init[picked[i]], init[k]);
    assert picked'[i] == picked[i] && SameProof(observations[picked'[i]], observations[k]);
  }

  lemma LastRepresented(observations: seq<Observation>, given: Time)
    requires observations != [] && Chronological(observations) && Eligible(observations[|observations| - 1])
    ensures Represented(observations, Scan(observations, given).picked, |observations| - 1)
  {
    var n := |observations|;
    var o, acc := observations[n - 1], Broken(Scan(observations[..n - 1], given), observations[n - 1]);
    var picked := Scan(observations, given).picked;
    ChronologicalPrefix(observations, n - 1);
    EveryScanCatchesUp(observations[..n - 1], given);
    TakesIff(observations, given);
    if !Takes(acc, o) { LastPickSameRecall(observations, given); }
    assert SameProof(observations[picked[|picked| - 1]], o);
  }

  /** In a chronological history every eligible recall since the last break is in the run, itself or
      by another row of the same recall. */
  lemma {:induction false} RunIsComplete(observations: seq<Observation>, given: Time, k: nat)
    requires Chronological(observations) && Candidate(observations, k)
    ensures Represented(observations, Scan(observations, given).picked, k)
  {
    var n := |observations|;
    if k < n - 1 {
      ChronologicalPrefix(observations, n - 1);
      CandidateBefore(observations, k);
      RunIsComplete(observations[..n - 1], given, k);
      RepresentedLater(observations, Scan(observations[..n - 1], given).picked, Scan(observations, given).picked, k);
    } else {
      LastRepresented(observations, given);
    }
  }

  /* ---- the loop and the award ---- */

  method RetentionRun(observations: seq<Observation>, given: Time) returns (proofs: seq<Proof>, start: Time)
    ensures
      var acc := Scan(observations, given);
      && (forall i :: 0 <= i < |acc.picked| ==> acc.picked[i] < |observations|)
      && proofs == ProofsAt(observations, acc.picked) && start == acc.start
  {
    proofs, start := [], 0;
    var previous: Time, earliest: Time, seen: set<string> := 0, given, {};
    ghost var picked: seq<nat> := [];
    for n := 0 to |observations|
      invariant Scan(observations[..n], given) == Acc(picked, start, previous, earliest, seen)
      invariant forall i :: 0 <= i < |picked| ==> picked[i] < n
      invariant proofs == ProofsAt(observations, picked)
    {
      var o := observations[n];
      assert observations[..n + 1][..n] == observations[..n];
      if !o.passed || (o.activity == RECALL && (!o.valid || o.hints != 0)) {
        proofs, start, previous, picked := [], 0, 0, [];
        if o.proof.respondedAt > earliest {
          earliest := o.proof.respondedAt;
        }
      }
      if Eligible(o) && o.proof.respondedAt > previous && o.proof.attempt !in seen {
        if start == 0 {
          start := o.snapshot.value.lastBefore;
          if earliest > start {
            start := earliest;
          }
        }
        previous := o.proof.respondedAt;
        seen := seen + {o.proof.attempt};
        proofs := proofs + [o.proof];
        picked := picked + [n];
      }
    }
    assert observations[..|observations|] == observations;
  }

  /** The milestone of that many days is earned. */
  predicate EarnedBy(observations: seq<Observation>, acc: Acc, days: int)
  {
    |acc.picked| >= 3 && acc.picked[|acc.picked| - 1] < |observations| &&
    observations[acc.picked[|acc.picked| - 1]].proof.respondedAt as int - acc.start as int >= days * DAY
  }

  predicate Earns(observations: seq<Observation>, given: Time, days: int)
  {
    EarnedBy(observations, Scan(observations, given), days)
  }

  const MILESTONES: seq<int> := [7, 30, 90]

  /** At most this many of the newest observations are read. */
  const WINDOW: nat := 500

  function Newest(history: seq<Observation>): seq<Observation>
  {
    if |history| <= WINDOW then history else history[|history| - WINDOW..]
  }

  /** An unaided recall, answered a day or more after the concept was last seen and after its last review,
      when it was due, and applied to the memory at that instant. */
  predicate DelayedRecall(o: Observation)
  {
    && o.activity == "RECALL_EXERCISE" && o.valid && o.hints == 0 && o.protocol == "response-feedback-v1"
    && o.priorExposure.Some? && o.priorExposure.value + 86_400_000_000_000 <= o.proof.respondedAt
    && o.snapshot.Some? && var b := o.snapshot.value;
    && 0 < b.lastBefore && b.lastBefore + 86_400_000_000_000 <= o.proof.respondedAt
    && 0 < b.nextBefore <= o.proof.respondedAt
    && b.applied && b.observedAt == b.lastAfter == o.proof.respondedAt && b.stability > 0.0
  }

  /** A failed answer, or a recall that is not valid or needed hints. */
  predicate Discredits(o: Observation)
  {
    !o.passed || (o.activity == "RECALL_EXERCISE" && !o.valid) || (o.activity == "RECALL_EXERCISE" && o.hints != 0)
  }

  /** Three or more delayed recalls, ever later, of different attempts, the last one that many days after
      their start; and the start is no earlier than the given time, than the review before the first of
      them, and than anything among the observations that discredits a run. */
  predicate Spanned(observations: seq<Observation>, given: Time, picked: seq<nat>, start: Time, days: int)
  {
    && |picked| >= 3
    && (forall i :: 0 <= i < |picked| ==> picked[i] < |observations| && DelayedRecall(observations[picked[i]]))
    && (forall i, j :: 0 <= i < j < |picked| ==>
          && picked[i] < picked[j]
          && observations[picked[i]].proof.respondedAt < observations[picked[j]].proof.respondedAt
          && observations[picked[i]].proof.attempt != observations[picked[j]].proof.attempt)
    && start + days * 86_400_000_000_000 <= observations[picked[|picked| - 1]].proof.respondedAt
    && given <= start && Reviewed(observations[picked[0]]) <= start
    && (forall k :: 0 <= k < |observations| && Discredits(observations[k]) ==>
          observations[k].proof.respondedAt <= start)
  }

  /** Whatever is awarded was spanned by the observations that were read. */
  lemma AwardedIsSpanned(history: seq<Observation>, given: Time, days: int)
    requires Earns(Newest(history), given, days)
    ensures
      var acc := Scan(Newest(history), given);
      Spanned(Newest(history), given, acc.picked, acc.start, days)
  {
    EveryScanIsSound(Newest(history), given);
  }

  /** The retention milestones awarded on a history, of which only the newest part is read. */
  method Award(history: seq<Observation>, given: Time) returns (days: seq<int>)
    ensures forall d :: d in days <==> d in [7, 30, 90] && Earns(Newest(history), given, d)
  {
    var observations := Newest(history);
    var proofs, start := RetentionRun(observations, given);
    days := [];
    if |proofs| < 3 { return; }
    var last := proofs[|proofs| - 1];
    for i := 0 to |MILESTONES|
      invariant forall d :: d in days <==> d in MILESTONES[..i] && last.respondedAt as int - start as int >= d * DAY
    {
      assert MILESTONES[..i + 1] == MILESTONES[..i] + [MILESTONES[i]];
      if last.respondedAt as int - start as int >= MILESTONES[i] * DAY {
        days := days + [MILESTONES[i]];
      }
    }
    assert MILESTONES[..|MILESTONES|] == MILESTONES;
  }
}
