/** What reading only the newest observations does to a retention run: exactly when it can start the
    run earlier, and exactly when it can invent an award. */
module BadgeTruncation {
  import opened Options
  import opened Badges

  predicate IsLastBreak(observations: seq<Observation>, r: int)
  {
    && -1 <= r < |observations| && (r >= 0 ==> Breaks(observations[r]))
    && forall k :: r < k < |observations| ==> !Breaks(observations[k])
  }

  lemma LastBreakIs(observations: seq<Observation>, r: int)
    requires IsLastBreak(observations, r)
    ensures LastBreak(observations) == r
  {
  }

  lemma IsLastBreakOfSuffix(observations: seq<Observation>, d: nat, r: int)
    requires IsLastBreak(observations, r) && d <= |observations|
    ensures IsLastBreak(observations[d..], if r < d then -1 else r - d)
  {
  }

  lemma LastBreakOfSuffix(observations: seq<Observation>, d: nat)
    requires d <= |observations|
    ensures LastBreak(observations[d..]) == if LastBreak(observations) < d then -1 else LastBreak(observations) - d
  {
    var r := LastBreak(observations);
    IsLastBreakOfSuffix(observations, d, r);
    LastBreakIs(observations[d..], if r < d then -1 else r - d);
  }

  lemma CandidateOfSuffix(observations: seq<Observation>, d: nat, k: nat)
    requires d <= |observations|
    ensures Candidate(observations[d..], k) <==> Candidate(observations, d + k)
  {
    LastBreakOfSuffix(observations, d);
    if d + k < |observations| { assert observations[d..][k] == observations[d + k]; }
  }

  /* ---- the start ---- */

  /** Where a run opened by this observation starts when nothing before it is read. */
  function Opens(o: Observation, given: Time): Time
  {
    Later(Reviewed(o), if Breaks(o) then Later(given, o.proof.respondedAt) else given)
  }

  /** A scan that begins at a candidate opens its run there. */
  lemma OpeningPick(observations: seq<Observation>, given: Time)
    requires Candidate(observations, 0)
    ensures Scan(observations, given).picked != [] && Scan(observations, given).picked[0] == 0
  {
    assert observations[..1][..0] == [];
    assert Scan(observations[..1][..0], given) == Acc([], 0, 0, given, {});
    assert Takes(Broken(Acc([], 0, 0, given, {}), observations[0]), observations[0]);
    assert Scan(observations[..1], given).picked == [0];
    RunGrows(observations, given, 1);
  }

  lemma OpeningStart(observations: seq<Observation>, given: Time)
    requires Candidate(observations, 0)
    ensures Scan(observations, given).start == Opens(observations[0], given)
  {
    var acc := Scan(observations, given);
    OpeningPick(observations, given);
    EveryScanIsSound(observations, given);
    assert forall k :: 0 <= k < |observations| && Breaks(observations[k]) ==> k == 0;
  }

  lemma OpenedAt(observations: seq<Observation>, given: Time, j: nat)
    requires Candidate(observations, j)
    ensures Scan(observations[j..], given).picked != [] && Scan(observations[j..], given).picked[0] == 0
    ensures Scan(observations[j..], given).start == Opens(observations[j], given)
  {
    CandidateOfSuffix(observations, j, 0);
    OpeningPick(observations[j..], given);
    OpeningStart(observations[j..], given);
  }

  /** A run starts no earlier than its first recall would open it. */
  lemma StartAtLeastOpening(observations: seq<Observation>, given: Time, d: nat)
    requires d <= |observations| && Scan(observations[d..], given).picked != []
    ensures
      var cut := Scan(observations[d..], given);
      var j := d + cut.picked[0];
      Candidate(observations, j) && Opens(observations[j], given) <= cut.start
  {
    var cut := Scan(observations[d..], given);
    EveryScanIsSound(observations[d..], given);
    CandidateOfSuffix(observations, d, cut.picked[0]);
    assert observations[d..][cut.picked[0]] == observations[d + cut.picked[0]];
  }

  /** Every candidate opens no earlier than any break's response and than the review before the run's
      first recall. */
  ghost predicate SafeStart(observations: seq<Observation>, given: Time)
  {
    var picked := Scan(observations, given).picked;
    |picked| > 0 && picked[0] < |observations| ==>
      forall j :: Candidate(observations, j) ==> OpensLate(observations, given, Reviewed(observations[picked[0]]), j)
  }

  predicate OpensLate(observations: seq<Observation>, given: Time, reviewed: Time, j: nat)
    requires j < |observations|
  {
    && reviewed <= Opens(observations[j], given)
    && forall k :: 0 <= k < |observations| && Breaks(observations[k]) ==>
        observations[k].proof.respondedAt <= Opens(observations[j], given)
  }

  lemma OpensLateIff(observations: seq<Observation>, given: Time, j: nat)
    requires Candidate(observations, j) && Scan(observations, given).picked != []
    ensures
      var acc := Scan(observations, given);
      && acc.picked[0] < |observations|
      && (acc.start <= Opens(observations[j], given) <==>
            OpensLate(observations, given, Reviewed(observations[acc.picked[0]]), j))
  {
    EveryScanIsSound(observations, given);
  }

  ghost predicate NeverEarlier(observations: seq<Observation>, given: Time)
  {
    forall d: nat :: d <= |observations| && Scan(observations[d..], given).picked != [] ==>
      Scan(observations, given).start <= Scan(observations[d..], given).start
  }

  lemma SafeStartSuffices(observations: seq<Observation>, given: Time, d: nat)
    requires SafeStart(observations, given) && d <= |observations| && Scan(observations[d..], given).picked != []
    ensures Scan(observations, given).start <= Scan(observations[d..], given).start
  {
    var full := Scan(observations, given);
    EveryScanIsSound(observations, given);
    if full.picked != [] {
      StartAtLeastOpening(observations, given, d);
      OpensLateIff(observations, given, d + Scan(observations[d..], given).picked[0]);
    }
  }

  lemma SafeStartNeeded(observations: seq<Observation>, given: Time)
    requires NeverEarlier(observations, given)
    ensures SafeStart(observations, given)
  {
    var full := Scan(observations, given);
    if full.picked != [] {
      forall j: nat | Candidate(observations, j)
        ensures full.picked[0] < |observations|
        ensures OpensLate(observations, given, Reviewed(observations[full.picked[0]]), j)
      {
        OpenedAt(observations, given, j);
        OpensLateIff(observations, given, j);
      }
    }
  }

  /** For every history: no suffix starts the run earlier than the whole history does, exactly when
      every candidate opens no earlier than the breaks and than the review of the run's first recall. */
  lemma StartNeverInventedIff(observations: seq<Observation>, given: Time)
    ensures NeverEarlier(observations, given) <==> SafeStart(observations, given)
  {
    if SafeStart(observations, given) {
      forall d: nat | d <= |observations| && Scan(observations[d..], given).picked != []
        ensures Scan(observations, given).start <= Scan(observations[d..], given).start
      {
        SafeStartSuffices(observations, given, d);
      }
    }
    if NeverEarlier(observations, given) { SafeStartNeeded(observations, given); }
  }

  /* ---- the run of a suffix ---- */

  datatype Stamp = Stamp(attempt: string, at: Time)

  function StampOf(o: Observation): Stamp { Stamp(o.proof.attempt, o.proof.respondedAt) }

  function Stamps(observations: seq<Observation>, picked: seq<nat>): (r: seq<Stamp>)
    requires forall i :: 0 <= i < |picked| ==> picked[i] < |observations|
    ensures |r| == |picked| && forall i :: 0 <= i < |r| ==> r[i] == StampOf(observations[picked[i]])
  {
    seq(|picked|, i requires 0 <= i < |picked| => StampOf(observations[picked[i]]))
  }

  /** b is the end of a. */
  predicate EndsWith(a: seq<Stamp>, b: seq<Stamp>)
  {
    |b| <= |a| && a[|a| - |b|..] == b
  }

  lemma ChronologicalSuffix(observations: seq<Observation>, d: nat)
    requires Chronological(observations) && d <= |observations|
    ensures Chronological(observations[d..])
  {
    var s := observations[d..];
    assert forall k :: 0 <= k < |s| ==> s[k] == observations[d + k];
    forall i, j | 0 <= i < j < |s| && Eligible(s[i]) && Eligible(s[j])
      && !(s[i].proof.respondedAt < s[j].proof.respondedAt && s[i].proof.attempt != s[j].proof.attempt)
      ensures SameProof(s[i], s[j]) && NoBreakBetween(s, i, j)
    {
      assert Eligible(observations[d + i]) && Eligible(observations[d + j]);
      assert NoBreakBetween(observations, d + i, d + j);
    }
  }

  /** The scanned run as stamps. */
  function RunStamps(observations: seq<Observation>, given: Time): (r: seq<Stamp>)
    ensures |r| == |Scan(observations, given).picked|
    ensures forall i :: 0 <= i < |r| ==> Scan(observations, given).picked[i] < |observations|
    ensures forall i :: 0 <= i < |r| ==> r[i] == StampOf(observations[Scan(observations, given).picked[i]])
  {
    EveryScanIsSound(observations, given);
    Stamps(observations, Scan(observations, given).picked)
  }

  /** One more observation: the run is emptied by a break, and grows by a later recall. */
  function NextRun(run: seq<Stamp>, o: Observation): seq<Stamp>
  {
    var before := if Breaks(o) then [] else run;
    if Eligible(o) && (before == [] || before[|before| - 1].at < o.proof.respondedAt) then before + [StampOf(o)]
      else before
  }

  /** The observation, if eligible, is the last of the run. */
  predicate Ends(run: seq<Stamp>, o: Observation)
  {
    Eligible(o) ==> run != [] && run[|run| - 1] == StampOf(o)
  }

  lemma StampsInPrefix(observations: seq<Observation>, picked: seq<nat>)
    requires observations != [] && forall i :: 0 <= i < |picked| ==> picked[i] < |observations| - 1
    ensures Stamps(observations, picked) == Stamps(observations[..|observations| - 1], picked)
  {
  }

  /** What a scan will take next, in terms of the stamps so far. */
  lemma TakeStamps(observations: seq<Observation>, acc: Acc)
    requires observations != [] && forall i :: 0 <= i < |acc.picked| ==> acc.picked[i] < |observations| - 1
    ensures
      var n := |observations|;
      var o, before := observations[n - 1], Stamps(observations, acc.picked);
      Stamps(observations, Take(acc, o, n - 1).picked) == if Takes(acc, o) then before + [StampOf(o)] else before
  {
  }

  lemma PreviousStamp(observations: seq<Observation>, picked: seq<nat>, previous: Time)
    requires (forall i :: 0 <= i < |picked| ==> picked[i] < |observations|) && Times(observations, picked, previous)
    ensures
      var run := Stamps(observations, picked);
      previous == if run == [] then 0 else run[|run| - 1].at
  {
  }

  lemma EligiblePositive(o: Observation)
    requires Eligible(o)
    ensures o.proof.respondedAt > 0
  {
  }

  /** The stamps left by the break test, and the time they stand for. */
  lemma BeforeStamps(observations: seq<Observation>, given: Time)
    requires observations != []
    ensures
      var n := |observations|;
      var o := observations[n - 1];
      var acc := Broken(Scan(observations[..n - 1], given), o);
      var before := if Breaks(o) then [] else RunStamps(observations[..n - 1], given);
      && (forall i :: 0 <= i < |acc.picked| ==> acc.picked[i] < n - 1)
      && Stamps(observations, acc.picked) == before
      && acc.previous == if before == [] then 0 else before[|before| - 1].at
  {
    var n := |observations|;
    var init, o := observations[..n - 1], observations[n - 1];
    var acc := Broken(Scan(init, given), o);
    EveryScanIsSound(init, given);
    BrokenSound(observations, given, Scan(init, given));
    StampsInPrefix(observations, acc.picked);
    PreviousStamp(observations, acc.picked, acc.previous);
  }

  lemma NextTaken(observations: seq<Observation>, given: Time)
    requires observations != [] && Chronological(observations) && Eligible(observations[|observations| - 1])
    ensures
      var n := |observations|;
      var o := observations[n - 1];
      var acc := Broken(Scan(observations[..n - 1], given), o);
      && (Takes(acc, o) <==> o.proof.respondedAt > acc.previous)
      && (!Takes(acc, o) ==>
            && |acc.picked| > 0 && acc.picked[|acc.picked| - 1] < n - 1
            && SameProof(observations[acc.picked[|acc.picked| - 1]], o))
  {
    var n := |observations|;
    ChronologicalPrefix(observations, n - 1);
    EveryScanCatchesUp(observations[..n - 1], given);
    TakesIff(observations, given);
    if !Takes(Broken(Scan(observations[..n - 1], given), observations[n - 1]), observations[n - 1]) {
      LastPickSameRecall(observations, given);
    }
  }

  lemma RunTaken(observations: seq<Observation>, given: Time)
    requires observations != []
    ensures
      var n := |observations|;
      var o := observations[n - 1];
      var before := if Breaks(o) then [] else RunStamps(observations[..n - 1], given);
      RunStamps(observations, given) ==
        if Takes(Broken(Scan(observations[..n - 1], given), o), o) then before + [StampOf(o)] else before
  {
    var n := |observations|;
    BeforeStamps(observations, given);
    TakeStamps(observations, Broken(Scan(observations[..n - 1], given), observations[n - 1]));
  }

  lemma NextTakenByStamps(observations: seq<Observation>, given: Time)
    requires observations != [] && Chronological(observations) && Eligible(observations[|observations| - 1])
    ensures
      var n := |observations|;
      var o := observations[n - 1];
      var acc := Broken(Scan(observations[..n - 1], given), o);
      var before := if Breaks(o) then [] else RunStamps(observations[..n - 1], given);
      && (Takes(acc, o) <==> before == [] || before[|before| - 1].at < o.proof.respondedAt)
      && (!Takes(acc, o) ==> before != [] && before[|before| - 1] == StampOf(o))
  {
    BeforeStamps(observations, given);
    NextTaken(observations, given);
    EligiblePositive(observations[|observations| - 1]);
  }

  lemma NextRunIs(run: seq<Stamp>, o: Observation, takes: bool)
    requires takes ==> Eligible(o)
    requires
      var before := if Breaks(o) then [] else run;
      Eligible(o) ==>
        && (takes <==> before == [] || before[|before| - 1].at < o.proof.respondedAt)
        && (!takes ==> before != [] && before[|before| - 1] == StampOf(o))
    ensures
      var before := if Breaks(o) then [] else run;
      NextRun(run, o) == (if takes then before + [StampOf(o)] else before) && Ends(NextRun(run, o), o)
  {
  }

  lemma RunStampsStep(observations: seq<Observation>, given: Time)
    requires observations != [] && Chronological(observations)
    ensures
      var n := |observations|;
      var next := NextRun(RunStamps(observations[..n - 1], given), observations[n - 1]);
      RunStamps(observations, given) == next && Ends(next, observations[n - 1])
  {
    var n := |observations|;
    var o := observations[n - 1];
    var run := RunStamps(observations[..n - 1], given);
    var before := if Breaks(o) then [] else run;
    var takes := Takes(Broken(Scan(observations[..n - 1], given), o), o);
    assert RunStamps(observations, given) == if takes then before + [StampOf(o)] else before by {
      RunTaken(observations, given);
    }
    if Eligible(o) { NextTakenByStamps(observations, given); }
    NextRunIs(run, o, takes);
  }

  lemma EndsWithAppend(a: seq<Stamp>, b: seq<Stamp>, x: Stamp)
    requires EndsWith(a, b)
    ensures EndsWith(a + [x], b + [x])
    ensures b != [] ==> a != [] && a[|a| - 1] == b[|b| - 1]
  {
    assert (a + [x])[|a| - |b|..] == a[|a| - |b|..] + [x];
  }

  lemma EndsWithLast(a: seq<Stamp>)
    requires a != []
    ensures EndsWith(a, [a[|a| - 1]])
  {
  }

  lemma NextRunEndsWith(a: seq<Stamp>, b: seq<Stamp>, o: Observation)
    requires EndsWith(a, b) && Ends(NextRun(a, o), o)
    ensures EndsWith(NextRun(a, o), NextRun(b, o))
  {
    var x := StampOf(o);
    if Breaks(o) {
      assert NextRun(a, o) == NextRun(b, o);
    } else if Eligible(o) {
      EndsWithAppend(a, b, x);
      if b == [] {
        assert NextRun(b, o) == [x];
        EndsWithLast(NextRun(a, o));
      }
    }
  }

  lemma SuffixStep(observations: seq<Observation>, given: Time, d: nat)
    requires Chronological(observations) && d < |observations|
    ensures
      var init, o := observations[..|observations| - 1], observations[|observations| - 1];
      RunStamps(observations[d..], given) == NextRun(RunStamps(init[d..], given), o)
  {
    var init, s := observations[..|observations| - 1], observations[d..];
    ChronologicalSuffix(observations, d);
    RunStampsStep(s, given);
    assert s[..|s| - 1] == init[d..];
  }

  lemma {:induction false} EmptySuffix(observations: seq<Observation>, given: Time)
    ensures EndsWith(RunStamps(observations, given), RunStamps(observations[|observations|..], given))
  {
    assert observations[|observations|..] == [];
    assert RunStamps([], given) == [];
  }

  /** In a chronological history the run of a suffix is the end of the whole run. */
  lemma {:induction false} SuffixRun(observations: seq<Observation>, given: Time, d: nat)
    requires Chronological(observations) && d <= |observations|
    ensures EndsWith(RunStamps(observations, given), RunStamps(observations[d..], given))
  {
    var n := |observations|;
    if d == n {
      EmptySuffix(observations, given);
    } else {
      var init, o := observations[..n - 1], observations[n - 1];
      var a, b := RunStamps(init, given), RunStamps(init[d..], given);
      assert EndsWith(a, b) by {
        ChronologicalPrefix(observations, n - 1);
        SuffixRun(init, given, d);
      }
      RunStampsStep(observations, given);
      SuffixStep(observations, given, d);
      NextRunEndsWith(a, b, o);
    }
  }

  /* ---- the award ---- */

  predicate Long(run: seq<Stamp>, start: Time, days: int)
  {
    |run| >= 3 && run[|run| - 1].at as int - start as int >= days * DAY
  }

  lemma EarnsByStamps(observations: seq<Observation>, given: Time, days: int)
    ensures Earns(observations, given, days) <==>
      Long(RunStamps(observations, given), Scan(observations, given).start, days)
  {
  }

  lemma SuffixEarns(observations: seq<Observation>, given: Time, d: nat, days: int)
    requires Chronological(observations) && d <= |observations|
    ensures
      var run, cut := RunStamps(observations, given), Scan(observations[d..], given);
      Earns(observations[d..], given, days) <==> |cut.picked| >= 3 && Long(run, cut.start, days)
  {
    var run, cut := RunStamps(observations, given), RunStamps(observations[d..], given);
    assert EndsWith(run, cut) by { SuffixRun(observations, given, d); }
    EarnsByStamps(observations[d..], given, days);
    LongEnd(run, cut, Scan(observations[d..], given).start, days);
  }

  lemma LongEnd(run: seq<Stamp>, cut: seq<Stamp>, start: Time, days: int)
    requires EndsWith(run, cut)
    ensures Long(cut, start, days) <==> |cut| >= 3 && Long(run, start, days)
  {
    assert cut != [] ==> run[|run| - 1] == cut[|cut| - 1];
  }

  /** No suffix earns more than the whole when none starts earlier. */
  lemma TruncationOnlyDelays(observations: seq<Observation>, given: Time, d: nat, days: int)
    requires Chronological(observations) && SafeStart(observations, given)
    requires d <= |observations| && Earns(observations[d..], given, days)
    ensures Earns(observations, given, days)
  {
    SuffixEarns(observations, given, d, days);
    SafeStartSuffices(observations, given, d);
    EarnsByStamps(observations, given, days);
  }

  /** A candidate answered no later than the third proof from the end, which would open the run that
      many days before its last proof. */
  predicate OpensAward(observations: seq<Observation>, given: Time, days: int, j: int)
  {
    var run := RunStamps(observations, given);
    && |run| >= 3 && Candidate(observations, j)
    && observations[j].proof.respondedAt <= run[|run| - 3].at
    && run[|run| - 1].at as int - Opens(observations[j], given) as int >= days * DAY
  }

  predicate RisingStamps(run: seq<Stamp>)
  {
    forall i, j :: 0 <= i < j < |run| ==> run[i].at < run[j].at
  }

  lemma RunRises(observations: seq<Observation>, given: Time)
    ensures RisingStamps(RunStamps(observations, given))
  {
    EveryScanIsSound(observations, given);
  }

  /** From candidate j on there are three proofs exactly when j was answered no later than the third
      from the end. */
  lemma ThreeFrom(observations: seq<Observation>, given: Time, j: nat)
    requires Chronological(observations) && Candidate(observations, j)
    ensures
      var run := RunStamps(observations, given);
      |Scan(observations[j..], given).picked| >= 3 <==>
        |run| >= 3 && observations[j].proof.respondedAt <= run[|run| - 3].at
  {
    var run, cut := RunStamps(observations, given), RunStamps(observations[j..], given);
    SuffixRun(observations, given, j);
    OpenedAt(observations, given, j);
    RunRises(observations, given);
    assert observations[j..][0] == observations[j];
    assert cut[0] == run[|run| - |cut|] == StampOf(observations[j]);
  }

  lemma StampOfFirst(run: seq<Stamp>, cut: seq<Stamp>)
    requires EndsWith(run, cut) && RisingStamps(run) && |cut| >= 3
    ensures cut[0].at <= run[|run| - 3].at
  {
    assert cut[0] == run[|run| - |cut|];
  }

  lemma ThirdFromEnd(observations: seq<Observation>, given: Time, d: nat)
    requires Chronological(observations) && d <= |observations| && |RunStamps(observations[d..], given)| >= 3
    ensures
      var run, cut := RunStamps(observations, given), RunStamps(observations[d..], given);
      |run| >= 3 && cut[0].at <= run[|run| - 3].at
  {
    SuffixRun(observations, given, d);
    RunRises(observations, given);
    StampOfFirst(RunStamps(observations, given), RunStamps(observations[d..], given));
  }

  lemma FirstOpensAward(observations: seq<Observation>, given: Time, d: nat, days: int)
    requires Chronological(observations) && d <= |observations| && Earns(observations[d..], given, days)
    ensures OpensAward(observations, given, days, d + Scan(observations[d..], given).picked[0])
  {
    var run, cut := RunStamps(observations, given), RunStamps(observations[d..], given);
    var j := d + Scan(observations[d..], given).picked[0];
    SuffixEarns(observations, given, d, days);
    StartAtLeastOpening(observations, given, d);
    assert cut[0] == StampOf(observations[j]) by { assert observations[d..][j - d] == observations[j]; }
    ThirdFromEnd(observations, given, d);
  }

  lemma OpeningEarns(observations: seq<Observation>, given: Time, days: int, j: nat)
    requires Chronological(observations) && OpensAward(observations, given, days, j)
    ensures Earns(observations[j..], given, days)
  {
    ThreeFrom(observations, given, j);
    OpenedAt(observations, given, j);
    SuffixEarns(observations, given, j, days);
  }

  /** In a chronological history some suffix earns a milestone that the whole history does not,
      exactly when a candidate opens the award and the whole run is too short for it. */
  lemma AwardInventedIff(observations: seq<Observation>, given: Time, days: int)
    requires Chronological(observations)
    ensures (exists d: nat ::
      d <= |observations| && Earns(observations[d..], given, days) && !Earns(observations, given, days)) <==>
      && (exists j :: OpensAward(observations, given, days, j))
      && var run := RunStamps(observations, given);
        run[|run| - 1].at as int - Scan(observations, given).start as int < days * DAY
  {
    EarnsByStamps(observations, given, days);
    if d: nat :| d <= |observations| && Earns(observations[d..], given, days) {
      FirstOpensAward(observations, given, d, days);
    }
    if j :| OpensAward(observations, given, days, j) {
      OpeningEarns(observations, given, days, j);
    }
  }

  /* ---- when the condition holds, and when it does not ---- */

  /** The second observation's review is no older than the first one's response. */
  predicate ReviewedSince(a: Observation, b: Observation)
  {
    a.proof.respondedAt <= Reviewed(b)
  }

  /** Every eligible recall was reviewed no earlier than the breaks and recalls before it. */
  predicate Tracked(observations: seq<Observation>)
  {
    forall i, j :: 0 <= i < j < |observations| && Eligible(observations[j]) ==>
      (Breaks(observations[i]) || Eligible(observations[i]) ==> ReviewedSince(observations[i], observations[j]))
  }

  lemma TrackedOpensLate(observations: seq<Observation>, given: Time, first: nat, j: nat)
    requires Tracked(observations) && first <= j && Candidate(observations, first) && Candidate(observations, j)
    ensures OpensLate(observations, given, Reviewed(observations[first]), j)
  {
    assert first < j ==> ReviewedSince(observations[first], observations[j]);
    forall k | 0 <= k < |observations| && Breaks(observations[k])
      ensures observations[k].proof.respondedAt <= Opens(observations[j], given)
    {
      assert k <= LastBreak(observations) <= j;
      assert k < j ==> ReviewedSince(observations[k], observations[j]);
    }
  }

  /** Tracked reviews are enough. */
  lemma TrackedIsSafe(observations: seq<Observation>, given: Time)
    requires Chronological(observations) && Tracked(observations)
    ensures SafeStart(observations, given)
  {
    var picked := Scan(observations, given).picked;
    EveryScanIsSound(observations, given);
    if picked != [] {
      forall j: nat | Candidate(observations, j)
        ensures OpensLate(observations, given, Reviewed(observations[picked[0]]), j)
      {
        RunIsComplete(observations, given, j);
        assert picked[0] <= j;
        TrackedOpensLate(observations, given, picked[0], j);
      }
    }
  }

  /* ---- one cut ---- */

  /** The run that opens at j starts by that time when reading begins at d: the review before it, the
      given time and every break read are no later. */
  predicate StartsBy(observations: seq<Observation>, given: Time, d: nat, j: nat, t: int)
    requires j < |observations|
  {
    && Reviewed(observations[j]) <= t && given <= t
    && forall k :: d <= k < |observations| && Breaks(observations[k]) ==> observations[k].proof.respondedAt <= t
  }

  lemma CutStartsBy(observations: seq<Observation>, given: Time, d: nat, t: int)
    requires d <= |observations| && Scan(observations[d..], given).picked != []
    ensures
      var cut := Scan(observations[d..], given);
      && d + cut.picked[0] < |observations|
      && (cut.start <= t <==> StartsBy(observations, given, d, d + cut.picked[0], t))
  {
    var s, cut := observations[d..], Scan(observations[d..], given);
    EveryScanIsSound(s, given);
    BreaksOfSuffix(observations, d, t);
    assert s[cut.picked[0]] == observations[d + cut.picked[0]];
    EarliestBy(s, given, cut.earliest, t);
  }

  predicate BreaksBy(observations: seq<Observation>, d: nat, t: int)
  {
    forall k :: d <= k < |observations| && Breaks(observations[k]) ==> observations[k].proof.respondedAt <= t
  }

  lemma BreaksOfSuffix(observations: seq<Observation>, d: nat, t: int)
    requires d <= |observations|
    ensures BreaksBy(observations[d..], 0, t) <==> BreaksBy(observations, d, t)
  {
    if BreaksBy(observations[d..], 0, t) {
      forall k | d <= k < |observations| && Breaks(observations[k]) ensures observations[k].proof.respondedAt <= t {
        assert observations[d..][k - d] == observations[k];
      }
    }
  }

  lemma EarliestBy(observations: seq<Observation>, given: Time, earliest: Time, t: int)
    requires EarliestOk(observations, given, earliest)
    ensures earliest <= t <==> given <= t && BreaksBy(observations, 0, t)
  {
  }

  lemma WholeIsCut(observations: seq<Observation>)
    ensures observations[0..] == observations
  {
  }

  /** All the run from d on, opened by recall j, can start from is earlier than the review of the
      whole run's first recall, or than the response of a break before d. */
  ghost predicate EarlierFrom(observations: seq<Observation>, given: Time, picked: seq<nat>, d: nat, j: nat)
  {
    && d <= |observations| && j < |observations| && picked != [] && picked[0] < |observations|
    && (|| StartsBy(observations, given, d, j, Reviewed(observations[picked[0]]) - 1)
        || exists k :: 0 <= k < d && Breaks(observations[k])
             && StartsBy(observations, given, d, j, observations[k].proof.respondedAt - 1))
  }

  /** For every history and every cut that leaves a run: the condition is exact. */
  lemma CutStartsEarlierIff(observations: seq<Observation>, given: Time, d: nat)
    requires d <= |observations| && Scan(observations[d..], given).picked != []
    ensures
      var full, cut := Scan(observations, given), Scan(observations[d..], given);
      cut.start < full.start <==> EarlierFrom(observations, given, full.picked, d, d + cut.picked[0])
  {
    var full, cut := Scan(observations, given), Scan(observations[d..], given);
    EveryScanIsSound(observations, given);
    CutStartsBy(observations, given, d, full.start - 1);
    if full.picked != [] {
      CutStartsBy(observations, given, d, Reviewed(observations[full.picked[0]]) - 1);
      forall k | 0 <= k < d && Breaks(observations[k])
        ensures cut.start < observations[k].proof.respondedAt <==>
          StartsBy(observations, given, d, d + cut.picked[0], observations[k].proof.respondedAt - 1)
      {
        CutStartsBy(observations, given, d, observations[k].proof.respondedAt - 1);
      }
      if cut.start < full.start && full.start != Reviewed(observations[full.picked[0]]) {
        var k :| 0 <= k < |observations| && Breaks(observations[k])
          && observations[k].proof.respondedAt == full.earliest;
        assert k < d;
      }
    }
  }

  /** The run read from d on has three proofs and starts that many days before its last one. */
  predicate RunEarns(observations: seq<Observation>, given: Time, d: nat, picked: seq<nat>, days: int)
  {
    && |picked| >= 3 && d + picked[0] < |observations| && d + picked[|picked| - 1] < |observations|
    && var last := observations[d + picked[|picked| - 1]].proof.respondedAt;
    StartsBy(observations, given, d, d + picked[0], last as int - days * DAY)
  }

  lemma EarnsCutIff(observations: seq<Observation>, given: Time, d: nat, days: int)
    requires d <= |observations|
    ensures Earns(observations[d..], given, days) <==>
      RunEarns(observations, given, d, Scan(observations[d..], given).picked, days)
  {
    var s, cut := observations[d..], Scan(observations[d..], given);
    EveryScanIsSound(s, given);
    if |cut.picked| >= 3 {
      var j := d + cut.picked[|cut.picked| - 1];
      assert s[j - d] == observations[j];
      CutStartsBy(observations, given, d, observations[j].proof.respondedAt as int - days * DAY);
    }
  }

  /** The first eligible recall since the last break, at or after d. */
  ghost predicate FirstFrom(observations: seq<Observation>, d: nat, j: nat)
  {
    d <= j && Candidate(observations, j) && forall k :: d <= k < j ==> !Candidate(observations, k)
  }

  lemma FirstPicked(observations: seq<Observation>, given: Time, d: nat)
    requires Chronological(observations) && d <= |observations|
    ensures
      var picked := Scan(observations[d..], given).picked;
      && (picked == [] ==> forall k :: d <= k ==> !Candidate(observations, k))
      && (picked != [] ==> FirstFrom(observations, d, d + picked[0]))
  {
    var s, picked := observations[d..], Scan(observations[d..], given).picked;
    ChronologicalSuffix(observations, d);
    EveryScanIsSound(s, given);
    forall k | d <= k && Candidate(observations, k) ensures picked != [] && d + picked[0] <= k {
      CandidateOfSuffix(observations, d, k - d);
      RunIsComplete(s, given, k - d);
    }
    if picked != [] {
      CandidateOfSuffix(observations, d, picked[0]);
    }
  }

  /** Read from d on, the milestone is earned: the first recall read was answered no later than the
      third proof from the end, and the run that opens there starts that many days before the last. */
  ghost predicate SpansFrom(observations: seq<Observation>, given: Time, d: nat, days: int)
  {
    var run := RunStamps(observations, given);
    |run| >= 3 && exists j: nat :: FirstFrom(observations, d, j) && SpansWith(observations, given, d, days, j)
  }

  predicate SpansWith(observations: seq<Observation>, given: Time, d: nat, days: int, j: nat)
    requires j < |observations| && |RunStamps(observations, given)| >= 3
  {
    var run := RunStamps(observations, given);
    && observations[j].proof.respondedAt <= run[|run| - 3].at
    && StartsBy(observations, given, d, j, run[|run| - 1].at as int - days * DAY)
  }

  lemma CountFromFirst(run: seq<Stamp>, cut: seq<Stamp>)
    requires EndsWith(run, cut) && RisingStamps(run) && cut != []
    ensures |cut| >= 3 <==> |run| >= 3 && cut[0].at <= run[|run| - 3].at
  {
    assert cut[0] == run[|run| - |cut|];
  }

  lemma EarnsWith(observations: seq<Observation>, given: Time, d: nat, days: int)
    requires Chronological(observations) && d <= |observations| && Scan(observations[d..], given).picked != []
    ensures
      var j := d + Scan(observations[d..], given).picked[0];
      && j < |observations|
      && (Earns(observations[d..], given, days) <==>
            |RunStamps(observations, given)| >= 3 && SpansWith(observations, given, d, days, j))
  {
    var run, cut := RunStamps(observations, given), RunStamps(observations[d..], given);
    var j := d + Scan(observations[d..], given).picked[0];
    SuffixEarns(observations, given, d, days);
    assert cut[0] == StampOf(observations[j]) by { assert observations[d..][j - d] == observations[j]; }
    assert |cut| >= 3 <==> |run| >= 3 && cut[0].at <= run[|run| - 3].at by {
      SuffixRun(observations, given, d);
      RunRises(observations, given);
      CountFromFirst(run, cut);
    }
    if |run| >= 3 { CutStartsBy(observations, given, d, run[|run| - 1].at as int - days * DAY); }
  }

  lemma EarnsFromIff(observations: seq<Observation>, given: Time, d: nat, days: int)
    requires Chronological(observations) && d <= |observations|
    ensures Earns(observations[d..], given, days) <==> SpansFrom(observations, given, d, days)
  {
    var picked := Scan(observations[d..], given).picked;
    FirstPicked(observations, given, d);
    if picked != [] {
      EarnsWith(observations, given, d, days);
      assert FirstFrom(observations, d, d + picked[0]);
      assert forall j: nat :: FirstFrom(observations, d, j) ==> j == d + picked[0];
    }
  }

  /* ---- the window that is read ---- */

  /** How many of the oldest observations are not read. */
  function Unread(history: seq<Observation>): nat
  {
    if |history| <= WINDOW then 0 else |history| - WINDOW
  }

  lemma NewestIsSuffix(history: seq<Observation>)
    ensures Newest(history) == history[Unread(history)..] && Unread(history) <= |history|
  {
  }

  /** For every history of which a run is read: reading only the newest 500 observations starts it
      earlier exactly when all it can start from there is earlier than the review of the whole run's
      first recall, or than the response of a break that is not read. */
  lemma WindowStartsEarlierIff(history: seq<Observation>, given: Time)
    requires Scan(Newest(history), given).picked != []
    ensures
      var full, cut := Scan(history, given), Scan(Newest(history), given);
      var d := Unread(history);
      cut.start < full.start <==> EarlierFrom(history, given, full.picked, d, d + cut.picked[0])
  {
    NewestIsSuffix(history);
    CutStartsEarlierIff(history, given, Unread(history));
  }

  /** For every history: the award made on the newest 500 observations is one that the whole history
      does not earn, exactly when the run picked from them earns it by what is read, and the run picked
      from the whole does not by all there is. */
  lemma WindowInventsAwardIff(history: seq<Observation>, given: Time, days: int)
    ensures (Earns(Newest(history), given, days) && !Earns(history, given, days)) <==>
      && RunEarns(history, given, Unread(history), Scan(Newest(history), given).picked, days)
      && !RunEarns(history, given, 0, Scan(history, given).picked, days)
  {
    NewestIsSuffix(history);
    WholeIsCut(history);
    EarnsCutIff(history, given, Unread(history), days);
    EarnsCutIff(history, given, 0, days);
  }

  /** When recalls come in order, the same by the run of the whole history alone, without that of the
      window: the milestone is spanned from the window on and not from the beginning. */
  lemma InOrderWindowInventsAwardIff(history: seq<Observation>, given: Time, days: int)
    requires Chronological(history)
    ensures (Earns(Newest(history), given, days) && !Earns(history, given, days)) <==>
      (SpansFrom(history, given, Unread(history), days) && !SpansFrom(history, given, 0, days))
  {
    NewestIsSuffix(history);
    WholeIsCut(history);
    EarnsFromIff(history, given, Unread(history), days);
    EarnsFromIff(history, given, 0, days);
  }

  /* ---- a history on which the window invents ---- */

  function Days(n: nat): Time { n * DAY }

  function Recall(name: string, reviewed: nat, at: nat): Observation
  {
    Observation(Proof(name, "c", Days(at)), RECALL, true, true, 0, PROTOCOL, Some(0),
                Some(Snapshot(Days(reviewed), Days(reviewed), true, Days(at), 1.0, Days(at))))
  }

  function Failure(at: nat): Observation
  {
    Observation(Proof("", "c", Days(at)), "PRACTICE", false, false, 0, "", None, None)
  }

  lemma RecallEligible(name: string, reviewed: nat, at: nat)
    requires 0 < reviewed < at
    ensures Eligible(Recall(name, reviewed, at)) && !Breaks(Recall(name, reviewed, at))
  {
  }

  lemma ScanOne(observations: seq<Observation>, o: Observation, given: Time)
    ensures Scan(observations + [o], given) == Take(Broken(Scan(observations, given), o), o, |observations|)
  {
    assert (observations + [o])[..|observations|] == observations;
  }

  /** Neither breaks a run nor belongs to one. */
  predicate Inert(o: Observation) { !Breaks(o) && !Eligible(o) }

  lemma {:induction false} InertRows(head: seq<Observation>, rows: seq<Observation>, given: Time)
    requires forall i :: 0 <= i < |rows| ==> Inert(rows[i])
    ensures Scan(head + rows, given) == Scan(head, given)
  {
    if rows == [] {
      assert head + rows == head;
    } else {
      var init, o := rows[..|rows| - 1], rows[|rows| - 1];
      InertRows(head, init, given);
      assert head + rows == head + init + [o];
      ScanOne(head + init, o, given);
    }
  }

  lemma TakeRecall(acc: Acc, name: string, reviewed: nat, at: nat, i: nat)
    requires 0 < reviewed < at && acc.previous < Days(at) && name !in acc.seen
    ensures
      var o := Recall(name, reviewed, at);
      Take(Broken(acc, o), o, i) ==
        Acc(acc.picked + [i], if acc.start == 0 then Later(Days(reviewed), acc.earliest) else acc.start,
            Days(at), acc.earliest, acc.seen + {name})
  {
    RecallEligible(name, reviewed, at);
  }

  lemma ScanThree(head: seq<Observation>, given: Time, earliest: Time)
    requires Scan(head, given) == Acc([], 0, 0, earliest, {})
    ensures
      var acc := Scan(head + [Recall("a", 2, 12)] + [Recall("b", 12, 14)] + [Recall("c", 14, 16)], given);
      acc.picked == [|head|, |head| + 1, |head| + 2] && acc.start == Later(Days(2), earliest)
  {
    var a0, n := Scan(head, given), |head|;
    assert "a"[0] != "b"[0] && "b"[0] != "c"[0] && "a"[0] != "c"[0];
    var s1 := head + [Recall("a", 2, 12)];
    var s2 := s1 + [Recall("b", 12, 14)];
    ScanOne(head, Recall("a", 2, 12), given);
    TakeRecall(a0, "a", 2, 12, n);
    var a1 := Scan(s1, given);
    ScanOne(s1, Recall("b", 12, 14), given);
    TakeRecall(a1, "b", 12, 14, n + 1);
    var a2 := Scan(s2, given);
    ScanOne(s2, Recall("c", 14, 16), given);
    TakeRecall(a2, "c", 14, 16, n + 2);
  }

  /** A passed practice, which neither breaks a run nor counts in one. */
  function Practice(at: nat): Observation
  {
    Observation(Proof("", "c", Days(at)), "PRACTICE", true, false, 0, "", None, None)
  }

  /** A passed practice with an evaluated attempt, from which the given time comes. */
  function Answered(at: nat): Observation
  {
    Observation(Proof("first", "c", Days(at)), "PRACTICE", true, true, 0, PROTOCOL, None, None)
  }

  function Fill(n: nat): (r: seq<Observation>)
    ensures |r| == n && forall i :: 0 <= i < n ==> r[i] == Practice(11) && Inert(r[i])
  {
    seq(n, _ => Practice(11))
  }

  function Recalls(head: seq<Observation>): seq<Observation>
  {
    head + [Recall("a", 2, 12)] + [Recall("b", 12, 14)] + [Recall("c", 14, 16)]
  }

  /** An answered practice on day 2, a failure on day 10, 497 practices on day 11, then recalls on days
      12, 14 and 16, the first one last reviewed on day 2: 502 observations, of which the first two are
      not read. The earliest attempt is of day 2. */
  const LONG_HISTORY: seq<Observation> := Recalls([Answered(2)] + [Failure(10)] + Fill(497))

  lemma LongHistoryRead()
    ensures |LONG_HISTORY| == 502 && Newest(LONG_HISTORY) == Recalls(Fill(497))
  {
    var front := [Answered(2)] + [Failure(10)];
    assert front + Fill(497) + [Recall("a", 2, 12)] + [Recall("b", 12, 14)] + [Recall("c", 14, 16)] ==
      front + Recalls(Fill(497));
  }

  lemma FrontScanned(given: Time)
    requires given <= Days(10)
    ensures Scan([Answered(2)] + [Failure(10)] + Fill(497), given) == Acc([], 0, 0, Days(10), {})
    ensures Scan(Fill(497), given) == Acc([], 0, 0, given, {})
  {
    var front := [Answered(2)] + [Failure(10)];
    assert Scan([], given) == Acc([], 0, 0, given, {});
    InertRows([], [Answered(2)], given);
    assert [] + [Answered(2)] == [Answered(2)] && [] + Fill(497) == Fill(497);
    ScanOne([Answered(2)], Failure(10), given);
    InertRows(front, Fill(497), given);
    InertRows([], Fill(497), given);
  }

  /** On this history the window starts the run eight days earlier, at a review before the failure. */
  lemma TruncationCanInventStart()
    ensures Scan(LONG_HISTORY, Days(2)).start == Days(10) && Scan(Newest(LONG_HISTORY), Days(2)).start == Days(2)
    ensures Scan(LONG_HISTORY, Days(2)).picked == [499, 500, 501]
    ensures Scan(Newest(LONG_HISTORY), Days(2)).picked == [497, 498, 499]
  {
    LongHistoryRead();
    FrontScanned(Days(2));
    ScanThree([Answered(2)] + [Failure(10)] + Fill(497), Days(2), Days(10));
    ScanThree(Fill(497), Days(2), Days(2));
  }

  /** And so it invents an award: six days passed since the failure, and the seven-day milestone is
      awarded. */
  lemma TruncationCanInventAward()
    ensures Earns(Newest(LONG_HISTORY), Days(2), 7) && !Earns(LONG_HISTORY, Days(2), 7)
  {
    TruncationCanInventStart();
    LongHistoryRead();
    assert LONG_HISTORY[501] == Recall("c", 14, 16);
    assert Recalls(Fill(497))[499] == Recall("c", 14, 16);
  }
}
