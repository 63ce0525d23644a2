/** The published FSRS-5 equations, without guards, and what the scheduler does with them. */
module FsrsReference {
  import opened Reals
  import opened Fsrs

  /* ---- the equations ---- */

  /** S0(G) */
  function FirstStability(g: int): real
    requires 1 <= g <= 4
  {
    if g == 1 then 0.40255 else if g == 2 then 1.18385 else if g == 3 then 3.173 else 15.69105
  }

  function Within(v: real): real { if v < 1.0 then 1.0 else if v > 10.0 then 10.0 else v }

  /** D0(G) */
  function FirstDifficulty(m: Math, g: int): real
  {
    Within(7.1949 - m.exp(0.5345 * (g - 1) as real) + 1.0)
  }

  /** D''(D, G): linear damping, and reversion to the mean. */
  function HarderOrEasier(m: Math, d: real, g: int): real
  {
    var damped := d + (-1.4604 * (g - 3) as real) * (10.0 - d) / 9.0;
    Within(0.0046 * FirstDifficulty(m, 4) + 0.9954 * damped)
  }

  /** R(t, S) */
  function Recallable(m: Math, days: nat, s: real): real
    requires s > 0.0
  {
    m.pow(1.0 + 19.0 / 81.0 * days as real / s, -0.5)
  }

  /** S'r(D, S, R, G) */
  function AfterRecall(m: Math, d: real, s: real, r: real, g: int): real
  {
    s * (Growing(m, d, s, r) * Bonus(g) + 1.0)
  }

  function Growing(m: Math, d: real, s: real, r: real): real
  {
    m.exp(1.54575) * (11.0 - d) * m.pow(s, -0.1192) * (m.exp(1.01925 * (1.0 - r)) - 1.0)
  }

  function Bonus(g: int): real { if g == 2 then 0.2315 else if g == 4 then 2.9898 else 1.0 }

  /** S'f(D, S, R) */
  function AfterForgetting(m: Math, d: real, s: real, r: real): real
  {
    1.9395 * m.pow(d, -0.11) * (m.pow(s + 1.0, 0.29605) - 1.0) * m.exp(2.2698 * (1.0 - r))
  }

  /** S'(S, G) of a review on the same day. */
  function AfterSameDay(m: Math, s: real, g: int): real
  {
    s * m.exp(0.51655 * ((g - 3) as real + 0.6621))
  }

  /** The memory state the equations lead to. A lapse is capped so that a Good on the same day cannot
      exceed the stability before it. */
  datatype Memory = Memory(stability: real, difficulty: real)

  function Next(m: Math, s: real, d: real, days: nat, sameDay: bool, g: int): Memory
    requires s > 0.0
  {
    var r := Recallable(m, days, s);
    var cap := m.exp(0.51655 * 0.6621);
    Memory(if sameDay then AfterSameDay(m, s, g)
           else if g == 1 then (if cap == 0.0 then 0.0 else Min(s / cap, AfterForgetting(m, d, s, r)))
           else AfterRecall(m, d, s, r, g),
           HarderOrEasier(m, d, g))
  }

  /* ---- the scheduler follows them ---- */

  lemma RecallableIsProbability(m: Math, days: nat, s: real)
    requires Sane(m) && s > 0.0
    ensures 0.0 < Recallable(m, days, s) <= 1.0
    ensures days > 0 ==> Recallable(m, days, s) < 1.0
    ensures days == 0 ==> Recallable(m, days, s) == 1.0
  {
    var x := 1.0 + 19.0 / 81.0 * days as real / s;
    if days > 0 {
      QuotientPositive(19.0 / 81.0 * days as real, s);
      assert x > 1.0;
      assert m.pow(x, -0.5) < m.pow(1.0, -0.5);
    } else {
      assert x == 1.0;
    }
  }

  lemma RetrievabilityFollows(m: Math, days: nat, s: real)
    requires s > 0.0
    ensures Retrievability(m, days, s) == Recallable(m, days, s)
  {
  }

  lemma ForgettingPositive(m: Math, d: real, s: real, r: real)
    requires Sane(m) && d > 0.0 && s > 0.0
    ensures AfterForgetting(m, d, s, r) > 0.0
  {
    assert m.pow(1.0, 0.29605) < m.pow(s + 1.0, 0.29605);
    ProductPositive(1.9395, m.pow(d, -0.11));
    ProductPositive(1.9395 * m.pow(d, -0.11), m.pow(s + 1.0, 0.29605) - 1.0);
    ProductPositive(1.9395 * m.pow(d, -0.11) * (m.pow(s + 1.0, 0.29605) - 1.0), m.exp(2.2698 * (1.0 - r)));
  }

  lemma ForgettingFollows(m: Math, d: real, s: real, r: real)
    requires Sane(m) && s > 0.0 && 0.0 <= r <= 1.0
    ensures ForgetStability(m, d, s, r) == AfterForgetting(m, Within(d), s, r)
  {
    ForgettingPositive(m, Within(d), s, r);
  }

  lemma RecallFollows(m: Math, d: real, s: real, r: real, g: int)
    requires Sane(m) && s > 0.0 && 0.0 <= r <= 1.0 && HARD <= g <= EASY
    ensures RecallStability(m, d, s, r, g) == AfterRecall(m, Within(d), s, r, g)
  {
    RecallForm(m, d, s, r, g);
    assert Growth(m, Clamp(d, 1.0, 10.0), s, Clamp(r, 0.0, 1.0)) == Growing(m, Within(d), s, r);
    assert Modifier(g) == Bonus(g);
  }

  lemma SameDayFollows(m: Math, s: real, g: int)
    requires Sane(m) && s > 0.0 && AGAIN <= g <= EASY
    ensures ShortTermStability(m, s, g) == AfterSameDay(m, s, g)
  {
    ProductPositive(s, m.exp(0.51655 * ((g - 3) as real + 0.6621)));
  }

  lemma DifficultyFollows(m: Math, d: real, g: int)
    requires AGAIN <= g <= EASY
    ensures NextDifficulty(m, d, g) == HarderOrEasier(m, Within(d), g)
    ensures InitialDifficulty(m, g) == FirstDifficulty(m, g)
  {
  }

  /** A card that was reviewed before and has a usable stability. */
  predicate Known(card: Card) { card.state != New && card.stability > 0.0 }

  predicate WithinDay(card: Card, now: Time) { card.lastReview != 0 && now < card.lastReview + DAY }

  lemma DaysAndDay(card: Card, now: Time)
    ensures ElapsedDays(now, card.lastReview) >= 0
    ensures WithinDay(card, now) <==> ElapsedDays(now, card.lastReview) == 0 && card.lastReview != 0
  {
  }

  lemma LapseFollows(m: Math, card: Card, days: nat)
    requires Sane(m) && Known(card)
    ensures
      var s, r := card.stability, Retrievability(m, days, card.stability);
      Min(s / m.exp(WEIGHTS[17] * WEIGHTS[18]), ForgetStability(m, card.difficulty, s, r)) ==
        Next(m, s, Within(card.difficulty), days, false, AGAIN).stability
  {
    RetrievabilityFollows(m, days, card.stability);
    RecallableIsProbability(m, days, card.stability);
    ForgettingFollows(m, card.difficulty, card.stability, Recallable(m, days, card.stability));
    assert WEIGHTS[17] * WEIGHTS[18] == 0.51655 * 0.6621;
  }

  lemma DelayedFollows(m: Math, card: Card, days: nat, g: int)
    requires Sane(m) && Known(card) && HARD <= g <= EASY
    ensures RecallStability(m, card.difficulty, card.stability, Retrievability(m, days, card.stability), g) ==
      Next(m, card.stability, Within(card.difficulty), days, false, g).stability
  {
    RetrievabilityFollows(m, days, card.stability);
    RecallableIsProbability(m, days, card.stability);
    RecallFollows(m, card.difficulty, card.stability, Recallable(m, days, card.stability), g);
  }

  /** Which of the three updates a known card gets. */
  lemma StabilityCases(m: Math, card: Card, g: int, now: Time)
    requires Sane(m) && Known(card) && AGAIN <= g <= EASY
    ensures
      var days, s := ElapsedDays(now, card.lastReview), card.stability;
      var r := Retrievability(m, days, s);
      ReviewedStability(m, card, g, now) ==
        if WithinDay(card, now) then ShortTermStability(m, s, g)
        else if g == AGAIN then Min(s / m.exp(WEIGHTS[17] * WEIGHTS[18]), ForgetStability(m, card.difficulty, s, r))
        else RecallStability(m, card.difficulty, s, r, g)
  {
    DaysAndDay(card, now);
    MathAt(m, WEIGHTS[17] * WEIGHTS[18]);
  }

  lemma StabilityFollows(m: Math, card: Card, g: int, now: Time)
    requires Sane(m) && Known(card) && AGAIN <= g <= EASY
    ensures ElapsedDays(now, card.lastReview) >= 0
    ensures ReviewedStability(m, card, g, now) ==
      Next(m, card.stability, Within(card.difficulty), ElapsedDays(now, card.lastReview), WithinDay(card, now),
           g).stability
  {
    DaysAndDay(card, now);
    StabilityCases(m, card, g, now);
    if WithinDay(card, now) {
      SameDayFollows(m, card.stability, g);
    } else if g == AGAIN {
      LapseFollows(m, card, ElapsedDays(now, card.lastReview));
    } else {
      DelayedFollows(m, card, ElapsedDays(now, card.lastReview), g);
    }
  }

  lemma ReviewParts(m: Math, card: Card, rating: int, now: Time)
    requires Known(card)
    ensures
      var g, next := ClampRating(rating), ReviewCard(m, card, rating, now);
      next.stability == ReviewedStability(m, card, g, now) && next.difficulty == NextDifficulty(m, card.difficulty, g)
  {
  }

  /** Every review of a known card follows the equations: its next stability and difficulty are those of
      FSRS-5 for the whole days since the last review, whatever number is passed as a rating and whatever
      difficulty is stored. */
  lemma ReviewFollowsFsrs5(m: Math, card: Card, rating: int, now: Time)
    requires Sane(m) && Known(card)
    ensures
      var days, g, next := ElapsedDays(now, card.lastReview), ClampRating(rating), ReviewCard(m, card, rating, now);
      && days >= 0
      && Memory(next.stability, next.difficulty) ==
        Next(m, card.stability, Within(card.difficulty), days, WithinDay(card, now), g)
  {
    ReviewParts(m, card, rating, now);
    StabilityFollows(m, card, ClampRating(rating), now);
    DifficultyFollows(m, card.difficulty, ClampRating(rating));
  }

  /** And so does the first review. */
  lemma FirstReviewFollowsFsrs5(m: Math, card: Card, rating: int, now: Time)
    requires card.state == New
    ensures
      var g, next := ClampRating(rating), ReviewCard(m, card, rating, now);
      next.stability == FirstStability(g) && next.difficulty == FirstDifficulty(m, g)
  {
  }

  /** Replaying the equations over a history of answers. */
  function Fsrs5(m: Math, history: seq<Answer>): (r: Memory)
  {
    var n := |history|;
    if n == 0 then Memory(0.0, 0.0)
    else
      var before, g := Fsrs5(m, history[..n - 1]), ClampRating(history[n - 1].rating);
      if n == 1 || before.stability <= 0.0 then Memory(FirstStability(g), FirstDifficulty(m, g))
      else
        var from, to := history[n - 2].at, history[n - 1].at;
        Next(m, before.stability, before.difficulty, WholeDays(from, to), from != 0 && to < from + DAY, g)
  }

  /** Whole days from one instant to another; none from the zero time or to an earlier one. */
  function WholeDays(from: Time, to: Time): nat { if from == 0 || to <= from then 0 else (to - from) / DAY }

  /** Two functions of a history that agree on one more answer whenever they agree, agree on all. */
  lemma {:induction false} AgreeThroughout(f: seq<Answer> -> Memory, g: seq<Answer> -> Memory, history: seq<Answer>)
    requires f([]) == g([])
    requires forall init, last :: f(init) == g(init) ==> f(init + [last]) == g(init + [last])
    ensures f(history) == g(history)
  {
    if history != [] {
      var init, last := history[..|history| - 1], history[|history| - 1];
      AgreeThroughout(f, g, init);
      assert init + [last] == history;
    }
  }

  function MemoryOf(m: Math, history: seq<Answer>): Memory
  {
    var card := ReviewAll(m, history);
    Memory(card.stability, card.difficulty)
  }

  /** On every history of answers the scheduler's memory state is that of the FSRS-5 equations. */
  lemma EveryHistoryFollowsFsrs5(m: Math, history: seq<Answer>)
    requires Sane(m)
    ensures MemoryOf(m, history) == Fsrs5(m, history)
  {
    var f, g := (h: seq<Answer>) => MemoryOf(m, h), (h: seq<Answer>) => Fsrs5(m, h);
    forall init, last | f(init) == g(init) ensures f(init + [last]) == g(init + [last]) {
      HistoryStep(m, init, last);
    }
    AgreeThroughout(f, g, history);
  }

  lemma HistoryStep(m: Math, init: seq<Answer>, last: Answer)
    requires Sane(m)
    requires MemoryOf(m, init) == Fsrs5(m, init)
    ensures MemoryOf(m, init + [last]) == Fsrs5(m, init + [last])
  {
    var card, history := ReviewAll(m, init), init + [last];
    assert history[..|init|] == init;
    EveryHistoryIsHealthy(m, init);
    if init == [] {
      FirstReviewFollowsFsrs5(m, card, last.rating, last.at);
    } else {
      ReviewFollowsFsrs5(m, card, last.rating, last.at);
      LaterStep(m, init, last);
    }
  }

  lemma LaterStep(m: Math, init: seq<Answer>, last: Answer)
    requires init != [] && Fsrs5(m, init).stability > 0.0
    ensures
      var before, from := Fsrs5(m, init), init[|init| - 1].at;
      Fsrs5(m, init + [last]) ==
        Next(m, before.stability, before.difficulty, WholeDays(from, last.at), from != 0 && last.at < from + DAY,
             ClampRating(last.rating))
  {
    assert (init + [last])[..|init|] == init;
  }

  /** The days until the next review: the stability, rounded half up, at least 1 and at most 36500. */
  function DueIn(s: real): int
  {
    if s >= 36500.0 then 36500 else if (s + 0.5).Floor < 1 then 1 else (s + 0.5).Floor
  }

  /** What any card with a usable stability is due after. */
  predicate DueByStability(card: Card, rating: int)
  {
    card.scheduledDays == if rating <= AGAIN then 0 else DueIn(card.stability)
  }

  lemma DueAfter(m: Math, card: Card, rating: int, now: Time)
    requires m.pow(0.9, -2.0) == 1.0 / 0.81 && ReviewCard(m, card, rating, now).stability > 0.0
    ensures DueByStability(ReviewCard(m, card, rating, now), rating)
  {
    OneInterval(m, card, rating, now);
    RoundsTo(m, ReviewCard(m, card, rating, now).stability);
  }

  /** On every history that ends with a recall the card is due after its stability in days, and at once
      after Again. */
  lemma EveryIntervalIsStability(m: Math, history: seq<Answer>)
    requires Sane(m) && m.pow(0.9, -2.0) == 1.0 / 0.81 && history != []
    ensures DueByStability(ReviewAll(m, history), history[|history| - 1].rating)
  {
    var init, last := history[..|history| - 1], history[|history| - 1];
    StaysPositive(m, history);
    DueAfter(m, ReviewAll(m, init), last.rating, last.at);
  }

  /** And the days it records are those since the answer before. */
  lemma EveryElapsedIsWholeDays(m: Math, history: seq<Answer>)
    requires history != []
    ensures ReviewAll(m, history).elapsedDays ==
      if |history| == 1 then 0 else WholeDays(history[|history| - 2].at, history[|history| - 1].at)
  {
    var n := |history|;
    var init, last := history[..n - 1], history[n - 1];
    LastReviewed(m, init);
    RecordsDays(m, ReviewAll(m, init), last.rating, last.at);
    if n > 1 { assert init[n - 2] == history[n - 2]; }
  }

  lemma RecordsDays(m: Math, card: Card, rating: int, now: Time)
    ensures ReviewCard(m, card, rating, now).elapsedDays == WholeDays(card.lastReview, now)
  {
  }

  lemma OneInterval(m: Math, card: Card, rating: int, now: Time)
    ensures
      var next := ReviewCard(m, card, rating, now);
      && next.elapsedDays == ElapsedDays(now, card.lastReview)
      && next.scheduledDays == if rating <= AGAIN then 0 else NextInterval(m, next.stability, DESIRED_RETENTION)
  {
  }

  lemma LastReviewed(m: Math, history: seq<Answer>)
    ensures ReviewAll(m, history).lastReview == if history == [] then 0 else history[|history| - 1].at
  {
  }

  lemma StaysPositive(m: Math, history: seq<Answer>)
    requires Sane(m) && history != []
    ensures ReviewAll(m, history).stability > 0.0
  {
    EveryHistoryIsHealthy(m, history);
  }

  lemma RoundsTo(m: Math, s: real)
    requires m.pow(0.9, -2.0) == 1.0 / 0.81 && s > 0.0
    ensures NextInterval(m, s, DESIRED_RETENTION) == DueIn(s)
  {
    IntervalIsRoundedStability(m, s);
  }

  /* ---- first reviews ---- */

  /** A new card, or one whose stored stability is not positive: a better answer starts it strictly more
      stable, at the four FSRS-5 values. */
  lemma FirstAnswers(m: Math, card: Card, rating: int, now: Time)
    requires card.state == New || card.stability <= 0.0
    ensures
      var s := ReviewCard(m, card, rating, now).stability;
      s == if rating <= 1 then 0.40255 else if rating == 2 then 1.18385 else if rating == 3 then 3.173 else 15.69105
  {
  }

  /** With 0.9 ^ -2 = 1 / 0.81, a new card is due again after 1, 3 or 16 days, and at once after Again. */
  lemma FirstIntervals(m: Math, card: Card, rating: int, now: Time)
    requires m.pow(0.9, -2.0) == 1.0 / 0.81 && (card.state == New || card.stability <= 0.0)
    ensures
      ReviewCard(m, card, rating, now).scheduledDays ==
        if rating <= 1 then 0 else if rating == 2 then 1 else if rating == 3 then 3 else 16
  {
    FirstAnswers(m, card, rating, now);
    IntervalIsRoundedStability(m, 1.18385);
    IntervalIsRoundedStability(m, 3.173);
    IntervalIsRoundedStability(m, 15.69105);
    assert Round(1.18385) == 1 && Round(3.173) == 3 && Round(15.69105) == 16;
  }

  /** A better first answer never makes the card harder; after Again its difficulty is 7.1949. */
  lemma FirstDifficultyFalls(m: Math, card: Card, low: int, high: int, now: Time)
    requires Sane(m) && card.state == New && low <= high
    ensures ReviewCard(m, card, high, now).difficulty <= ReviewCard(m, card, low, now).difficulty
    ensures low <= AGAIN ==> ReviewCard(m, card, low, now).difficulty == 7.1949
  {
    var x, y := 0.5345 * (ClampRating(low) - 1) as real, 0.5345 * (ClampRating(high) - 1) as real;
    assert x <= y;
    assert x == y || m.exp(x) < m.exp(y);
  }

  /* ---- reviews of the same day ---- */

  lemma SameDayStability(m: Math, card: Card, rating: int, now: Time)
    requires Sane(m) && Known(card) && WithinDay(card, now)
    ensures ReviewCard(m, card, rating, now).stability == AfterSameDay(m, card.stability, ClampRating(rating))
  {
    assert ElapsedDays(now, card.lastReview) == 0;
    SameDayFollows(m, card.stability, ClampRating(rating));
  }

  lemma MoreStable(s: real, x: real, y: real)
    requires s > 0.0 && x < y
    ensures s * x < s * y
  {
    ProductPositive(s, y - x);
    assert s * y - s * x == s * (y - x);
  }

  lemma AfterSameDayOrder(m: Math, s: real, g: int, g': int)
    requires Sane(m) && s > 0.0 && AGAIN <= g < g' <= EASY
    ensures AfterSameDay(m, s, g) < AfterSameDay(m, s, g')
  {
    var x, y := 0.51655 * ((g - 3) as real + 0.6621), 0.51655 * ((g' - 3) as real + 0.6621);
    assert x < y;
    MoreStable(s, m.exp(x), m.exp(y));
  }

  lemma AfterSameDayDirection(m: Math, s: real, g: int)
    requires Sane(m) && s > 0.0 && AGAIN <= g <= EASY
    ensures g <= HARD ==> AfterSameDay(m, s, g) < s
    ensures g >= GOOD ==> AfterSameDay(m, s, g) > s
  {
    var x := 0.51655 * ((g - 3) as real + 0.6621);
    if g <= HARD {
      assert x < 0.0;
      MoreStable(s, m.exp(x), m.exp(0.0));
    } else {
      assert x > 0.0;
      MoreStable(s, m.exp(0.0), m.exp(x));
    }
  }

  /** On the same day a better answer leaves the card strictly more stable. */
  lemma SameDayOrder(m: Math, card: Card, low: int, high: int, now: Time)
    requires Sane(m) && Known(card) && WithinDay(card, now) && ClampRating(low) < ClampRating(high)
    ensures ReviewCard(m, card, low, now).stability < ReviewCard(m, card, high, now).stability
  {
    SameDayStability(m, card, low, now);
    SameDayStability(m, card, high, now);
    AfterSameDayOrder(m, card.stability, ClampRating(low), ClampRating(high));
  }

  /** Again and Hard lower the stability on the same day, Good and Easy raise it. */
  lemma SameDayDirection(m: Math, card: Card, rating: int, now: Time)
    requires Sane(m) && Known(card) && WithinDay(card, now)
    ensures ClampRating(rating) <= HARD ==> ReviewCard(m, card, rating, now).stability < card.stability
    ensures ClampRating(rating) >= GOOD ==> ReviewCard(m, card, rating, now).stability > card.stability
  {
    SameDayStability(m, card, rating, now);
    AfterSameDayDirection(m, card.stability, ClampRating(rating));
  }

  /* ---- what recall and forgetting depend on ---- */

  lemma FourFactors(a: real, b: real, c: real, d: real, a': real, b': real, c': real, d': real)
    requires 0.0 <= a <= a' && 0.0 <= b <= b' && 0.0 <= c <= c' && 0.0 <= d <= d'
    ensures a * b * c * d <= a' * b' * c' * d'
  {
    TwoFactors(a, b, a', b');
    TwoFactors(a * b, c, a' * b', c');
    TwoFactors(a * b * c, d, a' * b' * c', d');
  }

  lemma TwoFactors(a: real, b: real, a': real, b': real)
    requires 0.0 <= a <= a' && 0.0 <= b <= b'
    ensures 0.0 <= a * b <= a' * b'
  {
    ProductNonNegative(a, b);
    ProductNonNegative(a' - a, b);
    ProductNonNegative(a', b' - b);
    assert a' * b' - a * b == (a' - a) * b + a' * (b' - b);
  }

  /** After a lapse the stability left never rises with difficulty or with how recallable the card was,
      and never falls with the stability it had. */
  lemma ForgettingOrder(m: Math, d: real, s: real, r: real, d': real, s': real, r': real)
    requires Sane(m) && 0.0 < d' <= d && 0.0 < s <= s' && r' <= r
    ensures AfterForgetting(m, d, s, r) <= AfterForgetting(m, d', s', r')
  {
    assert d == d' || m.pow(d, -0.11) < m.pow(d', -0.11);
    assert s == s' || m.pow(s + 1.0, 0.29605) < m.pow(s' + 1.0, 0.29605);
    assert m.pow(1.0, 0.29605) < m.pow(s + 1.0, 0.29605);
    assert r == r' || m.exp(2.2698 * (1.0 - r)) < m.exp(2.2698 * (1.0 - r'));
    FourFactors(1.9395, m.pow(d, -0.11), m.pow(s + 1.0, 0.29605) - 1.0, m.exp(2.2698 * (1.0 - r)),
                1.9395, m.pow(d', -0.11), m.pow(s' + 1.0, 0.29605) - 1.0, m.exp(2.2698 * (1.0 - r')));
  }

  /** A recall makes a card grow by no larger a factor the harder it is, the more recallable it was, and
      the more stable it was. */
  lemma RecallOrder(m: Math, d: real, s: real, r: real, d': real, s': real, r': real)
    requires Sane(m) && 1.0 <= d' <= d <= 10.0 && 0.0 < s' <= s && 0.0 <= r' <= r <= 1.0
    ensures Growth(m, d, s, r) <= Growth(m, d', s', r')
  {
    assert s == s' || m.pow(s, -0.1192) < m.pow(s', -0.1192);
    assert r == r' || m.exp(1.01925 * (1.0 - r)) < m.exp(1.01925 * (1.0 - r'));
    assert m.exp(1.01925 * (1.0 - r)) >= 1.0 by { MathAt(m, 1.01925 * (1.0 - r)); }
    FourFactors(m.exp(1.54575), 11.0 - d, m.pow(s, -0.1192), m.exp(1.01925 * (1.0 - r)) - 1.0,
                m.exp(1.54575), 11.0 - d', m.pow(s', -0.1192), m.exp(1.01925 * (1.0 - r')) - 1.0);
  }

  /** Retrievability falls with the days since the review and rises with stability. */
  lemma RecallableOrder(m: Math, days: nat, s: real, days': nat, s': real)
    requires Sane(m) && 0.0 < s' <= s && days <= days'
    ensures Recallable(m, days', s') <= Recallable(m, days, s)
  {
    var x, x' := 19.0 / 81.0 * days as real / s, 19.0 / 81.0 * days' as real / s';
    assert x <= x' by { FractionOrder(19.0 / 81.0 * days as real, s, 19.0 / 81.0 * days' as real, s'); }
    assert x >= 0.0;
    assert x == x' || m.pow(1.0 + x', -0.5) < m.pow(1.0 + x, -0.5);
  }

  lemma FractionOrder(n: real, d: real, n': real, d': real)
    requires 0.0 <= n <= n' && 0.0 < d' <= d
    ensures 0.0 <= n / d <= n' / d'
  {
    var x, x' := n / d, n' / d';
    assert x * d == n && x' * d' == n';
    SignOfProduct(x, d);
    SignOfProduct(x', d');
    ProductNonNegative(x', d - d');
    assert (x' - x) * d == x' * (d - d') + n' - n;
    SignOfProduct(x' - x, d);
  }
}
