/** The FSRS-5 memory state machine over exact reals. */
module Fsrs {
  import opened Reals

  /** The two transcendental functions, known only through the facts stated in `Sane`. */
  datatype Math = Math(exp: real -> real, pow: (real, real) -> real)

  ghost predicate Sane(m: Math)
  {
    && (forall x :: m.exp(x) > 0.0)
    && m.exp(0.0) == 1.0
    && (forall x, y :: x < y ==> m.exp(x) < m.exp(y))
    && (forall x, y :: x > 0.0 ==> m.pow(x, y) > 0.0)
    && (forall y :: m.pow(1.0, y) == 1.0)
    && (forall x, x', y :: 0.0 < x < x' && y > 0.0 ==> m.pow(x, y) < m.pow(x', y))
    && (forall x, x', y :: 0.0 < x < x' && y < 0.0 ==> m.pow(x', y) < m.pow(x, y))
  }

  /** Instants in nanoseconds since the zero time, which stands for "never". */
  type Time = int
  const DAY: Time := 86_400_000_000_000

  datatype CardState = New | Learning | Review | Relearning

  datatype Card = Card(stability: real, difficulty: real, elapsedDays: int, scheduledDays: int, reps: nat, lapses: nat,
                       state: CardState, lastReview: Time)

  const NEW_CARD := Card(0.0, 0.0, 0, 0, 0, 0, New, 0)

  const AGAIN: int := 1
  const HARD: int := 2
  const GOOD: int := 3
  const EASY: int := 4

  const DESIRED_RETENTION: real := 0.9
  const DECAY: real := -0.5
  const FACTOR: real := 19.0 / 81.0
  const MAX_INTERVAL: int := 36500
  const EPSILON: real := 0.000000001

  const WEIGHTS: seq<real> := [
    0.40255, 1.18385, 3.173, 15.69105, 7.1949, 0.5345, 1.4604, 0.0046, 1.54575, 0.1192,
    1.01925, 1.9395, 0.11, 0.29605, 2.2698, 0.2315, 2.9898, 0.51655, 0.6621]

  function ClampRating(rating: int): (r: int)
    ensures AGAIN <= r <= EASY
    ensures r == AGAIN <==> rating <= AGAIN
  {
    if rating < AGAIN then AGAIN else if rating > EASY then EASY else rating
  }

  function Positive(s: real, fallback: real): real
  {
    if s <= 0.0 then fallback else s
  }

  function Retrievability(m: Math, elapsedDays: int, stability: real): real
  {
    if stability <= 0.0 then 0.0
    else m.pow(1.0 + FACTOR * (if elapsedDays < 0 then 0 else elapsedDays) as real / stability, DECAY)
  }

  function ElapsedDays(now: Time, lastReview: Time): int
  {
    if lastReview == 0 || now <= lastReview then 0 else (now - lastReview) / DAY
  }

  function InitialStability(rating: int): real
  {
    WEIGHTS[ClampRating(rating) - 1]
  }

  function InitialDifficulty(m: Math, rating: int): real
  {
    Clamp(WEIGHTS[4] - m.exp(WEIGHTS[5] * (ClampRating(rating) - 1) as real) + 1.0, 1.0, 10.0)
  }

  function NextDifficulty(m: Math, d: real, rating: int): real
  {
    var d' := Clamp(d, 1.0, 10.0);
    var delta := -WEIGHTS[6] * (ClampRating(rating) - 3) as real;
    var damped := d' + delta * (10.0 - d') / 9.0;
    Clamp(WEIGHTS[7] * InitialDifficulty(m, EASY) + (1.0 - WEIGHTS[7]) * damped, 1.0, 10.0)
  }

  function Modifier(rating: int): real
  {
    var r := ClampRating(rating);
    if r == HARD then WEIGHTS[15] else if r == EASY then WEIGHTS[16] else 1.0
  }

  /** The relative growth of stability on recall, before the rating modifier. */
  function Growth(m: Math, d: real, s: real, r: real): real
  {
    m.exp(WEIGHTS[8]) * (11.0 - d) * m.pow(s, -WEIGHTS[9]) * (m.exp(WEIGHTS[10] * (1.0 - r)) - 1.0)
  }

  function RecallStability(m: Math, d: real, s: real, r: real, rating: int): real
  {
    var d', s', r' := Clamp(d, 1.0, 10.0), Positive(s, EPSILON), Clamp(r, 0.0, 1.0);
    Positive(s' * (Growth(m, d', s', r') * Modifier(rating) + 1.0), s')
  }

  function ForgetStability(m: Math, d: real, s: real, r: real): real
  {
    var d', s', r' := Clamp(d, 1.0, 10.0), Positive(s, EPSILON), Clamp(r, 0.0, 1.0);
    Positive(WEIGHTS[11] * m.pow(d',
      -WEIGHTS[12]) * (m.pow(s' + 1.0, WEIGHTS[13]) - 1.0) * m.exp(WEIGHTS[14] * (1.0 - r')), EPSILON)
  }

  function ShortTermStability(m: Math, s: real, rating: int): real
  {
    var s' := Positive(s, EPSILON);
    Positive(s' * m.exp(WEIGHTS[17] * ((ClampRating(rating) - 3) as real + WEIGHTS[18])), s')
  }

  /** math.Round for the non-negative values it is applied to. */
  function Round(x: real): int { (x + 0.5).Floor }

  function NextInterval(m: Math, stability: real, retention: real): int
  {
    var s := Positive(stability, EPSILON);
    var q := if retention <= 0.0 || retention > 1.0 then DESIRED_RETENTION else retention;
    var interval := s * ((m.pow(q, 1.0 / DECAY) - 1.0) / FACTOR);
    if interval >= MAX_INTERVAL as real then MAX_INTERVAL
    else if Round(interval) < 1 then 1 else Round(interval)
  }

  function Min(a: real, b: real): real { if a < b then a else b }

  /** The stability a review of a known card leads to. */
  function ReviewedStability(m: Math, card: Card, rating: int, now: Time): real
  {
    var elapsed := ElapsedDays(now, card.lastReview);
    if card.stability <= 0.0 then InitialStability(rating)
    else if elapsed == 0 && card.lastReview != 0 then ShortTermStability(m, card.stability, rating)
    else
      var r := Retrievability(m, elapsed, card.stability);
      if rating == AGAIN then
        var e := m.exp(WEIGHTS[17] * WEIGHTS[18]);
        Min(if e == 0.0 then 0.0 else card.stability / e, ForgetStability(m, card.difficulty, card.stability, r))
      else RecallStability(m, card.difficulty, card.stability, r, rating)
  }

  function ReviewCard(m: Math, card: Card, rating0: int, now: Time): Card
  {
    var rating := ClampRating(rating0);
    var base := card.(elapsedDays := ElapsedDays(now, card.lastReview), lastReview := now, reps := card.reps + 1);
    if card.state == New then
      var s := InitialStability(rating);
      var next := base.(stability := s, difficulty := InitialDifficulty(m, rating));
      if rating == AGAIN then next.(state := Learning, scheduledDays := 0)
      else next.(state := Review, scheduledDays := NextInterval(m, s, DESIRED_RETENTION))
    else
      var s := ReviewedStability(m, card, rating, now);
      var next := base.(stability := s, difficulty := NextDifficulty(m, card.difficulty, rating));
      if rating == AGAIN then
        if card.state == Review then next.(lapses := card.lapses + 1, state := Relearning, scheduledDays := 0)
        else next.(scheduledDays := 0)
      else next.(state := Review, scheduledDays := NextInterval(m, s, DESIRED_RETENTION))
  }

  /* ---- whole histories ---- */

  datatype Answer = Answer(rating: int, at: Time)

  function ReviewAll(m: Math, history: seq<Answer>): Card
  {
    if history == [] then NEW_CARD
    else ReviewCard(m, ReviewAll(m, history[..|history| - 1]), history[|history| - 1].rating, history[|history| - 1].at)
  }

  predicate IsAgain(a: Answer) { a.rating <= AGAIN }

  /** Adjacent answers that go from a recall to a failure. */
  function LapseCount(history: seq<Answer>): nat
  {
    var n := |history|;
    if n < 2 then 0
      else LapseCount(history[..n - 1]) + (if !IsAgain(history[n - 2]) && IsAgain(history[n - 1]) then 1 else 0)
  }

  lemma MathAt(m: Math, x: real)
    requires Sane(m)
    ensures m.exp(x) > 0.0
    ensures x >= 0.0 ==> m.exp(x) >= 1.0
  {
  }

  lemma QuotientPositive(n: real, d: real)
    requires n > 0.0 && d > 0.0
    ensures n / d > 0.0
  {
  }

  lemma ReviewedStabilityPositive(m: Math, card: Card, rating: int, now: Time)
    requires Sane(m) && AGAIN <= rating <= EASY
    ensures ReviewedStability(m, card, rating, now) > 0.0
  {
    if card.stability > 0.0 {
      MathAt(m, WEIGHTS[17] * WEIGHTS[18]);
      QuotientPositive(card.stability, m.exp(WEIGHTS[17] * WEIGHTS[18]));
    }
  }

  lemma IntervalRange(m: Math, stability: real, retention: real)
    ensures 1 <= NextInterval(m, stability, retention) <= MAX_INTERVAL
  {
  }

  /** What every non-empty history of a new card leads to. */
  ghost predicate Healthy(m: Math, history: seq<Answer>)
  {
    var card := ReviewAll(m, history);
    && card.reps == |history|
    && card.lapses == LapseCount(history)
    && (history == [] ==> card.state == New)
    && (history != [] ==>
          && card.stability > 0.0
          && 1.0 <= card.difficulty <= 10.0
          && card.state != New
          && (card.state == Review <==> !IsAgain(history[|history| - 1]))
          && (card.scheduledDays == 0 <==> IsAgain(history[|history| - 1]))
          && 0 <= card.scheduledDays <= MAX_INTERVAL
          && card.lastReview == history[|history| - 1].at)
  }

  lemma HealthyStep(m: Math, history: seq<Answer>)
    requires Sane(m) && history != [] && Healthy(m, history[..|history| - 1])
    ensures Healthy(m, history)
  {
    var n := |history|;
    var init, last := history[..n - 1], history[n - 1];
    var card := ReviewAll(m, init);
    var rating := ClampRating(last.rating);
    ReviewedStabilityPositive(m, card, rating, last.at);
    var next := ReviewAll(m, history);
    IntervalRange(m, next.stability, DESIRED_RETENTION);
    if n >= 2 {
      assert init[n - 2] == history[n - 2];
    }
  }

  /** For every rating history from a new card: stability stays positive, difficulty stays in
      [1, 10], the interval is 0 exactly after Again and otherwise in [1, 36500], and lapses counts
      the recalls immediately followed by a failure. */
  lemma {:induction false} EveryHistoryIsHealthy(m: Math, history: seq<Answer>)
    requires Sane(m)
    ensures Healthy(m, history)
  {
    if history != [] {
      EveryHistoryIsHealthy(m, history[..|history| - 1]);
      HealthyStep(m, history);
    }
  }

  /* ---- recall, lapse and relearning ---- */

  lemma GrowthNonNegative(m: Math, d: real, s: real, r: real)
    requires Sane(m) && 1.0 <= d <= 10.0 && s > 0.0 && 0.0 <= r <= 1.0
    ensures Growth(m, d, s, r) >= 0.0
  {
    MathAt(m, WEIGHTS[8]);
    MathAt(m, WEIGHTS[10] * (1.0 - r));
    assert m.pow(s, -WEIGHTS[9]) > 0.0;
    ProductNonNegative(m.exp(WEIGHTS[8]), 11.0 - d);
    ProductNonNegative(m.exp(WEIGHTS[8]) * (11.0 - d), m.pow(s, -WEIGHTS[9]));
    ProductNonNegative(m.exp(WEIGHTS[8]) * (11.0 - d) * m.pow(s, -WEIGHTS[9]), m.exp(WEIGHTS[10] * (1.0 - r)) - 1.0);
  }

  lemma GrowsBy(s: real, g: real, k: real)
    requires s > 0.0 && g >= 0.0 && k >= 0.0
    ensures s * (g * k + 1.0) >= s
  {
    ProductNonNegative(g, k);
    ProductNonNegative(s, g * k);
    assert s * (g * k + 1.0) == s * (g * k) + s;
  }

  lemma GrowsMore(s: real, g: real, k: real, k': real)
    requires s > 0.0 && g >= 0.0 && k <= k'
    ensures s * (g * k + 1.0) <= s * (g * k' + 1.0)
  {
    ProductNonNegative(g, k' - k);
    ProductNonNegative(s, g * (k' - k));
    assert s * (g * k' + 1.0) - s * (g * k + 1.0) == s * (g * (k' - k));
  }

  lemma RecallForm(m: Math, d: real, s: real, r: real, rating: int)
    requires Sane(m) && s > 0.0 && HARD <= rating <= EASY
    ensures
      var g := Growth(m, Clamp(d, 1.0, 10.0), s, Clamp(r, 0.0, 1.0));
      g >= 0.0 && RecallStability(m, d, s, r, rating) == s * (g * Modifier(rating) + 1.0)
        && s * (g * Modifier(rating) + 1.0) >= s
  {
    GrowthNonNegative(m, Clamp(d, 1.0, 10.0), s, Clamp(r, 0.0, 1.0));
    GrowsBy(s, Growth(m, Clamp(d, 1.0, 10.0), s, Clamp(r, 0.0, 1.0)), Modifier(rating));
  }

  predicate Delayed(card: Card, now: Time)
  {
    card.state != New && card.stability > 0.0 && !(ElapsedDays(now, card.lastReview) == 0 && card.lastReview != 0)
  }

  /** The stability a delayed recall leads to. */
  lemma DelayedRecall(m: Math, card: Card, rating: int, now: Time)
    requires Sane(m) && Delayed(card, now) && HARD <= rating <= EASY
    ensures
      var r := Retrievability(m, ElapsedDays(now, card.lastReview), card.stability);
      var g := Growth(m, Clamp(card.difficulty, 1.0, 10.0), card.stability, Clamp(r, 0.0, 1.0));
      && g >= 0.0
      && ReviewCard(m, card, rating, now).stability == card.stability * (g * Modifier(rating) + 1.0)
      && card.stability * (g * Modifier(rating) + 1.0) >= card.stability
  {
    var r := Retrievability(m, ElapsedDays(now, card.lastReview), card.stability);
    RecallForm(m, card.difficulty, card.stability, r, rating);
  }

  lemma BetterRecall(m: Math, card: Card, low: int, high: int, now: Time)
    requires Sane(m) && Delayed(card, now) && HARD <= low <= high <= EASY
    ensures card.stability <= ReviewCard(m, card, low, now).stability <= ReviewCard(m, card, high, now).stability
  {
    var r := Retrievability(m, ElapsedDays(now, card.lastReview), card.stability);
    var g := Growth(m, Clamp(card.difficulty, 1.0, 10.0), card.stability, Clamp(r, 0.0, 1.0));
    DelayedRecall(m, card, low, now);
    DelayedRecall(m, card, high, now);
    GrowsMore(card.stability, g, Modifier(low), Modifier(high));
  }

  /** A delayed recall never lowers stability, and a better rating never gives less. */
  lemma DelayedRecallGrows(m: Math, card: Card, now: Time)
    requires Sane(m) && Delayed(card, now)
    ensures card.stability <= ReviewCard(m, card, HARD, now).stability
      <= ReviewCard(m, card, GOOD, now).stability <= ReviewCard(m, card, EASY, now).stability
  {
    BetterRecall(m, card, HARD, GOOD, now);
    BetterRecall(m, card, GOOD, EASY, now);
  }

  lemma CapUndone(s: real, x: real, e: real)
    requires s > 0.0 && e > 0.0 && x <= s / e
    ensures x * e <= s
  {
    ProductNonNegative(s / e - x, e);
    assert s / e * e == s;
    assert (s / e - x) * e == s / e * e - x * e;
  }

  /** The cap on a delayed failure: stability stays positive and at most a factor below the old one. */
  lemma LapseCapped(m: Math, card: Card, lapse: Time)
    requires Sane(m) && Delayed(card, lapse)
    ensures
      var failed := ReviewCard(m, card, AGAIN, lapse);
      && 0.0 < failed.stability <= card.stability / m.exp(WEIGHTS[17] * WEIGHTS[18])
      && failed.state != New && failed.lastReview == lapse
  {
    MathAt(m, WEIGHTS[17] * WEIGHTS[18]);
    ReviewedStabilityPositive(m, card, AGAIN, lapse);
  }

  lemma GoodFactor(m: Math, s: real)
    requires Sane(m) && s > 0.0
    ensures ShortTermStability(m, s, GOOD) == s * m.exp(WEIGHTS[17] * WEIGHTS[18])
  {
    var e := m.exp(WEIGHTS[17] * WEIGHTS[18]);
    MathAt(m, WEIGHTS[17] * WEIGHTS[18]);
    assert (ClampRating(GOOD) - 3) as real + WEIGHTS[18] == WEIGHTS[18];
    assert s * e > 0.0;
  }

  lemma SameDay(m: Math, card: Card, now: Time)
    requires card.state != New && card.stability > 0.0 && card.lastReview != 0 && now < card.lastReview + DAY
    ensures ReviewCard(m, card, GOOD, now).stability == ShortTermStability(m, card.stability, GOOD)
  {
    assert ElapsedDays(now, card.lastReview) == 0;
  }

  lemma RelearnedStability(m: Math, failed: Card, relearn: Time)
    requires Sane(m) && failed.stability > 0.0
    requires failed.state != New && failed.lastReview != 0 && relearn < failed.lastReview + DAY
    ensures ReviewCard(m, failed, GOOD, relearn).stability == failed.stability * m.exp(WEIGHTS[17] * WEIGHTS[18])
  {
    SameDay(m, failed, relearn);
    GoodFactor(m, failed.stability);
  }

  lemma RelearnUnderCap(m: Math, s: real, failed: Card, relearn: Time)
    requires Sane(m) && s > 0.0
    requires 0.0 < failed.stability <= s / m.exp(WEIGHTS[17] * WEIGHTS[18])
    requires failed.state != New && failed.lastReview != 0 && relearn < failed.lastReview + DAY
    ensures ReviewCard(m, failed, GOOD, relearn).stability <= s
  {
    RelearnedStability(m, failed, relearn);
    MathAt(m, WEIGHTS[17] * WEIGHTS[18]);
    CapUndone(s, failed.stability, m.exp(WEIGHTS[17] * WEIGHTS[18]));
  }

  /** A delayed Again followed by a same-day Good never exceeds the stability before the lapse. */
  lemma RelearningNeverExceeds(m: Math, card: Card, lapse: Time, relearn: Time)
    requires Sane(m) && Delayed(card, lapse) && lapse != 0 && relearn < lapse + DAY
    ensures ReviewCard(m, ReviewCard(m, card, AGAIN, lapse), GOOD, relearn).stability <= card.stability
  {
    LapseCapped(m, card, lapse);
    RelearnUnderCap(m, card.stability, ReviewCard(m, card, AGAIN, lapse), relearn);
  }

  /** A better rating never makes the card harder. */
  lemma BetterRatingEasier(m: Math, d: real, r1: int, r2: int)
    requires r1 <= r2
    ensures NextDifficulty(m, d, r2) <= NextDifficulty(m, d, r1)
  {
    var d' := Clamp(d, 1.0, 10.0);
    var x1, x2 := (ClampRating(r1) - 3) as real, (ClampRating(r2) - 3) as real;
    assert x1 <= x2;
    ProductNonNegative(x2 - x1, 10.0 - d');
    assert (-WEIGHTS[6] * x1) * (10.0 - d') - (-WEIGHTS[6] * x2) * (10.0 - d') ==
      WEIGHTS[6] * ((x2 - x1) * (10.0 - d'));
  }

  /** With 0.9 ^ -2 = 1 / 0.81 the scheduled interval is the stability itself, rounded and kept in range. */
  lemma IntervalIsRoundedStability(m: Math, stability: real)
    requires m.pow(0.9, -2.0) == 1.0 / 0.81 && stability > 0.0
    ensures NextInterval(m, stability, DESIRED_RETENTION) ==
      (if stability >= MAX_INTERVAL as real then MAX_INTERVAL else if Round(stability) < 1 then 1 else Round(stability))
  {
    assert 1.0 / DECAY == -2.0;
    assert (1.0 / 0.81 - 1.0) / FACTOR == 1.0;
  }
}
