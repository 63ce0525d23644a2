/** Bayesian knowledge tracing over exact reals. */
module Bkt {
  import opened Reals

  datatype State = State(mastery: real, learn: real, forget: real, slip: real, guess: real)

  const EPSILON: real := 0.000000001

  /** Probability of the response when the concept is mastered, and when it is not. */
  function IfMastered(slip: real, correct: bool): real { if correct then 1.0 - slip else slip }

  function IfNotMastered(guess: real, correct: bool): real { if correct then guess else 1.0 - guess }

  /** The marginal probability of a response with likelihoods a (mastered) and c (not mastered). */
  function Marginal(a: real, c: real, m: real): real
  {
    a * m + c * (1.0 - m)
  }

  function Guarded(marginal: real): real
  {
    if marginal < EPSILON then EPSILON else marginal
  }

  /** Posterior mastery, with the guarded denominator and the final clamp. */
  function Bayes(a: real, c: real, m: real): real
  {
    Clamp(a * m / Guarded(Marginal(a, c, m)), 0.0, 1.0)
  }

  /** The measurement update: posterior mastery from the response alone. */
  function Observe(s: State, correct: bool): State
  {
    s.(mastery := Bayes(IfMastered(s.slip, correct), IfNotMastered(s.guess, correct), s.mastery))
  }

  function ObserveAll(s: State, obs: seq<bool>): State
    decreases |obs|
  {
    if obs == [] then s else ObserveAll(Observe(s, obs[0]), obs[1..])
  }

  /* ---- order independence ---- */

  lemma Fraction(n: real, d: real)
    requires 0.0 <= n <= d && d > 0.0
    ensures 0.0 <= n / d <= 1.0
    ensures n / d * d == n
  {
  }

  /** Slip and guess leave every response possible under both hypotheses. */
  predicate Measurable(s: State)
  {
    EPSILON <= s.slip <= 1.0 - EPSILON && EPSILON <= s.guess <= 1.0 - EPSILON
  }

  lemma MarginalAboveGuard(m: real, a: real, c: real)
    requires 0.0 <= m <= 1.0 && a >= EPSILON && c >= EPSILON
    ensures Marginal(a, c, m) >= EPSILON
  {
    var x, y := (a - EPSILON) * m, (c - EPSILON) * (1.0 - m);
    assert x >= 0.0 by { ProductNonNegative(a - EPSILON, m); }
    assert y >= 0.0 by { ProductNonNegative(c - EPSILON, 1.0 - m); }
    assert a * m == x + EPSILON * m;
    assert c * (1.0 - m) == y + EPSILON * (1.0 - m);
  }

  /** When the guard does not fire the clamp does not act either. */
  lemma BayesUnguarded(a: real, c: real, m: real)
    requires 0.0 <= m <= 1.0 && a >= 0.0 && c >= 0.0 && Marginal(a, c, m) >= EPSILON
    ensures 0.0 <= Bayes(a, c, m) <= 1.0
    ensures Bayes(a, c, m) * Marginal(a, c, m) == a * m
  {
    ProductNonNegative(a, m);
    ProductNonNegative(c, 1.0 - m);
    Fraction(a * m, Marginal(a, c, m));
  }

  /** Mastery m weighs the two hypotheses as u to v. */
  predicate Weighs(m: real, u: real, v: real)
  {
    0.0 <= m <= 1.0 && u >= 0.0 && v >= 0.0 && u + v > 0.0 && m * (u + v) == u
  }

  /** A measurement whose marginal is above the guard multiplies each weight by its likelihood. */
  lemma WeighStep(m: real, u: real, v: real, a: real, c: real)
    requires Weighs(m, u, v) && a >= 0.0 && c >= 0.0 && Marginal(a, c, m) >= EPSILON
    ensures Weighs(Bayes(a, c, m), u * a, v * c)
  {
    var g := Marginal(a, c, m);
    BayesUnguarded(a, c, m);
    ProductNonNegative(u, a);
    ProductNonNegative(v, c);
    assert u * a + v * c > 0.0 by {
      WeighTotal(m, u, v, a, c);
      ProductPositive(g, u + v);
    }
    WeighAlgebra(m, u, v, a, c, g, Bayes(a, c, m));
  }

  lemma WeighTotal(m: real, u: real, v: real, a: real, c: real)
    requires m * (u + v) == u
    ensures u * a + v * c == Marginal(a, c, m) * (u + v)
  {
    var d := u + v;
    assert (1.0 - m) * d == v;
    assert (a * m + c * (1.0 - m)) * d == a * (m * d) + c * ((1.0 - m) * d);
  }

  lemma WeighAlgebra(m: real, u: real, v: real, a: real, c: real, g: real, x: real)
    requires m * (u + v) == u && g == a * m + c * (1.0 - m) && x * g == a * m
    ensures x * (u * a + v * c) == u * a
  {
    var d := u + v;
    assert (1.0 - m) * d == v;
    calc {
      x * (u * a + v * c);
      { assert g * d == a * (m * d) + c * ((1.0 - m) * d); }
      x * (g * d);
      (x * g) * d;
      (a * m) * d;
      a * (m * d);
      u * a;
    }
  }

  /* A value carried through the responses by one step function. */

  function Fold(step: (real, bool) -> real, x: real, obs: seq<bool>): real
    decreases |obs|
  {
    if obs == [] then x else Fold(step, step(x, obs[0]), obs[1..])
  }

  /** The condition holds of every value and response along the way. */
  predicate Along(step: (real, bool) -> real, ok: (real, bool) -> bool, x: real, obs: seq<bool>)
    decreases |obs|
  {
    obs != [] ==> ok(x, obs[0]) && Along(step, ok, step(x, obs[0]), obs[1..])
  }

  /** What one step keeps of three values, whenever the condition holds, a whole run keeps. */
  lemma {:induction false} FoldKeeps(f: (real, bool) -> real, g: (real, bool) -> real, h: (real, bool) -> real,
                                     ok: (real, bool) -> bool, P: (real, real, real) -> bool,
                                     m: real, u: real, v: real, obs: seq<bool>)
    requires P(m, u, v) && Along(f, ok, m, obs)
    requires forall m, u, v, o :: P(m, u, v) && ok(m, o) ==> P(f(m, o), g(u, o), h(v, o))
    ensures P(Fold(f, m, obs), Fold(g, u, obs), Fold(h, v, obs))
    decreases |obs|
  {
    if obs != [] {
      var o := obs[0];
      assert P(f(m, o), g(u, o), h(v, o));
      FoldKeeps(f, g, h, ok, P, f(m, o), g(u, o), h(v, o), obs[1..]);
    }
  }

  function Measure(slip: real, guess: real): (real, bool) -> real
  {
    (m, o) => Bayes(IfMastered(slip, o), IfNotMastered(guess, o), m)
  }

  function AboveGuard(slip: real, guess: real): (real, bool) -> bool
  {
    (m, o) => Marginal(IfMastered(slip, o), IfNotMastered(guess, o), m) >= EPSILON
  }

  function Times(right: real, wrong: real): (real, bool) -> real
  {
    (w, o) => w * (if o then right else wrong)
  }

  lemma {:induction false} ObserveIsFold(s: State, obs: seq<bool>)
    ensures ObserveAll(s, obs) == s.(mastery := Fold(Measure(s.slip, s.guess), s.mastery, obs))
    decreases |obs|
  {
    if obs != [] { ObserveIsFold(Observe(s, obs[0]), obs[1..]); }
  }

  /** A starting weight multiplied by the likelihood of each response. */
  function Weight(start: real, right: real, wrong: real, obs: seq<bool>): real
  {
    Fold(Times(right, wrong), start, obs)
  }

  /** No marginal along the run falls under the guard. */
  predicate Unguarded(s: State, obs: seq<bool>)
  {
    Along(Measure(s.slip, s.guess), AboveGuard(s.slip, s.guess), s.mastery, obs)
  }

  /** All parameters are probabilities. */
  predicate Probabilities(s: State)
  {
    0.0 <= s.mastery <= 1.0 && 0.0 <= s.slip <= 1.0 && 0.0 <= s.guess <= 1.0
  }

  lemma MeasureWeighs(slip: real, guess: real, m: real, u: real, v: real, o: bool)
    requires 0.0 <= slip <= 1.0 && 0.0 <= guess <= 1.0 && Weighs(m, u, v) && AboveGuard(slip, guess)(m, o)
    ensures Weighs(Measure(slip, guess)(m, o), Times(1.0 - slip, slip)(u, o), Times(guess, 1.0 - guess)(v, o))
  {
    WeighStep(m, u, v, IfMastered(slip, o), IfNotMastered(guess, o));
  }

  /** Any run of measurements above the guard weighs the hypotheses by the prior times the run's
      likelihoods. */
  lemma RunWeighs(s: State, obs: seq<bool>)
    requires Probabilities(s) && Unguarded(s, obs)
    ensures Weighs(Fold(Measure(s.slip, s.guess), s.mastery, obs), Weight(s.mastery, 1.0 - s.slip, s.slip, obs),
                   Weight(1.0 - s.mastery, s.guess, 1.0 - s.guess, obs))
  {
    var f, g, h := Measure(s.slip, s.guess), Times(1.0 - s.slip, s.slip), Times(s.guess, 1.0 - s.guess);
    var ok, P := AboveGuard(s.slip, s.guess), (m, u, v) => Weighs(m, u, v);
    forall m, u, v, o | P(m, u, v) && ok(m, o) ensures P(f(m, o), g(u, o), h(v, o)) {
      MeasureWeighs(s.slip, s.guess, m, u, v, o);
    }
    PriorWeighs(s.mastery);
    FoldKeeps(f, g, h, ok, P, s.mastery, s.mastery, 1.0 - s.mastery, obs);
  }

  lemma PriorWeighs(m: real)
    requires 0.0 <= m <= 1.0
    ensures Weighs(m, m, 1.0 - m)
  {
  }

  lemma MeasurableStep(slip: real, guess: real, m: real, o: bool)
    requires 0.0 <= m <= 1.0 && EPSILON <= slip <= 1.0 - EPSILON && EPSILON <= guess <= 1.0 - EPSILON
    ensures AboveGuard(slip, guess)(m, o) && 0.0 <= Measure(slip, guess)(m, o) <= 1.0
  {
    MarginalAboveGuard(m, IfMastered(slip, o), IfNotMastered(guess, o));
    BayesUnguarded(IfMastered(slip, o), IfNotMastered(guess, o), m);
  }

  lemma {:induction false} MeasurableAlong(slip: real, guess: real, m: real, obs: seq<bool>)
    requires 0.0 <= m <= 1.0 && EPSILON <= slip <= 1.0 - EPSILON && EPSILON <= guess <= 1.0 - EPSILON
    ensures Along(Measure(slip, guess), AboveGuard(slip, guess), m, obs)
    decreases |obs|
  {
    if obs != [] {
      MeasurableStep(slip, guess, m, obs[0]);
      MeasurableAlong(slip, guess, Measure(slip, guess)(m, obs[0]), obs[1..]);
    }
  }

  /** In the measurable range the guard never fires. */
  lemma MeasurableUnguarded(s: State, obs: seq<bool>)
    requires 0.0 <= s.mastery <= 1.0 && Measurable(s)
    ensures Unguarded(s, obs)
  {
    MeasurableAlong(s.slip, s.guess, s.mastery, obs);
  }

  function Count(obs: seq<bool>, value: bool): nat
  {
    if obs == [] then 0 else (if obs[0] == value then 1 else 0) + Count(obs[1..], value)
  }

  function Power(x: real, n: nat): real
  {
    if n == 0 then 1.0 else Power(x, n - 1) * x
  }

  /** start * x^n * y^k */
  function Scaled(start: real, x: real, n: nat, y: real, k: nat): real
  {
    start * Power(x, n) * Power(y, k)
  }

  lemma ScaledStep(start: real, x: real, n: nat, y: real, k: nat)
    ensures Scaled(start * x, x, n, y, k) == Scaled(start, x, n + 1, y, k)
    ensures Scaled(start * y, x, n, y, k) == Scaled(start, x, n, y, k + 1)
  {
    Rearrange(start, Power(x, n), Power(y, k), x, y);
  }

  lemma Rearrange(s: real, a: real, b: real, x: real, y: real)
    ensures (s * x) * a * b == s * (a * x) * b
    ensures (s * y) * a * b == s * a * (b * y)
  {
  }

  lemma {:induction false} WeightByCounts(start: real, x: real, y: real, obs: seq<bool>)
    ensures Weight(start, x, y, obs) == Scaled(start, x, Count(obs, true), y, Count(obs, false))
    decreases |obs|
  {
    if obs != [] {
      assert Times(x, y)(start, obs[0]) == start * (if obs[0] then x else y);
      WeightByCounts(start * (if obs[0] then x else y), x, y, obs[1..]);
      ScaledStep(start, x, Count(obs[1..], true), y, Count(obs[1..], false));
    }
  }

  /** The mastery after any measurements above the guard is Bayes' rule applied once to the counts of
      correct and incorrect answers, whatever their order. */
  lemma MasteryByCounts(s: State, obs: seq<bool>)
    requires Probabilities(s) && Unguarded(s, obs)
    ensures
      var n, k := Count(obs, true), Count(obs, false);
      var u := Scaled(s.mastery, 1.0 - s.slip, n, s.slip, k);
      var v := Scaled(1.0 - s.mastery, s.guess, n, 1.0 - s.guess, k);
      u + v > 0.0 && ObserveAll(s, obs) == s.(mastery := u / (u + v))
  {
    RunWeighs(s, obs);
    ObserveIsFold(s, obs);
    WeightByCounts(s.mastery, 1.0 - s.slip, s.slip, obs);
    WeightByCounts(1.0 - s.mastery, s.guess, 1.0 - s.guess, obs);
    var n, k := Count(obs, true), Count(obs, false);
    WeighedMastery(ObserveAll(s, obs).mastery, Scaled(s.mastery, 1.0 - s.slip, n, s.slip, k),
                   Scaled(1.0 - s.mastery, s.guess, n, 1.0 - s.guess, k));
  }

  lemma WeighedMastery(m: real, u: real, v: real)
    requires Weighs(m, u, v)
    ensures m == u / (u + v)
  {
  }

  lemma {:induction false} CountIsMultiplicity(obs: seq<bool>, value: bool)
    ensures Count(obs, value) == multiset(obs)[value]
  {
    if obs != [] {
      CountIsMultiplicity(obs[1..], value);
      assert obs == [obs[0]] + obs[1..];
    }
  }

  lemma SameCounts(obs: seq<bool>, obs': seq<bool>)
    requires multiset(obs) == multiset(obs')
    ensures Count(obs, true) == Count(obs', true) && Count(obs, false) == Count(obs', false)
  {
    CountIsMultiplicity(obs, true);
    CountIsMultiplicity(obs', true);
    CountIsMultiplicity(obs, false);
    CountIsMultiplicity(obs', false);
  }

  /** Permuting measurements changes nothing while the guard fires in neither order. */
  lemma UnguardedOrderIgnored(s: State, obs: seq<bool>, obs': seq<bool>)
    requires Probabilities(s) && Unguarded(s, obs) && Unguarded(s, obs') && multiset(obs) == multiset(obs')
    ensures ObserveAll(s, obs) == ObserveAll(s, obs')
  {
    SameCounts(obs, obs');
    MasteryByCounts(s, obs);
    MasteryByCounts(s, obs');
  }

  /** Permuting the measurements changes nothing in the measurable range. */
  lemma ObservationOrderIgnored(s: State, obs: seq<bool>, obs': seq<bool>)
    requires 0.0 <= s.mastery <= 1.0 && Measurable(s) && multiset(obs) == multiset(obs')
    ensures ObserveAll(s, obs) == ObserveAll(s, obs')
  {
    MeasurableUnguarded(s, obs);
    MeasurableUnguarded(s, obs');
    UnguardedOrderIgnored(s, obs, obs');
  }

  /** Where the epsilon guard fires in one order only, the order can matter. */
  lemma GuardBreaksOrder()
    ensures
      var s := State(EPSILON, 0.0, 0.0, 0.5, 0.0);
      !Measurable(s) && ObserveAll(s, [true, false]).mastery == 1.0 / 3.0 && ObserveAll(s, [false, true]).mastery < 0.3
  {
    var s := State(EPSILON, 0.0, 0.0, 0.5, 0.0);
    assert [true, false][1..] == [false] && [false, true][1..] == [true] && [true][1..] == [] && [false][1..] == [];
    var right, wrong := Observe(s, true), Observe(s, false);
    assert right.mastery == 0.5;
    assert ObserveAll(s, [true, false]) == Observe(right, false);
    assert ObserveAll(s, [false, true]) == Observe(wrong, true);
    assert wrong.mastery == 0.5 * EPSILON / (1.0 - 0.5 * EPSILON);
    assert wrong.mastery < 0.51 * EPSILON;
    assert Marginal(0.5, 0.0, wrong.mastery) == 0.5 * wrong.mastery;
  }

  /* ---- direction of one measurement ---- */

  /** When a response with likelihoods a and c does not lower mastery m: above the guard, when it is
      no less likely under mastery; under it, when a itself is not below the guard. */
  predicate Raises(a: real, c: real, m: real)
  {
    m == 0.0 || (if Marginal(a, c, m) < EPSILON then a >= EPSILON else m == 1.0 || a >= c)
  }

  predicate Lowers(a: real, c: real, m: real)
  {
    m == 0.0 || m == 1.0 || (if Marginal(a, c, m) < EPSILON then a <= EPSILON else a <= c)
  }

  lemma GuardedDirection(a: real, c: real, m: real)
    requires 0.0 < m <= 1.0 && a >= 0.0 && c >= 0.0 && Marginal(a, c, m) < EPSILON
    ensures Bayes(a, c, m) >= m <==> a >= EPSILON
    ensures Bayes(a, c, m) <= m <==> a <= EPSILON
  {
    ProductNonNegative(a, m);
    ProductNonNegative(c, 1.0 - m);
    var x := a * m / EPSILON;
    Fraction(a * m, EPSILON);
    assert (x - m) * EPSILON == (a - EPSILON) * m;
    SignOfProduct(x - m, EPSILON);
    SignOfProduct(a - EPSILON, m);
  }

  /** A measurement does not lower, and does not raise, the mastery exactly then, for all
      likelihoods and every mastery, the guard included. */
  lemma DirectionIff(a: real, c: real, m: real)
    requires 0.0 <= m <= 1.0 && a >= 0.0 && c >= 0.0
    ensures Bayes(a, c, m) >= m <==> Raises(a, c, m)
    ensures Bayes(a, c, m) <= m <==> Lowers(a, c, m)
  {
    if m == 0.0 {
      assert a * m == 0.0;
    } else if Marginal(a, c, m) < EPSILON {
      GuardedDirection(a, c, m);
    } else {
      BayesUnguarded(a, c, m);
      if m < 1.0 {
        DirectionAlgebra(a, c, m, Marginal(a, c, m), Bayes(a, c, m));
      }
    }
  }

  lemma DirectionAlgebra(a: real, c: real, m: real, g: real, x: real)
    requires 0.0 < m < 1.0 && g > 0.0 && g == a * m + c * (1.0 - m) && x * g == a * m
    ensures x >= m <==> a >= c
    ensures x <= m <==> a <= c
  {
    var q := m * (1.0 - m);
    assert q > 0.0 by { ProductPositive(m, 1.0 - m); }
    calc {
      (x - m) * g;
      x * g - m * g;
      a * m - m * (a * m + c * (1.0 - m));
      (a - c) * q;
    }
    SignOfProduct(x - m, g);
    SignOfProduct(a - c, q);
  }
}
