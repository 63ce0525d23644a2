/** Exactly when the order of measurements matters, the epsilon guard included. */
module BktOrder {
  import opened Reals
  import opened Bkt

  /** Mastery as a fraction of the joint probability of mastery and the responses so far. */
  predicate Fractional(m: real, u: real, g: real)
  {
    g > 0.0 && 0.0 <= u <= g && m * g == u
  }

  /** The denominator after a response with likelihoods a and c: what the guard leaves of the joint
      probability of the responses. */
  function Denominator(a: real, c: real, u: real, g: real): real
  {
    var joint := u * a + c * (g - u);
    if joint < EPSILON * g then EPSILON * g else joint
  }

  lemma GuardedTimes(a: real, c: real, m: real, u: real, g: real)
    requires Fractional(m, u, g)
    ensures Guarded(Marginal(a, c, m)) * g == Denominator(a, c, u, g)
  {
    var x := Marginal(a, c, m);
    assert x * g == u * a + c * (g - u) by {
      assert a * m * g == a * (m * g);
      assert c * (1.0 - m) * g == c * (g - m * g);
    }
    SignOfProduct(x - EPSILON, g);
    assert (x - EPSILON) * g == x * g - EPSILON * g;
  }

  lemma DenominatorPositive(a: real, c: real, u: real, g: real)
    requires g > 0.0 && 0.0 <= u <= g && a >= 0.0 && c >= 0.0
    ensures Denominator(a, c, u, g) > 0.0 && 0.0 <= u * a <= Denominator(a, c, u, g)
  {
    ProductNonNegative(u, a);
    ProductNonNegative(c, g - u);
    ProductPositive(EPSILON, g);
  }

  lemma ClampQuotient(n: real, d: real)
    requires d > 0.0 && 0.0 <= n <= d
    ensures Clamp(n / d, 0.0, 1.0) * d == n
  {
    Fraction(n, d);
  }

  lemma BayesTimesGuard(a: real, c: real, m: real)
    requires 0.0 <= m <= 1.0 && a >= 0.0 && c >= 0.0
    ensures Bayes(a, c, m) * Guarded(Marginal(a, c, m)) == a * m
  {
    ProductNonNegative(a, m);
    ProductNonNegative(c, 1.0 - m);
    ClampQuotient(a * m, Guarded(Marginal(a, c, m)));
  }

  lemma FractionalIsProbability(m: real, u: real, g: real)
    requires Fractional(m, u, g)
    ensures 0.0 <= m <= 1.0
  {
    SignOfProduct(m, g);
    SignOfProduct(1.0 - m, g);
    assert (1.0 - m) * g == g - u;
  }

  /** One measurement, whether or not the guard fires. */
  lemma FractionalStep(a: real, c: real, m: real, u: real, g: real)
    requires Fractional(m, u, g) && a >= 0.0 && c >= 0.0
    ensures Fractional(Bayes(a, c, m), u * a, Denominator(a, c, u, g))
  {
    FractionalIsProbability(m, u, g);
    GuardedTimes(a, c, m, u, g);
    DenominatorPositive(a, c, u, g);
    BayesTimesGuard(a, c, m);
    var x, d := Bayes(a, c, m), Guarded(Marginal(a, c, m));
    assert x * (d * g) == (x * d) * g == a * m * g == a * (m * g);
  }

  /** A denominator carried along with a weight. */
  function Carry(w: (real, bool) -> real, n: (real, real, bool) -> real, u: real, g: real, obs: seq<bool>): real
    decreases |obs|
  {
    if obs == [] then g else Carry(w, n, w(u, obs[0]), n(u, g, obs[0]), obs[1..])
  }

  lemma {:induction false} CarryKeeps(f: (real, bool) -> real, w: (real, bool) -> real, n: (real, real, bool) -> real,
                                      P: (real, real, real) -> bool, m: real, u: real, g: real, obs: seq<bool>)
    requires P(m, u, g)
    requires forall m, u, g, o :: P(m, u, g) ==> P(f(m, o), w(u, o), n(u, g, o))
    ensures P(Fold(f, m, obs), Fold(w, u, obs), Carry(w, n, u, g, obs))
    decreases |obs|
  {
    if obs != [] {
      var o := obs[0];
      assert P(f(m, o), w(u, o), n(u, g, o));
      CarryKeeps(f, w, n, P, f(m, o), w(u, o), n(u, g, o), obs[1..]);
    }
  }

  function NextDenominator(slip: real, guess: real): (real, real, bool) -> real
  {
    (u, g, o) => Denominator(IfMastered(slip, o), IfNotMastered(guess, o), u, g)
  }

  /** The denominator after a run of responses. */
  function Evidence(s: State, obs: seq<bool>): real
  {
    Carry(Times(1.0 - s.slip, s.slip), NextDenominator(s.slip, s.guess), s.mastery, 1.0, obs)
  }

  lemma MeasureFractional(slip: real, guess: real, m: real, u: real, g: real, o: bool)
    requires 0.0 <= slip <= 1.0 && 0.0 <= guess <= 1.0 && Fractional(m, u, g)
    ensures Fractional(Measure(slip, guess)(m, o), Times(1.0 - slip, slip)(u, o), NextDenominator(slip, guess)(u, g, o))
  {
    FractionalStep(IfMastered(slip, o), IfNotMastered(guess, o), m, u, g);
  }

  lemma RunFractional(s: State, obs: seq<bool>)
    requires Probabilities(s)
    ensures Fractional(Fold(Measure(s.slip, s.guess), s.mastery, obs), Weight(s.mastery, 1.0 - s.slip, s.slip, obs),
                       Evidence(s, obs))
  {
    var f, w, n := Measure(s.slip, s.guess), Times(1.0 - s.slip, s.slip), NextDenominator(s.slip, s.guess);
    var P := (m, u, g) => Fractional(m, u, g);
    forall m, u, g, o | P(m, u, g) ensures P(f(m, o), w(u, o), n(u, g, o)) {
      MeasureFractional(s.slip, s.guess, m, u, g, o);
    }
    CarryKeeps(f, w, n, P, s.mastery, s.mastery, 1.0, obs);
  }

  lemma SameFraction(x: real, y: real, u: real, g: real, h: real)
    requires Fractional(x, u, g) && Fractional(y, u, h)
    ensures x == y <==> u == 0.0 || g == h
  {
    if u == 0.0 {
      SignOfProduct(x, g);
      SignOfProduct(y, h);
    } else {
      assert x != 0.0;
      assert x * (g - h) == x * g - x * h;
      if x == y && g != h { NonZeroProduct(x, g - h); }
      if g == h { assert (x - y) * g == 0.0; if x != y { NonZeroProduct(x - y, g); } }
    }
  }

  lemma NonZeroProduct(x: real, y: real)
    requires x != 0.0 && y != 0.0
    ensures x * y != 0.0
  {
  }

  /** Prior mastery times the likelihood of the responses under mastery, which no order changes. */
  function Numerator(s: State, obs: seq<bool>): real
  {
    Scaled(s.mastery, 1.0 - s.slip, Count(obs, true), s.slip, Count(obs, false))
  }

  /** For all probabilities and all permuted runs: the two orders agree exactly when the responses are
      impossible under mastery, or the guard leaves the same denominator. */
  lemma OrderIgnoredIff(s: State, obs: seq<bool>, obs': seq<bool>)
    requires Probabilities(s) && multiset(obs) == multiset(obs')
    ensures ObserveAll(s, obs) == ObserveAll(s, obs') <==>
      || Numerator(s, obs) == 0.0
      || Evidence(s, obs) == Evidence(s, obs')
  {
    SameCounts(obs, obs');
    RunFraction(s, obs);
    RunFraction(s, obs');
    SameFraction(ObserveAll(s, obs).mastery, ObserveAll(s, obs').mastery, Numerator(s, obs),
                 Evidence(s, obs), Evidence(s, obs'));
    ObserveIsFold(s, obs);
    ObserveIsFold(s, obs');
  }

  lemma RunFraction(s: State, obs: seq<bool>)
    requires Probabilities(s)
    ensures Fractional(ObserveAll(s, obs).mastery, Numerator(s, obs),
                       Evidence(s, obs))
  {
    ObserveIsFold(s, obs);
    WeightByCounts(s.mastery, 1.0 - s.slip, s.slip, obs);
    RunFractional(s, obs);
  }

  /** The denominator of two responses, with likelihoods a and c and then b and d. */
  function OfTwo(a: real, c: real, b: real, d: real, m: real): real
  {
    Denominator(b, d, a * m, Guarded(Marginal(a, c, m)))
  }

  lemma CarryTwo(w: (real, bool) -> real, n: (real, real, bool) -> real, u: real, g: real, first: bool, second: bool)
    ensures Carry(w, n, u, g, [first, second]) == n(w(u, first), n(u, g, first), second)
  {
    var obs := [first, second];
    assert obs[1..] == [second] && [second][1..] == [];
    assert Carry(w, n, w(u, first), n(u, g, first), [second]) == n(w(u, first), n(u, g, first), second);
  }

  lemma DenominatorOfTwo(a: real, c: real, b: real, d: real, m: real)
    requires 0.0 <= m <= 1.0
    ensures Denominator(b, d, m * a, Denominator(a, c, m, 1.0)) == OfTwo(a, c, b, d, m)
  {
    var g := Denominator(a, c, m, 1.0);
    assert g == Guarded(Marginal(a, c, m)) by { GuardedTimes(a, c, m, m, 1.0); }
    assert m * a == a * m;
  }

  /** The likelihoods of one response and of the other. */
  predicate Likelihoods(s: State, first: bool, a: real, c: real, b: real, d: real)
  {
    && a == IfMastered(s.slip, first) && c == IfNotMastered(s.guess, first)
    && b == IfMastered(s.slip, !first) && d == IfNotMastered(s.guess, !first)
  }

  lemma EvidenceOfTwo(s: State, first: bool, a: real, c: real, b: real, d: real)
    requires Likelihoods(s, first, a, c, b, d)
    ensures Evidence(s, [first, !first]) == Denominator(b, d, s.mastery * a, Denominator(a, c, s.mastery, 1.0))
  {
    var w, n := Times(1.0 - s.slip, s.slip), NextDenominator(s.slip, s.guess);
    CarryTwo(w, n, s.mastery, 1.0, first, !first);
    assert w(s.mastery, first) == s.mastery * a;
    assert n(s.mastery, 1.0, first) == Denominator(a, c, s.mastery, 1.0);
    assert forall u, g :: n(u, g, !first) == Denominator(b, d, u, g);
  }

  lemma EvidenceIsOfTwo(s: State, first: bool, a: real, c: real, b: real, d: real, x: real)
    requires Probabilities(s) && x == OfTwo(a, c, b, d, s.mastery)
    requires Likelihoods(s, first, a, c, b, d)
    ensures Evidence(s, [first, !first]) == x
  {
    EvidenceOfTwo(s, first, a, c, b, d);
    DenominatorOfTwo(a, c, b, d, s.mastery);
  }

  /** A correct and an incorrect answer commute exactly when mastery excludes one of them, or the two
      guarded denominators are equal. */
  lemma TwoOrdersAgreeIff(s: State)
    requires Probabilities(s)
    ensures
      var a, c := 1.0 - s.slip, s.guess;
      var b, d := s.slip, 1.0 - s.guess;
      ObserveAll(s, [true, false]) == ObserveAll(s, [false, true]) <==>
        a * b * s.mastery == 0.0 || OfTwo(a, c, b, d, s.mastery) == OfTwo(b, d, a, c, s.mastery)
  {
    var obs, obs' := [true, false], [false, true];
    assert multiset(obs) == multiset(obs');
    OrderIgnoredIff(s, obs, obs');
    var a, c, b, d := 1.0 - s.slip, s.guess, s.slip, 1.0 - s.guess;
    EvidenceIsOfTwo(s, true, a, c, b, d, OfTwo(a, c, b, d, s.mastery));
    EvidenceIsOfTwo(s, false, b, d, a, c, OfTwo(b, d, a, c, s.mastery));
    NumeratorOfTwo(s);
  }

  lemma NumeratorOfTwo(s: State)
    ensures Numerator(s, [true, false]) == (1.0 - s.slip) * s.slip * s.mastery
  {
    var obs := [true, false];
    assert obs[1..] == [false] && [false][1..] == [];
    assert Count([false], true) == 0 && Count([false], false) == 1;
    assert Count(obs, true) == 1 && Count(obs, false) == 1;
    assert Power(s.slip, 1) == s.slip by { assert Power(s.slip, 0) == 1.0; }
    assert Power(1.0 - s.slip, 1) == 1.0 - s.slip by { assert Power(1.0 - s.slip, 0) == 1.0; }
    assert s.mastery * (1.0 - s.slip) * s.slip == (1.0 - s.slip) * s.slip * s.mastery;
  }
}
