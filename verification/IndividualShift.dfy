/** How the learner's profile and the error label move the parameters and, through them, the posterior. */
module IndividualShift {
  import opened Reals
  import opened Bkt
  import opened IndividualBkt

  /* ---- the signals ---- */

  predicate Sane(g: Signals)
  {
    && 0.0 <= g.success <= 1.0 && 0.0 <= g.error <= 1.0 && 0.0 <= g.confidence <= 1.0
    && 0.0 <= g.hints <= 1.0 && 0.0 <= g.overconfidence <= 1.0 && 0.0 <= g.stability <= 1.0
  }

  /** At the same confidence: more success and stability, less error, fewer hints, less overconfidence. */
  predicate NoWorse(g: Signals, h: Signals)
  {
    && g.confidence == h.confidence && g.success >= h.success && g.stability >= h.stability
    && g.error <= h.error && g.hints <= h.hints && g.overconfidence <= h.overconfidence
  }

  lemma SignalsAreSane(p: Profile)
    ensures Sane(SanitizeSignals(p))
  {
  }

  function Moved(s: State, learn: real, slip: real, guess: real): State
  {
    s.(learn := Clamp(s.learn + learn, 0.0, 1.0), slip := Clamp(s.slip + slip, 0.0, MAX_SLIP),
       guess := Clamp(s.guess + guess, 0.0, MAX_GUESS))
  }

  lemma MovedByForm(s: State, w: real, a: real, b: real, e: real, h: real, o: real, l: real, x: real, y: real)
    requires l == 0.06 * a + 0.04 * b - 0.07 * e - 0.05 * h - 0.06 * o
    requires x == -0.06 * a - 0.05 * b + 0.06 * e + 0.04 * h + 0.05 * o
    requires y == -0.04 * a - 0.02 * b + 0.04 * e + 0.06 * h + 0.05 * o
    ensures MovedBy(s, w, a, b, e, h, o) == Moved(s, w * l, w * x, w * y)
  {
  }

  /* ---- what each signal does ---- */

  /** Each feature alone, at its maximum and with all the evidence, moves learn, slip and guess by its
      documented share: confident success, stability, error, hints and overconfidence. */
  lemma SaturatedFeatures(s: State)
    ensures MovedBy(s, 1.0, 1.0, 0.0, 0.0, 0.0, 0.0) == Moved(s, 0.06, -0.06, -0.04)
    ensures MovedBy(s, 1.0, 0.0, 1.0, 0.0, 0.0, 0.0) == Moved(s, 0.04, -0.05, -0.02)
    ensures MovedBy(s, 1.0, 0.0, 0.0, 1.0, 0.0, 0.0) == Moved(s, -0.07, 0.06, 0.04)
    ensures MovedBy(s, 1.0, 0.0, 0.0, 0.0, 1.0, 0.0) == Moved(s, -0.05, 0.04, 0.06)
    ensures MovedBy(s, 1.0, 0.0, 0.0, 0.0, 0.0, 1.0) == Moved(s, -0.06, 0.05, 0.05)
  {
  }

  /** Unsure success counts three quarters; a sure error counts as overconfidence too, in proportion to how
      far confidence is above 0.75. */
  lemma ConfidenceCounts(success: real, error: real, c: real)
    requires 0.0 <= c <= 1.0 && 0.0 <= error <= 1.0
    ensures
      var g := Signals(success, error, c, 0.0, 0.0, 0.0);
      && (c == 0.0 ==> Strong(g) == 0.75 * success) && (c == 1.0 ==> Strong(g) == success && Over(g) == error)
      && (c <= 0.75 ==> Over(g) == 0.0) && (c >= 0.75 ==> Over(g) == (4.0 * c - 3.0) * error)
  {
    var k := Clamp((c - 0.75) * 4.0, 0.0, 1.0);
    assert c >= 0.75 ==> k == 4.0 * c - 3.0;
    ProductNonNegative(k, error);
  }

  lemma StrongRange(g: Signals)
    requires Sane(g)
    ensures 0.0 <= Strong(g) <= 1.0 && 0.0 <= Over(g) <= 1.0
  {
    var c := 0.75 + 0.25 * g.confidence;
    ProductNonNegative(g.success, c);
    ProductNonNegative(1.0 - g.success, c);
    assert (1.0 - g.success) * c == c - g.success * c;
    var k := Clamp((g.confidence - 0.75) * 4.0, 0.0, 1.0);
    ProductNonNegative(k, g.error);
    ProductNonNegative(k, 1.0 - g.error);
    assert k * (1.0 - g.error) == k - k * g.error;
  }

  lemma AtMost(w: real, x: real, hi: real)
    requires 0.0 <= w <= 1.0 && x <= hi && 0.0 <= hi
    ensures w * x <= hi
  {
    ScaleBy(w, x, hi);
    ProductNonNegative(1.0 - w, hi);
    assert (1.0 - w) * hi == hi - w * hi;
  }

  lemma Weighted(w: real, x: real, lo: real, hi: real)
    requires 0.0 <= w <= 1.0 && lo <= x <= hi && lo <= 0.0 <= hi
    ensures lo <= w * x <= hi
  {
    AtMost(w, x, hi);
    AtMost(w, -x, -lo);
    assert w * (-x) == -(w * x);
  }

  /** No features move a parameter by more than their shares add up to: learn by -0.18 to 0.10, slip by -0.11
      to 0.15, guess by -0.06 to 0.15. */
  lemma MovedWithin(s: State, w: real, a: real, b: real, e: real, h: real, o: real)
    requires 0.0 <= w <= 1.0 && 0.0 <= a <= 1.0 && 0.0 <= b <= 1.0 && 0.0 <= e <= 1.0 && 0.0 <= h <= 1.0
    requires 0.0 <= o <= 1.0
    ensures
      exists l, x, y ::
        && -0.18 <= l <= 0.10 && -0.11 <= x <= 0.15 && -0.06 <= y <= 0.15
        && MovedBy(s, w, a, b, e, h, o) == Moved(s, l, x, y)
  {
    var l := 0.06 * a + 0.04 * b - 0.07 * e - 0.05 * h - 0.06 * o;
    var x := -0.06 * a - 0.05 * b + 0.06 * e + 0.04 * h + 0.05 * o;
    var y := -0.04 * a - 0.02 * b + 0.04 * e + 0.06 * h + 0.05 * o;
    Weighted(w, l, -0.18, 0.10);
    Weighted(w, x, -0.11, 0.15);
    Weighted(w, y, -0.06, 0.15);
    assert MovedBy(s, w, a, b, e, h, o) == Moved(s, w * l, w * x, w * y);
  }

  lemma StrongOrder(g: Signals, h: Signals)
    requires Sane(g) && Sane(h) && NoWorse(g, h)
    ensures Strong(g) >= Strong(h) && Over(g) <= Over(h)
  {
    var c := 0.75 + 0.25 * g.confidence;
    ProductNonNegative(g.success - h.success, c);
    assert (g.success - h.success) * c == g.success * c - h.success * c;
    var k := Clamp((g.confidence - 0.75) * 4.0, 0.0, 1.0);
    ProductNonNegative(k, h.error - g.error);
    assert k * (h.error - g.error) == k * h.error - k * g.error;
  }

  /* ---- evidence ---- */

  predicate Silent(p: Profile)
  {
    && p.successRate == 0.0 && p.errorRate == 0.0 && p.avgConfidence == 0.0 && p.hintsRate == 0.0
    && p.overconfidenceRate == 0.0 && p.stability == 0.0 && p.avgResponseTime == 0.0
  }

  /** The weight grows by a twentieth an observation up to 1; rates without a count weigh one half, and
      only an empty profile weighs nothing. */
  lemma WeightOfEvidence(p: Profile)
    ensures p.observations >= 20 ==> EvidenceWeight(p) == 1.0
    ensures 0 < p.observations < 20 ==> EvidenceWeight(p) == p.observations as real / 20.0
    ensures p.observations <= 0 ==> EvidenceWeight(p) == if Silent(p) then 0.0 else 0.5
  {
  }

  /* ---- better profiles ---- */

  /** Easier to learn, less slipping and guessing, all else equal. */
  predicate Favours(t: State, u: State)
  {
    t.mastery == u.mastery && t.forget == u.forget && t.learn >= u.learn && t.slip <= u.slip && t.guess <= u.guess
  }

  lemma ScaleBy(w: real, x: real, y: real)
    requires w >= 0.0 && x <= y
    ensures w * x <= w * y
  {
    ProductNonNegative(w, y - x);
    assert w * (y - x) == w * y - w * x;
  }

  lemma MovedByFavours(s: State, w: real, a: real, b: real, e: real, h: real, o: real,
                       a': real, b': real, e': real, h': real, o': real)
    requires w >= 0.0 && a >= a' && b >= b' && e <= e' && h <= h' && o <= o'
    ensures Favours(MovedBy(s, w, a, b, e, h, o), MovedBy(s, w, a', b', e', h', o'))
  {
    var l, l' := 0.06 * a + 0.04 * b - 0.07 * e - 0.05 * h - 0.06 * o,
      0.06 * a' + 0.04 * b' - 0.07 * e' - 0.05 * h' - 0.06 * o';
    var x, x' := -0.06 * a - 0.05 * b + 0.06 * e + 0.04 * h + 0.05 * o,
      -0.06 * a' - 0.05 * b' + 0.06 * e' + 0.04 * h' + 0.05 * o';
    var y, y' := -0.04 * a - 0.02 * b + 0.04 * e + 0.06 * h + 0.05 * o,
      -0.04 * a' - 0.02 * b' + 0.04 * e' + 0.06 * h' + 0.05 * o';
    MovedByForm(s, w, a, b, e, h, o, l, x, y);
    MovedByForm(s, w, a', b', e', h', o', l', x', y');
    ScaledFavours(s, w, l, x, y, l', x', y');
  }

  lemma ShiftFavours(s: State, p: Profile, q: Profile)
    requires EvidenceWeight(p) == EvidenceWeight(q) && NoWorse(SanitizeSignals(p), SanitizeSignals(q))
    ensures Favours(Shift(s, p), Shift(s, q))
  {
    var w, g, h := EvidenceWeight(p), SanitizeSignals(p), SanitizeSignals(q);
    if w > 0.0 {
      SignalsAreSane(p);
      SignalsAreSane(q);
      StrongOrder(g, h);
      MovedByFavours(s, w, Strong(g), g.stability, g.error, g.hints, Over(g), Strong(h), h.stability, h.error, h.hints,
                     Over(h));
    }
  }

  lemma ScaledFavours(s: State, w: real, l: real, x: real, y: real, l': real, x': real, y': real)
    requires w >= 0.0 && l >= l' && x <= x' && y <= y'
    ensures Favours(Moved(s, w * l, w * x, w * y), Moved(s, w * l', w * x', w * y'))
  {
    ScaleBy(w, l', l);
    ScaleBy(w, x, x');
    ScaleBy(w, y, y');
    MovedFavours(s, w * l, w * x, w * y, w * l', w * x', w * y');
  }

  lemma MovedFavours(s: State, l: real, x: real, y: real, l': real, x': real, y': real)
    requires l >= l' && x <= x' && y <= y'
    ensures Favours(Moved(s, l, x, y), Moved(s, l', x', y'))
  {
  }

  lemma RelabelFavours(t: State, u: State, p: Profile, q: Profile, correct: bool, label_: ErrorLabel)
    requires EvidenceWeight(p) == EvidenceWeight(q) && Favours(t, u)
    ensures Favours(Relabel(t, p, correct, label_), Relabel(u, q, correct, label_))
  {
  }

  /** Of two profiles of equal weight, the one with no worse signals yields parameters no less favourable. */
  lemma BetterProfileFavours(s: State, p: Profile, q: Profile, correct: bool, label_: ErrorLabel)
    requires EvidenceWeight(p) == EvidenceWeight(q) && NoWorse(SanitizeSignals(p), SanitizeSignals(q))
    ensures Favours(Adjusted(s, p, correct, label_), Adjusted(s, q, correct, label_))
  {
    ShiftFavours(Sanitize(s), p, q);
    RelabelFavours(Shift(Sanitize(s), p), Shift(Sanitize(s), q), p, q, correct, label_);
  }

  lemma CrossOrder(x: real, d: real, y: real, e: real)
    requires d > 0.0 && e > 0.0 && x * e <= y * d
    ensures x / d <= y / e
  {
    var a, b := x / d, y / e;
    assert a * d == x && b * e == y;
    ProductPositive(d, e);
    assert (b - a) * (d * e) == (b * e) * d - (a * d) * e;
    SignOfProduct(b - a, d * e);
  }

  lemma ScaledOrder(a: real, a': real, m: real)
    requires 0.0 <= a <= a' && m >= 0.0
    ensures 0.0 <= a * m <= a' * m
  {
    ProductNonNegative(a, m);
    ProductNonNegative(a' - a, m);
    assert (a' - a) * m == a' * m - a * m;
  }

  lemma ClampOrder(x: real, y: real)
    requires x <= y
    ensures Clamp(x, 0.0, 1.0) <= Clamp(y, 0.0, 1.0)
  {
  }

  /** The posterior of joint probabilities x with and y without mastery. */
  function Posterior(x: real, y: real): real { Clamp(x / Guarded(x + y), 0.0, 1.0) }

  lemma JointOrder(a: real, c: real, a': real, c': real, m: real)
    requires 0.0 <= a <= a' && 0.0 <= c' <= c && 0.0 <= m <= 1.0
    ensures 0.0 <= a * m <= a' * m && 0.0 <= c' * (1.0 - m) <= c * (1.0 - m)
  {
    ScaledOrder(a, a', m);
    ScaledOrder(c', c, 1.0 - m);
  }

  lemma BayesIs(a: real, c: real, m: real, x: real, y: real, q: real)
    requires x == a * m && y == c * (1.0 - m) && q == Posterior(x, y)
    ensures Bayes(a, c, m) == q
  {
  }

  /** The posterior rises with the likelihood under mastery and falls with the other, guard included. */
  lemma PosteriorOrder(a: real, c: real, a': real, c': real, m: real)
    requires 0.0 <= a <= a' && 0.0 <= c' <= c && 0.0 <= m <= 1.0
    ensures Bayes(a, c, m) <= Bayes(a', c', m)
  {
    JointOrder(a, c, a', c', m);
    var q, q' := Posteriors(a * m, c * (1.0 - m), a' * m, c' * (1.0 - m));
    BayesIs(a, c, m, a * m, c * (1.0 - m), q);
    BayesIs(a', c', m, a' * m, c' * (1.0 - m), q');
  }

  lemma Posteriors(x: real, y: real, x': real, y': real) returns (q: real, q': real)
    requires 0.0 <= x <= x' && 0.0 <= y' <= y
    ensures q == Posterior(x, y) && q' == Posterior(x', y') && q <= q'
  {
    q, q' := Posterior(x, y), Posterior(x', y');
    FractionOrder(x, y, x', y');
  }

  lemma FractionOrder(x: real, y: real, x': real, y': real)
    requires 0.0 <= x <= x' && 0.0 <= y' <= y
    ensures Posterior(x, y) <= Posterior(x', y')
  {
    GuardedOrder(x, y, x', y');
    CrossOrder(x, Guarded(x + y), x', Guarded(x' + y'));
    ClampOrder(x / Guarded(x + y), x' / Guarded(x' + y'));
  }

  lemma GuardedOrder(x: real, y: real, x': real, y': real)
    requires 0.0 <= x <= x' && 0.0 <= y' <= y
    ensures x * Guarded(x' + y') <= x' * Guarded(x + y)
  {
    var d, d' := Guarded(x + y), Guarded(x' + y');
    if d' == EPSILON {
      ProductNonNegative(x' - x, EPSILON);
      ScaleBy(x', EPSILON, d);
      assert (x' - x) * EPSILON == x' * EPSILON - x * EPSILON;
    } else {
      ProductNonNegative(x', y - y');
      ProductNonNegative(x' - x, y');
      ScaleBy(x', x + y, d);
      assert x' * (x + y) - x * (x' + y') == x' * (y - y') + (x' - x) * y';
    }
  }

  /** Under more favourable parameters a correct answer leaves mastery no lower and an incorrect one no
      higher. */
  lemma FavouredPosterior(t: State, u: State, correct: bool)
    requires Probabilities(t) && Probabilities(u) && Favours(t, u)
    ensures
      var x, y := Observe(t, correct).mastery, Observe(u, correct).mastery;
      if correct then x >= y else x <= y
  {
    if correct {
      PosteriorOrder(1.0 - u.slip, u.guess, 1.0 - t.slip, t.guess, t.mastery);
    } else {
      PosteriorOrder(t.slip, 1.0 - t.guess, u.slip, 1.0 - u.guess, t.mastery);
    }
  }

  /** For every state, answer and label: of two profiles of equal weight the one with no worse signals
      gains no less from a correct answer and loses no less from an incorrect one. */
  lemma BetterProfilePosterior(s: State, p: Profile, q: Profile, correct: bool, label_: ErrorLabel)
    requires EvidenceWeight(p) == EvidenceWeight(q) && NoWorse(SanitizeSignals(p), SanitizeSignals(q))
    ensures
      var x, y := ObserveIndividualized(s, p, correct, label_), ObserveIndividualized(s, q, correct, label_);
      if correct then x.mastery >= y.mastery else x.mastery <= y.mastery
  {
    BetterProfileFavours(s, p, q, correct, label_);
    AdjustedProbabilities(s, p, correct, label_);
    AdjustedProbabilities(s, q, correct, label_);
    FavouredPosterior(Adjusted(s, p, correct, label_), Adjusted(s, q, correct, label_), correct);
  }

  /** The reported rates, at the same confidence and number of observations. */
  predicate RatesNoWorse(p: Profile, q: Profile)
  {
    && p.observations == q.observations && p.avgConfidence == q.avgConfidence
    && p.successRate >= q.successRate && p.stability >= q.stability && p.errorRate <= q.errorRate
    && p.hintsRate <= q.hintsRate && p.overconfidenceRate <= q.overconfidenceRate
  }

  /** No worse rates are no worse signals, exactly unless an error rate of 0 stands for the complement of
      the success rate and that exceeds the other's error rate. */
  lemma RatesAreSignalsIff(p: Profile, q: Profile)
    requires RatesNoWorse(p, q)
    ensures NoWorse(SanitizeSignals(p), SanitizeSignals(q)) <==>
      !(p.observations > 0 && p.errorRate == 0.0 && q.errorRate != 0.0
        && Clamp(q.errorRate, 0.0, 1.0) < 1.0 - Clamp(p.successRate, 0.0, 1.0))
  {
  }

  /** So a learner who reports no errors can be given the higher slip. */
  lemma NoErrorsCanRaiseSlip()
    ensures
      var p := Profile(20, 0.5, 0.0, 0.5, 0.0, 0.0, 0.0, 0.0);
      var q := p.(errorRate := 0.1);
      var s := State(0.5, 0.1, 0.1, 0.2, 0.2);
      RatesNoWorse(p, q) && Adjusted(s, p, true, NoLabel).slip > Adjusted(s, q, true, NoLabel).slip
  {
  }

  /* ---- no evidence, and labels ---- */

  /** Whatever the profile and the label, forgetting is left alone; and without evidence an unlabelled or
      correct answer leaves every parameter at its sanitized value. */
  lemma LeftAlone(s: State, p: Profile, correct: bool, label_: ErrorLabel)
    ensures
      var t := ObserveIndividualized(s, p, correct, label_);
      && t.forget == Clamp(s.forget, 0.0, 1.0)
      && (EvidenceWeight(p) == 0.0 && (correct || label_ in {NoLabel, OtherLabel}) ==>
            t.(mastery := 0.0) == Sanitize(s).(mastery := 0.0))
  {
  }

  /** What each label changes of the unlabelled parameters, and nothing else: a syntax error raises slip by
      0.15 and a logic error by 0.03 a unit of evidence, up to one half; a knowledge gap lowers guess by
      0.10, down to 0.05, and learn by 0.03 a unit of evidence, down to 0. */
  lemma LabelEffects(s: State, p: Profile, label_: ErrorLabel)
    ensures
      var w, t, u := EvidenceWeight(p), Adjusted(s, p, false, label_), Adjusted(s, p, false, NoLabel);
      match label_
      case SyntaxError => t == u.(slip := t.slip) && t.slip == if u.slip > 0.35 then 0.5 else u.slip + 0.15
      case LogicError =>
        && t == u.(slip := t.slip)
        && t.slip == if u.slip + 0.03 * w > 0.5 then 0.5 else u.slip + 0.03 * w
      case KnowledgeGap =>
        && t == u.(guess := t.guess, learn := t.learn)
        && t.guess == (if u.guess < 0.15 then 0.05 else if u.guess > 0.6 then 0.5 else u.guess - 0.1)
        && t.learn == if u.learn < 0.03 * w then 0.0 else u.learn - 0.03 * w
      case _ => t == u
    ensures Adjusted(s, p, true, label_) == Adjusted(s, p, true, NoLabel)
  {
  }

  /** A syntax or logic error excuses an incorrect answer and a knowledge gap aggravates it, against the
      same answer without a label, wherever the unlabelled slip is at most one half and guess at least
      0.05. */
  lemma LabelsExcuseOrAggravate(s: State, p: Profile, label_: ErrorLabel)
    ensures
      var u := Adjusted(s, p, false, NoLabel);
      var x, y := ObserveIndividualized(s, p, false, label_), ObserveIndividualized(s, p, false, NoLabel);
      && (label_ in {SyntaxError, LogicError} && u.slip <= 0.5 ==> x.mastery >= y.mastery)
      && (label_ == KnowledgeGap && u.guess >= 0.05 ==> x.mastery <= y.mastery)
  {
    var t, u := Adjusted(s, p, false, label_), Adjusted(s, p, false, NoLabel);
    AdjustedProbabilities(s, p, false, label_);
    AdjustedProbabilities(s, p, false, NoLabel);
    LabelEffects(s, p, label_);
    if label_ in {SyntaxError, LogicError} && u.slip <= 0.5 {
      ProductNonNegative(0.03, EvidenceWeight(p));
      PosteriorOrder(u.slip, 1.0 - u.guess, t.slip, 1.0 - t.guess, t.mastery);
    }
    if label_ == KnowledgeGap && u.guess >= 0.05 {
      PosteriorOrder(t.slip, 1.0 - t.guess, u.slip, 1.0 - u.guess, t.mastery);
    }
  }
}
