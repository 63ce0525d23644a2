/** The learner-specific adjustment of one BKT measurement. */
module IndividualBkt {
  import opened Reals
  import opened Bkt

  datatype Profile = Profile(observations: int, successRate: real, errorRate: real, avgConfidence: real,
                             hintsRate: real,
                             overconfidenceRate: real, stability: real, avgResponseTime: real)

  datatype Signals = Signals(success: real, error: real, confidence: real, hints: real, overconfidence: real,
                             stability: real)

  datatype ErrorLabel = NoLabel | SyntaxError | KnowledgeGap | LogicError | OtherLabel

  const MAX_SLIP: real := 0.5
  const MAX_GUESS: real := 0.5
  const EVIDENCE_RAMP: real := 20.0

  function Max(a: real, b: real): real { if a < b then b else a }

  function EvidenceWeight(p: Profile): (w: real)
    ensures 0.0 <= w <= 1.0
  {
    if p.observations > 0 then Clamp(p.observations as real / EVIDENCE_RAMP, 0.0, 1.0)
    else if p.successRate != 0.0 || p.errorRate != 0.0 || p.avgConfidence != 0.0 || p.hintsRate != 0.0
            || p.overconfidenceRate != 0.0 || p.stability != 0.0 || p.avgResponseTime != 0.0 then 0.5
    else 0.0
  }

  function SanitizeSignals(p: Profile): Signals
  {
    var success := Clamp(p.successRate, 0.0, 1.0);
    Signals(success,
            if p.observations > 0 && p.errorRate == 0.0 then 1.0 - success else Clamp(p.errorRate, 0.0, 1.0),
            if p.avgConfidence == 0.0 then 0.5 else Clamp(p.avgConfidence, 0.0, 1.0),
            Clamp(p.hintsRate, 0.0, 1.0), Clamp(p.overconfidenceRate, 0.0, 1.0), Clamp(p.stability, 0.0, 1.0))
  }

  function Sanitize(s: State): State
  {
    State(Clamp(s.mastery, 0.0, 1.0), Clamp(s.learn, 0.0, 1.0), Clamp(s.forget, 0.0, 1.0), Clamp(s.slip, 0.0, 1.0),
      Clamp(s.guess, 0.0, 1.0))
  }

  /** The parameters moved by evidence of weight w: confident success a, stability b, error e, hints h and
      overconfidence o. */
  function MovedBy(s: State, w: real, a: real, b: real, e: real, h: real, o: real): State
  {
    s.(learn := Clamp(s.learn + w * (0.06 * a + 0.04 * b - 0.07 * e - 0.05 * h - 0.06 * o), 0.0, 1.0),
       slip := Clamp(s.slip + w * (-0.06 * a - 0.05 * b + 0.06 * e + 0.04 * h + 0.05 * o), 0.0, MAX_SLIP),
       guess := Clamp(s.guess + w * (-0.04 * a - 0.02 * b + 0.04 * e + 0.06 * h + 0.05 * o), 0.0, MAX_GUESS))
  }

  /** Confident success. */
  function Strong(g: Signals): real { g.success * (0.75 + 0.25 * g.confidence) }

  /** Overconfidence, as reported or as confident error. */
  function Over(g: Signals): real { Max(g.overconfidence, Clamp((g.confidence - 0.75) * 4.0, 0.0, 1.0) * g.error) }

  /** The profile's shift of the learn, slip and guess parameters. */
  function Shift(s: State, p: Profile): State
  {
    var w, g := EvidenceWeight(p), SanitizeSignals(p);
    if w <= 0.0 then s else MovedBy(s, w, Strong(g), g.stability, g.error, g.hints, Over(g))
  }

  /** The error label's further adjustment on an incorrect answer. */
  function Relabel(s: State, p: Profile, correct: bool, label_: ErrorLabel): State
  {
    var w := EvidenceWeight(p);
    if correct then s
    else match label_
      case SyntaxError => s.(slip := Clamp(s.slip + 0.15, 0.0, MAX_SLIP))
      case KnowledgeGap => s.(guess := Clamp(s.guess - 0.10, 0.05, MAX_GUESS),
        learn := Clamp(s.learn - 0.03 * w, 0.0, 1.0))
      case LogicError => s.(slip := Clamp(s.slip + 0.03 * w, 0.0, MAX_SLIP))
      case _ => s
  }

  function Adjusted(s: State, p: Profile, correct: bool, label_: ErrorLabel): State
  {
    Relabel(Shift(Sanitize(s), p), p, correct, label_)
  }

  /** BKTObserveIndividualized: the resulting state. */
  function ObserveIndividualized(s: State, p: Profile, correct: bool, label_: ErrorLabel): State
  {
    Sanitize(Observe(Adjusted(s, p, correct, label_), correct))
  }

  /* ---- direction, guard included ---- */

  /** A correct answer is never less likely under mastery than under guessing. */
  lemma CorrectBayesRaises(a: real, c: real, m: real)
    requires 0.0 <= m <= 1.0 && 0.5 <= a <= 1.0 && 0.0 <= c <= 0.5
    ensures m <= Bayes(a, c, m) <= 1.0
  {
    var g := Marginal(a, c, m);
    assert g <= a by {
      ProductNonNegative(a - c, 1.0 - m);
      assert (a - c) * (1.0 - m) == a - (a * m + c * (1.0 - m));
    }
    var d := Guarded(g);
    assert 0.0 < d <= a;
    QuotientAtLeast(a, m, d);
  }

  lemma QuotientAtLeast(a: real, m: real, d: real)
    requires 0.0 < d <= a && m >= 0.0
    ensures a * m / d >= m
  {
    var x := a * m / d;
    assert x * d == a * m;
    assert (x - m) * d == (a - d) * m;
    ProductNonNegative(a - d, m);
    SignOfProduct(x - m, d);
  }

  lemma QuotientAtMost(a: real, m: real, d: real)
    requires d > 0.0 && 0.0 <= a <= d && m >= 0.0
    ensures 0.0 <= a * m / d <= m
  {
    var x := a * m / d;
    assert x * d == a * m;
    assert (m - x) * d == (d - a) * m;
    ProductNonNegative(d - a, m);
    ProductNonNegative(a, m);
    SignOfProduct(m - x, d);
    SignOfProduct(x, d);
  }

  lemma IncorrectBayesLowers(a: real, c: real, m: real)
    requires 0.0 <= m <= 1.0 && 0.0 <= a <= 0.5 && 0.5 <= c <= 1.0
    ensures 0.0 <= Bayes(a, c, m) <= m
  {
    var g := Marginal(a, c, m);
    assert g >= a by {
      ProductNonNegative(c - a, 1.0 - m);
      assert (c - a) * (1.0 - m) == (a * m + c * (1.0 - m)) - a;
    }
    QuotientAtMost(a, m, Guarded(g));
  }

  /** With any evidence at all, the parameters used keep slip and guess at most one half. */
  lemma AdjustedBounds(s: State, p: Profile, correct: bool, label_: ErrorLabel)
    requires EvidenceWeight(p) > 0.0
    ensures
      var t := Adjusted(s, p, correct, label_);
      t.mastery == Clamp(s.mastery, 0.0, 1.0) && 0.0 <= t.slip <= MAX_SLIP && 0.0 <= t.guess <= MAX_GUESS
  {
  }

  /** For every profile with positive evidence weight, every state and every error label, a
      correct answer never lowers the sanitized mastery and an incorrect one never raises it,
      also where the epsilon guard fires, and the result is a probability. */
  lemma IndividualDirection(s: State, p: Profile, correct: bool, label_: ErrorLabel)
    requires EvidenceWeight(p) > 0.0
    ensures
      var before, after := Clamp(s.mastery, 0.0, 1.0), ObserveIndividualized(s, p, correct, label_).mastery;
      0.0 <= after <= 1.0 && (if correct then after >= before else after <= before)
  {
    AdjustedBounds(s, p, correct, label_);
    var t := Adjusted(s, p, correct, label_);
    if correct {
      CorrectBayesRaises(1.0 - t.slip, t.guess, t.mastery);
    } else {
      IncorrectBayesLowers(t.slip, 1.0 - t.guess, t.mastery);
    }
  }

  /** Without any evidence the parameters are used as they are, and a learner who slips more often
      than a guesser is wrong loses mastery by answering correctly. */
  lemma NoEvidenceCanMisdirect()
    ensures
      var s := State(0.5, 0.1, 0.1, 0.9, 0.5);
      var p := Profile(0, 0.0, 0.0, 0.0, 0.0, 0.0, 0.0, 0.0);
      EvidenceWeight(p) == 0.0 && ObserveIndividualized(s, p, true, NoLabel).mastery < s.mastery
  {
  }

  /** So does one whose slip leaves a correct answer less likely than the guard, although it is
      likelier under mastery. */
  lemma GuardCanMisdirect()
    ensures
      var s := State(0.5, 0.1, 0.1, 1.0 - 0.0000000001, 0.0);
      var p := Profile(0, 0.0, 0.0, 0.0, 0.0, 0.0, 0.0, 0.0);
      s.guess <= 1.0 - s.slip && ObserveIndividualized(s, p, true, NoLabel).mastery < s.mastery
  {
  }

  /** For every profile, state and error label the direction holds exactly when the parameters in use
      say so, the guard included. */
  lemma IndividualDirectionIff(s: State, p: Profile, correct: bool, label_: ErrorLabel)
    ensures
      var t, before, after := Adjusted(s, p, correct, label_), Clamp(s.mastery, 0.0, 1.0),
        ObserveIndividualized(s, p, correct, label_).mastery;
      var a, c := IfMastered(t.slip, correct), IfNotMastered(t.guess, correct);
      && (after >= before <==> Raises(a, c, before))
      && (after <= before <==> Lowers(a, c, before))
  {
    var t := Adjusted(s, p, correct, label_);
    AdjustedProbabilities(s, p, correct, label_);
    DirectionIff(IfMastered(t.slip, correct), IfNotMastered(t.guess, correct), t.mastery);
  }

  lemma AdjustedProbabilities(s: State, p: Profile, correct: bool, label_: ErrorLabel)
    ensures
      var t := Adjusted(s, p, correct, label_);
      t.mastery == Clamp(s.mastery, 0.0, 1.0) && 0.0 <= t.slip <= 1.0 && 0.0 <= t.guess <= 1.0
  {
  }

  /** Without evidence the direction of an uncertain mastery holds exactly when guess <= 1 - slip for
      the parameters in use, unless the guard fires: then exactly when the response is at least, or
      for an incorrect one at most, as likely under mastery as the guard. */
  lemma NoEvidenceDirectionIff(s: State, p: Profile, correct: bool, label_: ErrorLabel)
    requires EvidenceWeight(p) == 0.0 && 0.0 < s.mastery < 1.0
    ensures
      var t, after := Adjusted(s, p, correct, label_), ObserveIndividualized(s, p, correct, label_).mastery;
      var a, c := IfMastered(t.slip, correct), IfNotMastered(t.guess, correct);
      (if correct then after >= s.mastery else after <= s.mastery) <==>
        if Marginal(a, c, s.mastery) < EPSILON then (if correct then a >= EPSILON else a <= EPSILON)
        else t.guess <= 1.0 - t.slip
  {
    IndividualDirectionIff(s, p, correct, label_);
  }
}
