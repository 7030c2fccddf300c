/** The diminishing-returns series the score model uses for qualifications and experience. */
module DiminishingReturns {

  /** The i-th counted item (from 1) earns basePoints * multiplier^(i-1). */
  datatype Preset = Preset(multiplier: real, basePoints: real)

  const BASE_POINTS: real := 100.0

  const TIMES_TAUGHT := Preset(4.0 / 5.0, BASE_POINTS)
  const DEGREE := Preset(4.0 / 5.0, BASE_POINTS * 5.0)
  const INSTRUCTIONAL_MATERIALS := Preset(1.0 / 2.0, BASE_POINTS * 4.0)
  const PRESENTATIONS := Preset(1.0 / 2.0, BASE_POINTS * 3.0)
  const EXTENSION_WORKS := Preset(1.0 / 2.0, BASE_POINTS * 2.0)
  const RECOGNITIONS := Preset(1.0 / 2.0, BASE_POINTS)

  /** The presets that decay: a positive base and a multiplier strictly between 0 and 1. */
  ghost predicate Decaying(p: Preset) {
    p.basePoints > 0.0 && 0.0 < p.multiplier < 1.0
  }

  /** m^k, exactly. */
  function Pow(m: real, k: nat): real {
    if k == 0 then 1.0 else m * Pow(m, k - 1)
  }

  /** The sum of the first n terms of the series. */
  function SeriesSum(n: nat, p: Preset): real {
    if n == 0 then 0.0 else SeriesSum(n - 1, p) + p.basePoints * Pow(p.multiplier, n - 1)
  }

  /** The loop of the score model: adds the gain of item i for i = 1..count. */
  method ScoreWithDiminishingReturns(count: nat, p: Preset) returns (score: real)
    ensures score == SeriesSum(count, p)
    ensures count == 0 ==> score == 0.0
    ensures count > 0 ==> score == SeriesSum(count - 1, p) + p.basePoints * Pow(p.multiplier, count - 1)
  {
    score := 0.0;
    for i := 1 to count + 1
      invariant score == SeriesSum(i - 1, p)
    {
      var gain := p.basePoints * Pow(p.multiplier, i - 1);
      score := score + gain;
    }
  }

  lemma {:induction false} PowPositive(m: real, k: nat)
    requires 0.0 < m
    ensures Pow(m, k) > 0.0
  {
    if k > 0 {
      PowPositive(m, k - 1);
    }
  }

  lemma {:induction false} PowBelowOne(m: real, k: nat)
    requires 0.0 < m < 1.0
    ensures k > 0 ==> Pow(m, k) < 1.0
    ensures Pow(m, k) <= 1.0
  {
    if k > 0 {
      PowBelowOne(m, k - 1);
      PowPositive(m, k - 1);
    }
  }

  /** The algebra of one step of the closed form, on plain reals. */
  lemma ClosedFormStep(s: real, b: real, q: real, m: real, sum: real, pow: real)
    requires s * (1.0 - m) == b * (1.0 - q)
    requires sum == s + b * q && pow == m * q
    ensures sum * (1.0 - m) == b * (1.0 - pow)
  {
    assert (s + b * q) * (1.0 - m) == s * (1.0 - m) + b * q * (1.0 - m);
  }

  /** The closed form: (1 - m) * sum = b * (1 - m^n), for every multiplier. */
  lemma {:induction false} SeriesClosedForm(n: nat, p: Preset)
    ensures SeriesSum(n, p) * (1.0 - p.multiplier) == p.basePoints * (1.0 - Pow(p.multiplier, n))
  {
    if n > 0 {
      SeriesClosedForm(n - 1, p);
      ClosedFormStep(SeriesSum(n - 1, p), p.basePoints, Pow(p.multiplier, n - 1), p.multiplier,
        SeriesSum(n, p), Pow(p.multiplier, n));
    }
  }

  /** Divided out: sum = b * (1 - m^n) / (1 - m) when m != 1. */
  lemma {:induction false} SeriesClosedFormQuotient(n: nat, p: Preset)
    requires p.multiplier != 1.0
    ensures SeriesSum(n, p) == p.basePoints * (1.0 - Pow(p.multiplier, n)) / (1.0 - p.multiplier)
  {
    SeriesClosedForm(n, p);
    DivideOut(SeriesSum(n, p), 1.0 - p.multiplier, p.basePoints * (1.0 - Pow(p.multiplier, n)));
  }

  lemma DivideOut(x: real, d: real, y: real)
    requires d != 0.0 && x * d == y
    ensures x == y / d
  {
  }

  /** For a decaying preset, one more counted item strictly raises the score. */
  lemma SeriesStep(n: nat, p: Preset)
    requires Decaying(p)
    ensures SeriesSum(n, p) < SeriesSum(n + 1, p)
  {
    PowPositive(p.multiplier, n);
  }

  lemma {:induction false} SeriesMonotone(n: nat, n': nat, p: Preset)
    requires Decaying(p) && n <= n'
    ensures SeriesSum(n, p) <= SeriesSum(n', p)
    ensures n < n' ==> SeriesSum(n, p) < SeriesSum(n', p)
  {
    if n < n' {
      SeriesMonotone(n, n' - 1, p);
      SeriesStep(n' - 1, p);
    }
  }

  /**
   * Returns diminish: item n + 1 adds at most the base points, and strictly less from the
   * second item on.
   */
  lemma SeriesGainAtMostBase(n: nat, p: Preset)
    requires Decaying(p)
    ensures SeriesSum(n + 1, p) - SeriesSum(n, p) <= p.basePoints
    ensures n > 0 ==> SeriesSum(n + 1, p) - SeriesSum(n, p) < p.basePoints
  {
    PowBelowOne(p.multiplier, n);
    var b, q := p.basePoints, Pow(p.multiplier, n);
    assert SeriesSum(n + 1, p) - SeriesSum(n, p) == b * q;
    assert b * q <= b * 1.0;
    if n > 0 {
      assert b * q < b * 1.0;
    }
  }

  /** The series stays below its limit b / (1 - m), and is never negative. */
  lemma SeriesBounded(n: nat, p: Preset)
    requires Decaying(p)
    ensures 0.0 <= SeriesSum(n, p) < p.basePoints / (1.0 - p.multiplier)
  {
    SeriesMonotone(0, n, p);
    SeriesClosedForm(n, p);
    PowPositive(p.multiplier, n);
    var m, b := p.multiplier, p.basePoints;
    assert SeriesSum(n, p) * (1.0 - m) < b;
  }

  /** The first counted item earns exactly the base points. */
  lemma SeriesOne(p: Preset)
    ensures SeriesSum(1, p) == p.basePoints
  {
  }

  /** Every preset of the score model decays. */
  lemma PresetsDecay()
    ensures Decaying(TIMES_TAUGHT) && Decaying(DEGREE) && Decaying(INSTRUCTIONAL_MATERIALS)
    ensures Decaying(PRESENTATIONS) && Decaying(EXTENSION_WORKS) && Decaying(RECOGNITIONS)
  {
  }
}
