/** Scoring one reading against the sensor's band and against its own rolling baseline. */
module Scoring {
  import opened Wrappers
  import opened Numbers

  datatype BaselineStats = BaselineStats(mean: real, sigma: real)

  datatype Thresholds = Thresholds(normalMin: real, normalMax: real)

  datatype Scored = Scored(
    anomalous: bool, staticAnomaly: bool, driftAnomaly: bool, staticMargin: Option<real>, driftZ: Option<real>)

  function Abs(x: real): real { if x < 0.0 then -x else x }

  function Sum(values: seq<real>): real {
    if values == [] then 0.0 else Sum(values[..|values| - 1]) + values[|values| - 1]
  }

  function SumSquares(values: seq<real>): real {
    if values == [] then 0.0
    else SumSquares(values[..|values| - 1]) + values[|values| - 1] * values[|values| - 1]
  }

  function Mean(values: seq<real>): real
    requires values != []
  {
    Sum(values) / |values| as real
  }

  function Deviations(values: seq<real>, m: real): (d: seq<real>)
    ensures |d| == |values| && forall i :: 0 <= i < |d| ==> d[i] == values[i] - m
  {
    seq(|values|, i requires 0 <= i < |values| => values[i] - m)
  }

  function Variance(values: seq<real>): real
    requires values != []
  {
    SumSquares(Deviations(values, Mean(values))) / |values| as real
  }

  /** `deviation` is the population standard deviation, as the statistics library computes it. */
  ghost predicate IsDeviation(values: seq<real>, deviation: real) {
    deviation >= 0.0 && (|values| >= 2 ==> deviation * deviation == Variance(values))
  }

  function ComputeBaseline(values: seq<real>, deviation: real): BaselineStats {
    if values == [] then BaselineStats(0.0, 0.0)
    else
      var mean := Mean(values);
      var sigma := if |values| >= 2 then deviation else 0.0;
      BaselineStats(mean, MaxReal(sigma, 0.001 * MaxReal(1.0, Abs(mean))))
  }

  function Band(t: Thresholds): real {
    if t.normalMax - t.normalMin <= 0.0 then MaxReal(MaxReal(Abs(t.normalMin), Abs(t.normalMax)), 1.0)
    else t.normalMax - t.normalMin
  }

  /** How far outside the band, as a fraction of it; None inside. */
  function StaticMargin(value: real, t: Thresholds): Option<real> {
    if value < t.normalMin then Some((t.normalMin - value) / Band(t))
    else if value > t.normalMax then Some((value - t.normalMax) / Band(t))
    else None
  }

  function DriftScore(value: real, baseline: BaselineStats): Option<real> {
    if baseline.sigma > 0.0 then Some(Abs(value - baseline.mean) / baseline.sigma) else None
  }

  predicate Exceeds(score: Option<real>, threshold: real) {
    score.Some? && score.value > threshold
  }

  /** The unit of the static margin: the width of the band, or, without one, the largest of 1 and its two limits,
      whatever their signs. */
  ghost predicate IsUnit(t: Thresholds, unit: real) {
    if t.normalMin < t.normalMax then unit == t.normalMax - t.normalMin
    else
      && unit >= 1.0 && -unit <= t.normalMin <= unit && -unit <= t.normalMax <= unit
      && unit in {1.0, t.normalMin, -t.normalMin, t.normalMax, -t.normalMax}
  }

  lemma BandIsUnit(t: Thresholds)
    ensures IsUnit(t, Band(t)) && Band(t) > 0.0
    ensures forall unit :: IsUnit(t, unit) ==> unit == Band(t)
  {
  }

  /** The reading lies above or below by more than `times` units. */
  predicate Beyond(value: real, low: real, high: real, times: real, unit: real) {
    value - high > times * unit || low - value > times * unit
  }

  lemma ExceedsRatio(distance: real, unit: real, threshold: real)
    requires unit > 0.0
    ensures distance / unit > threshold <==> distance > threshold * unit
    ensures (distance / unit) * unit == distance
  {
    var ratio := distance / unit;
    assert ratio * unit == distance;
    if ratio > threshold { var p := Product(ratio - threshold, unit); }
    if ratio <= threshold { Scale(ratio, threshold, unit); }
  }

  lemma MarginIn(value: real, t: Thresholds, unit: real)
    requires unit == Band(t) && unit > 0.0
    ensures StaticMargin(value, t)
      == if value < t.normalMin then Some((t.normalMin - value) / unit)
         else if value > t.normalMax then Some((value - t.normalMax) / unit)
         else None
  {
  }

  /** The static margin is the distance from the band in such units, and there is none inside. */
  lemma StaticBeyond(value: real, t: Thresholds, unit: real, threshold: real)
    requires IsUnit(t, unit)
    ensures
      var margin := StaticMargin(value, t);
      && (margin.Some? <==> value < t.normalMin || value > t.normalMax)
      && (value < t.normalMin ==> margin.Some? && margin.value * unit == t.normalMin - value)
      && (value > t.normalMax && value >= t.normalMin ==> margin.Some? && margin.value * unit == value - t.normalMax)
    ensures threshold >= 0.0 && t.normalMin <= t.normalMax ==>
      var beyond := Beyond(value, t.normalMin, t.normalMax, threshold, unit);
      Exceeds(StaticMargin(value, t), threshold) <==> beyond
  {
    BandIsUnit(t);
    MarginIn(value, t, unit);
    SidesBeyond(value, t.normalMin, t.normalMax, unit, threshold);
  }

  lemma SidesBeyond(value: real, low: real, high: real, unit: real, threshold: real)
    requires unit > 0.0
    ensures ((low - value) / unit) * unit == low - value && ((value - high) / unit) * unit == value - high
    ensures threshold >= 0.0 && low <= high ==>
      && (value < low ==> ((low - value) / unit > threshold <==> Beyond(value, low, high, threshold, unit)))
      && (value > high ==> ((value - high) / unit > threshold <==> Beyond(value, low, high, threshold, unit)))
      && (low <= value <= high ==> !Beyond(value, low, high, threshold, unit))
  {
    ExceedsRatio(low - value, unit, threshold);
    ExceedsRatio(value - high, unit, threshold);
    if threshold >= 0.0 { Scale(0.0, unit, threshold); }
  }

  /** The drift score is the distance from the mean, to either side, in units of sigma. */
  lemma DriftBeyond(value: real, baseline: BaselineStats, threshold: real)
    ensures
      var score := DriftScore(value, baseline);
      && (score.Some? <==> baseline.sigma > 0.0)
      && (score.Some? ==> score.value >= 0.0)
      && (score.Some? && value >= baseline.mean ==> score.value * baseline.sigma == value - baseline.mean)
      && (score.Some? && value <= baseline.mean ==> score.value * baseline.sigma == baseline.mean - value)
    ensures threshold >= 0.0 && baseline.sigma > 0.0 ==>
      var beyond := Beyond(value, baseline.mean, baseline.mean, threshold, baseline.sigma);
      Exceeds(DriftScore(value, baseline), threshold) <==> beyond
  {
    if baseline.sigma > 0.0 {
      var distance := Abs(value - baseline.mean);
      ExceedsRatio(distance, baseline.sigma, threshold);
      ExceedsRatio(0.0, baseline.sigma, 0.0);
      if threshold >= 0.0 { Scale(0.0, baseline.sigma, threshold); }
    }
  }

  /** A reading is anomalous if and only if it lies outside its band, or away from its mean, on either side, by
      more than the threshold. */
  method ScoreReading(value: real, t: Thresholds, baseline: BaselineStats, staticZ: real, driftZ: real)
      returns (scored: Scored)
    ensures scored.staticMargin == StaticMargin(value, t) && scored.driftZ == DriftScore(value, baseline)
    ensures scored.staticAnomaly == Exceeds(StaticMargin(value, t), staticZ)
    ensures scored.driftAnomaly == Exceeds(DriftScore(value, baseline), driftZ)
    ensures scored.anomalous == (scored.staticAnomaly || scored.driftAnomaly)
    ensures scored.staticMargin.Some? <==> value < t.normalMin || value > t.normalMax
    ensures staticZ >= 0.0 && t.normalMin <= t.normalMax ==>
      forall unit :: IsUnit(t, unit) ==>
        (scored.staticAnomaly <==> Beyond(value, t.normalMin, t.normalMax, staticZ, unit))
    ensures driftZ >= 0.0 ==>
      var beyond := baseline.sigma > 0.0 && Beyond(value, baseline.mean, baseline.mean, driftZ, baseline.sigma);
      scored.driftAnomaly <==> beyond
    ensures baseline.sigma > 0.0 ==>
      && scored.driftZ.Some? && scored.driftZ.value >= 0.0
      && (value - baseline.mean == scored.driftZ.value * baseline.sigma
          || baseline.mean - value == scored.driftZ.value * baseline.sigma)
  {
    var band := t.normalMax - t.normalMin;
    if band <= 0.0 {
      band := MaxReal(MaxReal(Abs(t.normalMin), Abs(t.normalMax)), 1.0);
    }
    var staticMargin: Option<real> := None;
    var staticAnomaly := false;
    var overshoot := 0.0;
    if value < t.normalMin {
      overshoot := t.normalMin - value;
    } else if value > t.normalMax {
      overshoot := value - t.normalMax;
    }
    if overshoot > 0.0 {
      staticMargin := Some(overshoot / band);
      staticAnomaly := overshoot / band > staticZ;
    }
    var drift: Option<real> := None;
    var driftAnomaly := false;
    if baseline.sigma > 0.0 {
      drift := Some(Abs(value - baseline.mean) / baseline.sigma);
      driftAnomaly := Abs(value - baseline.mean) / baseline.sigma > driftZ;
    }
    scored := Scored(staticAnomaly || driftAnomaly, staticAnomaly, driftAnomaly, staticMargin, drift);
    BandIsUnit(t);
    StaticBeyond(value, t, Band(t), staticZ);
    DriftBeyond(value, baseline, driftZ);
  }

  // ---------------------------------------------------------------- the window

  /** LTRIM keeps the elements up to an inclusive stop index, counted from the end when negative. */
  function Trim(list: seq<real>, stop: int): (kept: seq<real>)
    ensures kept <= list
  {
    var last := if stop < 0 then |list| + stop else stop;
    if last < 0 then [] else if last + 1 >= |list| then list else list[..last + 1]
  }

  /** The new value is pushed first, and only then is the window cut and the baseline taken. */
  function Pushed(list: seq<real>, value: real, windowSize: int): (window: seq<real>)
    ensures window <= [value] + list
    ensures window != [] ==> window[0] == value
    ensures windowSize >= 1 ==> |window| == Min(|list| + 1, windowSize)
    ensures windowSize == 0 ==> window == [value] + list
  {
    Trim([value] + list, windowSize - 1)
  }

  // ---------------------------------------------------------------- Samuelson's bound

  lemma {:induction false} SumConcat(a: seq<real>, b: seq<real>)
    ensures Sum(a + b) == Sum(a) + Sum(b)
  {
    if b == [] {
      assert a + b == a;
    } else {
      SumConcat(a, b[..|b| - 1]);
      assert (a + b)[..|a + b| - 1] == a + b[..|b| - 1];
    }
  }

  lemma {:induction false} SquaresConcat(a: seq<real>, b: seq<real>)
    ensures SumSquares(a + b) == SumSquares(a) + SumSquares(b)
  {
    if b == [] {
      assert a + b == a;
    } else {
      SquaresConcat(a, b[..|b| - 1]);
      assert (a + b)[..|a + b| - 1] == a + b[..|b| - 1];
    }
  }

  lemma SumOne(x: real)
    ensures Sum([x]) == x
  {
    assert [x][..0] == [];
  }

  lemma SquareOne(x: real)
    ensures SumSquares([x]) == x * x
  {
    assert [x][..0] == [];
  }

  lemma CauchyStep(s: real, q: real, x: real, n: real)
    requires n >= 1.0 && s * s <= n * q
    ensures (s + x) * (s + x) <= (n + 1.0) * (q + x * x)
  {
    var r := s - n * x;
    assert 0.0 <= r * r;
    assert r * r == s * s - 2.0 * n * (s * x) + n * n * (x * x);
    assert 2.0 * n * (s * x) <= n * q + n * n * (x * x);
    assert n * (2.0 * (s * x)) <= n * (q + n * (x * x));
    assert 2.0 * (s * x) <= q + n * (x * x);
  }

  predicate AtMost(sum: real, squares: real, count: real) { sum * sum <= count * squares }

  /** Cauchy-Schwarz against the all-ones vector. */
  lemma {:induction false} CauchySum(values: seq<real>)
    ensures AtMost(Sum(values), SumSquares(values), |values| as real)
  {
    if values != [] {
      var front, x := values[..|values| - 1], values[|values| - 1];
      CauchySum(front);
      if front != [] { CauchyStep(Sum(front), SumSquares(front), x, |front| as real); }
    }
  }

  lemma {:induction false} SumDeviations(values: seq<real>, m: real)
    ensures Sum(Deviations(values, m)) == Sum(values) - |values| as real * m
  {
    if values != [] {
      SumDeviations(values[..|values| - 1], m);
      assert Deviations(values, m)[..|values| - 1] == Deviations(values[..|values| - 1], m);
    }
  }

  lemma DeviationsCancel(values: seq<real>)
    requires values != []
    ensures Sum(Deviations(values, Mean(values))) == 0.0
  {
    SumDeviations(values, Mean(values));
  }

  lemma AddOne(sum: real, squares: real, x: real, count: real) returns (newSum: real, newSquares: real)
    requires count == 0.0 || count >= 1.0
    requires AtMost(sum, squares, count) && (count == 0.0 ==> sum == 0.0 && squares == 0.0)
    ensures newSum == sum + x && newSquares == squares + x * x
    ensures AtMost(newSum, newSquares, count + 1.0)
  {
    newSum, newSquares := sum + x, squares + x * x;
    if count >= 1.0 { CauchyStep(sum, squares, x, count); }
  }

  /** Cauchy-Schwarz for all values but the k-th: their sum, and the sum of their squares. */
  lemma {:induction false} OthersBound(values: seq<real>, k: nat, square: real) returns (others: real, rest: real)
    requires k < |values| && square == values[k] * values[k]
    ensures others == Sum(values) - values[k] && rest == SumSquares(values) - square
    ensures AtMost(others, rest, |values| as real - 1.0)
    ensures |values| == 1 ==> others == 0.0 && rest == 0.0
  {
    var front, x := values[..|values| - 1], values[|values| - 1];
    if k == |front| {
      others, rest := SumsOf(front);
    } else {
      var fewer, less := OthersBound(front, k, square);
      others, rest := AddOne(fewer, less, x, |front| as real - 1.0);
    }
  }

  lemma SumsOf(values: seq<real>) returns (sum: real, squares: real)
    ensures sum == Sum(values) && squares == SumSquares(values) && AtMost(sum, squares, |values| as real)
  {
    CauchySum(values);
    sum, squares := Sum(values), SumSquares(values);
  }

  lemma FromOthers(gap: real, others: real, total: real, n: real)
    requires n >= 1.0 && others == -gap && AtMost(others, total - gap * gap, n - 1.0)
    ensures gap * gap <= (n - 1.0) * (total / n)
  {
    var variance, square := total / n, gap * gap;
    assert total == n * variance;
    assert square + (n - 1.0) * square <= (n - 1.0) * (total - square) + (n - 1.0) * square;
    assert n * square <= n * ((n - 1.0) * variance);
  }

  /** No value of a sample lies further than sqrt(n-1) standard deviations from its mean. */
  lemma Samuelson(values: seq<real>, k: nat)
    requires k < |values|
    ensures
      var gap := values[k] - Mean(values);
      gap * gap <= (|values| as real - 1.0) * Variance(values)
  {
    var d := Deviations(values, Mean(values));
    DeviationsCancel(values);
    var others, rest := OthersBound(d, k, d[k] * d[k]);
    FromOthers(d[k], others, SumSquares(d), |d| as real);
  }

  // ---------------------------------------------------------------- what it means for drift

  lemma SquaredRatio(gap: real, sigma: real, deviation: real, bound: real)
    requires sigma > 0.0 && deviation >= 0.0 && sigma >= deviation && bound >= 0.0
    requires gap * gap <= bound * (deviation * deviation)
    ensures (Abs(gap) / sigma) * (Abs(gap) / sigma) <= bound
  {
    var z := Abs(gap) / sigma;
    assert z * sigma == Abs(gap);
    var s := Product(sigma, sigma);
    assert (z * z) * s == (z * sigma) * (z * sigma) == gap * gap;
    assert deviation * deviation <= s by { Squares(deviation, sigma); }
    Scale(deviation * deviation, s, bound);
    Divide(z * z, bound, s);
  }

  lemma Product(a: real, b: real) returns (product: real)
    requires a > 0.0 && b > 0.0
    ensures product == a * b && product > 0.0
  {
    product := a * b;
  }

  lemma Squares(a: real, b: real)
    requires 0.0 <= a <= b
    ensures a * a <= b * b
  {
  }

  lemma Scale(a: real, b: real, factor: real)
    requires a <= b && factor >= 0.0
    ensures factor * a <= factor * b
  {
  }

  lemma Divide(a: real, b: real, s: real)
    requires s > 0.0 && a * s <= b * s
    ensures a <= b
  {
  }

  lemma SingleReading(window: seq<real>)
    requires |window| == 1
    ensures Mean(window) == window[0]
  {
    SumOne(window[0]);
    assert window == [window[0]];
  }

  lemma ScoreSquared(value: real, baseline: BaselineStats, deviation: real, bound: real)
    requires deviation >= 0.0 && baseline.sigma >= deviation && baseline.sigma > 0.0 && bound >= 0.0
    requires (value - baseline.mean) * (value - baseline.mean) <= bound * (deviation * deviation)
    ensures
      var score := DriftScore(value, baseline).value;
      score >= 0.0 && score * score <= bound
  {
    SquaredRatio(value - baseline.mean, baseline.sigma, deviation, bound);
  }

  lemma SigmaAtLeast(window: seq<real>, deviation: real)
    requires window != []
    ensures
      var baseline := ComputeBaseline(window, deviation);
      baseline.mean == Mean(window) && baseline.sigma >= 0.001 && (|window| >= 2 ==> baseline.sigma >= deviation)
  {
  }

  /** The drift score of a reading that is part of its own window of n readings is at most sqrt(n-1). */
  lemma DriftScoreBounded(window: seq<real>, k: nat, deviation: real)
    requires k < |window| && IsDeviation(window, deviation)
    ensures
      var score := DriftScore(window[k], ComputeBaseline(window, deviation));
      score.Some? && score.value >= 0.0 && score.value * score.value <= |window| as real - 1.0
  {
    var baseline := ComputeBaseline(window, deviation);
    SigmaAtLeast(window, deviation);
    if |window| >= 2 {
      Samuelson(window, k);
      ScoreSquared(window[k], baseline, deviation, |window| as real - 1.0);
    } else {
      SingleReading(window);
      ScoreSquared(window[k], baseline, 0.0, 0.0);
    }
  }

  /** A drift anomaly needs more readings than the square of its threshold, whatever the readings are. */
  lemma DriftNeedsReadings(list: seq<real>, value: real, windowSize: int, deviation: real, threshold: real)
    requires IsDeviation(Pushed(list, value, windowSize), deviation) && threshold >= 0.0
    requires Exceeds(DriftScore(value, ComputeBaseline(Pushed(list, value, windowSize), deviation)), threshold)
    ensures |Pushed(list, value, windowSize)| as real - 1.0 > threshold * threshold
  {
    var window := Pushed(list, value, windowSize);
    if window != [] {
      DriftScoreBounded(window, 0, deviation);
      StrictSquares(threshold, DriftScore(value, ComputeBaseline(window, deviation)).value);
    }
  }

  lemma StrictSquares(a: real, b: real)
    requires 0.0 <= a < b
    ensures a * a < b * b
  {
    var difference := Product(b - a, b + a);
    assert b * b - a * a == difference;
  }

  /** At the shipped threshold of 3 sigma, no drift anomaly with fewer than 11 readings. */
  lemma DriftNeedsElevenReadings(list: seq<real>, value: real, windowSize: int, deviation: real)
    requires IsDeviation(Pushed(list, value, windowSize), deviation)
    requires Exceeds(DriftScore(value, ComputeBaseline(Pushed(list, value, windowSize), deviation)), 3.0)
    ensures |Pushed(list, value, windowSize)| >= 11
  {
    DriftNeedsReadings(list, value, windowSize, deviation, 3.0);
  }

  // ---------------------------------------------------------------- the bound is attained

  /** One reading of height n above n-1 readings of zero. */
  function Spike(n: nat): (window: seq<real>)
    requires n >= 2
    ensures |window| == n && window[0] == n as real
  {
    [n as real] + seq(n - 1, _ => 0.0)
  }

  lemma {:induction false} Constant(values: seq<real>, c: real)
    requires forall i :: 0 <= i < |values| ==> values[i] == c
    ensures Sum(values) == |values| as real * c && SumSquares(values) == |values| as real * (c * c)
  {
    if values != [] { Constant(values[..|values| - 1], c); }
  }

  lemma SpikeMean(n: nat)
    requires n >= 2
    ensures Mean(Spike(n)) == 1.0
  {
    var zeros := seq(n - 1, _ => 0.0);
    SumConcat([n as real], zeros);
    SumOne(n as real);
    Constant(zeros, 0.0);
  }

  lemma SpikeSquares(n: nat)
    requires n >= 2
    ensures SumSquares(Deviations(Spike(n), 1.0)) == n as real * (n as real - 1.0)
  {
    var top, ones := n as real - 1.0, seq(n - 1, _ => -1.0);
    assert Deviations(Spike(n), 1.0) == [top] + ones;
    SquaresConcat([top], ones);
    SquareOne(top);
    Constant(ones, -1.0);
  }

  lemma SpikeVariance(n: nat)
    requires n >= 2
    ensures Variance(Spike(n)) == n as real - 1.0
  {
    SpikeMean(n);
    SpikeSquares(n);
    Quotient(SumSquares(Deviations(Spike(n), 1.0)), n as real, n as real - 1.0);
  }

  lemma Quotient(total: real, n: real, top: real)
    requires n > 0.0 && total == n * top
    ensures total / n == top
  {
  }

  lemma SquareRoot(gap: real, deviation: real)
    requires deviation > 0.0 && gap == deviation * deviation
    ensures (gap / deviation) * (gap / deviation) == gap
  {
    assert gap / deviation == deviation;
  }

  lemma AtLeastOne(deviation: real, square: real)
    requires deviation >= 0.0 && deviation * deviation == square && square >= 1.0
    ensures deviation >= 1.0
  {
    if deviation < 1.0 { StrictSquares(deviation, 1.0); }
  }

  /** A single spike scores exactly sqrt(n-1): the bound cannot be improved. */
  lemma SpikeAttainsBound(n: nat, deviation: real)
    requires n >= 2 && IsDeviation(Spike(n), deviation)
    ensures
      var score := DriftScore(Spike(n)[0], ComputeBaseline(Spike(n), deviation));
      score.Some? && score.value >= 0.0 && score.value * score.value == n as real - 1.0
  {
    SpikeMean(n);
    SpikeVariance(n);
    AtLeastOne(deviation, n as real - 1.0);
    SquareRoot(n as real - 1.0, deviation);
  }

  /** One reading of depth n below n-1 readings of zero. */
  function Dip(n: nat): (window: seq<real>)
    requires n >= 2
    ensures |window| == n && window[0] == -(n as real)
  {
    [-(n as real)] + seq(n - 1, _ => 0.0)
  }

  lemma DipMean(n: nat)
    requires n >= 2
    ensures Mean(Dip(n)) == -1.0
  {
    var zeros := seq(n - 1, _ => 0.0);
    SumConcat([-(n as real)], zeros);
    SumOne(-(n as real));
    Constant(zeros, 0.0);
    Quotient(-(n as real), n as real, -1.0);
  }

  lemma DipVariance(n: nat)
    requires n >= 2
    ensures Variance(Dip(n)) == n as real - 1.0
  {
    DipMean(n);
    var low, ones := 1.0 - n as real, seq(n - 1, _ => 1.0);
    assert Deviations(Dip(n), -1.0) == [low] + ones;
    SquaresConcat([low], ones);
    SquareOne(low);
    Constant(ones, 1.0);
    Quotient(SumSquares(Deviations(Dip(n), -1.0)), n as real, n as real - 1.0);
  }

  /** So does a single dip: falling readings drift as much as rising ones. */
  lemma DipAttainsBound(n: nat, deviation: real)
    requires n >= 2 && IsDeviation(Dip(n), deviation)
    ensures
      var score := DriftScore(Dip(n)[0], ComputeBaseline(Dip(n), deviation));
      score.Some? && score.value >= 0.0 && score.value * score.value == n as real - 1.0
  {
    DipMean(n);
    DipVariance(n);
    AtLeastOne(deviation, n as real - 1.0);
    SquareRoot(n as real - 1.0, deviation);
  }

  /** What the baseline is: the mean, and the deviation unless it falls below a thousandth of the mean or of one. */
  lemma BaselineIs(values: seq<real>, deviation: real)
    requires values != []
    ensures
      var b := ComputeBaseline(values, deviation);
      && b.mean * |values| as real == Sum(values)
      && b.sigma >= 0.001 && b.sigma >= 0.001 * b.mean && b.sigma >= -0.001 * b.mean
      && (|values| >= 2 ==> b.sigma >= deviation)
      && (b.sigma in {0.001, 0.001 * b.mean, -0.001 * b.mean} || (|values| >= 2 && b.sigma == deviation))
  {
    Quotient(Sum(values), |values| as real, Mean(values));
  }

  // ---------------------------------------------------------------- severity

  datatype Label = LowLabel | MediumLabel | HighLabel

  function Ratios(margins: seq<Option<real>>, scores: seq<Option<real>>): real {
    WorstOf(WorstOf(0.0, margins, 0.5), scores, 10.0)
  }

  function WorstOf(start: real, scores: seq<Option<real>>, unit: real): real
    requires unit > 0.0
  {
    if scores == [] then start
    else
      var rest, last := WorstOf(start, scores[..|scores| - 1], unit), scores[|scores| - 1];
      if last.Some? then MaxReal(rest, last.value / unit) else rest
  }

  function Labelled(worst: real): Label {
    if worst >= 1.0 then HighLabel else if worst >= 0.3 then MediumLabel else LowLabel
  }

  /** One of the scores is at least the limit. */
  ghost predicate Reaches(scores: seq<Option<real>>, limit: real) {
    exists i :: 0 <= i < |scores| && scores[i].Some? && scores[i].value >= limit
  }

  lemma RatioReaches(score: real, unit: real, ratio: real)
    requires unit > 0.0
    ensures score / unit >= ratio <==> score >= ratio * unit
  {
    var x := score / unit;
    assert x * unit == score;
    if x >= ratio { Scale(ratio, x, unit); }
    if x < ratio { var p := Product(ratio - x, unit); }
  }

  lemma {:induction false} WorstReaches(start: real, scores: seq<Option<real>>, unit: real, ratio: real)
    requires unit > 0.0
    ensures WorstOf(start, scores, unit) >= ratio <==> start >= ratio || Reaches(scores, ratio * unit)
  {
    if scores != [] {
      var n := |scores| - 1;
      WorstReaches(start, scores[..n], unit, ratio);
      if scores[n].Some? { RatioReaches(scores[n].value, unit, ratio); }
      if Reaches(scores[..n], ratio * unit) {
        var i :| 0 <= i < n && scores[..n][i].Some? && scores[..n][i].value >= ratio * unit;
        assert scores[i] == scores[..n][i];
      }
      if Reaches(scores, ratio * unit) {
        var i :| 0 <= i < |scores| && scores[i].Some? && scores[i].value >= ratio * unit;
        if i < n { assert scores[..n][i] == scores[i]; }
      }
    }
  }

  /** High from half a band outside or ten sigmas off, medium from 15 percent or three sigmas. */
  lemma SeverityGrades(margins: seq<Option<real>>, scores: seq<Option<real>>)
    ensures Labelled(Ratios(margins, scores)) == HighLabel <==> Reaches(margins, 0.5) || Reaches(scores, 10.0)
    ensures Labelled(Ratios(margins, scores)) == LowLabel <==> !Reaches(margins, 0.15) && !Reaches(scores, 3.0)
  {
    var fromMargins := WorstOf(0.0, margins, 0.5);
    WorstReaches(0.0, margins, 0.5, 1.0);
    WorstReaches(0.0, margins, 0.5, 0.3);
    WorstReaches(fromMargins, scores, 10.0, 1.0);
    WorstReaches(fromMargins, scores, 10.0, 0.3);
  }

  method SeverityFromScore(margins: seq<Option<real>>, scores: seq<Option<real>>) returns (severity: Label)
    ensures severity == Labelled(Ratios(margins, scores))
    ensures severity == HighLabel <==> Reaches(margins, 0.5) || Reaches(scores, 10.0)
    ensures severity == LowLabel <==> !Reaches(margins, 0.15) && !Reaches(scores, 3.0)
  {
    var worst := 0.0;
    for i := 0 to |margins|
      invariant worst == WorstOf(0.0, margins[..i], 0.5)
    {
      assert margins[..i + 1][..i] == margins[..i];
      if margins[i].Some? { worst := MaxReal(worst, margins[i].value / 0.5); }
    }
    assert margins[..|margins|] == margins;
    ghost var fromMargins := worst;
    for i := 0 to |scores|
      invariant worst == WorstOf(fromMargins, scores[..i], 10.0)
    {
      assert scores[..i + 1][..i] == scores[..i];
      if scores[i].Some? { worst := MaxReal(worst, scores[i].value / 10.0); }
    }
    assert scores[..|scores|] == scores;
    SeverityGrades(margins, scores);
    if worst >= 1.0 { return HighLabel; }
    if worst >= 0.3 { return MediumLabel; }
    return LowLabel;
  }

  /** The ratios that count towards the severity, besides zero. */
  ghost predicate IsRatio(scores: seq<Option<real>>, unit: real, ratio: real)
    requires unit > 0.0
  {
    exists i :: 0 <= i < |scores| && scores[i].Some? && ratio == scores[i].value / unit
  }

  lemma {:induction false} WorstOfIsGreatest(start: real, scores: seq<Option<real>>, unit: real)
    requires unit > 0.0
    ensures
      var worst := WorstOf(start, scores, unit);
      && start <= worst && (forall r :: IsRatio(scores, unit, r) ==> r <= worst)
      && (worst == start || IsRatio(scores, unit, worst))
  {
    if scores != [] {
      var n := |scores| - 1;
      WorstOfIsGreatest(start, scores[..n], unit);
      forall r | IsRatio(scores, unit, r) ensures r <= WorstOf(start, scores, unit) {
        var i :| 0 <= i < |scores| && scores[i].Some? && r == scores[i].value / unit;
        if i < n { assert scores[..n][i] == scores[i]; assert IsRatio(scores[..n], unit, r); }
      }
      var before := WorstOf(start, scores[..n], unit);
      if IsRatio(scores[..n], unit, before) {
        var i :| 0 <= i < n && scores[..n][i].Some? && before == scores[..n][i].value / unit;
        assert scores[i] == scores[..n][i];
      }
    }
  }

  /** The severity is that of the greatest among zero, the margins in halves and the drift scores in tens. */
  lemma SeverityIsOfGreatest(margins: seq<Option<real>>, scores: seq<Option<real>>)
    ensures
      var worst := Ratios(margins, scores);
      && worst >= 0.0
      && (forall r :: IsRatio(margins, 0.5, r) || IsRatio(scores, 10.0, r) ==> r <= worst)
      && (worst == 0.0 || IsRatio(margins, 0.5, worst) || IsRatio(scores, 10.0, worst))
  {
    WorstOfIsGreatest(0.0, margins, 0.5);
    WorstOfIsGreatest(WorstOf(0.0, margins, 0.5), scores, 10.0);
  }

  lemma {:induction false} WorstBelow(start: real, scores: seq<Option<real>>, unit: real, limit: real)
    requires unit > 0.0 && start < limit / unit
    requires forall s :: s in scores && s.Some? ==> s.value < limit
    ensures WorstOf(start, scores, unit) < limit / unit
  {
    if scores != [] {
      assert scores[|scores| - 1] in scores;
      WorstBelow(start, scores[..|scores| - 1], unit, limit);
    }
  }

  lemma RootBelowTen(score: real)
    requires score * score <= 99.0
    ensures score < 10.0
  {
    if score >= 10.0 { Squares(10.0, score); }
  }

  /** What the detection agent scores: a reading that has just been pushed on its sensor's list. */
  datatype Sample = Sample(list: seq<real>, value: real, deviation: real) {
    function Window(windowSize: int): seq<real> { Pushed(list, value, windowSize) }

    function Score(windowSize: int): Option<real> {
      DriftScore(value, ComputeBaseline(Window(windowSize), deviation))
    }
  }

  ghost predicate Measured(samples: seq<Sample>, windowSize: int) {
    forall s :: s in samples ==> IsDeviation(s.Window(windowSize), s.deviation)
  }

  function Scores(samples: seq<Sample>, windowSize: int): (scores: seq<Option<real>>)
    ensures |scores| == |samples|
    ensures forall i :: 0 <= i < |scores| ==> scores[i] == samples[i].Score(windowSize)
  {
    seq(|samples|, i requires 0 <= i < |samples| => samples[i].Score(windowSize))
  }

  lemma SampleBelowTen(s: Sample, windowSize: int)
    requires 1 <= windowSize <= 100 && IsDeviation(s.Window(windowSize), s.deviation)
    ensures BelowTen(s.Score(windowSize))
  {
    DriftScoreBounded(s.Window(windowSize), 0, s.deviation);
    RootBelowTen(s.Score(windowSize).value);
  }

  /** With a window of at most 100 readings (40 as shipped) drift alone never makes an incident "high". */
  lemma DriftAloneIsNeverHigh(samples: seq<Sample>, windowSize: int)
    requires 1 <= windowSize <= 100 && Measured(samples, windowSize)
    ensures Labelled(Ratios([], Scores(samples, windowSize))) != HighLabel
  {
    var scores := Scores(samples, windowSize);
    forall i | 0 <= i < |samples| ensures BelowTen(scores[i]) {
      SampleBelowTen(samples[i], windowSize);
    }
    AllBelowTen(scores);
  }

  predicate BelowTen(score: Option<real>) { score.Some? ==> score.value < 10.0 }

  lemma AllBelowTen(scores: seq<Option<real>>)
    requires forall i :: 0 <= i < |scores| ==> BelowTen(scores[i])
    ensures Labelled(Ratios([], scores)) != HighLabel
  {
    WorstBelow(0.0, scores, 10.0, 10.0);
  }

  /** With 101 readings it can: one spike over a flat history scores exactly 10. */
  lemma LongerWindowCanBeHigh()
    ensures
      var s := Sample(seq(100, _ => 0.0), 101.0, 10.0);
      Measured([s], 101) && Labelled(Ratios([], Scores([s], 101))) == HighLabel
  {
    var s := Sample(seq(100, _ => 0.0), 101.0, 10.0);
    assert s.Window(101) == Spike(101);
    SpikeVariance(101);
    SpikeAttainsBound(101, 10.0);
    AtLeastTen(s.Score(101).value);
    assert Scores([s], 101)[..0] == [];
    assert WorstOf(0.0, Scores([s], 101), 10.0) == s.Score(101).value / 10.0;
  }

  lemma AtLeastTen(score: real)
    requires score >= 0.0 && score * score == 100.0
    ensures score == 10.0
  {
    if score < 10.0 { StrictSquares(score, 10.0); }
    if score > 10.0 { StrictSquares(10.0, score); }
  }
}
