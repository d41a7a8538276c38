/**
  The per-entity anomaly detector: exponentially weighted means and variances of speed
  and heading.  A heading is smoothed as a unit vector and compared by angular
  deviation, so that 359 and 1 degree are 2 degrees apart.
*/
module Ewma {
  import opened Matrix
  import opened Reals

  const MIN_STD: real := 0.000001
  const WARMUP_SAMPLES: nat := 5

  /** `sin` and `cos` of an angle in degrees, `atan2` in degrees, `sqrt`, and the constructor's options. */
  datatype Config = Config(alpha: real, threshold: real, sinDeg: real -> real, cosDeg: real -> real,
                           atan2Deg: (real, real) -> real, sqrt: real -> real)

  ghost predicate OnUnitCircle(c: Config) {
    forall h :: Norm(c.sinDeg(h), c.cosDeg(h)) == 1.0
  }

  function Square(x: real): real { x * x }
  function Norm(x: real, y: real): real { Square(x) + Square(y) }

  /** `alpha * x + (1 - alpha) * y`. */
  function Mix(alpha: real, x: real, y: real): real { alpha * x + (1.0 - alpha) * y }

  // ----------------------------------------------------------- angular deviation

  /** Rounding toward zero. */
  function Trunc(q: real): int { if q >= 0.0 then q.Floor else -((0.0 - q).Floor) }

  /** JavaScript's `x % 360`, which has the sign of `x`. */
  function Mod360(x: real): real { x - 360.0 * Trunc(x / 360.0) as real }

  function AngularDeviationDeg(from: real, to: real): real {
    var diff := Mod360(to - from);
    if diff > 180.0 then diff - 360.0 else if diff < -180.0 then diff + 360.0 else diff
  }

  /** The same difference, some full turns on. */
  function Turned(diff: real, turns: int): real { diff + 360.0 * turns as real }

  /** The deviation is the way from one heading to the other that is no longer than any other, at most half a turn. */
  lemma DeviationIsShortest(from: real, to: real, turns: int) returns (k: int)
    ensures -180.0 <= AngularDeviationDeg(from, to) <= 180.0
    ensures AngularDeviationDeg(from, to) == Turned(to - from, k)
    ensures Abs(AngularDeviationDeg(from, to)) <= Abs(Turned(to - from, turns))
  {
    var q := (to - from) / 360.0;
    var t, d := Trunc(q), AngularDeviationDeg(from, to);
    k := if Mod360(to - from) > 180.0 then -t - 1 else if Mod360(to - from) < -180.0 then -t + 1 else -t;
    assert 360.0 * q == to - from;
    assert d == Turned(to - from, k);
    assert Turned(to - from, turns) == d + 360.0 * (turns - k) as real;
    if turns > k { assert (turns - k) as real >= 1.0; }
    if turns < k { assert (turns - k) as real <= -1.0; }
  }

  // ------------------------------------------------------------------ one average

  datatype Average = Average(mean: real, variance: real, initialized: bool)

  const FRESH: Average := Average(0.0, 0.0, false)

  function Updated(c: Config, a: Average, value: real): Average {
    if !a.initialized then Average(value, 0.0, true)
    else Average(Mix(c.alpha, value, a.mean), Mix(c.alpha, Square(value - a.mean), a.variance), true)
  }

  /** Measured against the baseline as it stood before the sample. */
  function ZScore(c: Config, a: Average, value: real): real {
    if !a.initialized then 0.0 else (value - a.mean) / Max(c.sqrt(a.variance), MIN_STD)
  }

  /** After some samples in a range. */
  ghost predicate Within(a: Average, lo: real, hi: real) {
    a.initialized ==> lo <= a.mean <= hi && 0.0 <= a.variance <= Square(hi - lo)
  }

  lemma MixBetween(alpha: real, x: real, y: real, lo: real, hi: real)
    requires 0.0 <= alpha <= 1.0 && lo <= x <= hi && lo <= y <= hi
    ensures lo <= Mix(alpha, x, y) <= hi
  {
    var p := MixForm(alpha, x, y);
  }

  /** `y` and a share of the way to `x`. */
  lemma MixForm(alpha: real, x: real, y: real) returns (p: real)
    requires 0.0 <= alpha <= 1.0
    ensures Mix(alpha, x, y) == y + p
    ensures x >= y ==> 0.0 <= p <= x - y
    ensures x <= y ==> x - y <= p <= 0.0
  {
    p := alpha * (x - y);
    Share(alpha, x - y, p);
  }

  lemma Share(alpha: real, d: real, p: real)
    requires 0.0 <= alpha <= 1.0 && p == alpha * d
    ensures d >= 0.0 ==> 0.0 <= p <= d
    ensures d <= 0.0 ==> d <= p <= 0.0
  {
    if d >= 0.0 { PartOf(d, alpha, p); } else { PartOf(0.0 - d, alpha, 0.0 - p); }
  }

  lemma PartOf(d: real, alpha: real, p: real)
    requires 0.0 <= alpha <= 1.0 && d >= 0.0 && p == alpha * d
    ensures 0.0 <= p <= d
  {
    Scaled(d, 0.0, alpha, 1.0);
    assert d * alpha == p && d * 1.0 == d && d * 0.0 == 0.0;
  }

  lemma Scaled(k: real, lo: real, x: real, hi: real)
    requires k >= 0.0 && lo <= x <= hi
    ensures k * lo <= k * x <= k * hi
  {}

  lemma SquareBelow(d: real, r: real)
    requires -r <= d <= r
    ensures 0.0 <= Square(d) <= Square(r)
  {
    assert Square(r) - Square(d) == (r - d) * (r + d);
    assert (r - d) * (r + d) >= 0.0;
  }

  lemma UpdateWithin(c: Config, a: Average, value: real, lo: real, hi: real)
    requires 0.0 <= c.alpha <= 1.0 && lo <= value <= hi && Within(a, lo, hi)
    ensures Within(Updated(c, a, value), lo, hi)
  {
    SquareBelow(0.0, hi - lo);
    if a.initialized {
      MixBetween(c.alpha, value, a.mean, lo, hi);
      SquareBelow(value - a.mean, hi - lo);
      MixBetween(c.alpha, Square(value - a.mean), a.variance, 0.0, Square(hi - lo));
    }
  }

  /** The average of some values, one after the other. */
  function AverageOf(c: Config, values: seq<real>): Average {
    if values == [] then FRESH else Updated(c, AverageOf(c, values[..|values| - 1]), values[|values| - 1])
  }

  ghost predicate AllIn(values: seq<real>, lo: real, hi: real) {
    forall i :: 0 <= i < |values| ==> lo <= values[i] <= hi
  }

  /** In whatever range the values lie, so does their average, and its variance in the square of that range. */
  lemma {:induction false} AverageWithin(c: Config, values: seq<real>, lo: real, hi: real)
    requires 0.0 <= c.alpha <= 1.0 && AllIn(values, lo, hi)
    ensures Within(AverageOf(c, values), lo, hi) && (AverageOf(c, values).initialized <==> values != [])
  {
    if values != [] {
      AverageWithin(c, values[..|values| - 1], lo, hi);
      UpdateWithin(c, AverageOf(c, values[..|values| - 1]), values[|values| - 1], lo, hi);
    }
  }

  lemma AverageSnoc(c: Config, values: seq<real>, value: real)
    ensures AverageOf(c, values + [value]) == Updated(c, AverageOf(c, values), value)
  {
    assert (values + [value])[..|values|] == values;
  }

  // ------------------------------------------------------------- the weights

  function Power(x: real, n: nat): real { if n == 0 then 1.0 else x * Power(x, n - 1) }

  /** Weights of `n` values: `alpha` for the newest, times `1 - alpha` for each one before; the first gets the rest. */
  function Weights(alpha: real, n: nat): (w: Vec)
    ensures |w| == n
  {
    seq(n, i requires 0 <= i < n =>
      if i == 0 then Power(1.0 - alpha, n - 1) else alpha * Power(1.0 - alpha, n - 1 - i))
  }

  /** The mean of some values with those weights. */
  function WeightedMean(alpha: real, vs: seq<real>): real { Dot(Weights(alpha, |vs|), vs) }

  /** One more value leaves the others' weights `1 - alpha` times as large. */
  lemma WeightFades(alpha: real, n: nat, i: nat)
    requires i < n
    ensures Weights(alpha, n + 1)[i] == (1.0 - alpha) * Weights(alpha, n)[i]
  {
    var p := Power(1.0 - alpha, n - 1 - i);
    assert Power(1.0 - alpha, n - i) == (1.0 - alpha) * p;
    assert alpha * ((1.0 - alpha) * p) == (1.0 - alpha) * (alpha * p);
  }

  lemma NextWeights(alpha: real, n: nat)
    requires n > 0
    ensures Weights(alpha, n + 1) == Scale(1.0 - alpha, Weights(alpha, n)) + [alpha]
  {
    var w, w' := Weights(alpha, n), Weights(alpha, n + 1);
    forall i | 0 <= i < n ensures w'[i] == Scale(1.0 - alpha, w)[i] { WeightFades(alpha, n, i); }
    NewestWeight(alpha, n);
  }

  lemma NewestWeight(alpha: real, n: nat)
    requires n > 0
    ensures Weights(alpha, n + 1)[n] == alpha
  {
    assert Power(1.0 - alpha, 0) == 1.0;
  }

  /** How far each value was from the average before it, squared. */
  function Surprises(c: Config, values: seq<real>): (r: seq<real>)
    ensures |r| == |values|
  {
    if values == [] then []
    else
      var n := |values| - 1;
      Surprises(c, values[..n]) + [if n == 0 then 0.0 else Square(values[n] - AverageOf(c, values[..n]).mean)]
  }

  lemma NextWeighted(alpha: real, vs: seq<real>, before: real, v: real, after: real)
    requires vs != [] && before == WeightedMean(alpha, vs) && after == alpha * v + (1.0 - alpha) * before
    ensures WeightedMean(alpha, vs + [v]) == after
  {
    var w := Weights(alpha, |vs|);
    NextWeights(alpha, |vs|);
    DotScale(1.0 - alpha, w, vs);
    DotSnoc(Scale(1.0 - alpha, w), vs, alpha, v, (1.0 - alpha) * before, after);
  }

  lemma DotSnoc(x: Vec, y: Vec, a: real, b: real, before: real, after: real)
    requires |x| == |y| && before == Dot(x, y) && after == a * b + before
    ensures Dot(x + [a], y + [b]) == after
  {
    assert (x + [a])[..|x|] == x && (y + [b])[..|x|] == y;
  }

  /**
    The mean is the weighted sum of the values, and the variance, with the same weights,
    that of the squared differences from the averages before them.
  */
  lemma {:induction false} AverageIsWeighted(c: Config, values: seq<real>)
    requires values != []
    ensures Averages(c.alpha, AverageOf(c, values), values, Surprises(c, values))
  {
    var n := |values| - 1;
    if n == 0 {
      FirstAverage(c, values);
    } else {
      AverageIsWeighted(c, values[..n]);
      NextAverage(c, AverageOf(c, values[..n]), values[..n], values[n], Surprises(c, values[..n]),
        AverageOf(c, values), values, Surprises(c, values));
    }
  }

  ghost predicate Averages(alpha: real, a: Average, values: seq<real>, surprises: seq<real>) {
    a.initialized && a.mean == WeightedMean(alpha, values) && a.variance == WeightedMean(alpha, surprises)
  }

  lemma FirstAverage(c: Config, values: seq<real>)
    requires |values| == 1
    ensures Averages(c.alpha, AverageOf(c, values), values, Surprises(c, values))
  {
    assert values[..0] == [];
    OnlyValue(c.alpha, values);
    OnlyValue(c.alpha, Surprises(c, values));
  }

  /** One more value, given the values and the surprises whose weighted means an average is. */
  lemma NextAverage(c: Config, a: Average, vs: seq<real>, v: real, surprises: seq<real>, a': Average, vs': seq<real>,
                    surprises': seq<real>)
    requires vs != [] && surprises != [] && Averages(c.alpha, a, vs, surprises)
    requires a' == Updated(c, a, v) && vs' == vs + [v] && surprises' == surprises + [Square(v - a.mean)]
    ensures Averages(c.alpha, a', vs', surprises')
  {
    NextMixed(c.alpha, vs, a.mean, v);
    NextMixed(c.alpha, surprises, a.variance, Square(v - a.mean));
  }

  lemma NextMixed(alpha: real, vs: seq<real>, before: real, v: real)
    requires vs != [] && before == WeightedMean(alpha, vs)
    ensures WeightedMean(alpha, vs + [v]) == Mix(alpha, v, before)
  {
    NextWeighted(alpha, vs, before, v, Mix(alpha, v, before));
  }

  lemma OnlyValue(alpha: real, vs: seq<real>)
    requires |vs| == 1
    ensures WeightedMean(alpha, vs) == vs[0]
  {
    assert Power(1.0 - alpha, 0) == 1.0;
    assert Weights(alpha, 1) == Unit(1, 0);
    DotUnit(1, 0, vs);
  }

  /** The weights of any number of values add up to one. */
  lemma {:induction false} WeightsAddUp(alpha: real, ones: seq<real>)
    requires ones != [] && forall i :: 0 <= i < |ones| ==> ones[i] == 1.0
    ensures WeightedMean(alpha, ones) == 1.0
  {
    var n := |ones| - 1;
    if n == 0 {
      OnlyValue(alpha, ones);
    } else {
      WeightsAddUp(alpha, ones[..n]);
      assert ones == ones[..n] + [1.0];
      NextWeighted(alpha, ones[..n], 1.0, 1.0, alpha * 1.0 + (1.0 - alpha) * 1.0);
    }
  }

  // ------------------------------------------------------------- the unit disc

  lemma MixSquare(alpha: real, x: real, y: real)
    requires 0.0 <= alpha <= 1.0
    ensures Square(Mix(alpha, x, y)) <= Mix(alpha, Square(x), Square(y))
  {
    var beta, d := 1.0 - alpha, x - y;
    assert Mix(alpha, x, y) == y + alpha * d;
    var ad := alpha * d;
    assert Square(y + ad) == Square(y) + 2.0 * (y * ad) + ad * ad;
    assert Square(x) == Square(y) + 2.0 * (y * d) + d * d;
    MixDifference(alpha, y, d);
  }

  lemma MixDifference(alpha: real, y: real, d: real)
    requires 0.0 <= alpha <= 1.0
    ensures Square(y) + 2.0 * (y * (alpha * d)) + (alpha * d) * (alpha * d)
         <= Mix(alpha, Square(y) + 2.0 * (y * d) + d * d, Square(y))
  {
    var dd := d * d;
    assert dd >= 0.0;
    assert (alpha * d) * (alpha * d) == alpha * (alpha * dd);
    Scaled(dd, 0.0, alpha, 1.0);
    Scaled(alpha, alpha * dd, dd, dd);
    assert y * (alpha * d) == alpha * (y * d);
  }

  /** Averaging unit vectors stays in the unit disc. */
  lemma MixInDisc(alpha: real, x: real, y: real, x': real, y': real)
    requires 0.0 <= alpha <= 1.0 && Norm(x, y) <= 1.0 && Norm(x', y') <= 1.0
    ensures Norm(Mix(alpha, x, x'), Mix(alpha, y, y')) <= 1.0
  {
    MixSquare(alpha, x, x');
    MixSquare(alpha, y, y');
    MixBetween(alpha, Norm(x, y), Norm(x', y'), 0.0, 1.0);
    MixSum(alpha, Square(x), Square(x'), Square(y), Square(y'));
  }

  lemma MixSum(alpha: real, a: real, a': real, b: real, b': real)
    ensures Mix(alpha, a, a') + Mix(alpha, b, b') == Mix(alpha, a + b, a' + b')
  {}

  // ------------------------------------------------------------------ one entity

  datatype EntityState = EntityState(speed: Average, headingSin: Average, headingCos: Average,
                                     headingDeviation: Average, samples: nat)

  const NEW_ENTITY: EntityState := EntityState(FRESH, FRESH, FRESH, FRESH, 0)

  datatype Sample = Sample(speedKmh: real, headingDeg: real)

  datatype AnomalyResult = AnomalyResult(speedZScore: real, headingZScore: real, isAnomalous: bool)

  /** How far a heading is from the smoothed one, which already includes it. */
  function Deviation(c: Config, s: EntityState, x: Sample): real {
    var sin, cos := Updated(c, s.headingSin, c.sinDeg(x.headingDeg)), Updated(c, s.headingCos, c.cosDeg(x.headingDeg));
    AngularDeviationDeg(c.atan2Deg(sin.mean, cos.mean), x.headingDeg)
  }

  function After(c: Config, s: EntityState, x: Sample): EntityState {
    EntityState(Updated(c, s.speed, x.speedKmh), Updated(c, s.headingSin, c.sinDeg(x.headingDeg)),
                Updated(c, s.headingCos, c.cosDeg(x.headingDeg)),
                Updated(c, s.headingDeviation, Deviation(c, s, x)), s.samples + 1)
  }

  function ResultOf(c: Config, s: EntityState, x: Sample): AnomalyResult {
    var speedZ, headingZ := ZScore(c, s.speed, x.speedKmh), ZScore(c, s.headingDeviation, Deviation(c, s, x));
    AnomalyResult(speedZ, headingZ, s.samples + 1 > WARMUP_SAMPLES &&
      (Abs(speedZ) > c.threshold || Abs(headingZ) > c.threshold))
  }

  function EntityRun(c: Config, xs: seq<Sample>): EntityState {
    if xs == [] then NEW_ENTITY else After(c, EntityRun(c, xs[..|xs| - 1]), xs[|xs| - 1])
  }

  /** What each of an entity's four averages has been fed. */
  function Speeds(xs: seq<Sample>): (vs: seq<real>)
    ensures |vs| == |xs|
  {
    if xs == [] then [] else Speeds(xs[..|xs| - 1]) + [xs[|xs| - 1].speedKmh]
  }

  function Sines(c: Config, xs: seq<Sample>): (vs: seq<real>)
    ensures |vs| == |xs|
  {
    if xs == [] then [] else Sines(c, xs[..|xs| - 1]) + [c.sinDeg(xs[|xs| - 1].headingDeg)]
  }

  function Cosines(c: Config, xs: seq<Sample>): (vs: seq<real>)
    ensures |vs| == |xs|
  {
    if xs == [] then [] else Cosines(c, xs[..|xs| - 1]) + [c.cosDeg(xs[|xs| - 1].headingDeg)]
  }

  function Deviations(c: Config, xs: seq<Sample>): (vs: seq<real>)
    ensures |vs| == |xs|
  {
    if xs == [] then []
    else Deviations(c, xs[..|xs| - 1]) + [Deviation(c, EntityRun(c, xs[..|xs| - 1]), xs[|xs| - 1])]
  }

  lemma {:induction false} RunIsAverages(c: Config, xs: seq<Sample>)
    ensures EntityRun(c, xs) ==
      EntityState(AverageOf(c, Speeds(xs)), AverageOf(c, Sines(c, xs)), AverageOf(c, Cosines(c, xs)),
                  AverageOf(c, Deviations(c, xs)), |xs|)
  {
    if xs != [] {
      var init, x := xs[..|xs| - 1], xs[|xs| - 1];
      RunIsAverages(c, init);
      AverageSnoc(c, Speeds(init), x.speedKmh);
      AverageSnoc(c, Sines(c, init), c.sinDeg(x.headingDeg));
      AverageSnoc(c, Cosines(c, init), c.cosDeg(x.headingDeg));
      AverageSnoc(c, Deviations(c, init), Deviation(c, EntityRun(c, init), x));
    }
  }

  /** Fed at all once there is a value, and inside every range that holds the values. */
  ghost predicate Bounded(a: Average, values: seq<real>) {
    && (a.initialized <==> values != [])
    && (forall lo, hi :: AllIn(values, lo, hi) ==> Within(a, lo, hi))
  }

  lemma AverageBounded(c: Config, values: seq<real>)
    requires 0.0 <= c.alpha <= 1.0
    ensures Bounded(AverageOf(c, values), values)
  {
    forall lo, hi | AllIn(values, lo, hi) ensures Within(AverageOf(c, values), lo, hi) {
      AverageWithin(c, values, lo, hi);
    }
    if values != [] { assert AverageOf(c, values).initialized; }
  }

  /**
    After any samples each of the four averages stays in the range of what it has been
    fed, and its variance in the square of that range; the deviations are within half a
    turn; and the smoothed heading stays in the unit disc.
  */
  lemma RunBounded(c: Config, xs: seq<Sample>)
    requires 0.0 <= c.alpha <= 1.0 && OnUnitCircle(c)
    ensures var s := EntityRun(c, xs);
      && s.samples == |xs| && Bounded(s.speed, Speeds(xs))
      && Bounded(s.headingSin, Sines(c, xs)) && Bounded(s.headingCos, Cosines(c, xs))
      && Bounded(s.headingDeviation, Deviations(c, xs)) && AllIn(Deviations(c, xs), -180.0, 180.0)
      && Norm(s.headingSin.mean, s.headingCos.mean) <= 1.0
  {
    RunIsAverages(c, xs);
    AverageBounded(c, Speeds(xs));
    AverageBounded(c, Sines(c, xs));
    AverageBounded(c, Cosines(c, xs));
    AverageBounded(c, Deviations(c, xs));
    RunInDisc(c, xs);
    DeviationsWithin(c, xs);
  }

  lemma {:induction false} RunInDisc(c: Config, xs: seq<Sample>)
    requires 0.0 <= c.alpha <= 1.0 && OnUnitCircle(c)
    ensures InDisc(EntityRun(c, xs))
  {
    if xs != [] {
      RunInDisc(c, xs[..|xs| - 1]);
      HeadingInDisc(c, EntityRun(c, xs[..|xs| - 1]), xs[|xs| - 1]);
    }
  }

  lemma {:induction false} DeviationsWithin(c: Config, xs: seq<Sample>)
    ensures AllIn(Deviations(c, xs), -180.0, 180.0)
  {
    if xs != [] {
      DeviationsWithin(c, xs[..|xs| - 1]);
      DeviationWithin(c, EntityRun(c, xs[..|xs| - 1]), xs[|xs| - 1]);
    }
  }

  lemma DeviationWithin(c: Config, s: EntityState, x: Sample)
    ensures -180.0 <= Deviation(c, s, x) <= 180.0
  {
    var sin, cos := Updated(c, s.headingSin, c.sinDeg(x.headingDeg)), Updated(c, s.headingCos, c.cosDeg(x.headingDeg));
    var _ := DeviationIsShortest(c.atan2Deg(sin.mean, cos.mean), x.headingDeg, 0);
  }

  ghost predicate InDisc(s: EntityState) {
    s.headingSin.initialized == s.headingCos.initialized && Norm(s.headingSin.mean, s.headingCos.mean) <= 1.0
  }

  lemma HeadingInDisc(c: Config, s: EntityState, x: Sample)
    requires 0.0 <= c.alpha <= 1.0 && OnUnitCircle(c) && InDisc(s)
    ensures InDisc(After(c, s, x))
  {
    assert Norm(c.sinDeg(x.headingDeg), c.cosDeg(x.headingDeg)) == 1.0;
    if s.headingSin.initialized {
      MixInDisc(c.alpha, c.sinDeg(x.headingDeg), c.cosDeg(x.headingDeg), s.headingSin.mean, s.headingCos.mean);
    }
  }

  // ----------------------------------------------------------------- the detector

  class EwmaAnomalyDetector {
    var states: map<string, EntityState>
    const config: Config

    constructor (config: Config)
      ensures states == map[] && this.config == config
    {
      states := map[];
      this.config := config;
    }

    method UpdateEwma(a: Average, value: real) returns (a': Average, zScore: real)
      ensures a' == Updated(config, a, value) && zScore == ZScore(config, a, value)
    {
      if !a.initialized { return Average(value, 0.0, true), 0.0; }
      var deviation := value - a.mean;
      var stdBefore := config.sqrt(a.variance);
      zScore := deviation / Max(stdBefore, MIN_STD);
      a' := Average(Mix(config.alpha, value, a.mean), Mix(config.alpha, Square(deviation), a.variance), true);
    }

    method Update(entityId: string, speedKmh: real, headingDeg: real) returns (r: AnomalyResult)
      modifies this
      ensures states == Next(config, old(states), Observed(entityId, Sample(speedKmh, headingDeg)))
      ensures r == ResultOf(config, StateOf(old(states), entityId), Sample(speedKmh, headingDeg))
    {
      var state := if entityId in states then states[entityId] else NEW_ENTITY;
      var speed, speedZScore := UpdateEwma(state.speed, speedKmh);
      var sin, _ := UpdateEwma(state.headingSin, config.sinDeg(headingDeg));
      var cos, _ := UpdateEwma(state.headingCos, config.cosDeg(headingDeg));
      var smoothedHeadingDeg := config.atan2Deg(sin.mean, cos.mean);
      var deviation := AngularDeviationDeg(smoothedHeadingDeg, headingDeg);
      var headingDeviation, headingZScore := UpdateEwma(state.headingDeviation, deviation);
      var samples := state.samples + 1;
      states := states[entityId := EntityState(speed, sin, cos, headingDeviation, samples)];
      var isAnomalous := samples > WARMUP_SAMPLES &&
          (Abs(speedZScore) > config.threshold || Abs(headingZScore) > config.threshold);
      r := AnomalyResult(speedZScore, headingZScore, isAnomalous);
    }

    method Reset(entityId: string)
      modifies this
      ensures states == Next(config, old(states), Forgotten(entityId))
    {
      states := states - {entityId};
    }
  }

  datatype Step = Observed(id: string, sample: Sample) | Forgotten(id: string)

  function StateOf(states: map<string, EntityState>, id: string): EntityState {
    if id in states then states[id] else NEW_ENTITY
  }

  function Next(c: Config, states: map<string, EntityState>, step: Step): map<string, EntityState> {
    match step
    case Observed(id, x) => states[id := After(c, StateOf(states, id), x)]
    case Forgotten(id) => states - {id}
  }

  function Run(c: Config, steps: seq<Step>): map<string, EntityState> {
    if steps == [] then map[] else Next(c, Run(c, steps[..|steps| - 1]), steps[|steps| - 1])
  }

  /** An entity's own samples since it was last reset. */
  function Own(steps: seq<Step>, id: string): seq<Sample> {
    if steps == [] then []
    else
      var before, last := Own(steps[..|steps| - 1], id), steps[|steps| - 1];
      if last.id != id then before else if last.Observed? then before + [last.sample] else []
  }

  /** On an interleaved stream every entity is judged as if its own samples were all there is. */
  lemma {:induction false} EntitiesAreIndependent(c: Config, steps: seq<Step>, id: string)
    ensures StateOf(Run(c, steps), id) == EntityRun(c, Own(steps, id))
  {
    if steps != [] {
      var init, last := steps[..|steps| - 1], steps[|steps| - 1];
      EntitiesAreIndependent(c, init, id);
      if last.id == id && last.Observed? {
        var own := Own(init, id);
        assert (own + [last.sample])[..|own|] == own;
      }
    }
  }

  /**
    An entity's first five samples after it appears or is reset are never flagged; later
    ones exactly on their scores.
  */
  lemma FlaggedOnlyAfterWarmup(c: Config, steps: seq<Step>, id: string, x: Sample)
    ensures var s, n := StateOf(Run(c, steps), id), |Own(steps, id)|;
      var r := ResultOf(c, s, x);
      r.isAnomalous <==> n >= 5 && (Abs(r.speedZScore) > c.threshold || Abs(r.headingZScore) > c.threshold)
  {
    EntitiesAreIndependent(c, steps, id);
    CountSamples(c, Own(steps, id));
  }

  /** How many standard deviations, of at least `MIN_STD`, a value is from the weighted mean of those before it. */
  ghost predicate IsScore(c: Config, score: real, values: seq<real>, value: real) {
    if values == [] then score == 0.0
    else
      var mean := WeightedMean(c.alpha, values);
      var std := c.sqrt(WeightedMean(c.alpha, Surprises(c, values)));
      score * Max(std, 0.000001) == value - mean
  }

  lemma ScoreIs(c: Config, values: seq<real>, value: real)
    ensures IsScore(c, ZScore(c, AverageOf(c, values), value), values, value)
  {
    if values != [] { AverageIsWeighted(c, values); }
    ScoreOfAverage(c, AverageOf(c, values), values, value, Surprises(c, values));
  }

  lemma ScoreOfAverage(c: Config, a: Average, values: seq<real>, value: real, surprises: seq<real>)
    requires if values == [] then !a.initialized else Averages(c.alpha, a, values, surprises)
    requires surprises == Surprises(c, values)
    ensures IsScore(c, ZScore(c, a, value), values, value)
  {
    if values != [] { ScoreOf(c, a, value, a.mean, a.variance); }
  }

  lemma ScoreOf(c: Config, a: Average, value: real, mean: real, variance: real)
    requires a == Average(mean, variance, true)
    ensures ZScore(c, a, value) * Max(c.sqrt(variance), 0.000001) == value - mean
  {
    Quotient(value - mean, Max(c.sqrt(variance), 0.000001));
  }

  lemma Quotient(n: real, d: real)
    requires d > 0.0
    ensures (n / d) * d == n
  {}

  /**
    On any stream a sample's scores are those of its speed against the entity's own speeds
    so far, and of its heading's deviation from the smoothed heading against its own
    deviations so far.
  */
  lemma ScoresAre(c: Config, steps: seq<Step>, id: string, x: Sample)
    ensures var own := Own(steps, id);
      var r := ResultOf(c, StateOf(Run(c, steps), id), x);
      && IsScore(c, r.speedZScore, Speeds(own), x.speedKmh)
      && IsScore(c, r.headingZScore, Deviations(c, own), SmoothedDeviation(c, own, x))
  {
    var own := Own(steps, id);
    EntitiesAreIndependent(c, steps, id);
    RunIsAverages(c, own);
    ScoreIs(c, Speeds(own), x.speedKmh);
    DeviationIs(c, own, x);
    ScoreIs(c, Deviations(c, own), SmoothedDeviation(c, own, x));
  }

  /** How far a heading is from the direction of the weighted mean of all unit vectors so far, its own included. */
  ghost function SmoothedDeviation(c: Config, own: seq<Sample>, x: Sample): real {
    var sines, cosines := Sines(c, own) + [c.sinDeg(x.headingDeg)], Cosines(c, own) + [c.cosDeg(x.headingDeg)];
    AngularDeviationDeg(
      c.atan2Deg(WeightedMean(c.alpha, sines), WeightedMean(c.alpha, cosines)), x.headingDeg)
  }

  lemma DeviationIs(c: Config, own: seq<Sample>, x: Sample)
    ensures Deviation(c, EntityRun(c, own), x) == SmoothedDeviation(c, own, x)
  {
    RunIsAverages(c, own);
    var sines, cosines := Sines(c, own) + [c.sinDeg(x.headingDeg)], Cosines(c, own) + [c.cosDeg(x.headingDeg)];
    AverageSnoc(c, Sines(c, own), c.sinDeg(x.headingDeg));
    AverageSnoc(c, Cosines(c, own), c.cosDeg(x.headingDeg));
    AverageIsWeighted(c, sines);
    AverageIsWeighted(c, cosines);
  }

  lemma {:induction false} CountSamples(c: Config, xs: seq<Sample>)
    ensures EntityRun(c, xs).samples == |xs|
  {
    if xs != [] { CountSamples(c, xs[..|xs| - 1]); }
  }
}
