/**
  Where a position fix moves the fused state.  Whatever came before, the correction
  moves every state component by its covariance with the three measured ones, each
  weighted by what is left of the measured difference over the sensor's variance.
*/
module GeoCorrection {
  import opened Wrappers
  import opened Matrix
  import opened Kalman
  import opened GeoFilter

  /**
    With `e` the weighted residuals, the state moves by `P H^T e` and what then remains
    between the measurement and the state is `R e`.
  */
  lemma ResidualsWeighted(H: Mat, P: Mat, R: Mat, X: Mat, m: nat, n: nat, x: Vec, z: Vec)
    requires IsMat(H, m, n) && IsMat(P, n, n) && IsMat(R, m, m) && |x| == n && |z| == m
    requires IsInverse(InnovationCov(H, P, R, m, n), X, m)
    ensures var e := Apply(X, VSub(z, Apply(H, x)));
            var x' := UpdateState(x, Gain(H, P, X, m, n), H, z, m, n);
            x' == VAdd(x, Apply(P, Apply(Transpose(H, n), e))) && VSub(z, Apply(H, x')) == Apply(R, e)
  {
    var r := VSub(z, Apply(H, x));
    var e := Apply(X, r);
    var Ht := Transpose(H, n);
    var move := Apply(P, Apply(Ht, e));
    MulApply(Mul(P, Ht, m), X, m, r);
    MulApply(P, Ht, m, e);
    InnovationSplit(H, P, R, X, m, n, e);
    InverseApply(InnovationCov(H, P, R, m, n), X, m, r);
    ApplyAdd(H, n, x, move);
  }

  lemma ApplyAdd(A: Mat, c: nat, x: Vec, y: Vec)
    requires IsMat(A, |A|, c) && |x| == |y| == c
    ensures Apply(A, VAdd(x, y)) == VAdd(Apply(A, x), Apply(A, y))
  {
    assert VSub(VAdd(x, y), y) == x;
    ApplySub(A, c, VAdd(x, y), y);
    var a, b, s := Apply(A, x), Apply(A, y), Apply(A, VAdd(x, y));
    assert a == VSub(s, b);
    assert forall i :: 0 <= i < |A| ==> a[i] == s[i] - b[i];
  }

  /** `P H^T e` reads the first three columns of `P`. */
  lemma ColumnsApply(P: Mat, e: Vec, i: nat)
    requires IsMat(P, 6, 6) && |e| == 3 && i < 6
    ensures Apply(P, Apply(Transpose(Selector(3, 6), 6), e))[i] == P[i][0] * e[0] + P[i][1] * e[1] + P[i][2] * e[2]
  {
    var Ht := Transpose(Selector(3, 6), 6);
    MulApply(P, Ht, 3, e);
    SelectColumns(P, 6, 3, 6);
    Dot3(Mul(P, Ht, 3)[i], e);
  }

  /** How far component `i` moves: `a`, `b` and `c` are its covariances with latitude, longitude and altitude. */
  predicate MovesBy(move: real, a: real, b: real, c: real, lat: real, lon: real, alt: real, r: MeasurementVar)
    requires r.Positive()
  {
    move == a * (lat / r.pos) + b * (lon / r.pos) + c * (alt / r.alt)
  }

  /** Component `i` moves by its share of the differences that remain. */
  predicate Moves(f: Filter, r: MeasurementVar, z: GeoPosition, f': Filter, i: nat)
    requires f.Valid() && f'.Valid() && r.Positive() && i < 6
  {
    MovesBy(f'.state[i] - f.state[i], f.cov[i][0], f.cov[i][1], f.cov[i][2],
            z.lat - f'.state[0], z.lon - f'.state[1], z.alt - f'.state[2], r)
  }

  /** The filter `f'` is where `f` gets by a fix at `z`. */
  ghost predicate Corrects(f: Filter, r: MeasurementVar, z: GeoPosition, f': Filter) {
    f.Valid() && f'.Valid() && r.Positive() && forall i :: 0 <= i < 6 ==> Moves(f, r, z, f', i)
  }

  lemma DividedOut(k: real, e: real, d: real)
    requires k > 0.0 && d == k * e
    ensures d / k == e
  {
    assert (d / k) * k == d;
    assert (d / k - e) * k == 0.0;
  }

  lemma SameMove(a: real, b: real, c: real, e: Vec, d: Vec, r: MeasurementVar, move: real)
    requires r.Positive() && |e| == |d| == 3 && move == a * e[0] + b * e[1] + c * e[2]
    requires d[0] == r.pos * e[0] && d[1] == r.pos * e[1] && d[2] == r.alt * e[2]
    ensures MovesBy(move, a, b, c, d[0], d[1], d[2], r)
  {
    DividedOut(r.pos, e[0], d[0]);
    DividedOut(r.pos, e[1], d[1]);
    DividedOut(r.alt, e[2], d[2]);
  }

  /** The two facts about `e` read off component by component. */
  lemma MovesOf(P: Mat, x: Vec, x': Vec, e: Vec, d: Vec, r: MeasurementVar, z: GeoPosition)
    requires IsMat(P, 6, 6) && |x| == |x'| == 6 && |e| == |d| == 3 && r.Positive()
    requires x' == VAdd(x, Apply(P, Apply(Transpose(Selector(3, 6), 6), e)))
    requires d == Apply(MeasurementDiag(r), e) && d == [z.lat - x'[0], z.lon - x'[1], z.alt - x'[2]]
    ensures forall i :: 0 <= i < 6 ==>
      MovesBy(x'[i] - x[i], P[i][0], P[i][1], P[i][2], z.lat - x'[0], z.lon - x'[1], z.alt - x'[2], r)
  {
    var v := [r.pos, r.pos, r.alt];
    DiagApply(v, e, 0);
    DiagApply(v, e, 1);
    DiagApply(v, e, 2);
    forall i | 0 <= i < 6
      ensures MovesBy(x'[i] - x[i], P[i][0], P[i][1], P[i][2], z.lat - x'[0], z.lon - x'[1], z.alt - x'[2], r)
    {
      ColumnsApply(P, e, i);
      SameMove(P[i][0], P[i][1], P[i][2], e, d, r, x'[i] - x[i]);
    }
  }

  lemma Residuals(z: GeoPosition, x': Vec)
    requires |x'| == 6
    ensures VSub(PosVec(z), Apply(Selector(3, 6), x')) == [z.lat - x'[0], z.lon - x'[1], z.alt - x'[2]]
  {
    SelectApply(x', 3, 6);
  }

  lemma CorrectedState(f: Filter, r: MeasurementVar, z: GeoPosition, X: Mat, x': Vec)
    requires f.Valid() && r.Positive()
    requires IsInverse(InnovationCov(Selector(3, 6), f.cov, MeasurementDiag(r), 3, 6), X, 3)
    requires x' == UpdateState(f.state, Gain(Selector(3, 6), f.cov, X, 3, 6), Selector(3, 6), PosVec(z), 3, 6)
    ensures var x, P := f.state, f.cov;
      forall i :: 0 <= i < 6 ==>
        MovesBy(x'[i] - x[i], P[i][0], P[i][1], P[i][2], z.lat - x'[0], z.lon - x'[1], z.alt - x'[2], r)
  {
    var H, R := Selector(3, 6), MeasurementDiag(r);
    var e := Apply(X, VSub(PosVec(z), Apply(H, f.state)));
    ResidualsWeighted(H, f.cov, R, X, 3, 6, f.state, PosVec(z));
    Residuals(z, x');
    MovesOf(f.cov, f.state, x', e, VSub(PosVec(z), Apply(H, x')), r, z);
  }

  /** What `Updated` did with the inverse it found. */
  lemma UpdateWith(f: Filter, r: MeasurementVar, z: GeoPosition, inv: Mat -> Option<Mat>, X: Mat, f': Filter)
    requires f.Valid() && inv(Innovation(f, r)) == Some(X) && IsMat(X, 3, 3) && Updated(f, r, z, inv) == Some(f')
    ensures f'.state == UpdateState(f.state, Gain(Selector(3, 6), f.cov, X, 3, 6), Selector(3, 6), PosVec(z), 3, 6)
  {}

  /** One correction of a healthy filter. */
  lemma UpdateCorrects(c: Config, f: Filter, z: GeoPosition)
    requires Healthy(f) && c.Ok()
    ensures var f' := Updated(f, c.measurement, z, c.inv);
      f'.Some? && Healthy(f'.value) && Corrects(f, c.measurement, z, f'.value)
  {
    UpdateHealthy(c, f, z);
    InverseFound(f, c.measurement, c.inv);
    MoveOfUpdate(f, c.measurement, z, c.inv, c.inv(Innovation(f, c.measurement)).value,
      Updated(f, c.measurement, z, c.inv).value);
  }

  lemma MoveOfUpdate(f: Filter, r: MeasurementVar, z: GeoPosition, inv: Mat -> Option<Mat>, X: Mat, f': Filter)
    requires f.Valid() && f'.Valid() && r.Positive() && Updated(f, r, z, inv) == Some(f')
    requires inv(Innovation(f, r)) == Some(X) && IsInverse(Innovation(f, r), X, 3)
    ensures Corrects(f, r, z, f')
  {
    UpdateWith(f, r, z, inv, X, f');
    CorrectedState(f, r, z, X, f'.state);
    assert forall i :: 0 <= i < 6 ==> Moves(f, r, z, f', i);
  }

  // ------------------------------------------------- the equations decide

  lemma LiftEntries(e: Vec, i: nat)
    requires |e| == 3 && i < 3
    ensures Apply(Transpose(Selector(3, 6), 6), e)[i] == e[i]
  {
    var Ht := Transpose(Selector(3, 6), 6);
    assert Ht[i] == Unit(3, i);
    DotUnit(3, i, e);
  }

  /** `e . (H P H^T) e`, through the measured components of `P H^T e`. */
  lemma MeasuredForm(P: Mat, e: Vec)
    requires IsMat(P, 6, 6) && |e| == 3
    ensures var u := Apply(Transpose(Selector(3, 6), 6), e);
            var y := Apply(P, u);
            Dot(u, y) == e[0] * y[0] + e[1] * y[1] + e[2] * y[2]
  {
    var H := Selector(3, 6);
    var u := Apply(Transpose(H, 6), e);
    var y := Apply(P, u);
    Adjoint(H, 6, y, e);
    SelectApply(y, 3, 6);
    Dot3(e, y[..3]);
  }

  /** What component `i` of `P H^T e` takes away is what `R` gives it. */
  ghost predicate Balanced(P: Mat, e: Vec, r: MeasurementVar, i: nat)
    requires IsMat(P, 6, 6) && |e| == 3 && i < 3
  {
    P[i][0] * e[0] + P[i][1] * e[1] + P[i][2] * e[2] == 0.0 - Weight(r, i) * e[i]
  }

  lemma BalancedSign(P: Mat, e: Vec, r: MeasurementVar, i: nat, y: real)
    requires IsMat(P, 6, 6) && r.Positive() && |e| == 3 && i < 3 && Balanced(P, e, r, i)
    requires y == Apply(P, Apply(Transpose(Selector(3, 6), 6), e))[i]
    ensures e[i] * y <= 0.0
  {
    ColumnsApply(P, e, i);
    AgainstItself(Weight(r, i), e[i], y);
  }

  lemma FormNotPositive(P: Mat, e: Vec, r: MeasurementVar)
    requires IsMat(P, 6, 6) && r.Positive() && |e| == 3 && forall i :: 0 <= i < 3 ==> Balanced(P, e, r, i)
    ensures var u := Apply(Transpose(Selector(3, 6), 6), e);
      Dot(u, Apply(P, u)) <= 0.0
  {
    var y := Apply(P, Apply(Transpose(Selector(3, 6), 6), e));
    MeasuredForm(P, e);
    BalancedSign(P, e, r, 0, y[0]);
    BalancedSign(P, e, r, 1, y[1]);
    BalancedSign(P, e, r, 2, y[2]);
  }

  lemma ZeroForm(P: Mat, u: Vec)
    requires PosDef(P, 6) && |u| == 6 && Dot(u, Apply(P, u)) <= 0.0
    ensures u == Zero(6)
  {}

  /** What is left over and pulled back at once is nothing. */
  lemma NothingLeft(P: Mat, e: Vec, r: MeasurementVar)
    requires PosDef(P, 6) && r.Positive() && |e| == 3 && forall i :: 0 <= i < 3 ==> Balanced(P, e, r, i)
    ensures e == [0.0, 0.0, 0.0]
  {
    FormNotPositive(P, e, r);
    ZeroForm(P, Apply(Transpose(Selector(3, 6), 6), e));
    LiftEntries(e, 0);
    LiftEntries(e, 1);
    LiftEntries(e, 2);
  }

  function Weight(r: MeasurementVar, i: nat): real { if i < 2 then r.pos else r.alt }

  lemma AgainstItself(k: real, e: real, y: real)
    requires k > 0.0 && y == 0.0 - k * e
    ensures e * y <= 0.0
  {
    assert e * y == 0.0 - k * (e * e);
    SquareSign(e, e * e);
    ProductSign(k, e * e, k * (e * e));
  }

  /** The difference of two solutions, component by component. */
  lemma MovesDiffer(a: real, b: real, c: real, lat: real, lon: real, alt: real, lat': real, lon': real, alt': real,
                    r: MeasurementVar, move: real, move': real, e: Vec)
    requires r.Positive() && MovesBy(move, a, b, c, lat, lon, alt, r) && MovesBy(move', a, b, c, lat', lon', alt', r)
    requires |e| == 3 && lat - lat' == r.pos * e[0] && lon - lon' == r.pos * e[1] && alt - alt' == r.alt * e[2]
    ensures move - move' == a * e[0] + b * e[1] + c * e[2]
  {
    Linear(a, lat, lat', r.pos, e[0]);
    Linear(b, lon, lon', r.pos, e[1]);
    Linear(c, alt, alt', r.alt, e[2]);
  }

  lemma Linear(a: real, x: real, y: real, k: real, e: real)
    requires k > 0.0 && x - y == k * e
    ensures a * (x / k) - a * (y / k) == a * e
  {
    DividedOut(k, x / k, x);
    DividedOut(k, y / k, y);
    assert k * (x / k) == x && k * (y / k) == y;
    assert k * (x / k - y / k - e) == 0.0;
    assert x / k - y / k == e;
    assert a * (x / k - y / k) == a * (x / k) - a * (y / k);
  }

  /** The weighted difference of two states. */
  lemma Apart(x: Vec, y: Vec, r: MeasurementVar) returns (e: Vec)
    requires |x| == |y| == 6 && r.Positive()
    ensures |e| == 3 && IsApart(x, y, r, e)
  {
    e := [(y[0] - x[0]) / r.pos, (y[1] - x[1]) / r.pos, (y[2] - x[2]) / r.alt];
    Undivided(r.pos, y[0] - x[0]);
    Undivided(r.pos, y[1] - x[1]);
    Undivided(r.alt, y[2] - x[2]);
  }

  lemma Undivided(k: real, d: real)
    requires k > 0.0
    ensures k * (d / k) == d
  {}

  ghost predicate IsApart(x: Vec, y: Vec, r: MeasurementVar, e: Vec)
    requires |x| == |y| == 6 && |e| == 3
  {
    forall i :: 0 <= i < 3 ==> y[i] - x[i] == Weight(r, i) * e[i]
  }

  /** The difference of two states as the covariance applied to `e`. */
  ghost predicate Spread(P: Mat, x: Vec, y: Vec, e: Vec, i: nat)
    requires IsMat(P, 6, 6) && |x| == |y| == 6 && |e| == 3 && i < 6
  {
    x[i] - y[i] == P[i][0] * e[0] + P[i][1] * e[1] + P[i][2] * e[2]
  }

  lemma RowsDiffer(f: Filter, r: MeasurementVar, z: GeoPosition, g: Filter, h: Filter, e: Vec, i: nat)
    requires i < 6 && Corrects(f, r, z, g) && Corrects(f, r, z, h) && |e| == 3 && IsApart(g.state, h.state, r, e)
    ensures Spread(f.cov, g.state, h.state, e, i)
  {
    var x, y := g.state, h.state;
    assert Moves(f, r, z, g, i) && Moves(f, r, z, h, i);
    MovesDiffer(f.cov[i][0], f.cov[i][1], f.cov[i][2], z.lat - x[0], z.lon - x[1], z.alt - x[2], z.lat - y[0],
      z.lon - y[1], z.alt - y[2], r, x[i] - f.state[i], y[i] - f.state[i], e);
  }

  lemma SameStates(P: Mat, e: Vec, r: MeasurementVar, x: Vec, y: Vec)
    requires PosDef(P, 6) && r.Positive() && |x| == |y| == 6 && |e| == 3
    requires IsApart(x, y, r, e) && forall i :: 0 <= i < 6 ==> Spread(P, x, y, e, i)
    ensures x == y
  {
    forall i | 0 <= i < 3 ensures Balanced(P, e, r, i) { SpreadBalances(P, e, r, x, y, i); }
    NothingLeft(P, e, r);
    forall i | 0 <= i < 6 ensures x[i] == y[i] { NoSpread(P, x, y, e, i); }
  }

  lemma SpreadBalances(P: Mat, e: Vec, r: MeasurementVar, x: Vec, y: Vec, i: nat)
    requires IsMat(P, 6, 6) && |x| == |y| == 6 && |e| == 3 && i < 3
    requires IsApart(x, y, r, e) && Spread(P, x, y, e, i)
    ensures Balanced(P, e, r, i)
  {}

  lemma NoSpread(P: Mat, x: Vec, y: Vec, e: Vec, i: nat)
    requires IsMat(P, 6, 6) && |x| == |y| == 6 && e == [0.0, 0.0, 0.0] && i < 6 && Spread(P, x, y, e, i)
    ensures x[i] == y[i]
  {
    NoMove(P[i][0], P[i][1], P[i][2], e, x[i] - y[i]);
  }

  /** Only one state satisfies the equations: they say exactly where the fix moves the filter. */
  lemma CorrectsOnce(f: Filter, r: MeasurementVar, z: GeoPosition, g: Filter, h: Filter)
    requires f.Valid() && PosDef(f.cov, 6) && Corrects(f, r, z, g) && Corrects(f, r, z, h)
    ensures g.state == h.state
  {
    var e := Apart(g.state, h.state, r);
    forall i | 0 <= i < 6 ensures Spread(f.cov, g.state, h.state, e, i) { RowsDiffer(f, r, z, g, h, e, i); }
    SameStates(f.cov, e, r, g.state, h.state);
  }

  lemma NoMove(a: real, b: real, c: real, e: Vec, move: real)
    requires e == [0.0, 0.0, 0.0] && move == a * e[0] + b * e[1] + c * e[2]
    ensures move == 0.0
  {}

  // ------------------------------------------------------------ over whole runs

  lemma CorrectsOnly(f: Filter, r: MeasurementVar, z: GeoPosition, f': Filter)
    requires f.Valid() && PosDef(f.cov, 6) && Corrects(f, r, z, f')
    ensures forall g: Filter :: Corrects(f, r, z, g) ==> g.state == f'.state
  {
    forall g: Filter | Corrects(f, r, z, g) ensures g.state == f'.state { CorrectsOnce(f, r, z, g, f'); }
  }

  /** Every correction of every history, stated by the equations that decide it. */
  lemma RunCorrects(c: Config, p: GeoPosition, v: Variances, steps: seq<Step>, z: GeoPosition)
    requires c.Ok() && v.Positive()
    ensures var f, f' := Run(c, Initial(p, v), steps), Run(c, Initial(p, v), steps + [Update(z)]);
      && f.Some? && f'.Some? && Corrects(f.value, c.measurement, z, f'.value)
      && forall g: Filter :: Corrects(f.value, c.measurement, z, g) ==> g.state == f'.value.state
  {
    RunHealthy(c, p, v, steps);
    RunSnoc(c, Initial(p, v), steps, Update(z));
    var f := Run(c, Initial(p, v), steps).value;
    UpdateCorrects(c, f, z);
    CorrectsOnly(f, c.measurement, z, Updated(f, c.measurement, z, c.inv).value);
  }

  /** A fix at the filter's own position moves nothing, the velocities included. */
  lemma OwnPositionMovesNothing(c: Config, f: Filter)
    requires Healthy(f) && c.Ok()
    ensures var f' := Updated(f, c.measurement, f.Position(), c.inv);
      f'.Some? && f'.value.state == f.state
  {
    UpdateCorrects(c, f, f.Position());
    StaysPut(f, c.measurement, Updated(f, c.measurement, f.Position(), c.inv).value);
  }

  lemma StaysPut(f: Filter, r: MeasurementVar, f': Filter)
    requires f.Valid() && PosDef(f.cov, 6) && Corrects(f, r, f.Position(), f')
    ensures f'.state == f.state
  {
    SelfCorrects(f, r);
    CorrectsOnce(f, r, f.Position(), f, f');
  }

  lemma SelfCorrects(f: Filter, r: MeasurementVar)
    requires f.Valid() && r.Positive()
    ensures Corrects(f, r, f.Position(), f)
  {
    forall i | 0 <= i < 6 ensures Moves(f, r, f.Position(), f, i) {
      Zeroes(f.cov[i][0], f.cov[i][1], f.cov[i][2], r);
    }
  }

  lemma Zeroes(a: real, b: real, c: real, r: MeasurementVar)
    requires r.Positive()
    ensures MovesBy(0.0, a, b, c, 0.0, 0.0, 0.0, r)
  {
    DividedOut(r.pos, 0.0, 0.0);
    DividedOut(r.alt, 0.0, 0.0);
  }

  /** Altitude, which no other measured component touches, lands strictly between the two. */
  lemma AltitudeBetween(c: Config, f: Filter, z: GeoPosition)
    requires Healthy(f) && c.Ok()
    ensures var f' := Updated(f, c.measurement, z, c.inv);
      && f'.Some?
      && (f.state[2] < z.alt ==> f.state[2] < f'.value.state[2] < z.alt)
      && (f.state[2] > z.alt ==> f.state[2] > f'.value.state[2] > z.alt)
      && (f.state[2] == z.alt ==> f'.value.state[2] == z.alt)
  {
    UpdateCorrects(c, f, z);
    SpdDiagonal(f.cov, 6, 2);
    assert Vertical(2) && !Vertical(0) && !Vertical(1);
    AltitudePulled(f, c.measurement, z, Updated(f, c.measurement, z, c.inv).value);
  }

  lemma AltitudePulled(f: Filter, r: MeasurementVar, z: GeoPosition, f': Filter)
    requires Corrects(f, r, z, f') && f.cov[2][0] == f.cov[2][1] == 0.0 && f.cov[2][2] > 0.0
    ensures f.state[2] < z.alt ==> f.state[2] < f'.state[2] < z.alt
    ensures f.state[2] > z.alt ==> f.state[2] > f'.state[2] > z.alt
    ensures f.state[2] == z.alt ==> f'.state[2] == z.alt
  {
    assert Moves(f, r, z, f', 2);
    var x' := f'.state;
    Undivided(r.alt, z.alt - x'[2]);
    Pulled(f.state[2], x'[2], z.alt, f.cov[2][2], (z.alt - x'[2]) / r.alt, r.alt, (z.lat - x'[0]) / r.pos,
      (z.lon - x'[1]) / r.pos);
  }

  lemma Pulled(x: real, x': real, z: real, p: real, e: real, k: real, other: real, other': real)
    requires p > 0.0 && k > 0.0 && x' - x == 0.0 * other + 0.0 * other' + p * e && k * e == z - x'
    ensures x < z ==> x < x' < z
    ensures x > z ==> x > x' > z
    ensures x == z ==> x' == z
  {
    assert z - x == (p + k) * e;
    if e > 0.0 {
      ProductSign(p, e, p * e);
      ProductSign(k, e, k * e);
    } else if e < 0.0 {
      ProductSign(p, 0.0 - e, p * (0.0 - e));
      ProductSign(k, 0.0 - e, k * (0.0 - e));
    }
  }

  // --------------------------------------------- where variances start and grow

  /** The variance that belongs to a state: latitude and longitude, altitude, the three velocities. */
  function VarianceOf(v: Variances, i: nat): real {
    if i < 2 then v.pos else if i == 2 then v.alt else v.vel
  }

  /** A new filter stands still at its fix, every state as uncertain as configured and none correlated. */
  lemma StartsAt(p: GeoPosition, v: Variances, i: nat, j: nat)
    requires i < 6 && j < 6
    ensures var f := Initial(p, v);
      && f.Position() == p && f.Velocity() == GeoVelocity(0.0, 0.0, 0.0)
      && f.cov[i][j] == if i == j then VarianceOf(v, i) else 0.0
  {}

  lemma TransposeUnit(F: Mat, n: nat, i: nat)
    requires IsMat(F, n, n) && i < n
    ensures Apply(Transpose(F, n), Unit(n, i)) == F[i]
  {
    var Ft := Transpose(F, n);
    forall k | 0 <= k < n ensures Apply(Ft, Unit(n, i))[k] == F[i][k] { EntryByUnits(Ft, n, n, k, i); }
  }

  lemma PredictEntry(F: Mat, P: Mat, Q: Mat, n: nat, i: nat, j: nat)
    requires IsMat(F, n, n) && IsMat(P, n, n) && IsMat(Q, n, n) && i < n && j < n
    ensures PredictCov(F, P, Q, n)[i][j] == Dot(F[i], Apply(P, F[j])) + Q[i][j]
  {
    SandwichPlus(F, P, Q, n, n, Unit(n, i), Unit(n, j));
    TransposeUnit(F, n, i);
    TransposeUnit(F, n, j);
    EntryByUnits(PredictCov(F, P, Q, n), n, n, i, j);
    EntryByUnits(Q, n, n, i, j);
  }

  /** A prediction carries each covariance along the Jacobian's rows and adds each state's own process noise. */
  lemma PredictGrows(trig: Trig, f: Filter, q: Variances, dt: real, i: nat, j: nat)
    requires f.Valid() && i < 6 && j < 6
    ensures var F := Jacobian(trig, f.state, dt);
      Predicted(trig, f, q, dt).cov[i][j] ==
        Dot(F[i], Apply(f.cov, F[j])) + if i == j then VarianceOf(q, i) else 0.0
  {
    PredictEntry(Jacobian(trig, f.state, dt), f.cov, StateDiag(q), 6, i, j);
  }

  /** Vertically: the climb rate's variance grows by its noise, the altitude's also by what the climb rate lets in. */
  lemma VerticalGrows(trig: Trig, f: Filter, q: Variances, dt: real)
    requires f.Valid()
    ensures var P, P' := f.cov, Predicted(trig, f, q, dt).cov;
      && P'[5][5] == P[5][5] + q.vel
      && P'[2][2] == (P[2][2] + dt * P[2][5]) + dt * (P[5][2] + dt * P[5][5]) + q.alt
  {
    var F, P := Jacobian(trig, f.state, dt), f.cov;
    PredictGrows(trig, f, q, dt, 5, 5);
    PredictGrows(trig, f, q, dt, 2, 2);
    RowFive(F, P);
    RowTwo(F, P, dt);
  }

  lemma RowFive(F: Mat, P: Mat)
    requires IsMat(F, 6, 6) && IsMat(P, 6, 6) && F[5] == Unit(6, 5)
    ensures Dot(F[5], Apply(P, F[5])) == P[5][5]
  {
    EntryByUnits(P, 6, 6, 5, 5);
  }

  lemma RowTwo(F: Mat, P: Mat, dt: real)
    requires IsMat(F, 6, 6) && IsMat(P, 6, 6) && F[2] == [0.0, 0.0, 1.0, 0.0, 0.0, dt]
    ensures Dot(F[2], Apply(P, F[2])) == (P[2][2] + dt * P[2][5]) + dt * (P[5][2] + dt * P[5][5])
  {
    var x := F[2];
    var y := Apply(P, x);
    DotSparse(x, y, 2, 5);
    DotSparse(x, P[2], 2, 5);
    DotSparse(x, P[5], 2, 5);
    DotComm(P[2], x);
    DotComm(P[5], x);
  }
}
