/**
  The extended Kalman filter behind one fused track: `[lat, lon, alt, v_north,
  v_east, v_up]`, with a transition Jacobian that depends on the current latitude
  and on `v_east`.  Whatever the latitude, the time steps and the measurements,
  the covariance stays symmetric positive definite, so the inverse in `update`
  and the square root in `accuracyM` are always defined.
*/
module GeoFilter {
  import opened Wrappers
  import opened Matrix
  import opened Kalman
  import opened Reals
  import TrackerFilter

  const METERS_PER_DEG_LAT: real := 111320.0
  const MIN_COS: real := 0.000001

  datatype GeoPosition = GeoPosition(lat: real, lon: real, alt: real)
  datatype GeoVelocity = GeoVelocity(north: real, east: real, up: real)

  /** `Math.cos` and `Math.sin` of an angle in degrees, and the factor between the two units. */
  datatype Trig = Trig(cosDeg: real -> real, sinDeg: real -> real, deg2rad: real) {
    ghost predicate CosAtMostOne() { forall x :: cosDeg(x) <= 1.0 }
    ghost predicate SinAtMostOne() { forall x :: Abs(sinDeg(x)) <= 1.0 }

    /** Taylor's formula for the cosine, to second order. */
    ghost predicate SecondOrder() { forall x, y :: Abs(CosRemainder(x, y)) <= Half(Radians(y - x) * Radians(y - x)) }

    function Radians(deg: real): real { deg2rad * deg }

    function CosRemainder(x: real, y: real): real {
      cosDeg(y) - (cosDeg(x) - Radians(y - x) * sinDeg(x))
    }
  }

  function Half(x: real): real { x / 2.0 }

  function ClampedCos(trig: Trig, lat: real): (c: real)
    ensures c >= MIN_COS
    ensures trig.CosAtMostOne() ==> c <= 1.0
  {
    Max(trig.cosDeg(lat), MIN_COS)
  }

  function MetersPerDegLon(trig: Trig, lat: real): (m: real)
    ensures m > 0.0
    ensures trig.CosAtMostOne() ==> m <= METERS_PER_DEG_LAT
  {
    METERS_PER_DEG_LAT * ClampedCos(trig, lat)
  }

  /** Variances of position (degrees^2), altitude (m^2) and velocity ((m/s)^2). */
  datatype Variances = Variances(pos: real, alt: real, vel: real) {
    predicate NonNegative() { pos >= 0.0 && alt >= 0.0 && vel >= 0.0 }
    predicate Positive() { pos > 0.0 && alt > 0.0 && vel > 0.0 }
  }

  datatype MeasurementVar = MeasurementVar(pos: real, alt: real) {
    predicate Positive() { pos > 0.0 && alt > 0.0 }
  }

  const DEFAULT_MEASUREMENT: MeasurementVar :=
    MeasurementVar((8.0 / METERS_PER_DEG_LAT) * (8.0 / METERS_PER_DEG_LAT), 64.0)

  function StateDiag(v: Variances): (D: Mat)
    ensures IsMat(D, 6, 6)
  {
    Diag([v.pos, v.pos, v.alt, v.vel, v.vel, v.vel])
  }

  function MeasurementDiag(v: MeasurementVar): (D: Mat)
    ensures IsMat(D, 3, 3)
  {
    Diag([v.pos, v.pos, v.alt])
  }

  function PosVec(p: GeoPosition): (z: Vec)
    ensures |z| == 3
  {
    [p.lat, p.lon, p.alt]
  }

  // ----------------------------------------------------- the filter as values

  datatype Filter = Filter(state: Vec, cov: Mat) {
    ghost predicate Valid() { |state| == 6 && IsMat(cov, 6, 6) }

    function Position(): GeoPosition
      requires |state| == 6
    { GeoPosition(state[0], state[1], state[2]) }

    function Velocity(): GeoVelocity
      requires |state| == 6
    { GeoVelocity(state[3], state[4], state[5]) }
  }

  function Initial(p: GeoPosition, v: Variances): (f: Filter)
    ensures f.Valid()
  {
    Filter([p.lat, p.lon, p.alt, 0.0, 0.0, 0.0], StateDiag(v))
  }

  /** The Jacobian's entries off the diagonal. */
  function JacobianEntry(lonByLat: real, latByNorth: real, lonByEast: real, dt: real, i: nat, j: nat): real {
    if i == j then 1.0
    else if i == 0 && j == 3 then latByNorth
    else if i == 1 && j == 0 then lonByLat
    else if i == 1 && j == 4 then lonByEast
    else if i == 2 && j == 5 then dt
    else 0.0
  }

  function Jacobian(trig: Trig, s: Vec, dt: real): (F: Mat)
    requires |s| == 6
    ensures IsMat(F, 6, 6)
  {
    var cosLat := ClampedCos(trig, s[0]);
    var lonByLat := (s[4] * dt * trig.sinDeg(s[0]) * trig.deg2rad) / (METERS_PER_DEG_LAT * cosLat * cosLat);
    var latByNorth, lonByEast := dt / METERS_PER_DEG_LAT, dt / MetersPerDegLon(trig, s[0]);
    seq(6, i requires 0 <= i < 6 =>
      seq(6, j requires 0 <= j < 6 => JacobianEntry(lonByLat, latByNorth, lonByEast, dt, i, j)))
  }

  function Moved(trig: Trig, s: Vec, dt: real): (s': Vec)
    requires |s| == 6
    ensures |s'| == 6
  {
    [s[0] + Drift(s[3], dt, METERS_PER_DEG_LAT), s[1] + Drift(s[4], dt, MetersPerDegLon(trig, s[0])),
     s[2] + Climb(s[5], dt), s[3], s[4], s[5]]
  }

  function Climb(mps: real, dt: real): real { mps * dt }

  /** Degrees covered in `dt` seconds. */
  function Drift(mps: real, dt: real, metersPerDeg: real): real
    requires metersPerDeg != 0.0
  {
    (mps * dt) / metersPerDeg
  }

  function Predicted(trig: Trig, f: Filter, q: Variances, dt: real): (f': Filter)
    requires f.Valid()
    ensures f'.Valid()
  {
    Filter(Moved(trig, f.state, dt), PredictCov(Jacobian(trig, f.state, dt), f.cov, StateDiag(q), 6))
  }

  function Innovation(f: Filter, r: MeasurementVar): (S: Mat)
    requires f.Valid()
    ensures IsMat(S, 3, 3)
  {
    InnovationCov(Selector(3, 6), f.cov, MeasurementDiag(r), 3, 6)
  }

  /** `None` when the innovation covariance has no inverse, where mathjs throws. */
  function Updated(f: Filter, r: MeasurementVar, z: GeoPosition, inv: Mat -> Option<Mat>): (f': Option<Filter>)
    requires f.Valid()
    ensures f'.Some? ==> f'.value.Valid()
  {
    var X := inv(Innovation(f, r));
    if X.None? || !IsMat(X.value, 3, 3) then None
    else
      var K := Gain(Selector(3, 6), f.cov, X.value, 3, 6);
      Some(Filter(UpdateState(f.state, K, Selector(3, 6), PosVec(z), 3, 6),
                  UpdateCov(K, Selector(3, 6), f.cov, 3, 6)))
  }

  datatype Step = Predict(dt: real) | Update(z: GeoPosition)

  /** What a filter is built with. */
  datatype Config = Config(trig: Trig, process: Variances, measurement: MeasurementVar, inv: Mat -> Option<Mat>) {
    ghost predicate Ok() { process.NonNegative() && measurement.Positive() && Inverts(inv) }
  }

  function FilterStep(c: Config, f: Filter, step: Step): (f': Option<Filter>)
    requires f.Valid()
    ensures f'.Some? ==> f'.value.Valid()
  {
    match step
    case Predict(dt) => Some(Predicted(c.trig, f, c.process, dt))
    case Update(z) => Updated(f, c.measurement, z, c.inv)
  }

  function Run(c: Config, f: Filter, steps: seq<Step>): (f': Option<Filter>)
    requires f.Valid()
    ensures f'.Some? ==> f'.value.Valid()
  {
    if steps == [] then Some(f)
    else
      var prev := Run(c, f, steps[..|steps| - 1]);
      if prev.None? then None else FilterStep(c, prev.value, steps[|steps| - 1])
  }

  // ------------------------------------------- vertical states are decoupled

  /** Altitude and climb rate are states 2 and 5; in a measurement altitude is 2. */
  predicate Vertical(i: nat) { i % 3 == 2 }

  /** No entry couples a vertical with a horizontal component. */
  ghost predicate Decoupled(A: Mat, r: nat, c: nat) {
    IsMat(A, r, c) && forall i, j :: 0 <= i < r && 0 <= j < c && Vertical(i) != Vertical(j) ==> A[i][j] == 0.0
  }

  lemma {:induction false} DotVanishes(x: Vec, y: Vec)
    requires |x| == |y| && forall k :: 0 <= k < |x| ==> x[k] == 0.0 || y[k] == 0.0
    ensures Dot(x, y) == 0.0
  {
    if x != [] {
      DotVanishes(x[..|x| - 1], y[..|y| - 1]);
      assert x[|x| - 1] == 0.0 || y[|x| - 1] == 0.0;
    }
  }

  lemma DecoupledMul(A: Mat, B: Mat, r: nat, n: nat, c: nat)
    requires Decoupled(A, r, n) && Decoupled(B, n, c)
    ensures Decoupled(Mul(A, B, c), r, c)
  {
    forall i, j | 0 <= i < r && 0 <= j < c && Vertical(i) != Vertical(j) ensures Mul(A, B, c)[i][j] == 0.0 {
      forall k | 0 <= k < n ensures Transpose(B, c)[j][k] == 0.0 || A[i][k] == 0.0 {
        assert Transpose(B, c)[j][k] == B[k][j];
      }
      DotVanishes(Transpose(B, c)[j], A[i]);
    }
  }

  lemma DecoupledTranspose(A: Mat, r: nat, c: nat)
    requires Decoupled(A, r, c)
    ensures Decoupled(Transpose(A, c), c, r)
  {}

  lemma DecoupledSum(A: Mat, B: Mat, r: nat, c: nat)
    requires Decoupled(A, r, c) && Decoupled(B, r, c)
    ensures Decoupled(Add(A, B, c), r, c) && Decoupled(Sub(A, B, c), r, c)
  {}

  lemma DecoupledConstants(trig: Trig, s: Vec, dt: real, q: Variances, r: MeasurementVar)
    requires |s| == 6
    ensures Decoupled(Jacobian(trig, s, dt), 6, 6) && Decoupled(StateDiag(q), 6, 6)
    ensures Decoupled(MeasurementDiag(r), 3, 3)
    ensures Decoupled(Selector(3, 6), 3, 6) && Decoupled(Identity(6), 6, 6)
  {}

  lemma PredictDecoupled(trig: Trig, f: Filter, q: Variances, dt: real)
    requires f.Valid() && Decoupled(f.cov, 6, 6)
    ensures Decoupled(Predicted(trig, f, q, dt).cov, 6, 6)
  {
    var F := Jacobian(trig, f.state, dt);
    DecoupledConstants(trig, f.state, dt, q, MeasurementVar(0.0, 0.0));
    DecoupledMul(F, f.cov, 6, 6, 6);
    DecoupledTranspose(F, 6, 6);
    DecoupledMul(Mul(F, f.cov, 6), Transpose(F, 6), 6, 6, 6);
    DecoupledSum(Mul(Mul(F, f.cov, 6), Transpose(F, 6), 6), StateDiag(q), 6, 6);
  }

  lemma InnovationDecoupled(f: Filter, r: MeasurementVar)
    requires f.Valid() && Decoupled(f.cov, 6, 6)
    ensures Decoupled(Innovation(f, r), 3, 3)
  {
    InnovationEntries(f.cov, MeasurementDiag(r), 3, 6);
  }

  lemma UpdateCovDecoupled(P: Mat, X: Mat)
    requires Decoupled(P, 6, 6) && Decoupled(X, 3, 3)
    ensures Decoupled(UpdateCov(Gain(Selector(3, 6), P, X, 3, 6), Selector(3, 6), P, 3, 6), 6, 6)
  {
    var H := Selector(3, 6);
    var Ht := Transpose(H, 6);
    assert Decoupled(H, 3, 6);
    DecoupledTranspose(H, 3, 6);
    DecoupledMul(P, Ht, 6, 6, 3);
    DecoupledMul(Mul(P, Ht, 3), X, 6, 3, 3);
    var K := Gain(H, P, X, 3, 6);
    DecoupledMul(K, H, 6, 3, 6);
    DecoupledSum(Identity(6), Mul(K, H, 6), 6, 6);
    DecoupledMul(Sub(Identity(6), Mul(K, H, 6), 6), P, 6, 6, 6);
  }

  // --------------------------------------------------------- inverting S

  lemma Dot3(x: Vec, y: Vec)
    requires |x| == |y| == 3
    ensures Dot(x, y) == x[0] * y[0] + x[1] * y[1] + x[2] * y[2]
  {
    assert Dot(x[..1], y[..1]) == x[0] * y[0] by { assert x[..1][..0] == []; }
    assert x[..2][..1] == x[..1] && y[..2][..1] == y[..1];
    assert Dot(x[..2], y[..2]) == Dot(x[..1], y[..1]) + x[1] * y[1];
  }

  /** A decoupled symmetric 3x3 matrix. */
  function Sym3(a: real, b: real, c: real, d: real): (S: Mat)
    ensures IsMat(S, 3, 3)
  {
    [[a, b, 0.0], [b, c, 0.0], [0.0, 0.0, d]]
  }

  lemma Sym3Shape(S: Mat)
    requires Symmetric(S, 3) && Decoupled(S, 3, 3)
    ensures S == Sym3(S[0][0], S[0][1], S[1][1], S[2][2])
  {
    assert Vertical(2) && !Vertical(0) && !Vertical(1);
    assert S[0] == [S[0][0], S[0][1], 0.0];
    assert S[1] == [S[0][1], S[1][1], 0.0];
    assert S[2] == [0.0, 0.0, S[2][2]];
  }

  function QuadForm(a: real, b: real, c: real, d: real, x: real, y: real, z: real): real {
    x * (a * x + b * y) + y * (b * x + c * y) + z * (d * z)
  }

  lemma Sym3Positive(a: real, b: real, c: real, d: real, x: real, y: real, z: real)
    requires PosDef(Sym3(a, b, c, d), 3) && (x != 0.0 || y != 0.0 || z != 0.0)
    ensures QuadForm(a, b, c, d, x, y, z) > 0.0
  {
    Quadratic3(a, b, c, d, x, y, z);
    assert [x, y, z][0] != Zero(3)[0] || [x, y, z][1] != Zero(3)[1] || [x, y, z][2] != Zero(3)[2];
  }

  /** Its minors are positive when it is positive definite. */
  lemma Sym3Minors(a: real, b: real, c: real, d: real)
    requires PosDef(Sym3(a, b, c, d), 3)
    ensures a * c - b * b > 0.0 && d > 0.0
  {
    Sym3Diagonal(a, b, c, d);
    var m := a * c - b * b;
    FormAtMinor(a, b, c, d, m);
    Sym3Positive(a, b, c, d, c, 0.0 - b, 0.0);
    if m <= 0.0 { TrackerFilter.NonNegProduct(c, m, c * m); }
  }

  lemma FormAtMinor(a: real, b: real, c: real, d: real, m: real)
    requires m == a * c - b * b
    ensures QuadForm(a, b, c, d, c, 0.0 - b, 0.0) == c * m
  {
    assert b * c + c * (0.0 - b) == 0.0;
    assert a * c + b * (0.0 - b) == m;
  }

  lemma Sym3Diagonal(a: real, b: real, c: real, d: real)
    requires PosDef(Sym3(a, b, c, d), 3)
    ensures c > 0.0 && d > 0.0
  {
    SpdDiagonal(Sym3(a, b, c, d), 3, 1);
    SpdDiagonal(Sym3(a, b, c, d), 3, 2);
  }

  lemma Quadratic3(a: real, b: real, c: real, d: real, x: real, y: real, z: real)
    ensures Dot([x, y, z], Apply(Sym3(a, b, c, d), [x, y, z])) == QuadForm(a, b, c, d, x, y, z)
  {
    var S, v := Sym3(a, b, c, d), [x, y, z];
    Dot3(S[0], v);
    Dot3(S[1], v);
    Dot3(S[2], v);
    Dot3(v, Apply(S, v));
  }

  lemma Sym3MulEntry(a: real, b: real, c: real, d: real, a': real, b': real, c': real, d': real, i: nat, j: nat)
    requires i < 3 && j < 3
    ensures var S, X := Sym3(a, b, c, d), Sym3(a', b', c', d');
      Mul(S, X, 3)[i][j] == X[j][0] * S[i][0] + X[j][1] * S[i][1] + X[j][2] * S[i][2]
  {
    var S, X := Sym3(a, b, c, d), Sym3(a', b', c', d');
    var col := Transpose(X, 3)[j];
    assert col == X[j] by { assert forall k :: 0 <= k < 3 ==> X[k][j] == X[j][k]; }
    Dot3(col, S[i]);
  }

  lemma Sym3Mul(a: real, b: real, c: real, d: real, a': real, b': real, c': real, d': real)
    requires a * a' + b * b' == 1.0 && a * b' + b * c' == 0.0 && b * a' + c * b' == 0.0 && b * b' + c * c' == 1.0
    requires d * d' == 1.0
    ensures Mul(Sym3(a, b, c, d), Sym3(a', b', c', d'), 3) == Identity(3)
  {
    Sym3MulRow(a, b, c, d, a', b', c', d', 0);
    Sym3MulRow(a, b, c, d, a', b', c', d', 1);
    Sym3MulRow(a, b, c, d, a', b', c', d', 2);
  }

  lemma Sym3MulRow(a: real, b: real, c: real, d: real, a': real, b': real, c': real, d': real, i: nat)
    requires i < 3
    requires a * a' + b * b' == 1.0 && a * b' + b * c' == 0.0 && b * a' + c * b' == 0.0 && b * b' + c * c' == 1.0
    requires d * d' == 1.0
    ensures Mul(Sym3(a, b, c, d), Sym3(a', b', c', d'), 3)[i] == Identity(3)[i]
  {
    Sym3MulEntry(a, b, c, d, a', b', c', d', i, 0);
    Sym3MulEntry(a, b, c, d, a', b', c', d', i, 1);
    Sym3MulEntry(a, b, c, d, a', b', c', d', i, 2);
    var row := Mul(Sym3(a, b, c, d), Sym3(a', b', c', d'), 3)[i];
    assert row[0] == (if i == 0 then 1.0 else 0.0) && row[1] == (if i == 1 then 1.0 else 0.0) &&
        row[2] == if i == 2 then 1.0 else 0.0;
  }

  /** Every decoupled symmetric positive definite 3x3 matrix has an inverse, and it is decoupled. */
  lemma InverseExists(S: Mat) returns (X: Mat)
    requires Spd(S, 3) && Decoupled(S, 3, 3)
    ensures IsInverse(S, X, 3) && Decoupled(X, 3, 3)
  {
    Sym3Shape(S);
    var a, b, c, d := S[0][0], S[0][1], S[1][1], S[2][2];
    assert S == Sym3(a, b, c, d);
    X := Sym3HasInverse(a, b, c, d);
  }

  lemma Sym3HasInverse(a: real, b: real, c: real, d: real) returns (X: Mat)
    requires PosDef(Sym3(a, b, c, d), 3)
    ensures IsInverse(Sym3(a, b, c, d), X, 3) && Decoupled(X, 3, 3)
  {
    Sym3Minors(a, b, c, d);
    X := Sym3Inverse(a, b, c, d, a * c - b * b);
  }

  lemma Sym3Inverse(a: real, b: real, c: real, d: real, det: real) returns (X: Mat)
    requires det == a * c - b * b && det > 0.0 && d > 0.0
    ensures IsInverse(Sym3(a, b, c, d), X, 3) && Decoupled(X, 3, 3)
  {
    var t := Reciprocal(det);
    var u := Reciprocal(d);
    X := Sym3(t * c, 0.0 - t * b, t * a, u);
    Sym3Inverts(a, b, c, d, det, t, t * c, 0.0 - t * b, t * a, u);
  }

  lemma Reciprocal(s: real) returns (t: real)
    requires s != 0.0
    ensures t * s == 1.0
  {
    t := 1.0 / s;
  }

  lemma Sym3Inverts(a: real, b: real, c: real, d: real, det: real, t: real, a': real, b': real, c': real, u: real)
    requires det == a * c - b * b && t * det == 1.0 && u * d == 1.0 && a' == t * c && b' == 0.0 - t * b && c' == t * a
    ensures IsInverse(Sym3(a, b, c, d), Sym3(a', b', c', u), 3) && Decoupled(Sym3(a', b', c', u), 3, 3)
  {
    Adjugate(a, b, c, t, a', b', c');
    assert d * u == 1.0;
    Sym3Mul(a, b, c, d, a', b', c', u);
    Sym3Mul(a', b', c', u, a, b, c, d);
  }

  lemma Adjugate(a: real, b: real, c: real, t: real, a': real, b': real, c': real)
    requires t * (a * c - b * b) == 1.0 && a' == t * c && b' == 0.0 - t * b && c' == t * a
    ensures a * a' + b * b' == 1.0 && a * b' + b * c' == 0.0 && b * a' + c * b' == 0.0 && b * b' + c * c' == 1.0
    ensures a' * a + b' * b == 1.0 && a' * b + b' * c == 0.0 && b' * a + c' * b == 0.0 && b' * b + c' * c == 1.0
  {
    assert a * (t * c) == t * (a * c) && b * (t * b) == t * (b * b) && c * (t * a) == t * (a * c);
    assert a * (t * b) == b * (t * a) && b * (t * c) == c * (t * b);
    assert t * (a * c) - t * (b * b) == 1.0;
  }

  // ------------------------------------------------------------ whole runs

  lemma SixPositive(x: real, y: real, z: real, v: Vec)
    requires v == [x, x, y, z, z, z] || v == [x, x, y]
    ensures x >= 0.0 && y >= 0.0 && z >= 0.0 ==> forall i :: 0 <= i < |v| ==> v[i] >= 0.0
    ensures x > 0.0 && y > 0.0 && z > 0.0 ==> forall i :: 0 <= i < |v| ==> v[i] > 0.0
  {}

  lemma DiagsDefinite(q: Variances, r: MeasurementVar)
    ensures q.NonNegative() ==> Symmetric(StateDiag(q), 6) && PosSemi(StateDiag(q), 6)
    ensures q.Positive() ==> Spd(StateDiag(q), 6)
    ensures r.Positive() ==> Spd(MeasurementDiag(r), 3)
  {
    var d, e := [q.pos, q.pos, q.alt, q.vel, q.vel, q.vel], [r.pos, r.pos, r.alt];
    SixPositive(q.pos, q.alt, q.vel, d);
    SixPositive(r.pos, r.alt, 1.0, e);
    if q.NonNegative() { DiagDefinite(d); }
    if r.Positive() { DiagDefinite(e); }
  }

  lemma JacobianKernelFree(trig: Trig, s: Vec, dt: real)
    requires |s| == 6
    ensures KernelFree(Transpose(Jacobian(trig, s, dt), 6), 6)
  {
    var T := Transpose(Jacobian(trig, s, dt), 6);
    forall x: Vec | |x| == 6 && Apply(T, x) == Zero(6) ensures x == Zero(6) {
      KernelPosition(trig, s, dt, x);
      KernelVelocity(trig, s, dt, x);
    }
  }

  lemma KernelPosition(trig: Trig, s: Vec, dt: real, x: Vec)
    requires |s| == 6 && |x| == 6 && Apply(Transpose(Jacobian(trig, s, dt), 6), x) == Zero(6)
    ensures x[0] == x[1] == x[2] == 0.0
  {
    var T := Transpose(Jacobian(trig, s, dt), 6);
    var y := Apply(T, x);
    DotSingle(T[1], x, 1);
    assert y[1] == x[1] == 0.0;
    DotSparse(T[0], x, 0, 1);
    DotSingle(T[2], x, 2);
    assert y[0] == 0.0 && y[2] == 0.0;
  }

  lemma KernelVelocity(trig: Trig, s: Vec, dt: real, x: Vec)
    requires |s| == 6 && |x| == 6 && Apply(Transpose(Jacobian(trig, s, dt), 6), x) == Zero(6)
    requires x[0] == x[1] == x[2] == 0.0
    ensures x[3] == x[4] == x[5] == 0.0
  {
    var T := Transpose(Jacobian(trig, s, dt), 6);
    var y := Apply(T, x);
    DotSparse(T[3], x, 0, 3);
    DotSparse(T[4], x, 1, 4);
    DotSparse(T[5], x, 2, 5);
    assert y[3] == 0.0 && y[4] == 0.0 && y[5] == 0.0;
  }

  lemma QuotientIs(x: real, k: real, t: real)
    requires k != 0.0 && t * k == 1.0
    ensures x / k == x * t
  {
    assert (x * t) * k == x * (t * k);
  }

  /** The state of affairs every call preserves. */
  ghost predicate Healthy(f: Filter) {
    f.Valid() && Spd(f.cov, 6) && Decoupled(f.cov, 6, 6)
  }

  /** In a healthy filter the inverse in `update` exists and is decoupled. */
  lemma InverseFound(f: Filter, r: MeasurementVar, inv: Mat -> Option<Mat>)
    requires Healthy(f) && r.Positive() && Inverts(inv)
    ensures var X := inv(Innovation(f, r));
      X.Some? && IsInverse(Innovation(f, r), X.value, 3) && Decoupled(X.value, 3, 3)
  {
    DiagsDefinite(Variances(0.0, 0.0, 0.0), r);
    InnovationSpd(Selector(3, 6), f.cov, MeasurementDiag(r), 3, 6);
    InnovationDecoupled(f, r);
    var X := InverseExists(Innovation(f, r));
  }

  lemma PredictHealthy(c: Config, f: Filter, dt: real)
    requires Healthy(f) && c.Ok()
    ensures Healthy(Predicted(c.trig, f, c.process, dt))
  {
    DiagsDefinite(c.process, c.measurement);
    JacobianKernelFree(c.trig, f.state, dt);
    PredictKeepsSpd(Jacobian(c.trig, f.state, dt), f.cov, StateDiag(c.process), 6);
    PredictDecoupled(c.trig, f, c.process, dt);
  }

  lemma UpdateHealthy(c: Config, f: Filter, z: GeoPosition)
    requires Healthy(f) && c.Ok()
    ensures var f' := Updated(f, c.measurement, z, c.inv);
      f'.Some? && Healthy(f'.value)
  {
    InverseFound(f, c.measurement, c.inv);
    DiagsDefinite(c.process, c.measurement);
    var X := c.inv(Innovation(f, c.measurement)).value;
    UpdateKeepsSpd(Selector(3, 6), f.cov, MeasurementDiag(c.measurement), X, 3, 6);
    UpdateCovDecoupled(f.cov, X);
  }

  /**
    Every history of predictions (any time steps, any latitudes) and corrections is
    defined, and leaves a symmetric positive definite covariance in which altitude
    and climb rate are uncorrelated with the horizontal states.
  */
  lemma {:induction false} RunHealthy(c: Config, p: GeoPosition, v: Variances, steps: seq<Step>)
    requires c.Ok() && v.Positive()
    ensures var f := Run(c, Initial(p, v), steps);
      f.Some? && Healthy(f.value)
  {
    if steps == [] {
      DiagsDefinite(v, c.measurement);
      DecoupledConstants(c.trig, Initial(p, v).state, 0.0, v, c.measurement);
    } else {
      RunHealthy(c, p, v, steps[..|steps| - 1]);
      var prev := Run(c, Initial(p, v), steps[..|steps| - 1]).value;
      match steps[|steps| - 1]
      case Predict(dt) => PredictHealthy(c, prev, dt);
      case Update(z) => UpdateHealthy(c, prev, z);
    }
  }

  // --------------------------------------------------------------- accuracy

  /** What `accuracyM` takes the square root of: the horizontal position variance in m^2. */
  function AccuracySquared(trig: Trig, f: Filter): real
    requires f.Valid()
  {
    SumOfVariances(f.cov[0][0], f.cov[1][1], METERS_PER_DEG_LAT, MetersPerDegLon(trig, f.state[0]))
  }

  function SumOfVariances(latVar: real, lonVar: real, perLat: real, perLon: real): real {
    latVar * (perLat * perLat) + lonVar * (perLon * perLon)
  }

  lemma SpdDiagonal(P: Mat, n: nat, i: nat)
    requires PosDef(P, n) && i < n
    ensures P[i][i] > 0.0
  {
    EntryByUnits(P, n, n, i, i);
    assert Unit(n, i)[i] != Zero(n)[i];
  }

  /** `accuracyM` never takes the square root of a negative number. */
  lemma AccuracyDefined(trig: Trig, f: Filter)
    requires Healthy(f)
    ensures AccuracySquared(trig, f) > 0.0
  {
    SpdDiagonal(f.cov, 6, 0);
    SpdDiagonal(f.cov, 6, 1);
    WeightedSum(f.cov[0][0], f.cov[1][1], METERS_PER_DEG_LAT, MetersPerDegLon(trig, f.state[0]));
  }

  lemma WeightedSum(x: real, y: real, k: real, m: real)
    requires x > 0.0 && y > 0.0 && k > 0.0 && m > 0.0
    ensures SumOfVariances(x, y, k, m) > 0.0
  {
    ProductSign(m, m, m * m);
    ProductSign(k, k, k * k);
    ProductSign(y, m * m, y * (m * m));
    ProductSign(x, k * k, x * (k * k));
  }

  /** After a correction each measured coordinate is known better than its sensor knows it. */
  lemma UpdatedVariance(c: Config, f: Filter, z: GeoPosition, i: nat)
    requires Healthy(f) && c.Ok() && i < 3
    ensures var f' := Updated(f, c.measurement, z, c.inv);
      f'.Some? && 0.0 < f'.value.cov[i][i] < MeasurementDiag(c.measurement)[i][i]
  {
    UpdateHealthy(c, f, z);
    SpdDiagonal(Updated(f, c.measurement, z, c.inv).value.cov, 6, i);
    VarianceBelowNoise(c, f, z, i);
  }

  lemma VarianceBelowNoise(c: Config, f: Filter, z: GeoPosition, i: nat)
    requires Healthy(f) && c.Ok() && i < 3 && Updated(f, c.measurement, z, c.inv).Some?
    ensures Updated(f, c.measurement, z, c.inv).value.cov[i][i] < MeasurementDiag(c.measurement)[i][i]
  {
    InverseFound(f, c.measurement, c.inv);
    DiagsDefinite(c.process, c.measurement);
    var X := c.inv(Innovation(f, c.measurement)).value;
    DiagonalBelowNoise(f.cov, MeasurementDiag(c.measurement), X, i);
  }

  lemma DiagonalBelowNoise(P: Mat, R: Mat, X: Mat, i: nat)
    requires Spd(P, 6) && Spd(R, 3) && i < 3 && IsInverse(InnovationCov(Selector(3, 6), P, R, 3, 6), X, 3)
    ensures UpdateCov(Gain(Selector(3, 6), P, X, 3, 6), Selector(3, 6), P, 3, 6)[i][i] < R[i][i]
  {
    var H, e := Selector(3, 6), Unit(3, i);
    assert e[i] != Zero(3)[i];
    PosteriorBelowNoise(H, P, R, X, 3, 6, e);
    LiftUnit(i);
    EntryByUnits(UpdateCov(Gain(H, P, X, 3, 6), H, P, 3, 6), 6, 6, i, i);
    EntryByUnits(R, 3, 3, i, i);
  }

  lemma LiftUnit(i: nat)
    requires i < 3
    ensures Apply(Transpose(Selector(3, 6), 6), Unit(3, i)) == Unit(6, i)
  {
    var Ht := Transpose(Selector(3, 6), 6);
    forall k | 0 <= k < 6 ensures Dot(Ht[k], Unit(3, i)) == Unit(6, i)[k] {
      EntryByUnits(Ht, 6, 3, k, i);
    }
  }

  /**
    Right after any correction with the default sensor model, in any history, the
    reported accuracy is at most 8 * sqrt(2) metres (its square at most 128).
  */
  lemma DefaultAccuracy(c: Config, p: GeoPosition, v: Variances, steps: seq<Step>, z: GeoPosition)
    requires c.Ok() && v.Positive() && c.measurement == DEFAULT_MEASUREMENT && c.trig.CosAtMostOne()
    ensures var f := Run(c, Initial(p, v), steps + [Update(z)]);
      f.Some? && 0.0 < AccuracySquared(c.trig, f.value) <= 128.0
  {
    RunHealthy(c, p, v, steps);
    RunSnoc(c, Initial(p, v), steps, Update(z));
    UpdateAccuracy(c, Run(c, Initial(p, v), steps).value, z);
  }

  lemma RunSnoc(c: Config, f: Filter, steps: seq<Step>, step: Step)
    requires f.Valid() && Run(c, f, steps).Some?
    ensures Run(c, f, steps + [step]) == FilterStep(c, Run(c, f, steps).value, step)
  {
    assert (steps + [step])[..|steps|] == steps;
  }

  lemma UpdateAccuracy(c: Config, f: Filter, z: GeoPosition)
    requires Healthy(f) && c.Ok() && c.measurement == DEFAULT_MEASUREMENT && c.trig.CosAtMostOne()
    ensures var f' := Updated(f, c.measurement, z, c.inv);
      f'.Some? && 0.0 < AccuracySquared(c.trig, f'.value) <= 128.0
  {
    UpdateHealthy(c, f, z);
    UpdatedVariance(c, f, z, 0);
    UpdatedVariance(c, f, z, 1);
    var f' := Updated(f, c.measurement, z, c.inv).value;
    AccuracyDefined(c.trig, f');
    AccuracyBound(c.trig, f');
  }

  lemma AccuracyBound(trig: Trig, f: Filter)
    requires f.Valid() && trig.CosAtMostOne()
    requires 0.0 < f.cov[0][0] < DEFAULT_MEASUREMENT.pos && 0.0 < f.cov[1][1] < DEFAULT_MEASUREMENT.pos
    ensures AccuracySquared(trig, f) <= 128.0
  {
    assert DEFAULT_MEASUREMENT.pos * (METERS_PER_DEG_LAT * METERS_PER_DEG_LAT) == 64.0;
    Bound(f.cov[0][0], f.cov[1][1], DEFAULT_MEASUREMENT.pos, METERS_PER_DEG_LAT, MetersPerDegLon(trig, f.state[0]));
  }

  lemma SquareMonotone(m: real, k: real, q: real)
    requires 0.0 < m <= k && q == m * m
    ensures 0.0 < q <= k * k
  {
    ProductSign(m, m, q);
    ProductSign(k - m, k + m, (k - m) * (k + m));
  }

  lemma Bound(x: real, y: real, r: real, k: real, m: real)
    requires 0.0 < x < r && 0.0 < y < r && 0.0 < m <= k && r * (k * k) == 64.0
    ensures SumOfVariances(x, y, k, m) <= 128.0
  {
    var k2, m2 := k * k, m * m;
    SquareMonotone(m, k, m2);
    ProductSign(k, k, k2);
    ProductSign(r - x, k2, (r - x) * k2);
    ProductSign(r - y, k2, (r - y) * k2);
    ProductSign(y, k2 - m2, y * (k2 - m2));
  }

  // ------------------------------------------------- dead reckoning (geo.ts)

  /** The position used for gating, computed without touching the filter. */
  function Extrapolate(trig: Trig, p: GeoPosition, v: GeoVelocity, dt: real): GeoPosition {
    var mPerDegLon := 111320.0 * Max(trig.cosDeg(p.lat), MIN_COS);
    GeoPosition(p.lat + Drift(v.north, dt, 111320.0), p.lon + Drift(v.east, dt, mPerDegLon), p.alt + Climb(v.up, dt))
  }

  /** Gating looks exactly where the filter's own prediction will be. */
  lemma ExtrapolateIsPrediction(trig: Trig, f: Filter, q: Variances, dt: real)
    requires f.Valid()
    ensures Extrapolate(trig, f.Position(), f.Velocity(), dt) == Predicted(trig, f, q, dt).Position()
  {
    var p, v := f.Position(), f.Velocity();
    SameDrift(v.east, dt, 111320.0 * Max(trig.cosDeg(p.lat), MIN_COS), MetersPerDegLon(trig, p.lat));
    var a, b := Extrapolate(trig, p, v, dt), Predicted(trig, f, q, dt).Position();
    assert a.lat == b.lat;
    assert a.lon == b.lon;
    assert a.alt == b.alt;
  }

  lemma SameDrift(mps: real, dt: real, m: real, m': real)
    requires m == m' && m != 0.0
    ensures Drift(mps, dt, m) == Drift(mps, dt, m')
  {
  }

  // --------------------------------------------------------------- the class

  /** `ExtendedKalmanFilter`: the fields the constructor keeps, and the two methods that reassign them. */
  class ExtendedKalmanFilter {
    var state: Vec
    var covariance: Mat
    const H: Mat
    const Q: Mat
    const R: Mat
    const config: Config

    ghost predicate Valid() reads this {
      Filter(state, covariance).Valid() && H == Selector(3, 6) &&
      Q == StateDiag(config.process) && R == MeasurementDiag(config.measurement)
    }

    ghost function Value(): (f: Filter)
      reads this
      requires Valid()
      ensures f.Valid()
    {
      Filter(state, covariance)
    }

    constructor (initial: GeoPosition, initialVar: Variances, config: Config)
      ensures Valid() && this.config == config && Value() == Initial(initial, initialVar)
    {
      var h := TrackerFilter.BuildMeasurementMatrix(3, 6);
      H := h;
      state := [initial.lat, initial.lon, initial.alt, 0.0, 0.0, 0.0];
      covariance := StateDiag(initialVar);
      Q := StateDiag(config.process);
      R := MeasurementDiag(config.measurement);
      this.config := config;
    }

    method Predict(dt: real)
      requires Valid()
      modifies this
      ensures Valid() && Value() == Predicted(config.trig, old(Value()), config.process, dt)
    {
      var lat, vEast := state[0], state[4];
      var mPerDegLon := MetersPerDegLon(config.trig, lat);
      var F := Identity(6);
      F := F[0 := F[0][3 := dt / METERS_PER_DEG_LAT]];
      F := F[2 := F[2][5 := dt]];
      F := F[1 := F[1][4 := dt / mPerDegLon]];
      var cosLat := ClampedCos(config.trig, lat);
      var lonByLat :=
        (vEast * dt * config.trig.sinDeg(lat) * config.trig.deg2rad) / (METERS_PER_DEG_LAT * cosLat * cosLat);
      F := F[1 := F[1][0 := lonByLat]];
      JacobianRows(F, config.trig, state, dt);
      state := Moved(config.trig, state, dt);
      covariance := Add(Mul(Mul(F, covariance, 6), Transpose(F, 6), 6), Q, 6);
    }

    /** `ok` is false where mathjs throws on a singular matrix; then nothing has changed. */
    method Update(measurement: GeoPosition) returns (ok: bool)
      requires Valid()
      modifies this
      ensures Valid()
      ensures var f := Updated(old(Value()), config.measurement, measurement, config.inv);
        ok == f.Some? && Value() == if ok then f.value else old(Value())
    {
      var innovation := VSub(PosVec(measurement), Apply(H, state));
      var innovationCovariance := Add(Mul(Mul(H, covariance, 6), Transpose(H, 6), 3), R, 3);
      var inverse := config.inv(innovationCovariance);
      if inverse.None? || !IsMat(inverse.value, 3, 3) { return false; }
      var kalmanGain := Mul(Mul(covariance, Transpose(H, 6), 3), inverse.value, 3);
      state := VAdd(state, Apply(kalmanGain, innovation));
      covariance := Mul(Sub(Identity(6), Mul(kalmanGain, H, 6), 6), covariance, 6);
      return true;
    }
  }

  lemma JacobianRows(F: Mat, trig: Trig, s: Vec, dt: real)
    requires |s| == 6 && IsMat(F, 6, 6)
    requires forall i, j :: 0 <= i < 6 && 0 <= j < 6 ==> F[i][j] == Jacobian(trig, s, dt)[i][j]
    ensures F == Jacobian(trig, s, dt)
  {
    forall i | 0 <= i < 6 ensures F[i] == Jacobian(trig, s, dt)[i] {}
  }
}
