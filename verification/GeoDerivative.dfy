/**
  The Jacobian's entry longitude by latitude as a derivative.  At a latitude it is the
  derivative of the predicted longitude exactly when the cosine is above the clamp or
  the entry has a zero factor; at a pole, with an eastward velocity, it is not.
*/
module GeoDerivative {
  import opened Matrix
  import opened Reals
  import opened GeoFilter
  import opened GeoJacobian

  /** Within `d` of the latitude the entry misses at most `eps` times the move. */
  ghost predicate MissesLittle(trig: Trig, s: Vec, dt: real, eps: real, d: real)
    requires |s| == 6
  {
    forall h :: Abs(h) < d ==> Abs(Miss(trig, s, dt, h)) <= eps * Abs(h)
  }

  ghost predicate Settles(trig: Trig, s: Vec, dt: real, eps: real)
    requires |s| == 6
  {
    exists d :: d > 0.0 && MissesLittle(trig, s, dt, eps, d)
  }

  /** The entry is the derivative of the predicted longitude in the latitude. */
  ghost predicate IsDerivative(trig: Trig, s: Vec, dt: real)
    requires |s| == 6
  {
    forall eps :: eps > 0.0 ==> Settles(trig, s, dt, eps)
  }

  /** The numerator of the entry. */
  function Factors(trig: Trig, s: Vec, dt: real): real
    requires |s| == 6
  {
    s[4] * dt * trig.sinDeg(s[0]) * trig.deg2rad
  }

  // ------------------------------------------------- errors of second order

  predicate Squared(miss: real, k: real, q: real, h: real) { Abs(miss) * k <= q * (h * h) }

  /** Near the latitude the error is at most `q / k` times the square of the move. */
  ghost predicate Quadratic(trig: Trig, s: Vec, dt: real, q: real, k: real, d: real)
    requires |s| == 6
  {
    forall h :: Abs(h) < d ==> Squared(Miss(trig, s, dt, h), k, q, h)
  }

  lemma SmallStep(k: real, bound: real) returns (d: real)
    requires k >= 0.0 && bound > 0.0
    ensures d > 0.0 && k * d <= bound
  {
    d := bound / (k + 1.0);
    assert d * (k + 1.0) == bound;
    if d <= 0.0 { ProductSign(0.0 - d, k + 1.0, (0.0 - d) * (k + 1.0)); }
  }

  /** An error of second order settles under every slope. */
  lemma QuadraticSettles(trig: Trig, s: Vec, dt: real, q: real, k: real, d: real)
    requires |s| == 6 && q >= 0.0 && k > 0.0 && d > 0.0 && Quadratic(trig, s, dt, q, k, d)
    ensures IsDerivative(trig, s, dt)
  {
    forall eps | eps > 0.0 ensures Settles(trig, s, dt, eps) {
      var step := QuadraticUnder(trig, s, dt, q, k, d, eps);
    }
  }

  lemma QuadraticUnder(trig: Trig, s: Vec, dt: real, q: real, k: real, d: real, eps: real) returns (step: real)
    requires |s| == 6 && q >= 0.0 && k > 0.0 && d > 0.0 && eps > 0.0 && Quadratic(trig, s, dt, q, k, d)
    ensures step > 0.0 && MissesLittle(trig, s, dt, eps, step)
  {
    ProductSign(eps, k, eps * k);
    var bound := SmallStep(q, eps * k);
    step := Min(d, bound);
    forall h | Abs(h) < step ensures Abs(Miss(trig, s, dt, h)) <= eps * Abs(h) {
      UnderSlope(Miss(trig, s, dt, h), q, k, eps, h, bound);
    }
  }

  lemma UnderSlope(miss: real, q: real, k: real, eps: real, h: real, step: real)
    requires q >= 0.0 && k > 0.0 && eps > 0.0 && Abs(h) < step && q * step <= eps * k && Squared(miss, k, q, h)
    ensures Abs(miss) <= eps * Abs(h)
  {
    var m := Abs(h);
    MulBound(q, q, m, step);
    MulBound(m, m, q * m, eps * k);
    AbsProduct(h, h);
    assert q * (m * m) == m * (q * m) && m * (eps * k) == (eps * m) * k;
    Divide(Abs(miss), eps * m, k);
  }

  lemma Divide(x: real, y: real, k: real)
    requires k > 0.0 && x * k <= y * k
    ensures x <= y
  {
    if x > y { ProductSign(x - y, k, (x - y) * k); }
  }

  // ------------------------------------------------------- above the clamp

  /** Taylor's formula, solved for the cosine after the move. */
  lemma CosAt(trig: Trig, lat: real, h: real)
    ensures trig.cosDeg(lat + h) ==
      trig.cosDeg(lat) - trig.Radians(h) * trig.sinDeg(lat) + trig.CosRemainder(lat, lat + h)
  {
    assert (lat + h) - lat == h;
  }

  const CUBE: real := MIN_COS * MIN_COS * MIN_COS

  /** Small moves keep the cosine above the clamp. */
  lemma StaysUnclamped(trig: Trig, lat: real, h: real)
    requires trig.SinAtMostOne() && trig.SecondOrder()
    requires Abs(trig.Radians(h)) <= 1.0 && 2.0 * Abs(trig.Radians(h)) <= trig.cosDeg(lat) - MIN_COS
    ensures Unclamped(trig, lat + h)
  {
    Remainder(trig, lat, h);
    CosAt(trig, lat, h);
    FallBelow(trig.Radians(h), trig.sinDeg(lat), trig.Radians(h) * trig.sinDeg(lat));
    RemainderBelow(trig.CosRemainder(lat, lat + h), Abs(trig.Radians(h)));
  }

  lemma FallBelow(u: real, sin: real, fall: real)
    requires fall == u * sin && Abs(sin) <= 1.0
    ensures Abs(fall) <= Abs(u)
  {
    ProductBound(u, sin, Abs(u), 1.0);
  }

  lemma RemainderBelow(e: real, m: real)
    requires 0.0 <= m <= 1.0 && Abs(e) <= Half(m * m)
    ensures Abs(e) <= m
  {
    ProductSign(m, 1.0 - m, m * (1.0 - m));
    assert m * (1.0 - m) == m - m * m;
  }

  lemma UnclampedError(trig: Trig, s: Vec, dt: real, h: real)
    requires |s| == 6 && trig.CosAtMostOne() && trig.SinAtMostOne() && trig.SecondOrder()
    requires trig.cosDeg(s[0]) > MIN_COS && Abs(trig.Radians(h)) <= 1.0
    requires 2.0 * Abs(trig.Radians(h)) <= trig.cosDeg(s[0]) - MIN_COS
    ensures Squared(Miss(trig, s, dt, h), CUBE, Curvature(LatDegrees(s, dt), trig.deg2rad), h)
  {
    StaysUnclamped(trig, s[0], h);
    ErrorUnclamped(trig, s, dt, h);
  }

  lemma ErrorUnclamped(trig: Trig, s: Vec, dt: real, h: real)
    requires |s| == 6 && trig.CosAtMostOne() && trig.SinAtMostOne() && trig.SecondOrder()
    requires Unclamped(trig, s[0]) && Unclamped(trig, s[0] + h) && Abs(trig.Radians(h)) <= 1.0
    ensures Squared(Miss(trig, s, dt, h), CUBE, Curvature(LatDegrees(s, dt), trig.deg2rad), h)
  {
    var n := LatitudeColumn(trig, s, dt, h);
    ErrorInMove(Miss(trig, s, dt, h), LatDegrees(s, dt), n, trig.deg2rad, h, trig.Radians(h), trig.cosDeg(s[0]),
                trig.cosDeg(s[0] + h));
  }

  lemma ErrorInMove(d: real, a: real, n: real, r: real, h: real, u: real, c: real, c': real)
    requires c >= MIN_COS && c' >= MIN_COS && u == r * h && Abs(u) <= 1.0
    requires Gap(d, c, c') == a * n && 2.0 * Abs(n) <= SecondOrderIn(Abs(u))
    ensures Squared(d, CUBE, Curvature(a, r), h)
  {
    var m := Abs(u);
    ErrorAt(d, a, n, m, c, c');
    SquareOfRadians(r, h, m);
    AsSquare(d, a, r, h, m * m);
  }

  lemma AsSquare(d: real, a: real, r: real, h: real, square: real)
    requires Abs(d) * CUBE <= (2.0 * Abs(a)) * square && square == (r * r) * (h * h)
    ensures Squared(d, CUBE, Curvature(a, r), h)
  {
    Regroup(Abs(a), square, r * r, h * h);
  }

  /** What the error of a move is at most, per square of the move, before the division by the clamp. */
  function Curvature(a: real, r: real): real { (2.0 * Abs(a)) * (r * r) }

  lemma Regroup(a: real, mm: real, rr: real, hh: real)
    requires mm == rr * hh
    ensures (2.0 * a) * mm == ((2.0 * a) * rr) * hh
  {}

  lemma SquareOfRadians(r: real, h: real, m: real)
    requires m == Abs(r * h)
    ensures m * m == (r * r) * (h * h)
  {
    AbsProduct(r * h, r * h);
    assert (r * h) * (r * h) == (r * r) * (h * h);
    ProductSign(Abs(r * h), Abs(r * h), m * m);
  }

  lemma ErrorAt(d: real, a: real, n: real, m: real, c: real, c': real)
    requires c >= MIN_COS && c' >= MIN_COS && 0.0 <= m <= 1.0
    requires Gap(d, c, c') == a * n && 2.0 * Abs(n) <= SecondOrderIn(m)
    ensures Abs(d) * CUBE <= (2.0 * Abs(a)) * (m * m)
  {
    CubeBelow(c, c', (c * c) * c');
    TwoSquares(n, m);
    ScaleDown(d, (c * c) * c', a, n, 2.0 * (m * m));
    assert Abs(a) * (2.0 * (m * m)) == (2.0 * Abs(a)) * (m * m);
  }

  lemma CubeBelow(c: real, c': real, k: real)
    requires c >= MIN_COS && c' >= MIN_COS && k == (c * c) * c'
    ensures CUBE <= k
  {
    MulBound(MIN_COS, c, MIN_COS, c);
    MulBound(MIN_COS * MIN_COS, c * c, MIN_COS, c');
  }

  lemma ScaleDown(d: real, k: real, a: real, n: real, bound: real)
    requires d * k == a * n && CUBE <= k && Abs(n) <= bound
    ensures Abs(d) * CUBE <= Abs(a) * bound
  {
    MulBound(Abs(d), Abs(d), CUBE, k);
    AbsProduct(d, k);
    AbsProduct(a, n);
    MulBound(Abs(a), Abs(a), Abs(n), bound);
  }

  lemma TwoSquares(n: real, m: real)
    requires 0.0 <= m <= 1.0 && 2.0 * Abs(n) <= SecondOrderIn(m)
    ensures Abs(n) <= 2.0 * (m * m)
  {
    ProductSign(m, m, m * m);
    MulBound(m * m, m * m, 3.0 + m, 4.0);
  }

  lemma UnclampedIsDerivative(trig: Trig, s: Vec, dt: real)
    requires |s| == 6 && trig.CosAtMostOne() && trig.SinAtMostOne() && trig.SecondOrder()
    requires trig.cosDeg(s[0]) > MIN_COS
    ensures IsDerivative(trig, s, dt)
  {
    var q := Curvature(LatDegrees(s, dt), trig.deg2rad);
    var d := UnclampedQuadratic(trig, s, dt, q);
    CurvatureSign(LatDegrees(s, dt), trig.deg2rad);
    QuadraticSettles(trig, s, dt, q, CUBE, d);
  }

  lemma UnclampedQuadratic(trig: Trig, s: Vec, dt: real, q: real) returns (d: real)
    requires |s| == 6 && trig.CosAtMostOne() && trig.SinAtMostOne() && trig.SecondOrder()
    requires trig.cosDeg(s[0]) > MIN_COS && q == Curvature(LatDegrees(s, dt), trig.deg2rad)
    ensures d > 0.0 && Quadratic(trig, s, dt, q, CUBE, d)
  {
    var bound := Min(1.0, (trig.cosDeg(s[0]) - MIN_COS) / 2.0);
    d := SmallStep(Abs(trig.deg2rad), bound);
    forall h | Abs(h) < d ensures Squared(Miss(trig, s, dt, h), CUBE, q, h) {
      RadiansWithin(trig, h, d, bound);
      UnclampedError(trig, s, dt, h);
    }
  }

  lemma RadiansWithin(trig: Trig, h: real, d: real, bound: real)
    requires Abs(h) < d && Abs(trig.deg2rad) * d <= bound
    ensures Abs(trig.Radians(h)) <= bound
  {
    AbsProduct(trig.deg2rad, h);
    MulBound(Abs(trig.deg2rad), Abs(trig.deg2rad), Abs(h), d);
  }

  lemma CurvatureSign(a: real, r: real)
    ensures Curvature(a, r) >= 0.0
  {
    SquareSign(r, r * r);
    ProductSign(2.0 * Abs(a), r * r, (2.0 * Abs(a)) * (r * r));
  }

  // -------------------------------------------------- a factor that is zero

  /** Without eastward motion neither the longitude nor the entry moves. */
  lemma StandingIsDerivative(trig: Trig, s: Vec, dt: real)
    requires |s| == 6 && s[4] * dt == 0.0
    ensures IsDerivative(trig, s, dt)
  {
    forall h | Abs(h) < 1.0 ensures Squared(Miss(trig, s, dt, h), 1.0, 0.0, h) {
      StandingMiss(trig, s, dt, h);
    }
    QuadraticSettles(trig, s, dt, 0.0, 1.0, 1.0);
  }

  lemma StandingMiss(trig: Trig, s: Vec, dt: real, h: real)
    requires |s| == 6 && s[4] * dt == 0.0
    ensures Miss(trig, s, dt, h) == 0.0
  {
    LonShiftIs(trig, s, dt, h, 0.0, 0.0);
    assert Jacobian(trig, s, dt)[1][0] == 0.0;
  }

  /** The cosine does not rise above the clamp by more than a square where it is level. */
  lemma LevelRise(trig: Trig, lat: real, h: real)
    requires trig.SecondOrder() && trig.cosDeg(lat) <= MIN_COS && trig.sinDeg(lat) * trig.deg2rad == 0.0
    ensures MIN_COS <= ClampedCos(trig, lat + h) <= MIN_COS + Half((trig.deg2rad * trig.deg2rad) * (h * h))
  {
    var m := Abs(trig.Radians(h));
    Remainder(trig, lat, h);
    CosAt(trig, lat, h);
    SquareOfRadians(trig.deg2rad, h, m);
    LevelSlope(trig.deg2rad, h, trig.sinDeg(lat));
    ProductSign(m, m, m * m);
  }

  lemma LevelSlope(r: real, h: real, sin: real)
    requires sin * r == 0.0
    ensures (r * h) * sin == 0.0
  {
    assert (r * h) * sin == h * (sin * r);
  }

  lemma LevelError(trig: Trig, s: Vec, dt: real, h: real)
    requires |s| == 6 && trig.SecondOrder() && trig.cosDeg(s[0]) <= MIN_COS
    requires trig.sinDeg(s[0]) * trig.deg2rad == 0.0
    ensures Squared(Miss(trig, s, dt, h), MIN_COS * MIN_COS, Curvature(LatDegrees(s, dt), trig.deg2rad), h)
  {
    var a, c, c' := LatDegrees(s, dt), MIN_COS, ClampedCos(trig, s[0] + h);
    LevelRise(trig, s[0], h);
    var p, p' := Drift(s[4], dt, MetersPerDegLon(trig, s[0])), Drift(s[4], dt, MetersPerDegLon(trig, s[0] + h));
    DriftIs(s[4] * dt, c, a, p);
    DriftIs(s[4] * dt, c', a, p');
    LonShiftIs(trig, s, dt, h, p, p');
    NoEntry(trig, s, dt);
    LevelGap(a, c, c', p, p', (trig.deg2rad * trig.deg2rad) * (h * h));
    Regroup(Abs(a), (trig.deg2rad * trig.deg2rad) * (h * h), trig.deg2rad * trig.deg2rad, h * h);
  }

  lemma NoEntry(trig: Trig, s: Vec, dt: real)
    requires |s| == 6 && trig.cosDeg(s[0]) <= MIN_COS && trig.sinDeg(s[0]) * trig.deg2rad == 0.0
    ensures Jacobian(trig, s, dt)[1][0] == 0.0
  {
    FactorsVanish(s[4] * dt, trig.sinDeg(s[0]), trig.deg2rad);
    ClampedColumn(trig, s, dt, 0.0);
  }

  lemma FactorsVanish(x: real, sin: real, r: real)
    requires sin * r == 0.0
    ensures x * sin * r == 0.0
  {
    assert x * sin * r == x * (sin * r);
  }

  lemma LevelGap(a: real, c: real, c': real, p: real, p': real, rise: real)
    requires 0.0 < c <= c' <= c + Half(rise) && p * c == a && p' * c' == a
    ensures Abs(p' - p) * (c * c) <= (2.0 * Abs(a)) * rise
  {
    var d := p' - p;
    assert d * (c * c') == a * (c - c') by {
      assert p' * (c * c') == a * c && p * (c * c') == a * c';
      assert d * (c * c') == p' * (c * c') - p * (c * c');
    }
    ProductSign(c, c', c * c');
    AbsProduct(d, c * c');
    AbsProduct(a, c - c');
    MulBound(c, c, c, c');
    MulBound(Abs(d), Abs(d), c * c, c * c');
    MulBound(Abs(a), Abs(a), Abs(c - c'), 2.0 * rise);
    assert Abs(a) * (2.0 * rise) == (2.0 * Abs(a)) * rise;
  }

  lemma LevelIsDerivative(trig: Trig, s: Vec, dt: real)
    requires |s| == 6 && trig.SecondOrder() && trig.cosDeg(s[0]) <= MIN_COS
    requires trig.sinDeg(s[0]) * trig.deg2rad == 0.0
    ensures IsDerivative(trig, s, dt)
  {
    var q := Curvature(LatDegrees(s, dt), trig.deg2rad);
    LevelQuadratic(trig, s, dt, q);
    CurvatureSign(LatDegrees(s, dt), trig.deg2rad);
    QuadraticSettles(trig, s, dt, q, MIN_COS * MIN_COS, 1.0);
  }

  lemma LevelQuadratic(trig: Trig, s: Vec, dt: real, q: real)
    requires |s| == 6 && trig.SecondOrder() && trig.cosDeg(s[0]) <= MIN_COS
    requires trig.sinDeg(s[0]) * trig.deg2rad == 0.0 && q == Curvature(LatDegrees(s, dt), trig.deg2rad)
    ensures Quadratic(trig, s, dt, q, MIN_COS * MIN_COS, 1.0)
  {
    forall h | Abs(h) < 1.0 ensures Squared(Miss(trig, s, dt, h), MIN_COS * MIN_COS, q, h) {
      LevelError(trig, s, dt, h);
    }
  }

  // -------------------------------------------------------- at the clamp

  /** There is an arbitrarily small move to where the cosine has fallen further. */
  lemma Downhill(trig: Trig, lat: real, d: real) returns (h: real)
    requires trig.SecondOrder() && trig.cosDeg(lat) <= MIN_COS && trig.sinDeg(lat) * trig.deg2rad != 0.0 && d > 0.0
    ensures 0.0 < Abs(h) < d && trig.cosDeg(lat + h) <= MIN_COS
  {
    var r, sin := trig.deg2rad, trig.sinDeg(lat);
    assert sin != 0.0;
    var t := SmallStep(Abs(r), 2.0 * Abs(sin));
    var step := Min(t, d / 2.0);
    h := if sin * r > 0.0 then step else 0.0 - step;
    Remainder(trig, lat, h);
    CosAt(trig, lat, h);
    MulBound(Abs(r), Abs(r), step, t);
    Falls(r, sin, h, Abs(r * h));
  }

  lemma Falls(r: real, sin: real, h: real, m: real)
    requires m == Abs(r * h) && Abs(r) * Abs(h) <= 2.0 * Abs(sin) && (if sin * r > 0.0 then h > 0.0 else h < 0.0)
    ensures Half(m * m) <= (r * h) * sin
  {
    AbsProduct(r, h);
    SameSign(r, sin, h);
    HalfSquare(r * h, sin, m, (r * h) * sin);
  }

  lemma SameSign(r: real, sin: real, h: real)
    requires if sin * r > 0.0 then h > 0.0 else h < 0.0
    ensures (r * h) * sin >= 0.0
  {
    var p := sin * r;
    if p > 0.0 { ProductSign(p, h, p * h); } else { ProductSign(0.0 - p, 0.0 - h, p * h); }
    assert (r * h) * sin == p * h;
  }

  lemma HalfSquare(u: real, sin: real, m: real, w: real)
    requires m == Abs(u) <= 2.0 * Abs(sin) && w == u * sin && w >= 0.0
    ensures Half(m * m) <= w
  {
    AbsProduct(u, sin);
    MulBound(m, m, m, 2.0 * Abs(sin));
    assert m * (2.0 * Abs(sin)) == 2.0 * (m * Abs(sin));
  }

  lemma ClampedIsNotDerivative(trig: Trig, s: Vec, dt: real)
    requires |s| == 6 && trig.SecondOrder() && trig.cosDeg(s[0]) <= MIN_COS && Factors(trig, s, dt) != 0.0
    ensures !IsDerivative(trig, s, dt)
  {
    var eps := Abs(Jacobian(trig, s, dt)[1][0]) / 2.0;
    ClampedColumn(trig, s, dt, 0.0);
    assert eps > 0.0;
    if Settles(trig, s, dt, eps) {
      var d :| d > 0.0 && MissesLittle(trig, s, dt, eps, d);
      MissesMore(trig, s, dt, d);
    }
  }

  lemma MissesMore(trig: Trig, s: Vec, dt: real, d: real)
    requires |s| == 6 && trig.SecondOrder() && trig.cosDeg(s[0]) <= MIN_COS && Factors(trig, s, dt) != 0.0 && d > 0.0
    ensures !MissesLittle(trig, s, dt, Abs(Jacobian(trig, s, dt)[1][0]) / 2.0, d)
  {
    NoFactorVanishes(s[4] * dt, trig.sinDeg(s[0]), trig.deg2rad);
    var h := Downhill(trig, s[0], d);
    ClampedColumn(trig, s, dt, h);
    HalfTooMuch(h, Jacobian(trig, s, dt)[1][0], Miss(trig, s, dt, h));
  }

  lemma NoFactorVanishes(x: real, sin: real, r: real)
    requires x * sin * r != 0.0
    ensures sin * r != 0.0
  {
    assert x * sin * r == x * (sin * r);
  }

  lemma HalfTooMuch(h: real, j: real, miss: real)
    requires h != 0.0 && j != 0.0 && miss == 0.0 - h * j
    ensures Abs(miss) > (Abs(j) / 2.0) * Abs(h)
  {
    AbsProduct(h, j);
    ProductSign(Abs(h), Abs(j), Abs(h) * Abs(j));
    assert (Abs(j) / 2.0) * Abs(h) == Abs(h) * Abs(j) / 2.0;
  }

  /**
    At a latitude the entry is the derivative of the predicted longitude if and only if
    the cosine is above the clamp or one of the entry's factors is zero.
  */
  lemma LatitudeDerivative(trig: Trig, s: Vec, dt: real)
    requires |s| == 6 && trig.CosAtMostOne() && trig.SinAtMostOne() && trig.SecondOrder()
    ensures IsDerivative(trig, s, dt) <==> trig.cosDeg(s[0]) > MIN_COS || Factors(trig, s, dt) == 0.0
  {
    if trig.cosDeg(s[0]) > MIN_COS {
      UnclampedIsDerivative(trig, s, dt);
    } else if Factors(trig, s, dt) != 0.0 {
      ClampedIsNotDerivative(trig, s, dt);
    } else if s[4] * dt == 0.0 {
      StandingIsDerivative(trig, s, dt);
    } else {
      OtherFactor(s[4] * dt, trig.sinDeg(s[0]), trig.deg2rad);
      LevelIsDerivative(trig, s, dt);
    }
  }

  lemma OtherFactor(x: real, sin: real, r: real)
    requires x != 0.0 && x * sin * r == 0.0
    ensures sin * r == 0.0
  {
    assert x * (sin * r) == 0.0;
  }

  /** Where the sine is not zero at the clamp, as it is not at a pole, what is left is the eastward motion. */
  lemma PoleDerivative(trig: Trig, s: Vec, dt: real)
    requires |s| == 6 && trig.CosAtMostOne() && trig.SinAtMostOne() && trig.SecondOrder()
    requires trig.deg2rad != 0.0 && (trig.cosDeg(s[0]) <= MIN_COS ==> trig.sinDeg(s[0]) != 0.0)
    ensures IsDerivative(trig, s, dt) <==> trig.cosDeg(s[0]) > MIN_COS || s[4] * dt == 0.0
  {
    LatitudeDerivative(trig, s, dt);
    if Factors(trig, s, dt) == 0.0 && s[4] * dt != 0.0 { OtherFactor(s[4] * dt, trig.sinDeg(s[0]), trig.deg2rad); }
  }

  /** At the pole, moving east at 100 m/s: the entry is not zero, and it is not the derivative. */
  lemma EntryAtPole(trig: Trig, h: real)
    requires trig.CosAtMostOne() && trig.SinAtMostOne() && trig.SecondOrder() && trig.deg2rad > 0.0
    requires trig.cosDeg(90.0) == 0.0 && trig.sinDeg(90.0) == 1.0
    ensures var s := [90.0, 0.0, 0.0, 0.0, 100.0, 0.0];
      && Jacobian(trig, s, 1.0)[1][0] != 0.0 && !IsDerivative(trig, s, 1.0)
      && (trig.cosDeg(90.0 + h) <= MIN_COS ==> LonShift(trig, s, 1.0, h) == 0.0)
  {
    var s := [90.0, 0.0, 0.0, 0.0, 100.0, 0.0];
    LatitudeDerivative(trig, s, 1.0);
    ClampedColumn(trig, s, 1.0, 0.0);
    if trig.cosDeg(90.0 + h) <= MIN_COS { ClampedColumn(trig, s, 1.0, h); }
  }
}
