/**
  What the transition Jacobian says about the prediction.  Eleven of its twelve
  structural entries are exact difference quotients; the entry that makes the filter
  an extended one, longitude by latitude, is the derivative to first order where the
  cosine is not clamped, and is not a derivative at all where it is.
*/
module GeoJacobian {
  import opened Matrix
  import opened Reals
  import opened GeoFilter

  /**
    Every entry but one is exact: moving state `j` by `h` before the prediction moves
    component `i` of the prediction by `h` times the entry.
  */
  lemma JacobianColumn(trig: Trig, s: Vec, dt: real, j: nat, h: real, i: nat)
    requires |s| == 6 && j < 6 && i < 6 && !(i == 1 && j == 0)
    ensures Moved(trig, s[j := s[j] + h], dt)[i] - Moved(trig, s, dt)[i] == h * Jacobian(trig, s, dt)[i][j]
  {
    TimesEntry(trig, s, dt, j, h, i);
    MovedChange(trig, s, dt, j, h, i);
  }

  /** What moving state `j` by `h` should do to component `i` of the prediction. */
  function Change(trig: Trig, s: Vec, dt: real, j: nat, h: real, i: nat): real
    requires |s| == 6 && j < 6 && i < 6 && !(i == 1 && j == 0)
  {
    if i == j then h
    else if i == 0 && j == 3 then h * (dt / METERS_PER_DEG_LAT)
    else if i == 1 && j == 4 then h * (dt / MetersPerDegLon(trig, s[0]))
    else if i == 2 && j == 5 then h * dt
    else 0.0
  }

  lemma TimesEntry(trig: Trig, s: Vec, dt: real, j: nat, h: real, i: nat)
    requires |s| == 6 && j < 6 && i < 6 && !(i == 1 && j == 0)
    ensures h * Jacobian(trig, s, dt)[i][j] == Change(trig, s, dt, j, h, i)
  {}

  lemma MovedChange(trig: Trig, s: Vec, dt: real, j: nat, h: real, i: nat)
    requires |s| == 6 && j < 6 && i < 6 && !(i == 1 && j == 0)
    ensures Moved(trig, s[j := s[j] + h], dt)[i] - Moved(trig, s, dt)[i] == Change(trig, s, dt, j, h, i)
  {
    var s' := s[j := s[j] + h];
    if i == 0 && j == 3 {
      LatChange(trig, s, s', dt, h);
    } else if i == 1 && j == 4 {
      LonChange(trig, s, s', dt, h);
    } else if i == 2 && j == 5 {
      AltChange(trig, s, s', dt, h);
    } else {
      OtherStates(trig, s, s', dt, i, j);
    }
  }

  lemma LatChange(trig: Trig, s: Vec, s': Vec, dt: real, h: real)
    requires |s| == |s'| == 6 && s'[0] == s[0] && s'[3] == s[3] + h
    ensures Moved(trig, s', dt)[0] - Moved(trig, s, dt)[0] == h * (dt / METERS_PER_DEG_LAT)
  {
    DriftLinear(s[3], h, dt, METERS_PER_DEG_LAT);
    Shifted(s[0], Drift(s[3], dt, METERS_PER_DEG_LAT), Drift(s'[3], dt, METERS_PER_DEG_LAT));
  }

  lemma LonChange(trig: Trig, s: Vec, s': Vec, dt: real, h: real)
    requires |s| == |s'| == 6 && s'[0] == s[0] && s'[1] == s[1] && s'[4] == s[4] + h
    ensures Moved(trig, s', dt)[1] - Moved(trig, s, dt)[1] == h * (dt / MetersPerDegLon(trig, s[0]))
  {
    var m := MetersPerDegLon(trig, s[0]);
    DriftLinear(s[4], h, dt, m);
    Shifted(s[1], Drift(s[4], dt, m), Drift(s'[4], dt, m));
  }

  lemma AltChange(trig: Trig, s: Vec, s': Vec, dt: real, h: real)
    requires |s| == |s'| == 6 && s'[2] == s[2] && s'[5] == s[5] + h
    ensures Moved(trig, s', dt)[2] - Moved(trig, s, dt)[2] == h * dt
  {
    ClimbLinear(s[5], h, dt);
    Shifted(s[2], Climb(s[5], dt), Climb(s'[5], dt));
  }

  lemma Shifted(x: real, d: real, d': real)
    ensures (x + d') - (x + d) == d' - d
  {}

  lemma OtherStates(trig: Trig, s: Vec, s': Vec, dt: real, i: nat, j: nat)
    requires |s| == |s'| == 6 && i < 6 && j < 6 && !(i == 1 && j == 0) && forall k :: 0 <= k < 6 && k != j ==>
        s'[k] == s[k]
    requires !(i == 0 && j == 3) && !(i == 1 && j == 4) && !(i == 2 && j == 5)
    ensures Moved(trig, s', dt)[i] - Moved(trig, s, dt)[i] == if i == j then s'[j] - s[j] else 0.0
  {
    if i == 0 { assert s'[3] == s[3]; }
    if i == 1 { assert s'[4] == s[4] && s'[0] == s[0]; }
    if i == 2 { assert s'[5] == s[5]; }
  }

  lemma ClimbLinear(mps: real, h: real, dt: real)
    ensures Climb(mps + h, dt) - Climb(mps, dt) == h * dt
  {}

  lemma DriftLinear(mps: real, h: real, dt: real, metersPerDeg: real)
    requires metersPerDeg > 0.0
    ensures Drift(mps + h, dt, metersPerDeg) - Drift(mps, dt, metersPerDeg) == h * (dt / metersPerDeg)
  {
    var t := Reciprocal(metersPerDeg);
    assert Drift(mps, dt, metersPerDeg) == (mps * dt) * t by { QuotientIs(mps * dt, metersPerDeg, t); }
    assert Drift(mps + h, dt, metersPerDeg) == ((mps + h) * dt) * t by { QuotientIs((mps + h) * dt, metersPerDeg, t); }
    QuotientIs(dt, metersPerDeg, t);
    assert ((mps + h) * dt) * t - (mps * dt) * t == h * (dt * t);
  }

  // ------------------------------------------------ longitude by latitude

  /** The prediction's longitude after moving the latitude by `h`, less the one before. */
  function LonShift(trig: Trig, s: Vec, dt: real, h: real): real
    requires |s| == 6
  {
    Moved(trig, s[0 := s[0] + h], dt)[1] - Moved(trig, s, dt)[1]
  }

  /** What the entry misses of the change in longitude when the latitude moves by `h`. */
  function Miss(trig: Trig, s: Vec, dt: real, h: real): real
    requires |s| == 6
  {
    LonShift(trig, s, dt, h) - h * Jacobian(trig, s, dt)[1][0]
  }

  predicate Unclamped(trig: Trig, lat: real) { trig.cosDeg(lat) >= MIN_COS }

  /** The eastward distance as degrees of latitude. */
  function LatDegrees(s: Vec, dt: real): real
    requires |s| == 6
  {
    s[4] * dt / METERS_PER_DEG_LAT
  }

  function Rest(w: real, e: real, c: real): real { w * (w - e) - e * c }

  /** `a / c'` less `a / c` less `a u sin / c^2`, over the common denominator `c^2 c'`. */
  function Gap(d: real, c: real, c': real): real { d * ((c * c) * c') }

  function SecondOrderIn(u: real): real { (u * u) * (3.0 + u) }

  /**
    Where neither cosine is clamped, the entry misses `LatDegrees * n / (c^2 c')` of the
    change in longitude, where `n` is of second order in the change of latitude.
  */
  lemma LatitudeColumn(trig: Trig, s: Vec, dt: real, h: real) returns (n: real)
    requires |s| == 6 && trig.CosAtMostOne() && trig.SinAtMostOne() && trig.SecondOrder()
    requires Unclamped(trig, s[0]) && Unclamped(trig, s[0] + h)
    ensures Gap(Miss(trig, s, dt, h), trig.cosDeg(s[0]), trig.cosDeg(s[0] + h)) == LatDegrees(s, dt) * n
    ensures 2.0 * Abs(n) <= SecondOrderIn(Abs(trig.Radians(h)))
  {
    n := ColumnGap(trig, s, dt, h, Miss(trig, s, dt, h));
    ColumnBound(trig, s[0], h);
  }

  lemma ColumnBound(trig: Trig, lat: real, h: real)
    requires trig.CosAtMostOne() && trig.SinAtMostOne() && trig.SecondOrder() && Unclamped(trig, lat)
    ensures 2.0 * Abs(RestAt(trig, lat, h)) <= SecondOrderIn(Abs(trig.Radians(h)))
  {
    Remainder(trig, lat, h);
    NumeratorBound(Abs(trig.Radians(h)), trig.Radians(h), trig.sinDeg(lat), trig.CosRemainder(lat, lat + h),
      trig.cosDeg(lat));
  }

  function RestAt(trig: Trig, lat: real, h: real): real {
    RestOf(trig.Radians(h), trig.sinDeg(lat), trig.CosRemainder(lat, lat + h), trig.cosDeg(lat))
  }

  function RestOf(u: real, sin: real, e: real, c: real): real { Rest(u * sin, e, c) }

  lemma Remainder(trig: Trig, lat: real, h: real)
    requires trig.SecondOrder()
    ensures Abs(trig.CosRemainder(lat, lat + h)) <= Half(Abs(trig.Radians(h)) * Abs(trig.Radians(h)))
  {
    assert (lat + h) - lat == h;
    AbsProduct(trig.Radians(h), trig.Radians(h));
  }

  lemma ColumnGap(trig: Trig, s: Vec, dt: real, h: real, d: real) returns (n: real)
    requires |s| == 6 && Unclamped(trig, s[0]) && Unclamped(trig, s[0] + h)
    requires d == Miss(trig, s, dt, h)
    ensures n == RestAt(trig, s[0], h) && Gap(d, trig.cosDeg(s[0]), trig.cosDeg(s[0] + h)) == LatDegrees(s, dt) * n
  {
    var c, c', u := trig.cosDeg(s[0]), trig.cosDeg(s[0] + h), trig.Radians(h);
    assert (s[0] + h) - s[0] == h;
    n := RestAt(trig, s[0], h);
    var p, p', j := MissParts(trig, s, dt, h);
    Numerator(LatDegrees(s, dt), u, trig.sinDeg(s[0]), trig.CosRemainder(s[0], s[0] + h), c, c', p, p', j, n, d,
      (c * c) * c');
  }

  lemma MissParts(trig: Trig, s: Vec, dt: real, h: real) returns (p: real, p': real, j: real)
    requires |s| == 6 && Unclamped(trig, s[0]) && Unclamped(trig, s[0] + h)
    ensures p * trig.cosDeg(s[0]) == LatDegrees(s, dt) && p' * trig.cosDeg(s[0] + h) == LatDegrees(s, dt)
    ensures j * (trig.cosDeg(s[0]) * trig.cosDeg(s[0])) == LatDegrees(s, dt) * trig.sinDeg(s[0])
    ensures Miss(trig, s, dt, h) == (p' - p) - trig.Radians(h) * j
  {
    p, p' := ShiftParts(trig, s, dt, h);
    j := EntryPart(trig, s, dt, h);
  }

  lemma ShiftParts(trig: Trig, s: Vec, dt: real, h: real) returns (p: real, p': real)
    requires |s| == 6 && Unclamped(trig, s[0]) && Unclamped(trig, s[0] + h)
    ensures p * trig.cosDeg(s[0]) == LatDegrees(s, dt) && p' * trig.cosDeg(s[0] + h) == LatDegrees(s, dt)
    ensures LonShift(trig, s, dt, h) == p' - p
  {
    p, p' := Drift(s[4], dt, MetersPerDegLon(trig, s[0])), Drift(s[4], dt, MetersPerDegLon(trig, s[0] + h));
    DriftIs(s[4] * dt, trig.cosDeg(s[0]), LatDegrees(s, dt), p);
    DriftIs(s[4] * dt, trig.cosDeg(s[0] + h), LatDegrees(s, dt), p');
    LonShiftIs(trig, s, dt, h, p, p');
  }

  lemma EntryPart(trig: Trig, s: Vec, dt: real, h: real) returns (j: real)
    requires |s| == 6 && Unclamped(trig, s[0])
    ensures j * (trig.cosDeg(s[0]) * trig.cosDeg(s[0])) == LatDegrees(s, dt) * trig.sinDeg(s[0])
    ensures h * Jacobian(trig, s, dt)[1][0] == trig.Radians(h) * j
  {
    j := Entry(s[4], dt, trig.sinDeg(s[0]), trig.deg2rad, trig.cosDeg(s[0]), LatDegrees(s, dt));
    EntryIs(trig, s, dt, trig.deg2rad * j);
    Reorder(h, trig.deg2rad, j, Jacobian(trig, s, dt)[1][0], trig.Radians(h));
  }

  lemma Reorder(h: real, r: real, j: real, x: real, u: real)
    requires x == r * j && u == r * h
    ensures h * x == u * j
  {
    assert h * (r * j) == (r * h) * j;
  }

  lemma EntryIs(trig: Trig, s: Vec, dt: real, x: real)
    requires |s| == 6 && Unclamped(trig, s[0])
    requires METERS_PER_DEG_LAT * trig.cosDeg(s[0]) * trig.cosDeg(s[0]) != 0.0
    requires x == (s[4] * dt * trig.sinDeg(s[0]) * trig.deg2rad) /
                  (METERS_PER_DEG_LAT * trig.cosDeg(s[0]) * trig.cosDeg(s[0]))
    ensures Jacobian(trig, s, dt)[1][0] == x
  {}

  lemma LonShiftIs(trig: Trig, s: Vec, dt: real, h: real, p: real, p': real)
    requires |s| == 6
    requires p == Drift(s[4], dt, MetersPerDegLon(trig, s[0])) && p' == Drift(s[4], dt, MetersPerDegLon(trig, s[0] + h))
    ensures LonShift(trig, s, dt, h) == p' - p
  {}

  lemma DriftIs(d: real, c: real, a: real, p: real)
    requires c > 0.0 && a == d / METERS_PER_DEG_LAT && p == d / (METERS_PER_DEG_LAT * c)
    ensures p * c == a
  {
    assert p * (METERS_PER_DEG_LAT * c) == d;
    assert (p * c) * METERS_PER_DEG_LAT == d;
  }

  /** The entry without its factor `deg2rad`. */
  lemma Entry(v: real, dt: real, sin: real, r: real, c: real, a: real) returns (j: real)
    requires c > 0.0 && a == v * dt / METERS_PER_DEG_LAT
    ensures j * (c * c) == a * sin
    ensures METERS_PER_DEG_LAT * c * c != 0.0 && (v * dt * sin * r) / (METERS_PER_DEG_LAT * c * c) == r * j
  {
    var t := Reciprocal(c);
    j := (a * sin) * (t * t);
    assert (t * t) * (c * c) == (t * c) * (t * c);
    assert j * (c * c) == (a * sin) * ((t * t) * (c * c));
    EntryQuotient(v * dt, sin, r, c * c, a, j);
  }

  lemma EntryQuotient(d: real, sin: real, r: real, q: real, a: real, j: real)
    requires q > 0.0 && a * METERS_PER_DEG_LAT == d && j * q == a * sin
    ensures (d * sin * r) / (METERS_PER_DEG_LAT * q) == r * j
  {
    assert (r * j) * (METERS_PER_DEG_LAT * q) == r * METERS_PER_DEG_LAT * (j * q);
    assert r * METERS_PER_DEG_LAT * (a * sin) == (a * METERS_PER_DEG_LAT) * sin * r;
  }

  /** `a / c` moved to `a / c'`, less `u` times its derivative `j`. */
  lemma Numerator(a: real, u: real, sin: real, e: real, c: real, c': real, p: real, p': real, j: real, n: real,
                  d: real, k: real)
    requires p * c == a && p' * c' == a && j * (c * c) == a * sin && e == c' - (c - u * sin)
    requires n == Rest(u * sin, e, c) && d == (p' - p) - u * j && k == (c * c) * c'
    ensures d * k == a * n
  {
    Cancel(p', c', c * c, a, k);
    Cancel(p, c, c * c', a, k);
    Cancel(j, c * c, c', a * sin, k);
    Distribute(p', p, u, j, d, k);
    Difference(u * sin, e, c, c', n);
    Collect(a, u, sin, c, c', n);
  }

  lemma Distribute(p': real, p: real, u: real, j: real, d: real, k: real)
    requires d == (p' - p) - u * j
    ensures d * k == p' * k - p * k - u * (j * k)
  {}

  lemma Cancel(p: real, c: real, m: real, a: real, k: real)
    requires p * c == a && k == m * c
    ensures p * k == m * a
  {
    assert p * (m * c) == m * (p * c);
  }

  lemma Collect(a: real, u: real, sin: real, c: real, c': real, n: real)
    requires n == c * c - c * c' - (u * sin) * c'
    ensures (c * c) * a - (c * c') * a - u * (c' * (a * sin)) == a * n
  {}

  lemma Difference(w: real, e: real, c: real, c': real, n: real)
    requires c' == c - w + e && n == Rest(w, e, c)
    ensures n == c * c - c * c' - w * c'
  {
    assert c * c' == c * c - c * w + c * e;
    assert w * c' == w * c - w * w + w * e;
  }

  lemma NumeratorBound(m: real, u: real, sin: real, e: real, c: real)
    requires m == Abs(u) && Abs(sin) <= 1.0 && Abs(e) <= Half(m * m) && 0.0 < c <= 1.0
    ensures 2.0 * Abs(RestOf(u, sin, e, c)) <= SecondOrderIn(m)
  {
    ProductBound(u, sin, m, 1.0);
    RestBound(m, u * sin, e, c, m * m);
  }

  lemma RestBound(m: real, w: real, e: real, c: real, square: real)
    requires Abs(w) <= m && Abs(e) <= Half(square) && 0.0 < c <= 1.0 && square == m * m
    ensures 2.0 * Abs(Rest(w, e, c)) <= SecondOrderIn(m)
  {
    ProductBound(w, w, m, m);
    ProductBound(w, e, m, Half(square));
    ProductBound(e, c, Half(square), 1.0);
    RestTerms(m, w, e, c, square, w * w, w * e, e * c, m * square);
  }

  lemma RestTerms(m: real, w: real, e: real, c: real, square: real, ww: real, we: real, ec: real, cube: real)
    requires ww == w * w && we == w * e && ec == e * c && square == m * m && cube == m * square
    requires Abs(ww) <= square && Abs(we) <= m * Half(square) && Abs(ec) <= Half(square)
    ensures 2.0 * Abs(Rest(w, e, c)) <= SecondOrderIn(m)
  {
    HalfOut(m, square);
    Expanded(w, e, c);
    SecondOrderIs(m, square, cube);
    RestLinear(Rest(w, e, c), ww, we, ec, square, cube);
  }

  lemma RestLinear(rest: real, ww: real, we: real, ec: real, square: real, cube: real)
    requires rest == ww - we - ec && Abs(ww) <= square && Abs(we) <= Half(cube) && Abs(ec) <= Half(square)
    ensures 2.0 * Abs(rest) <= 3.0 * square + cube
  {}

  lemma ProductBound(x: real, y: real, x': real, y': real)
    requires Abs(x) <= x' && Abs(y) <= y'
    ensures Abs(x * y) <= x' * y'
  {
    AbsProduct(x, y);
    MulBound(Abs(x), x', Abs(y), y');
  }

  lemma HalfOut(x: real, y: real)
    ensures x * Half(y) == Half(x * y)
  {}

  lemma Expanded(w: real, e: real, c: real)
    ensures Rest(w, e, c) == w * w - w * e - e * c
  {}

  lemma SecondOrderIs(m: real, square: real, cube: real)
    requires square == m * m && cube == m * square
    ensures SecondOrderIn(m) == 3.0 * square + cube
  {}

  lemma AbsProduct(x: real, y: real)
    ensures Abs(x * y) == Abs(x) * Abs(y)
  {}

  lemma MulBound(x: real, x': real, y: real, y': real)
    requires 0.0 <= x <= x' && 0.0 <= y <= y'
    ensures x * y <= x' * y'
  {
    ProductSign(x, y' - y, x * (y' - y));
    ProductSign(x' - x, y', (x' - x) * y');
  }

  /**
    At a pole, where the cosine is clamped on both sides, the prediction's longitude
    does not depend on the latitude at all, yet the entry is zero only if one of its
    factors is.
  */
  lemma ClampedColumn(trig: Trig, s: Vec, dt: real, h: real)
    requires |s| == 6 && trig.cosDeg(s[0]) <= MIN_COS && trig.cosDeg(s[0] + h) <= MIN_COS
    ensures LonShift(trig, s, dt, h) == 0.0
    ensures Jacobian(trig, s, dt)[1][0] == 0.0 <==> s[4] * dt * trig.sinDeg(s[0]) * trig.deg2rad == 0.0
  {
    var q := METERS_PER_DEG_LAT * MIN_COS * MIN_COS;
    var x := s[4] * dt * trig.sinDeg(s[0]) * trig.deg2rad;
    assert Jacobian(trig, s, dt)[1][0] == x / q;
    var t := Reciprocal(q);
    QuotientIs(x, q, t);
    assert x == (x * t) * q;
  }
}
