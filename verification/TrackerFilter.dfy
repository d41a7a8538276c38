/**
  The 8-state constant-velocity Kalman filter behind one visual track.  The class
  evaluates the full matrix expressions; `AxisFilter` is a textbook two-state
  filter for one coordinate.  `FilterIsFourAxes` says that, whatever is fed to it,
  the 8-state filter is exactly four such filters running side by side.
*/
module TrackerFilter {
  import opened Wrappers
  import opened Matrix
  import opened Kalman

  const STATE_DIM: nat := 8
  const MEASUREMENT_DIM: nat := 4

  datatype BBox = BBox(cx: real, cy: real, w: real, h: real)
  datatype Velocity = Velocity(vx: real, vy: real)

  function BoxVec(b: BBox): (z: Vec)
    ensures |z| == 4
  {
    [b.cx, b.cy, b.w, b.h]
  }

  // -------------------------------------------------- 2x2 blocks over (i, i+4)

  /** Entry `(i, j)` of the matrix that repeats `[[a, b], [c, d]]` on every pair of states `(i, i + 4)`. */
  function BlockEntry(a: real, b: real, c: real, d: real, i: nat, j: nat): real {
    if i % 4 != j % 4 then 0.0
    else if i < 4 then (if j < 4 then a else b)
    else (if j < 4 then c else d)
  }

  function Blocks(a: real, b: real, c: real, d: real): (A: Mat)
    ensures IsMat(A, 8, 8)
    ensures forall i, j :: 0 <= i < 8 && 0 <= j < 8 ==> A[i][j] == BlockEntry(a, b, c, d, i, j)
  {
    seq(8, i requires 0 <= i < 8 => seq(8, j requires 0 <= j < 8 => BlockEntry(a, b, c, d, i, j)))
  }

  function ScaledIdentity(n: nat, c: real): Mat {
    Diag(seq(n, i => c))
  }

  lemma BlocksExtensional(A: Mat, a: real, b: real, c: real, d: real)
    requires IsMat(A, 8, 8)
    requires forall i, j :: 0 <= i < 8 && 0 <= j < 8 ==> A[i][j] == BlockEntry(a, b, c, d, i, j)
    ensures A == Blocks(a, b, c, d)
  {
    forall i | 0 <= i < 8 ensures A[i] == Blocks(a, b, c, d)[i] {}
  }

  lemma BlocksApply(a: real, b: real, c: real, d: real, x: Vec)
    requires |x| == 8
    ensures forall i :: 0 <= i < 4 ==>
              Apply(Blocks(a, b, c, d), x)[i] == a * x[i] + b * x[i + 4] &&
              Apply(Blocks(a, b, c, d), x)[i + 4] == c * x[i] + d * x[i + 4]
  {
    forall i | 0 <= i < 4
      ensures Apply(Blocks(a, b, c, d), x)[i] == a * x[i] + b * x[i + 4]
      ensures Apply(Blocks(a, b, c, d), x)[i + 4] == c * x[i] + d * x[i + 4]
    {
      DotSparse(Blocks(a, b, c, d)[i], x, i, i + 4);
      DotSparse(Blocks(a, b, c, d)[i + 4], x, i, i + 4);
    }
  }

  lemma BlocksTranspose(a: real, b: real, c: real, d: real)
    ensures Transpose(Blocks(a, b, c, d), 8) == Blocks(a, c, b, d)
  {
    BlocksExtensional(Transpose(Blocks(a, b, c, d), 8), a, c, b, d);
  }

  /** Rows of two block matrices only meet where both have the same coordinate. */
  lemma RowDot(a: real, b: real, c: real, d: real, a': real, b': real, c': real, d': real, i: nat, j: nat)
    requires i < 8 && j < 8
    ensures Dot(Blocks(a, b, c, d)[i], Blocks(a', b', c', d')[j]) ==
      BlockEntry(a * a' + b * b', a * c' + b * d', c * a' + d * b', c * c' + d * d', i, j)
  {
    var x, y := Blocks(a, b, c, d)[i], Blocks(a', b', c', d')[j];
    var k := i % 4;
    DotSparse(x, y, k, k + 4);
    assert x[k] == (if i < 4 then a else c) && x[k + 4] == (if i < 4 then b else d);
    if k != j % 4 {
      assert y[k] == 0.0 && y[k + 4] == 0.0;
      assert x[k] * 0.0 + x[k + 4] * 0.0 == 0.0;
    } else {
      assert y[k] == (if j < 4 then a' else c') && y[k + 4] == (if j < 4 then b' else d');
    }
  }

  /** Block matrices multiply block by block. */
  lemma BlocksMul(a: real, b: real, c: real, d: real, a': real, b': real, c': real, d': real,
                  e: real, f: real, g: real, h: real)
    requires e == a * a' + b * c' && f == a * b' + b * d' && g == c * a' + d * c' && h == c * b' + d * d'
    ensures Mul(Blocks(a, b, c, d), Blocks(a', b', c', d'), 8) == Blocks(e, f, g, h)
  {
    var A, B := Blocks(a, b, c, d), Blocks(a', b', c', d');
    BlocksTranspose(a', b', c', d');
    forall i, j | 0 <= i < 8 && 0 <= j < 8 ensures Mul(A, B, 8)[i][j] == BlockEntry(e, f, g, h, i, j) {
      DotComm(Transpose(B, 8)[j], A[i]);
      RowDot(a, b, c, d, a', c', b', d', i, j);
    }
    BlocksExtensional(Mul(A, B, 8), e, f, g, h);
  }

  lemma BlocksAddSub(a: real, b: real, c: real, d: real, a': real, b': real, c': real, d': real)
    ensures Add(Blocks(a, b, c, d), Blocks(a', b', c', d'), 8) == Blocks(a + a', b + b', c + c', d + d')
    ensures Sub(Blocks(a, b, c, d), Blocks(a', b', c', d'), 8) == Blocks(a - a', b - b', c - c', d - d')
  {
    BlocksExtensional(Add(Blocks(a, b, c, d), Blocks(a', b', c', d'), 8), a + a', b + b', c + c', d + d');
    BlocksExtensional(Sub(Blocks(a, b, c, d), Blocks(a', b', c', d'), 8), a - a', b - b', c - c', d - d');
  }

  lemma ScaledIdentityBlocks(q: real)
    ensures ScaledIdentity(8, q) == Blocks(q, 0.0, 0.0, q)
    ensures Identity(8) == Blocks(1.0, 0.0, 0.0, 1.0)
  {
    BlocksExtensional(ScaledIdentity(8, q), q, 0.0, 0.0, q);
    BlocksExtensional(Identity(8), 1.0, 0.0, 0.0, 1.0);
  }

  // ------------------------------------------------------ the filter as values

  datatype Filter = Filter(state: Vec, cov: Mat) {
    predicate Valid() { |state| == 8 && IsMat(cov, 8, 8) }
  }

  type ValidFilter = f: Filter | f.Valid() witness Filter(Zero(8), Identity(8))

  /** `F`: the identity plus ones at `(i, i + 4)`. */
  function Transition(): Mat { Blocks(1.0, 1.0, 0.0, 1.0) }

  /** The box a state describes: its first four entries. */
  function BoxOf(state: Vec): (b: BBox)
    requires |state| == 8
    ensures BoxVec(b) == state[..4]
  {
    BBox(state[0], state[1], state[2], state[3])
  }

  function Initial(box: BBox, uncertainty: real): (f: Filter)
    ensures f.Valid()
  {
    Filter(BoxVec(box) + [0.0, 0.0, 0.0, 0.0], ScaledIdentity(8, uncertainty))
  }

  function Predicted(f: Filter, processNoise: real): (f': Filter)
    requires f.Valid()
    ensures f'.Valid()
  {
    Filter(Apply(Transition(), f.state), PredictCov(Transition(), f.cov, ScaledIdentity(8, processNoise), 8))
  }

  function Innovation(f: Filter, measurementNoise: real): (S: Mat)
    requires f.Valid()
    ensures IsMat(S, 4, 4)
  {
    InnovationCov(Selector(4, 8), f.cov, ScaledIdentity(4, measurementNoise), 4, 8)
  }

  /** `None` when the innovation covariance has no inverse, where mathjs throws. */
  function Updated(f: Filter, measurementNoise: real, z: BBox, inv: Mat -> Option<Mat>): (r: Option<Filter>)
    requires f.Valid()
    ensures r.Some? ==> r.value.Valid()
  {
    var X := inv(Innovation(f, measurementNoise));
    if X.None? || !IsMat(X.value, 4, 4) then None
    else
      var K := Gain(Selector(4, 8), f.cov, X.value, 4, 8);
      Some(Filter(UpdateState(f.state, K, Selector(4, 8), BoxVec(z), 4, 8),
                  UpdateCov(K, Selector(4, 8), f.cov, 4, 8)))
  }

  datatype Step = Predict | Update(z: BBox)

  function FilterStep(f: Filter, q: real, r: real, inv: Mat -> Option<Mat>, step: Step): (f': Option<Filter>)
    requires f.Valid()
    ensures f'.Some? ==> f'.value.Valid()
  {
    match step
    case Predict => Some(Predicted(f, q))
    case Update(z) => Updated(f, r, z, inv)
  }

  /** A whole history of calls on one filter. */
  function Run(f: Filter, q: real, r: real, inv: Mat -> Option<Mat>, steps: seq<Step>): (f': Option<Filter>)
    requires f.Valid()
    ensures f'.Some? ==> f'.value.Valid()
  {
    if steps == [] then Some(f)
    else
      var prev := Run(f, q, r, inv, steps[..|steps| - 1]);
      if prev.None? then None else FilterStep(prev.value, q, r, inv, steps[|steps| - 1])
  }

  // ---------------------------------------------------- one coordinate's filter

  /** Position, velocity and the symmetric covariance `[[a, b], [b, c]]` of the pair. */
  datatype AxisFilter = AxisFilter(pos: real, vel: real, a: real, b: real, c: real) {
    predicate Ok() { a > 0.0 && b >= 0.0 && c > 0.0 && a * c > b * b }
  }

  function AxisInitial(pos: real, u: real): AxisFilter {
    AxisFilter(pos, 0.0, u, 0.0, u)
  }

  function AxisPredicted(x: AxisFilter, q: real): AxisFilter {
    AxisFilter(x.pos + x.vel, x.vel, x.a + 2.0 * x.b + x.c + q, x.b + x.c, x.c + q)
  }

  function Nudged(x: real, gain: real, d: real): real { x + gain * d }

  /** The correction with position gain `g` and velocity gain `h`. */
  function AxisCorrected(x: AxisFilter, g: real, h: real, z: real): AxisFilter {
    AxisFilter(Nudged(x.pos, g, z - x.pos), Nudged(x.vel, h, z - x.pos),
               (1.0 - g) * x.a, (1.0 - g) * x.b, x.c - h * x.b)
  }

  function Inverted(s: real): (t: real)
    requires s != 0.0
    ensures t * s == 1.0
  {
    1.0 / s
  }

  /** Position and velocity gain from prior variance `a`, covariance `b` and measurement noise `r`. */
  function Gains(a: real, b: real, r: real): (real, real)
    requires a + r != 0.0
  {
    (Inverted(a + r) * a, Inverted(a + r) * b)
  }

  /** One call seen by coordinate `k`, which looks only at its own component of a measurement. */
  function AxisStep(x: AxisFilter, k: nat, q: real, r: real, step: Step): (y: AxisFilter)
    requires k < 4 && x.Ok() && q >= 0.0 && r > 0.0
    ensures y.Ok()
  {
    match step
    case Predict => AxisPredictOk(x, q); AxisPredicted(x, q)
    case Update(z) =>
      var gains := Gains(x.a, x.b, r);
      AxisUpdateOk(x, r, Inverted(x.a + r), gains.0, gains.1, BoxVec(z)[k]);
      AxisCorrected(x, gains.0, gains.1, BoxVec(z)[k])
  }

  function AxisRun(x: AxisFilter, k: nat, q: real, r: real, steps: seq<Step>): (y: AxisFilter)
    requires k < 4 && x.Ok() && q >= 0.0 && r > 0.0
    ensures y.Ok()
  {
    if steps == [] then x
    else AxisStep(AxisRun(x, k, q, r, steps[..|steps| - 1]), k, q, r, steps[|steps| - 1])
  }

  lemma AxisPredictOk(x: AxisFilter, q: real)
    requires x.Ok() && q >= 0.0
    ensures AxisPredicted(x, q).Ok()
  {
    var a, b, c := x.a, x.b, x.c;
    assert (a + 2.0 * b + c) * c - (b + c) * (b + c) == a * c - b * b;
    var A := a + 2.0 * b + c;
    assert (A + q) * (c + q) == A * c + q * (A + c + q);
    assert q * (A + c + q) >= 0.0;
  }

  /**
    One correction: the position lands strictly between prediction and measurement,
    the velocity never moves against the innovation, and the posterior position
    variance is below both the prior variance and the measurement noise.
  */
  lemma AxisUpdateOk(x: AxisFilter, r: real, t: real, g: real, h: real, z: real)
    requires x.Ok() && r > 0.0 && t * (x.a + r) == 1.0 && g == t * x.a && h == t * x.b
    ensures var y := AxisCorrected(x, g, h, z);
      && y.Ok() && y.a < x.a && y.a < r
      && (x.pos < z ==> x.pos < y.pos < z && y.vel >= x.vel)
      && (x.pos > z ==> x.pos > y.pos > z && y.vel <= x.vel)
      && (x.pos == z ==> y.pos == z && y.vel == x.vel)
  {
    GainFacts(x.a, x.b, r, t, g, h);
    PosteriorCovOk(x, g, h);
    Shrinks(g, x.a, r);
    AxisMoves(x, z, g, h);
  }

  lemma AxisMoves(x: AxisFilter, z: real, g: real, h: real)
    requires 0.0 < g < 1.0 && h >= 0.0
    ensures var y := AxisCorrected(x, g, h, z);
      && (x.pos < z ==> x.pos < y.pos < z && y.vel >= x.vel)
      && (x.pos > z ==> x.pos > y.pos > z && y.vel <= x.vel)
      && (x.pos == z ==> y.pos == z && y.vel == x.vel)
  {
    Fraction(g, z - x.pos, g * (z - x.pos));
    NonNegProduct(h, z - x.pos, h * (z - x.pos));
  }

  lemma GainFacts(a: real, b: real, r: real, t: real, g: real, h: real)
    requires a > 0.0 && b >= 0.0 && r > 0.0 && t * (a + r) == 1.0 && g == t * a && h == t * b
    ensures 0.0 < g < 1.0 && h >= 0.0 && h * a == g * b && (1.0 - g) * a == g * r
  {
    if t <= 0.0 { NonNegProduct(a + r, t, t * (a + r)); }
    PosProduct(t, a);
    PosProduct(t, r);
    NonNegProduct(t, b, h);
    assert g + t * r == 1.0;
    assert (1.0 - g) * a == (t * r) * a == (t * a) * r;
    assert h * a == (t * b) * a == (t * a) * b;
  }

  lemma Shrinks(g: real, a: real, r: real)
    requires 0.0 < g < 1.0 && a > 0.0 && r > 0.0 && (1.0 - g) * a == g * r
    ensures (1.0 - g) * a < a && (1.0 - g) * a < r
  {
    PosProduct(g, a);
    PosProduct(1.0 - g, r);
  }

  lemma PosteriorCovOk(x: AxisFilter, g: real, h: real)
    requires x.Ok() && 0.0 < g < 1.0 && h >= 0.0 && h * x.a == g * x.b
    ensures AxisFilter(x.pos, x.vel, (1.0 - g) * x.a, (1.0 - g) * x.b, x.c - h * x.b).Ok()
  {
    PosProduct(1.0 - g, x.a);
    NonNegProduct(1.0 - g, x.b, (1.0 - g) * x.b);
    Determinant(x.a, x.b, x.c, g, h);
    var A, B, C := (1.0 - g) * x.a, (1.0 - g) * x.b, x.c - h * x.b;
    Square(B);
    if C <= 0.0 { NonNegProduct(A, C, A * C); }
  }

  lemma Square(t: real)
    ensures t * t >= 0.0
  {}

  lemma Fraction(g: real, d: real, m: real)
    requires 0.0 < g < 1.0 && m == g * d
    ensures d > 0.0 ==> 0.0 < m < d
    ensures d < 0.0 ==> 0.0 > m > d
  {
    if d > 0.0 {
      PosProduct(g, d);
      PosProduct(1.0 - g, d);
    } else if d < 0.0 {
      PosProduct(g, 0.0 - d);
      PosProduct(1.0 - g, 0.0 - d);
    }
  }

  lemma PosProduct(x: real, y: real)
    requires x > 0.0 && y > 0.0
    ensures x * y > 0.0
  {}

  lemma NonNegProduct(h: real, d: real, m: real)
    requires h >= 0.0 && m == h * d
    ensures d >= 0.0 ==> m >= 0.0
    ensures d <= 0.0 ==> m <= 0.0
  {}

  lemma Determinant(a: real, b: real, c: real, g: real, h: real)
    requires h * a == g * b && 0.0 < g < 1.0 && a * c > b * b
    ensures ((1.0 - g) * a) * (c - h * b) > ((1.0 - g) * b) * ((1.0 - g) * b)
  {
    var k := 1.0 - g;
    assert a * (c - h * b) == a * c - (h * a) * b == a * c - g * b * b;
    assert a * (c - h * b) - k * (b * b) == a * c - b * b;
    var u, v := a * (c - h * b), k * (b * b);
    assert k * u > k * v;
    assert (k * a) * (c - h * b) == k * u;
    assert (k * b) * (k * b) == k * v;
  }

  // ---------------------------------------------------------------- refinement

  predicate AllOk(axes: seq<AxisFilter>) {
    |axes| == 4 && axes[0].Ok() && axes[1].Ok() && axes[2].Ok() && axes[3].Ok()
  }

  predicate SameCov(axes: seq<AxisFilter>) {
    |axes| == 4 && forall k :: 0 <= k < 4 ==> axes[k].a == axes[0].a && axes[k].b == axes[0].b && axes[k].c == axes[0].c
  }

  /** Four axis filters laid out as one 8-state filter: all cross-covariances between coordinates are 0. */
  function Embed(axes: seq<AxisFilter>): (f: Filter)
    requires |axes| == 4
    ensures f.Valid()
  {
    Filter([axes[0].pos, axes[1].pos, axes[2].pos, axes[3].pos, axes[0].vel, axes[1].vel, axes[2].vel, axes[3].vel],
           Blocks(axes[0].a, axes[0].b, axes[0].b, axes[0].c))
  }

  lemma PredictCovRefines(a: real, b: real, c: real, q: real)
    ensures PredictCov(Transition(), Blocks(a, b, b, c), ScaledIdentity(8, q), 8)
         == Blocks(a + 2.0 * b + c + q, b + c, b + c, c + q)
  {
    ScaledIdentityBlocks(q);
    BlocksTranspose(1.0, 1.0, 0.0, 1.0);
    BlocksMul(1.0, 1.0, 0.0, 1.0, a, b, b, c, a + b, b + c, b, c);
    BlocksMul(a + b, b + c, b, c, 1.0, 0.0, 1.0, 1.0, a + 2.0 * b + c, b + c, b + c, c);
    BlocksAddSub(a + 2.0 * b + c, b + c, b + c, c, q, 0.0, 0.0, q);
  }

  lemma PredictStateRefines(x: Vec)
    requires |x| == 8
    ensures Apply(Transition(), x)
         == [x[0] + x[4], x[1] + x[5], x[2] + x[6], x[3] + x[7], x[4], x[5], x[6], x[7]]
  {
    BlocksApply(1.0, 1.0, 0.0, 1.0, x);
    var y := Apply(Transition(), x);
    assert y[0] == x[0] + x[4] && y[1] == x[1] + x[5] && y[2] == x[2] + x[6] && y[3] == x[3] + x[7];
    assert y[0 + 4] == x[4] && y[1 + 4] == x[5] && y[2 + 4] == x[6] && y[3 + 4] == x[7];
  }

  lemma PredictRefines(axes: seq<AxisFilter>, q: real)
    requires |axes| == 4
    ensures Predicted(Embed(axes), q) == Embed(seq(4, k requires 0 <= k < 4 => AxisPredicted(axes[k], q)))
  {
    PredictStateRefines(Embed(axes).state);
    PredictCovRefines(axes[0].a, axes[0].b, axes[0].c, q);
  }

  /** The innovation covariance is `a + r` on the diagonal, so its inverse is known. */
  lemma InnovationInverse(a: real, b: real, c: real, r: real, t: real)
    requires t * (a + r) == 1.0
    ensures IsInverse(InnovationCov(Selector(4, 8), Blocks(a, b, b, c), ScaledIdentity(4, r), 4, 8),
        ScaledIdentity(4, t), 4)
  {
    InnovationIsScaled(a, b, c, r);
    assert (a + r) * t == 1.0;
    ScaledIdentityInverse(4, a + r, t);
  }

  lemma InnovationIsScaled(a: real, b: real, c: real, r: real)
    ensures InnovationCov(Selector(4, 8), Blocks(a, b, b, c), ScaledIdentity(4, r), 4, 8) == ScaledIdentity(4, a + r)
  {
    var P, R := Blocks(a, b, b, c), ScaledIdentity(4, r);
    var S := InnovationCov(Selector(4, 8), P, R, 4, 8);
    InnovationEntries(P, R, 4, 8);
    forall i | 0 <= i < 4 ensures S[i] == ScaledIdentity(4, a + r)[i] {}
  }

  lemma ScaledIdentityInverse(n: nat, s: real, t: real)
    requires s * t == 1.0
    ensures IsInverse(ScaledIdentity(n, s), ScaledIdentity(n, t), n)
  {
    var S, X := ScaledIdentity(n, s), ScaledIdentity(n, t);
    ScaledIdentityMul(n, s, t);
    ScaledIdentityMul(n, t, s);
    assert t * s == 1.0;
    forall i | 0 <= i < n ensures Mul(S, X, n)[i] == Identity(n)[i] && Mul(X, S, n)[i] == Identity(n)[i] {
      forall j | 0 <= j < n
        ensures Mul(S, X, n)[i][j] == Identity(n)[i][j] && Mul(X, S, n)[i][j] == Identity(n)[i][j] {}
    }
  }

  lemma ScaledIdentityMul(n: nat, s: real, t: real)
    ensures forall i, j :: 0 <= i < n && 0 <= j < n ==>
              Mul(ScaledIdentity(n, s), ScaledIdentity(n, t), n)[i][j] == if i == j then s * t else 0.0
  {
    var S, X := ScaledIdentity(n, s), ScaledIdentity(n, t);
    forall i, j | 0 <= i < n && 0 <= j < n
      ensures Mul(S, X, n)[i][j] == if i == j then s * t else 0.0
    {
      DotSingle(Transpose(X, n)[j], S[i], j);
    }
  }

  lemma GainEntries(P: Mat, t: real)
    requires IsMat(P, 8, 8)
    ensures forall i, j :: 0 <= i < 8 && 0 <= j < 4 ==>
              Gain(Selector(4, 8), P, ScaledIdentity(4, t), 4, 8)[i][j] == t * P[i][j]
  {
    var X := ScaledIdentity(4, t);
    var PHt := Mul(P, Transpose(Selector(4, 8), 8), 4);
    SelectColumns(P, 8, 4, 8);
    forall i, j | 0 <= i < 8 && 0 <= j < 4
      ensures Gain(Selector(4, 8), P, X, 4, 8)[i][j] == t * P[i][j]
    {
      assert Gain(Selector(4, 8), P, X, 4, 8)[i][j] == Dot(Transpose(X, 4)[j], PHt[i]);
      DotSingle(Transpose(X, 4)[j], PHt[i], j);
      assert PHt[i][j] == P[i][j];
    }
  }

  lemma GainTimesSelector(a: real, b: real, c: real, t: real)
    ensures Mul(Gain(Selector(4, 8), Blocks(a, b, b, c), ScaledIdentity(4, t), 4, 8), Selector(4, 8), 8)
         == Blocks(t * a, 0.0, t * b, 0.0)
  {
    var P := Blocks(a, b, b, c);
    var K := Gain(Selector(4, 8), P, ScaledIdentity(4, t), 4, 8);
    GainEntries(P, t);
    SpreadColumns(K, 4, 8);
    var KH := Mul(K, Selector(4, 8), 8);
    var g, h := t * a, t * b;
    forall i, j | 0 <= i < 8 && 0 <= j < 8 ensures KH[i][j] == BlockEntry(g, 0.0, h, 0.0, i, j) {
      if j < 4 {
        assert KH[i][j] == t * P[i][j];
        if i % 4 != j % 4 { assert P[i][j] == 0.0; }
      }
    }
    BlocksExtensional(KH, g, 0.0, h, 0.0);
  }

  lemma UpdateCovRefines(x: AxisFilter, t: real, g: real, h: real, z: real)
    requires g == t * x.a && h == t * x.b
    ensures var y := AxisCorrected(x, g, h, z);
      var P := Blocks(x.a, x.b, x.b, x.c);
      UpdateCov(Gain(Selector(4, 8), P, ScaledIdentity(4, t), 4, 8), Selector(4, 8), P, 4, 8)
        == Blocks(y.a, y.b, y.b, y.c)
  {
    var a, b, c := x.a, x.b, x.c;
    var y := AxisCorrected(x, g, h, z);
    GainTimesSelector(a, b, c, t);
    ScaledIdentityBlocks(1.0);
    BlocksAddSub(1.0, 0.0, 0.0, 1.0, g, 0.0, h, 0.0);
    SwapGain(a, b, t, g, h);
    assert (0.0 - h) * a + 1.0 * b == y.b;
    BlocksMul(1.0 - g, 0.0, 0.0 - h, 1.0, a, b, b, c, y.a, y.b, y.b, y.c);
  }

  /** `K` is the gain for `P` when the innovation variance is inverted to `t` on every axis. */
  ghost predicate IsGain(K: Mat, P: Mat, t: real) {
    IsMat(P, 8, 8) && IsMat(K, 8, 4) && forall i, j :: 0 <= i < 8 && 0 <= j < 4 ==> K[i][j] == t * P[i][j]
  }

  /** A row of the gain whose covariances are 0 but for one looks at one component of the innovation. */
  lemma GainRow(K: Mat, P: Mat, t: real, y: Vec, i: nat, k: nat)
    requires IsGain(K, P, t) && |y| == 4 && i < 8 && k < 4
    requires forall j :: 0 <= j < 4 && j != k ==> P[i][j] == 0.0
    ensures Dot(K[i], y) == K[i][k] * y[k]
  {
    forall j | 0 <= j < 4 && j != k ensures K[i][j] == 0.0 {
      assert K[i][j] == t * P[i][j];
    }
    DotSingle(K[i], y, k);
  }

  lemma StateEntry(K: Mat, P: Mat, t: real, x: Vec, z: Vec, i: nat, k: nat, g: real, d: real)
    requires IsGain(K, P, t) && |x| == 8 && |z| == 4 && i < 8 && k < 4
    requires forall j :: 0 <= j < 4 && j != k ==> P[i][j] == 0.0
    requires g == t * P[i][k] && d == z[k] - x[k]
    ensures UpdateState(x, K, Selector(4, 8), z, 4, 8)[i] == Nudged(x[i], g, d)
  {
    SelectApply(x, 4, 8);
    var y := VSub(z, Apply(Selector(4, 8), x));
    assert y[k] == d;
    GainRow(K, P, t, y, i, k);
    assert K[i][k] == g;
  }

  lemma UpdateStateRefines(K: Mat, x: Vec, axis: AxisFilter, t: real, g: real, h: real, z: Vec, k: nat)
    requires IsGain(K, Blocks(axis.a, axis.b, axis.b, axis.c), t) && g == t * axis.a && h == t * axis.b
    requires |x| == 8 && |z| == 4 && k < 4 && x[k] == axis.pos && x[4 + k] == axis.vel
    ensures var x' := UpdateState(x, K, Selector(4, 8), z, 4, 8);
      x'[k] == AxisCorrected(axis, g, h, z[k]).pos && x'[4 + k] == AxisCorrected(axis, g, h, z[k]).vel
  {
    var P := Blocks(axis.a, axis.b, axis.b, axis.c);
    BlockColumn(axis.a, axis.b, axis.c, k);
    StateEntry(K, P, t, x, z, k, k, g, z[k] - axis.pos);
    StateEntry(K, P, t, x, z, 4 + k, k, h, z[k] - axis.pos);
  }

  lemma BlockColumn(a: real, b: real, c: real, k: nat)
    requires k < 4
    ensures var P := Blocks(a, b, b, c);
      P[k][k] == a && P[4 + k][k] == b &&
      forall j :: 0 <= j < 4 && j != k ==> P[k][j] == 0.0 && P[4 + k][j] == 0.0
  {}

  /** The four filters after a correction with gains `g` and `h`. */
  function Corrected(axes: seq<AxisFilter>, g: real, h: real, z: Vec): (axes': seq<AxisFilter>)
    requires |axes| == 4 && |z| == 4
    ensures |axes'| == 4
  {
    seq(4, k requires 0 <= k < 4 => AxisCorrected(axes[k], g, h, z[k]))
  }

  lemma UpdateAxes(K: Mat, axes: seq<AxisFilter>, t: real, g: real, h: real, z: Vec)
    requires SameCov(axes) && |z| == 4 && g == t * axes[0].a && h == t * axes[0].b
    requires IsGain(K, Embed(axes).cov, t)
    ensures UpdateState(Embed(axes).state, K, Selector(4, 8), z, 4, 8) == Embed(Corrected(axes, g, h, z)).state
  {
    UpdateAxis(K, axes, t, g, h, z, 0);
    UpdateAxis(K, axes, t, g, h, z, 1);
    UpdateAxis(K, axes, t, g, h, z, 2);
    UpdateAxis(K, axes, t, g, h, z, 3);
  }

  lemma UpdateAxis(K: Mat, axes: seq<AxisFilter>, t: real, g: real, h: real, z: Vec, k: nat)
    requires SameCov(axes) && |z| == 4 && k < 4 && g == t * axes[k].a && h == t * axes[k].b
    requires IsGain(K, Embed(axes).cov, t)
    ensures var x' := UpdateState(Embed(axes).state, K, Selector(4, 8), z, 4, 8);
      x'[k] == AxisCorrected(axes[k], g, h, z[k]).pos && x'[4 + k] == AxisCorrected(axes[k], g, h, z[k]).vel
  {
    var x := Embed(axes).state;
    assert x[k] == axes[k].pos && x[4 + k] == axes[k].vel;
    UpdateStateRefines(K, x, axes[k], t, g, h, z, k);
  }

  /** A correction never fails and is four scalar corrections. */
  lemma UpdateRefines(axes: seq<AxisFilter>, r: real, t: real, g: real, h: real, z: BBox, inv: Mat -> Option<Mat>)
    requires SameCov(axes) && t * (axes[0].a + r) == 1.0 && Inverts(inv)
    requires g == t * axes[0].a && h == t * axes[0].b
    ensures Updated(Embed(axes), r, z, inv) == Some(Embed(Corrected(axes, g, h, BoxVec(z))))
  {
    InverseFound(axes, r, t, inv);
    UpdateWithGain(axes, r, t, g, h, z, inv);
  }

  lemma UpdateWithGain(axes: seq<AxisFilter>, r: real, t: real, g: real, h: real, z: BBox, inv: Mat -> Option<Mat>)
    requires SameCov(axes) && g == t * axes[0].a && h == t * axes[0].b
    requires inv(Innovation(Embed(axes), r)) == Some(ScaledIdentity(4, t))
    ensures Updated(Embed(axes), r, z, inv) == Some(Embed(Corrected(axes, g, h, BoxVec(z))))
  {
    CorrectedCov(axes, t, g, h, BoxVec(z));
    CorrectedState(axes, t, g, h, BoxVec(z));
  }

  lemma CorrectedState(axes: seq<AxisFilter>, t: real, g: real, h: real, z: Vec)
    requires SameCov(axes) && |z| == 4 && g == t * axes[0].a && h == t * axes[0].b
    ensures UpdateState(Embed(axes).state, Gain(Selector(4, 8), Embed(axes).cov, ScaledIdentity(4, t), 4, 8),
        Selector(4, 8), z, 4, 8)
         == Embed(Corrected(axes, g, h, z)).state
  {
    GainEntries(Embed(axes).cov, t);
    UpdateAxes(Gain(Selector(4, 8), Embed(axes).cov, ScaledIdentity(4, t), 4, 8), axes, t, g, h, z);
  }

  lemma InverseFound(axes: seq<AxisFilter>, r: real, t: real, inv: Mat -> Option<Mat>)
    requires |axes| == 4 && t * (axes[0].a + r) == 1.0 && Inverts(inv)
    ensures inv(Innovation(Embed(axes), r)) == Some(ScaledIdentity(4, t))
  {
    InnovationInverse(axes[0].a, axes[0].b, axes[0].c, r, t);
  }

  lemma CorrectedCov(axes: seq<AxisFilter>, t: real, g: real, h: real, z: Vec)
    requires |axes| == 4 && |z| == 4 && g == t * axes[0].a && h == t * axes[0].b
    ensures UpdateCov(Gain(Selector(4, 8), Embed(axes).cov, ScaledIdentity(4, t), 4, 8), Selector(4, 8),
        Embed(axes).cov, 4, 8)
         == Embed(Corrected(axes, g, h, z)).cov
  {
    UpdateCovRefines(axes[0], t, g, h, z[0]);
    assert Corrected(axes, g, h, z)[0] == AxisCorrected(axes[0], g, h, z[0]);
  }

  lemma SwapGain(a: real, b: real, t: real, g: real, h: real)
    requires g == t * a && h == t * b
    ensures h * a == g * b
  {
    assert (t * b) * a == (t * a) * b;
  }

  /** The four axis runs behind a filter started on `box`. */
  function AxisRuns(box: BBox, u: real, q: real, r: real, steps: seq<Step>): (axes: seq<AxisFilter>)
    requires u > 0.0 && q >= 0.0 && r > 0.0
    ensures AllOk(axes)
  {
    seq(4, k requires 0 <= k < 4 => AxisRun(AxisInitial(BoxVec(box)[k], u), k, q, r, steps))
  }

  function AxesStep(axes: seq<AxisFilter>, q: real, r: real, step: Step): (axes': seq<AxisFilter>)
    requires AllOk(axes) && q >= 0.0 && r > 0.0
    ensures AllOk(axes')
  {
    seq(4, k requires 0 <= k < 4 => AxisStep(axes[k], k, q, r, step))
  }

  lemma AxisRunsExtend(box: BBox, u: real, q: real, r: real, steps: seq<Step>, step: Step)
    requires u > 0.0 && q >= 0.0 && r > 0.0
    ensures AxisRuns(box, u, q, r, steps + [step]) == AxesStep(AxisRuns(box, u, q, r, steps), q, r, step)
  {
    assert (steps + [step])[..|steps|] == steps;
  }

  lemma AxesPredict(axes: seq<AxisFilter>, q: real, r: real)
    requires SameCov(axes) && AllOk(axes) && q >= 0.0 && r > 0.0
    ensures AxesStep(axes, q, r, Predict) == seq(4, k requires 0 <= k < 4 => AxisPredicted(axes[k], q))
    ensures SameCov(AxesStep(axes, q, r, Predict))
  {}

  lemma AxesUpdate(axes: seq<AxisFilter>, q: real, r: real, z: BBox)
    requires SameCov(axes) && AllOk(axes) && q >= 0.0 && r > 0.0
    ensures var gains := Gains(axes[0].a, axes[0].b, r);
            AxesStep(axes, q, r, Update(z)) == Corrected(axes, gains.0, gains.1, BoxVec(z))
    ensures SameCov(AxesStep(axes, q, r, Update(z)))
  {
    var gains := Gains(axes[0].a, axes[0].b, r);
    AxisStepUpdate(axes[0], axes[0], 0, q, r, z);
    AxisStepUpdate(axes[1], axes[0], 1, q, r, z);
    AxisStepUpdate(axes[2], axes[0], 2, q, r, z);
    AxisStepUpdate(axes[3], axes[0], 3, q, r, z);
    CorrectedSameCov(axes, gains.0, gains.1, BoxVec(z));
    var axes', ys := AxesStep(axes, q, r, Update(z)), Corrected(axes, gains.0, gains.1, BoxVec(z));
    assert axes'[0] == ys[0] && axes'[1] == ys[1] && axes'[2] == ys[2] && axes'[3] == ys[3];
    assert axes' == ys;
  }

  lemma AxisStepUpdate(x: AxisFilter, y: AxisFilter, k: nat, q: real, r: real, z: BBox)
    requires k < 4 && x.Ok() && q >= 0.0 && r > 0.0 && y.a == x.a && y.b == x.b
    ensures var gains := Gains(y.a, y.b, r);
            AxisStep(x, k, q, r, Update(z)) == AxisCorrected(x, gains.0, gains.1, BoxVec(z)[k])
  {}

  lemma CorrectedSameCov(axes: seq<AxisFilter>, g: real, h: real, z: Vec)
    requires SameCov(axes) && |z| == 4
    ensures SameCov(Corrected(axes, g, h, z))
  {
    SameCorrection(axes[1], axes[0], g, h, z[1], z[0]);
    SameCorrection(axes[2], axes[0], g, h, z[2], z[0]);
    SameCorrection(axes[3], axes[0], g, h, z[3], z[0]);
  }

  lemma SameCorrection(x: AxisFilter, y: AxisFilter, g: real, h: real, zx: real, zy: real)
    requires x.a == y.a && x.b == y.b && x.c == y.c
    ensures var x', y' := AxisCorrected(x, g, h, zx), AxisCorrected(y, g, h, zy);
      x'.a == y'.a && x'.b == y'.b && x'.c == y'.c
  {}

  lemma GainsAre(a: real, b: real, r: real) returns (t: real, g: real, h: real)
    requires a + r != 0.0
    ensures t * (a + r) == 1.0 && g == t * a && h == t * b && Gains(a, b, r) == (g, h)
  {
    t := Inverted(a + r);
    g, h := Gains(a, b, r).0, Gains(a, b, r).1;
  }

  lemma AxesGains(axes: seq<AxisFilter>, q: real, r: real, z: BBox) returns (t: real, g: real, h: real)
    requires SameCov(axes) && AllOk(axes) && q >= 0.0 && r > 0.0
    ensures t * (axes[0].a + r) == 1.0 && g == t * axes[0].a && h == t * axes[0].b
    ensures AxesStep(axes, q, r, Update(z)) == Corrected(axes, g, h, BoxVec(z))
  {
    AxesUpdate(axes, q, r, z);
    t, g, h := GainsAre(axes[0].a, axes[0].b, r);
  }

  lemma StepRefinesUpdate(axes: seq<AxisFilter>, q: real, r: real, inv: Mat -> Option<Mat>, z: BBox)
    requires SameCov(axes) && AllOk(axes) && q >= 0.0 && r > 0.0 && Inverts(inv)
    ensures Updated(Embed(axes), r, z, inv) == Some(Embed(AxesStep(axes, q, r, Update(z))))
  {
    var t, g, h := AxesGains(axes, q, r, z);
    UpdateRefines(axes, r, t, g, h, z, inv);
  }

  /** One call on the 8-state filter is one call on each axis filter, and it never fails. */
  lemma StepRefines(axes: seq<AxisFilter>, q: real, r: real, inv: Mat -> Option<Mat>, step: Step)
    requires SameCov(axes) && AllOk(axes) && q >= 0.0 && r > 0.0 && Inverts(inv)
    ensures SameCov(AxesStep(axes, q, r, step))
    ensures FilterStep(Embed(axes), q, r, inv, step) == Some(Embed(AxesStep(axes, q, r, step)))
  {
    match step
    case Predict =>
      AxesPredict(axes, q, r);
      PredictRefines(axes, q);
    case Update(z) =>
      AxesUpdate(axes, q, r, z);
      StepRefinesUpdate(axes, q, r, inv, z);
  }

  /**
    The 8-state filter is four independent 2-state filters: after any history of
    predictions and corrections it is defined (no singular matrix is ever inverted)
    and equal to the four axis runs side by side, with one common covariance block.
  */
  lemma {:induction false} FilterIsFourAxes(box: BBox, u: real, q: real, r: real,
                                            inv: Mat -> Option<Mat>, steps: seq<Step>)
    requires u > 0.0 && q >= 0.0 && r > 0.0 && Inverts(inv)
    ensures SameCov(AxisRuns(box, u, q, r, steps))
    ensures Run(Initial(box, u), q, r, inv, steps) == Some(Embed(AxisRuns(box, u, q, r, steps)))
  {
    if steps == [] {
      ScaledIdentityBlocks(u);
      assert Initial(box, u).state == Embed(AxisRuns(box, u, q, r, [])).state;
    } else {
      var init, last := steps[..|steps| - 1], steps[|steps| - 1];
      assert steps == init + [last];
      FilterIsFourAxes(box, u, q, r, inv, init);
      AxisRunsExtend(box, u, q, r, init, last);
      StepRefines(AxisRuns(box, u, q, r, init), q, r, inv, last);
    }
  }

  /** Coordinate `v` after the correction of `u` towards `z`: strictly between the two, unless they agree. */
  predicate Towards(u: real, v: real, z: real) {
    if u < z then u < v < z else if u > z then z < v < u else v == z
  }

  /**
    A correction, after any history: each coordinate lands strictly between where it
    was predicted and where it was measured, and its variance falls below both what it
    was and the measurement noise.
  */
  lemma CorrectionLandsBetween(box: BBox, u: real, q: real, r: real,
                               inv: Mat -> Option<Mat>, steps: seq<Step>, z: BBox, k: nat)
    requires u > 0.0 && q >= 0.0 && r > 0.0 && Inverts(inv) && k < 4
    ensures var f := Run(Initial(box, u), q, r, inv, steps);
      f.Some? && var f' := Updated(f.value, r, z, inv);
      && f'.Some? && Towards(f.value.state[k], f'.value.state[k], BoxVec(z)[k])
      && 0.0 < f'.value.cov[k][k] < f.value.cov[k][k] && f'.value.cov[k][k] < r
  {
    var axes := AxisRuns(box, u, q, r, steps);
    FilterIsFourAxes(box, u, q, r, inv, steps);
    StepRefines(axes, q, r, inv, Update(z));
    var axes' := AxesStep(axes, q, r, Update(z));
    EmbedAt(axes, k);
    EmbedAt(axes', k);
    AxisLandsBetween(axes[k], k, q, r, z);
  }

  lemma EmbedAt(axes: seq<AxisFilter>, k: nat)
    requires SameCov(axes) && k < 4
    ensures Embed(axes).state[k] == axes[k].pos && Embed(axes).cov[k][k] == axes[k].a
  {}

  lemma AxisLandsBetween(x: AxisFilter, k: nat, q: real, r: real, z: BBox)
    requires k < 4 && x.Ok() && q >= 0.0 && r > 0.0
    ensures var y := AxisStep(x, k, q, r, Update(z));
      y.Ok() && Towards(x.pos, y.pos, BoxVec(z)[k]) && y.a < x.a && y.a < r
  {
    var gains := Gains(x.a, x.b, r);
    AxisUpdateOk(x, r, Inverted(x.a + r), gains.0, gains.1, BoxVec(z)[k]);
  }

  lemma TransitionKernelFree()
    ensures KernelFree(Transpose(Transition(), 8), 8)
  {
    BlocksTranspose(1.0, 1.0, 0.0, 1.0);
    forall x: Vec | |x| == 8 && Apply(Blocks(1.0, 0.0, 1.0, 1.0), x) == Zero(8) ensures x == Zero(8) {
      BlocksApply(1.0, 0.0, 1.0, 1.0, x);
      var y := Apply(Blocks(1.0, 0.0, 1.0, 1.0), x);
      assert y[0] == y[1] == y[2] == y[3] == 0.0 && y[0 + 4] == y[1 + 4] == y[2 + 4] == y[3 + 4] == 0.0;
      assert x[0] == x[1] == x[2] == x[3] == 0.0;
      assert x[0 + 4] == x[1 + 4] == x[2 + 4] == x[3 + 4] == 0.0;
    }
  }

  lemma ScaledIdentityDefinite(n: nat, c: real)
    requires c >= 0.0
    ensures Symmetric(ScaledIdentity(n, c), n) && PosSemi(ScaledIdentity(n, c), n)
    ensures c > 0.0 ==> Spd(ScaledIdentity(n, c), n)
  {
    DiagDefinite(seq(n, i => c));
  }

  /** After any history the covariance is symmetric positive definite and so is the matrix `update` inverts. */
  lemma {:induction false} RunKeepsSpd(f: Filter, q: real, r: real, inv: Mat -> Option<Mat>, steps: seq<Step>)
    requires f.Valid() && Spd(f.cov, 8) && q >= 0.0 && r > 0.0 && Inverts(inv)
    ensures var f' := Run(f, q, r, inv, steps);
      f'.Some? ==> Spd(f'.value.cov, 8) && Spd(Innovation(f'.value, r), 4)
  {
    var f' := Run(f, q, r, inv, steps);
    if f'.Some? {
      if steps != [] {
        RunKeepsSpd(f, q, r, inv, steps[..|steps| - 1]);
        StepKeepsSpd(Run(f, q, r, inv, steps[..|steps| - 1]).value, q, r, inv, steps[|steps| - 1]);
      }
      ScaledIdentityDefinite(4, r);
      InnovationSpd(Selector(4, 8), f'.value.cov, ScaledIdentity(4, r), 4, 8);
    }
  }

  lemma StepKeepsSpd(f: Filter, q: real, r: real, inv: Mat -> Option<Mat>, step: Step)
    requires f.Valid() && Spd(f.cov, 8) && q >= 0.0 && r > 0.0 && Inverts(inv)
    ensures var f' := FilterStep(f, q, r, inv, step);
      f'.Some? ==> Spd(f'.value.cov, 8)
  {
    match step
    case Predict =>
      TransitionKernelFree();
      ScaledIdentityDefinite(8, q);
      PredictKeepsSpd(Transition(), f.cov, ScaledIdentity(8, q), 8);
    case Update(z) =>
      if Updated(f, r, z, inv).Some? { UpdateSpd(f, r, z, inv); }
  }

  lemma UpdateSpd(f: Filter, r: real, z: BBox, inv: Mat -> Option<Mat>)
    requires f.Valid() && Spd(f.cov, 8) && r > 0.0 && Inverts(inv) && Updated(f, r, z, inv).Some?
    ensures Spd(Updated(f, r, z, inv).value.cov, 8)
  {
    ScaledIdentityDefinite(4, r);
    var X := inv(Innovation(f, r)).value;
    assert IsInverse(Innovation(f, r), X, 4);
    UpdateKeepsSpd(Selector(4, 8), f.cov, ScaledIdentity(4, r), X, 4, 8);
  }

  // ---------------------------------------------------------------- the class

  method BuildTransitionMatrix() returns (F: Mat)
    ensures F == Transition()
  {
    F := Identity(STATE_DIM);
    for i := 0 to 4
      invariant IsMat(F, 8, 8)
      invariant forall k, j :: 0 <= k < 8 && 0 <= j < 8 ==>
                  F[k][j] == if j == k || (k < i && j == k + 4) then 1.0 else 0.0
    {
      F := F[i := F[i][i + 4 := 1.0]];
    }
    BlocksExtensional(F, 1.0, 1.0, 0.0, 1.0);
  }

  method BuildMeasurementMatrix(m: nat, n: nat) returns (H: Mat)
    requires m <= n
    ensures H == Selector(m, n)
  {
    H := seq(m, i => Zero(n));
    for i := 0 to m
      invariant IsMat(H, m, n)
      invariant forall k :: 0 <= k < m ==> H[k] == if k < i then Unit(n, k) else Zero(n)
    {
      H := H[i := H[i][i := 1.0]];
      assert H[i] == Unit(n, i);
    }
  }

  /** `KalmanFilter`: every field the constructor keeps, and the two methods that reassign them. */
  class KalmanFilter {
    var state: Vec
    var covariance: Mat
    const F: Mat
    const H: Mat
    const Q: Mat
    const R: Mat
    const inv: Mat -> Option<Mat>
    ghost const q: real
    ghost const r: real

    ghost predicate Valid() reads this {
      Filter(state, covariance).Valid() && F == Transition() && H == Selector(4, 8) &&
      Q == ScaledIdentity(8, q) && R == ScaledIdentity(4, r)
    }

    ghost function Value(): (f: Filter)
      reads this
      requires Valid()
      ensures f.Valid()
    {
      Filter(state, covariance)
    }

    constructor (initial: BBox, processNoise: real, measurementNoise: real, initialUncertainty: real,
                 inv: Mat -> Option<Mat>)
      ensures Valid() && q == processNoise && r == measurementNoise && this.inv == inv
      ensures Value() == Initial(initial, initialUncertainty)
    {
      var f := BuildTransitionMatrix();
      var h := BuildMeasurementMatrix(MEASUREMENT_DIM, STATE_DIM);
      F, H := f, h;
      state := [initial.cx, initial.cy, initial.w, initial.h, 0.0, 0.0, 0.0, 0.0];
      covariance := ScaledIdentity(STATE_DIM, initialUncertainty);
      Q := ScaledIdentity(STATE_DIM, processNoise);
      R := ScaledIdentity(MEASUREMENT_DIM, measurementNoise);
      this.inv := inv;
      q, r := processNoise, measurementNoise;
    }

    method Predict()
      requires Valid()
      modifies this
      ensures Valid() && Value() == Predicted(old(Value()), q)
    {
      state := Apply(F, state);
      covariance := Add(Mul(Mul(F, covariance, 8), Transpose(F, 8), 8), Q, 8);
    }

    /** `ok` is false where mathjs throws on a singular matrix; then nothing has changed. */
    method Update(measurement: BBox) returns (ok: bool)
      requires Valid()
      modifies this
      ensures Valid()
      ensures var f := Updated(old(Value()), r, measurement, inv);
        ok == f.Some? && Value() == if ok then f.value else old(Value())
    {
      var innovation := VSub(BoxVec(measurement), Apply(H, state));
      var innovationCovariance := Add(Mul(Mul(H, covariance, 8), Transpose(H, 8), 4), R, 4);
      var inverse := inv(innovationCovariance);
      if inverse.None? || !IsMat(inverse.value, 4, 4) { return false; }
      var kalmanGain := Mul(Mul(covariance, Transpose(H, 8), 4), inverse.value, 4);
      state := VAdd(state, Apply(kalmanGain, innovation));
      covariance := Mul(Sub(Identity(8), Mul(kalmanGain, H, 8), 8), covariance, 8);
      return true;
    }

    function Box(): (b: BBox)
      reads this
      requires |state| == 8
      ensures BoxVec(b) == state[..4]
    {
      BoxOf(state)
    }
  }
}
