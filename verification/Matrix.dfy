/**
  The part of mathjs's dense linear algebra the two filters call (`multiply`,
  `transpose`, `add`, `subtract`, `identity`, `diag`, `inv`), on nested arrays of
  reals.  Matrices are studied through what they do to vectors: every proof about
  the filters goes through `MulApply`, `Adjoint` and linearity.
*/
module Matrix {
  import opened Wrappers

  type Vec = seq<real>
  type Mat = seq<seq<real>>

  predicate IsMat(A: Mat, r: nat, c: nat) {
    |A| == r && forall i :: 0 <= i < r ==> |A[i]| == c
  }

  // ---------------------------------------------------------------- vectors

  function Dot(x: Vec, y: Vec): real
    requires |x| == |y|
  {
    if x == [] then 0.0
    else Dot(x[..|x| - 1], y[..|x| - 1]) + x[|x| - 1] * y[|x| - 1]
  }

  function VAdd(x: Vec, y: Vec): (z: Vec)
    requires |x| == |y|
    ensures |z| == |x|
  {
    seq(|x|, i requires 0 <= i < |x| => x[i] + y[i])
  }

  function VSub(x: Vec, y: Vec): (z: Vec)
    requires |x| == |y|
    ensures |z| == |x|
  {
    seq(|x|, i requires 0 <= i < |x| => x[i] - y[i])
  }

  function Scale(c: real, x: Vec): (z: Vec)
    ensures |z| == |x|
  {
    seq(|x|, i requires 0 <= i < |x| => c * x[i])
  }

  function Zero(n: nat): (z: Vec)
    ensures |z| == n
  {
    seq(n, i => 0.0)
  }

  function Unit(n: nat, k: nat): (z: Vec)
    requires k < n
    ensures |z| == n
  {
    seq(n, i => if i == k then 1.0 else 0.0)
  }

  lemma {:induction false} DotComm(x: Vec, y: Vec)
    requires |x| == |y|
    ensures Dot(x, y) == Dot(y, x)
  {
    if x != [] { DotComm(x[..|x| - 1], y[..|x| - 1]); }
  }

  lemma {:induction false} DotScale(c: real, x: Vec, y: Vec)
    requires |x| == |y|
    ensures Dot(Scale(c, x), y) == c * Dot(x, y)
  {
    if x != [] {
      var n := |x| - 1;
      forall i | 0 <= i < n ensures Scale(c, x)[..n][i] == Scale(c, x[..n])[i] {}
      assert Scale(c, x)[..n] == Scale(c, x[..n]);
      DotScale(c, x[..n], y[..n]);
      Distribute(c, Dot(x[..n], y[..n]), x[n], y[n]);
    }
  }

  lemma Distribute(c: real, d: real, a: real, b: real)
    ensures c * (d + a * b) == c * d + (c * a) * b
  {}

  lemma {:induction false} DotAdd(x: Vec, y: Vec, z: Vec)
    requires |x| == |y| == |z|
    ensures Dot(VAdd(x, y), z) == Dot(x, z) + Dot(y, z)
  {
    if x != [] {
      var n := |x| - 1;
      assert VAdd(x, y)[..n] == VAdd(x[..n], y[..n]);
      DotAdd(x[..n], y[..n], z[..n]);
      DistributeRight(x[n], y[n], z[n]);
    }
  }

  lemma DotSub(x: Vec, y: Vec, z: Vec)
    requires |x| == |y| == |z|
    ensures Dot(VSub(x, y), z) == Dot(x, z) - Dot(y, z)
  {
    assert VAdd(VSub(x, y), y) == x;
    DotAdd(VSub(x, y), y, z);
  }

  lemma DistributeRight(a: real, b: real, c: real)
    ensures (a + b) * c == a * c + b * c
  {}

  lemma {:induction false} DotZero(n: nat, y: Vec)
    requires |y| == n
    ensures Dot(Zero(n), y) == 0.0
  {
    if n > 0 {
      assert Zero(n)[..n - 1] == Zero(n - 1);
      DotZero(n - 1, y[..n - 1]);
    }
  }

  lemma {:induction false} DotUnit(n: nat, k: nat, y: Vec)
    requires k < n == |y|
    ensures Dot(Unit(n, k), y) == y[k]
  {
    if k == n - 1 {
      assert Unit(n, k)[..n - 1] == Zero(n - 1);
      DotZero(n - 1, y[..n - 1]);
    } else {
      assert Unit(n, k)[..n - 1] == Unit(n - 1, k);
      DotUnit(n - 1, k, y[..n - 1]);
    }
  }

  /** A dot product with a vector that is zero off one position ... */
  lemma {:induction false} DotSingle(x: Vec, y: Vec, p: nat)
    requires |x| == |y| && p < |x|
    requires forall k :: 0 <= k < |x| && k != p ==> x[k] == 0.0
    ensures Dot(x, y) == x[p] * y[p]
  {
    var n := |x| - 1;
    if p == n {
      assert x[..n] == Zero(n);
      DotZero(n, y[..n]);
    } else {
      DotSingle(x[..n], y[..n], p);
    }
  }

  /** ... and off two. */
  lemma {:induction false} DotSparse(x: Vec, y: Vec, p: nat, q: nat)
    requires |x| == |y| && p < q < |x|
    requires forall k :: 0 <= k < |x| && k != p && k != q ==> x[k] == 0.0
    ensures Dot(x, y) == x[p] * y[p] + x[q] * y[q]
  {
    var n := |x| - 1;
    if q == n {
      DotSingle(x[..n], y[..n], p);
    } else {
      DotSparse(x[..n], y[..n], p, q);
    }
  }

  // --------------------------------------------------------------- matrices

  function Apply(A: Mat, x: Vec): (y: Vec)
    requires IsMat(A, |A|, |x|)
    ensures |y| == |A|
  {
    seq(|A|, i requires 0 <= i < |A| => Dot(A[i], x))
  }

  /** The transpose of a matrix with `c` columns. */
  function Transpose(A: Mat, c: nat): (B: Mat)
    requires IsMat(A, |A|, c)
    ensures IsMat(B, c, |A|)
    ensures forall i, j :: 0 <= i < c && 0 <= j < |A| ==> B[i][j] == A[j][i]
  {
    seq(c, j requires 0 <= j < c => seq(|A|, i requires 0 <= i < |A| => A[i][j]))
  }

  /** `A` times `B`, where `B` has `c` columns. */
  function Mul(A: Mat, B: Mat, c: nat): (C: Mat)
    requires IsMat(B, |B|, c) && IsMat(A, |A|, |B|)
    ensures IsMat(C, |A|, c)
    ensures forall i, j :: 0 <= i < |A| && 0 <= j < c ==> C[i][j] == Dot(Transpose(B, c)[j], A[i])
  {
    seq(|A|, i requires 0 <= i < |A| => Apply(Transpose(B, c), A[i]))
  }

  function Add(A: Mat, B: Mat, c: nat): (C: Mat)
    requires IsMat(A, |A|, c) && IsMat(B, |A|, c)
    ensures IsMat(C, |A|, c)
    ensures forall i, j :: 0 <= i < |A| && 0 <= j < c ==> C[i][j] == A[i][j] + B[i][j]
  {
    seq(|A|, i requires 0 <= i < |A| => VAdd(A[i], B[i]))
  }

  function Sub(A: Mat, B: Mat, c: nat): (C: Mat)
    requires IsMat(A, |A|, c) && IsMat(B, |A|, c)
    ensures IsMat(C, |A|, c)
    ensures forall i, j :: 0 <= i < |A| && 0 <= j < c ==> C[i][j] == A[i][j] - B[i][j]
  {
    seq(|A|, i requires 0 <= i < |A| => VSub(A[i], B[i]))
  }

  function Diag(d: Vec): (D: Mat)
    ensures IsMat(D, |d|, |d|)
    ensures forall i, j :: 0 <= i < |d| && 0 <= j < |d| ==> D[i][j] == if i == j then d[i] else 0.0
  {
    seq(|d|, i requires 0 <= i < |d| => seq(|d|, j => if i == j then d[i] else 0.0))
  }

  function Identity(n: nat): (D: Mat)
    ensures IsMat(D, n, n)
    ensures forall i, j :: 0 <= i < n && 0 <= j < n ==> D[i][j] == if i == j then 1.0 else 0.0
  {
    seq(n, i requires 0 <= i < n => Unit(n, i))
  }

  /** The last row's share of `A^T y`. */
  lemma TransposeSplit(A: Mat, c: nat, y: Vec)
    requires A != [] && IsMat(A, |A|, c) && |y| == |A|
    ensures var n := |A| - 1;
      Apply(Transpose(A, c), y) == VAdd(Apply(Transpose(A[..n], c), y[..n]), Scale(y[n], A[n]))
  {
    var n := |A| - 1;
    var z, z' := Apply(Transpose(A, c), y), Apply(Transpose(A[..n], c), y[..n]);
    forall j | 0 <= j < c ensures z[j] == z'[j] + y[n] * A[n][j] {
      var col := Transpose(A, c)[j];
      assert col[..n] == Transpose(A[..n], c)[j];
      assert z[j] == Dot(col, y) == Dot(col[..n], y[..n]) + col[n] * y[n];
    }
    var s := VAdd(z', Scale(y[n], A[n]));
    assert |z| == |s| && forall j :: 0 <= j < c ==> z[j] == s[j];
  }

  /** `y . A x == (A^T y) . x`. */
  lemma {:induction false} Adjoint(A: Mat, c: nat, x: Vec, y: Vec)
    requires IsMat(A, |A|, c) && |x| == c && |y| == |A|
    ensures Dot(y, Apply(A, x)) == Dot(Apply(Transpose(A, c), y), x)
  {
    if A == [] {
      var z := Apply(Transpose(A, c), y);
      assert z == Zero(c) by {
        assert forall j :: 0 <= j < c ==> Transpose(A, c)[j] == [];
      }
      DotZero(c, x);
    } else {
      var n := |A| - 1;
      var A', y' := A[..n], y[..n];
      Adjoint(A', c, x, y');
      assert Apply(A, x)[..n] == Apply(A', x);
      var z, z' := Apply(Transpose(A, c), y), Apply(Transpose(A', c), y');
      TransposeSplit(A, c, y);
      DotAdd(z', Scale(y[n], A[n]), x);
      DotScale(y[n], A[n], x);
    }
  }

  lemma MulApply(A: Mat, B: Mat, c: nat, x: Vec)
    requires IsMat(B, |B|, c) && IsMat(A, |A|, |B|) && |x| == c
    ensures Apply(Mul(A, B, c), x) == Apply(A, Apply(B, x))
  {
    forall i | 0 <= i < |A| ensures Apply(Mul(A, B, c), x)[i] == Apply(A, Apply(B, x))[i] {
      assert Mul(A, B, c)[i] == Apply(Transpose(B, c), A[i]);
      Adjoint(B, c, x, A[i]);
    }
  }

  lemma AddApply(A: Mat, B: Mat, c: nat, x: Vec)
    requires IsMat(A, |A|, c) && IsMat(B, |A|, c) && |x| == c
    ensures Apply(Add(A, B, c), x) == VAdd(Apply(A, x), Apply(B, x))
    ensures Apply(Sub(A, B, c), x) == VSub(Apply(A, x), Apply(B, x))
  {
    forall i | 0 <= i < |A| ensures Apply(Add(A, B, c), x)[i] == Apply(A, x)[i] + Apply(B, x)[i]
                            ensures Apply(Sub(A, B, c), x)[i] == Apply(A, x)[i] - Apply(B, x)[i] {
      assert Add(A, B, c)[i] == VAdd(A[i], B[i]);
      assert Sub(A, B, c)[i] == VSub(A[i], B[i]);
      DotAdd(A[i], B[i], x);
      DotSub(A[i], B[i], x);
    }
  }

  lemma ApplySub(A: Mat, c: nat, x: Vec, y: Vec)
    requires IsMat(A, |A|, c) && |x| == |y| == c
    ensures Apply(A, VSub(x, y)) == VSub(Apply(A, x), Apply(A, y))
  {
    forall i | 0 <= i < |A| ensures Dot(A[i], VSub(x, y)) == Dot(A[i], x) - Dot(A[i], y) {
      DotComm(A[i], VSub(x, y));
      DotSub(x, y, A[i]);
      DotComm(A[i], x);
      DotComm(A[i], y);
    }
  }

  lemma IdentityApply(n: nat, x: Vec)
    requires |x| == n
    ensures Apply(Identity(n), x) == x
  {
    forall i | 0 <= i < n ensures Dot(Identity(n)[i], x) == x[i] {
      assert Identity(n)[i] == Unit(n, i);
      DotUnit(n, i, x);
    }
  }

  /** Entries are what the matrix does to unit vectors. */
  lemma EntryByUnits(A: Mat, n: nat, m: nat, i: nat, j: nat)
    requires IsMat(A, n, m) && i < n && j < m
    ensures Dot(Unit(n, i), Apply(A, Unit(m, j))) == A[i][j]
    ensures Apply(A, Unit(m, j))[i] == A[i][j]
  {
    DotUnit(n, i, Apply(A, Unit(m, j)));
    DotComm(A[i], Unit(m, j));
    DotUnit(m, j, A[i]);
  }

  lemma SameByApply(A: Mat, B: Mat, n: nat, m: nat)
    requires IsMat(A, n, m) && IsMat(B, n, m)
    requires forall x :: |x| == m ==> Apply(A, x) == Apply(B, x)
    ensures A == B
  {
    forall i, j | 0 <= i < n && 0 <= j < m ensures A[i][j] == B[i][j] {
      EntryByUnits(A, n, m, i, j);
      EntryByUnits(B, n, m, i, j);
      assert Apply(A, Unit(m, j)) == Apply(B, Unit(m, j));
    }
    forall i | 0 <= i < n ensures A[i] == B[i] {}
  }

  // ------------------------------------------------- symmetry, definiteness

  ghost predicate Symmetric(A: Mat, n: nat) {
    IsMat(A, n, n) && forall i, j :: 0 <= i < n && 0 <= j < n ==> A[i][j] == A[j][i]
  }

  ghost predicate PosDef(A: Mat, n: nat) {
    IsMat(A, n, n) && forall x: Vec :: |x| == n && x != Zero(n) ==> Dot(x, Apply(A, x)) > 0.0
  }

  ghost predicate PosSemi(A: Mat, n: nat) {
    IsMat(A, n, n) && forall x: Vec :: |x| == n ==> Dot(x, Apply(A, x)) >= 0.0
  }

  /** Symmetric positive definite: what a covariance has to be. */
  ghost predicate Spd(A: Mat, n: nat) {
    Symmetric(A, n) && PosDef(A, n)
  }

  lemma SpdSemi(A: Mat, n: nat)
    requires PosDef(A, n)
    ensures PosSemi(A, n)
  {
    forall x: Vec | |x| == n ensures Dot(x, Apply(A, x)) >= 0.0 {
      if x == Zero(n) { DotZero(n, Apply(A, x)); }
    }
  }

  lemma SymmetricDot(A: Mat, n: nat, x: Vec, y: Vec)
    requires Symmetric(A, n) && |x| == |y| == n
    ensures Dot(x, Apply(A, y)) == Dot(y, Apply(A, x))
  {
    forall i | 0 <= i < n ensures Transpose(A, n)[i] == A[i] {}
    assert Transpose(A, n) == A;
    Adjoint(A, n, y, x);
    DotComm(Apply(A, x), y);
  }

  lemma DotSymmetric(A: Mat, n: nat)
    requires IsMat(A, n, n)
    requires forall x, y :: |x| == |y| == n ==> Dot(x, Apply(A, y)) == Dot(y, Apply(A, x))
    ensures Symmetric(A, n)
  {
    forall i, j | 0 <= i < n && 0 <= j < n ensures A[i][j] == A[j][i] {
      EntryByUnits(A, n, n, i, j);
      EntryByUnits(A, n, n, j, i);
      assert Dot(Unit(n, i), Apply(A, Unit(n, j))) == Dot(Unit(n, j), Apply(A, Unit(n, i)));
    }
  }

  /** A diagonal matrix scales each component. */
  lemma DiagApply(d: Vec, x: Vec, i: nat)
    requires |x| == |d| && i < |d|
    ensures Apply(Diag(d), x)[i] == d[i] * x[i]
  {
    DotSingle(Diag(d)[i], x, i);
  }

  lemma {:induction false} DotDiag(d: Vec, x: Vec, y: Vec)
    requires |x| == |d| == |y|
    requires forall i :: 0 <= i < |d| ==> d[i] >= 0.0 && y[i] == d[i] * x[i]
    ensures Dot(x, y) >= 0.0
    ensures (forall i :: 0 <= i < |d| ==> d[i] > 0.0) && Dot(x, y) == 0.0 ==> x == Zero(|d|)
  {
    if d != [] {
      var n := |d| - 1;
      DotDiag(d[..n], x[..n], y[..n]);
      WeightedSquare(d[n], x[n], x[n] * y[n]);
      assert Dot(x, y) == Dot(x[..n], y[..n]) + x[n] * y[n];
      assert x == x[..n] + [x[n]];
    }
  }

  lemma WeightedSquare(w: real, t: real, m: real)
    requires w >= 0.0 && m == t * (w * t)
    ensures m >= 0.0
    ensures w > 0.0 && t != 0.0 ==> m > 0.0
  {
    assert m == w * (t * t);
    SquareSign(t, t * t);
    ProductSign(w, t * t, m);
  }

  lemma SquareSign(t: real, q: real)
    requires q == t * t
    ensures q >= 0.0 && (t != 0.0 ==> q > 0.0)
  {
    if t < 0.0 { ProductSign(0.0 - t, 0.0 - t, q); } else { ProductSign(t, t, q); }
  }

  lemma ProductSign(x: real, y: real, m: real)
    requires x >= 0.0 && y >= 0.0 && m == x * y
    ensures m >= 0.0 && (x > 0.0 && y > 0.0 ==> m > 0.0)
  {}

  lemma DiagDefinite(d: Vec)
    requires forall i :: 0 <= i < |d| ==> d[i] >= 0.0
    ensures Symmetric(Diag(d), |d|) && PosSemi(Diag(d), |d|)
    ensures (forall i :: 0 <= i < |d| ==> d[i] > 0.0) ==> Spd(Diag(d), |d|)
  {
    forall x: Vec | |x| == |d|
      ensures Dot(x, Apply(Diag(d), x)) >= 0.0
      ensures (forall i :: 0 <= i < |d| ==> d[i] > 0.0) && x != Zero(|d|) ==> Dot(x, Apply(Diag(d), x)) > 0.0
    {
      forall i | 0 <= i < |d| ensures Apply(Diag(d), x)[i] == d[i] * x[i] { DiagApply(d, x, i); }
      DotDiag(d, x, Apply(Diag(d), x));
    }
  }

  // ----------------------------------------------------------------- inverse

  ghost predicate IsInverse(S: Mat, X: Mat, n: nat) {
    IsMat(S, n, n) && IsMat(X, n, n) &&
    Mul(S, X, n) == Identity(n) && Mul(X, S, n) == Identity(n)
  }

  lemma InverseApply(S: Mat, X: Mat, n: nat, x: Vec)
    requires IsInverse(S, X, n) && |x| == n
    ensures Apply(S, Apply(X, x)) == x && Apply(X, Apply(S, x)) == x
  {
    MulApply(S, X, n, x);
    MulApply(X, S, n, x);
    IdentityApply(n, x);
  }

  lemma InverseUnique(S: Mat, X: Mat, Y: Mat, n: nat)
    requires IsInverse(S, X, n) && IsInverse(S, Y, n)
    ensures X == Y
  {
    forall x | |x| == n ensures Apply(X, x) == Apply(Y, x) {
      InverseApply(S, Y, n, x);
      InverseApply(S, X, n, Apply(Y, x));
    }
    SameByApply(X, Y, n, n);
  }

  /**
    What is asked of mathjs's `inv`, a parameter wherever it is called: it returns
    the inverse exactly when there is one (and throws, `None`, when there is not).
  */
  ghost predicate Inverts(inv: Mat -> Option<Mat>) {
    (forall S, X, n: nat {:trigger IsInverse(S, X, n)} :: IsInverse(S, X, n) ==> inv(S) == Some(X)) &&
    (forall S :: inv(S).Some? ==> IsInverse(S, inv(S).value, |S|))
  }

  /** The inverse of a symmetric positive definite matrix is one, too. */
  lemma InverseSpd(S: Mat, X: Mat, n: nat)
    requires IsInverse(S, X, n) && Spd(S, n)
    ensures Spd(X, n)
  {
    forall x: Vec, y: Vec | |x| == |y| == n ensures Dot(x, Apply(X, y)) == Dot(y, Apply(X, x)) {
      InverseApply(S, X, n, x);
      InverseApply(S, X, n, y);
      SymmetricDot(S, n, Apply(X, x), Apply(X, y));
      DotComm(Apply(X, y), x);
      DotComm(Apply(X, x), y);
    }
    DotSymmetric(X, n);
    forall x: Vec | |x| == n && x != Zero(n) ensures Dot(x, Apply(X, x)) > 0.0 {
      InverseApply(S, X, n, x);
      var y := Apply(X, x);
      if y == Zero(n) {
        ApplyZero(S, n);
        assert false;
      }
      DotComm(x, y);
    }
  }

  lemma ApplyZero(A: Mat, n: nat)
    requires IsMat(A, |A|, n)
    ensures Apply(A, Zero(n)) == Zero(|A|)
  {
    forall i | 0 <= i < |A| ensures Dot(A[i], Zero(n)) == 0.0 {
      DotComm(A[i], Zero(n));
      DotZero(n, A[i]);
    }
  }
}
