/**
  The predict/update pair both filters share, written as the matrix expressions
  the code evaluates, and the facts that make it a filter: the covariance stays
  symmetric positive definite, the innovation covariance is symmetric positive
  definite (so nothing singular is ever inverted), and a measured direction is
  afterwards known better than the measurement alone knows it.
*/
module Kalman {
  import opened Matrix

  function PredictCov(F: Mat, P: Mat, Q: Mat, n: nat): (P': Mat)
    requires IsMat(F, n, n) && IsMat(P, n, n) && IsMat(Q, n, n)
    ensures IsMat(P', n, n)
  {
    Add(Mul(Mul(F, P, n), Transpose(F, n), n), Q, n)
  }

  function InnovationCov(H: Mat, P: Mat, R: Mat, m: nat, n: nat): (S: Mat)
    requires IsMat(H, m, n) && IsMat(P, n, n) && IsMat(R, m, m)
    ensures IsMat(S, m, m)
  {
    Add(Mul(Mul(H, P, n), Transpose(H, n), m), R, m)
  }

  function Gain(H: Mat, P: Mat, X: Mat, m: nat, n: nat): (K: Mat)
    requires IsMat(H, m, n) && IsMat(P, n, n) && IsMat(X, m, m)
    ensures IsMat(K, n, m)
  {
    Mul(Mul(P, Transpose(H, n), m), X, m)
  }

  function UpdateState(x: Vec, K: Mat, H: Mat, z: Vec, m: nat, n: nat): (x': Vec)
    requires |x| == n && |z| == m && IsMat(K, n, m) && IsMat(H, m, n)
    ensures |x'| == n
  {
    VAdd(x, Apply(K, VSub(z, Apply(H, x))))
  }

  function UpdateCov(K: Mat, H: Mat, P: Mat, m: nat, n: nat): (P': Mat)
    requires IsMat(K, n, m) && IsMat(H, m, n) && IsMat(P, n, n)
    ensures IsMat(P', n, n)
  {
    Mul(Sub(Identity(n), Mul(K, H, n), n), P, n)
  }

  ghost predicate KernelFree(A: Mat, n: nat) {
    IsMat(A, n, n) && forall x: Vec :: |x| == n && Apply(A, x) == Zero(n) ==> x == Zero(n)
  }

  // ---------------------------------------------------- measurement selector

  /** Both filters measure the first `m` of `n` states. */
  function Selector(m: nat, n: nat): (H: Mat)
    requires m <= n
    ensures IsMat(H, m, n)
    ensures forall i :: 0 <= i < m ==> H[i] == Unit(n, i)
  {
    seq(m, i requires 0 <= i < m => Unit(n, i))
  }

  lemma SelectRows(P: Mat, m: nat, n: nat)
    requires m <= n && IsMat(P, n, n)
    ensures forall i, j :: 0 <= i < m && 0 <= j < n ==> Mul(Selector(m, n), P, n)[i][j] == P[i][j]
  {
    forall i, j | 0 <= i < m && 0 <= j < n ensures Mul(Selector(m, n), P, n)[i][j] == P[i][j] {
      DotComm(Transpose(P, n)[j], Unit(n, i));
      DotUnit(n, i, Transpose(P, n)[j]);
    }
  }

  lemma SelectColumns(P: Mat, r: nat, m: nat, n: nat)
    requires m <= n && IsMat(P, r, n)
    ensures forall i, j :: 0 <= i < r && 0 <= j < m ==>
              Mul(P, Transpose(Selector(m, n), n), m)[i][j] == P[i][j]
  {
    var Ht := Transpose(Selector(m, n), n);
    forall i, j | 0 <= i < r && 0 <= j < m ensures Mul(P, Ht, m)[i][j] == P[i][j] {
      assert Transpose(Ht, m)[j] == Unit(n, j);
      DotUnit(n, j, P[i]);
    }
  }

  lemma SpreadColumns(K: Mat, m: nat, n: nat)
    requires m <= n && IsMat(K, n, m)
    ensures forall i, j :: 0 <= i < n && 0 <= j < n ==>
              Mul(K, Selector(m, n), n)[i][j] == if j < m then K[i][j] else 0.0
  {
    var H := Selector(m, n);
    forall i, j | 0 <= i < n && 0 <= j < n
      ensures Mul(K, H, n)[i][j] == if j < m then K[i][j] else 0.0
    {
      if j < m {
        assert Transpose(H, n)[j] == Unit(m, j);
        DotUnit(m, j, K[i]);
      } else {
        assert Transpose(H, n)[j] == Zero(m);
        DotZero(m, K[i]);
      }
    }
  }

  lemma SelectApply(x: Vec, m: nat, n: nat)
    requires m <= n == |x|
    ensures Apply(Selector(m, n), x) == x[..m]
  {
    forall i | 0 <= i < m ensures Dot(Selector(m, n)[i], x) == x[i] {
      DotUnit(n, i, x);
    }
  }

  /** What is inverted is the measured corner of the covariance plus the measurement noise. */
  lemma InnovationEntries(P: Mat, R: Mat, m: nat, n: nat)
    requires m <= n && IsMat(P, n, n) && IsMat(R, m, m)
    ensures forall i, j :: 0 <= i < m && 0 <= j < m ==>
              InnovationCov(Selector(m, n), P, R, m, n)[i][j] == P[i][j] + R[i][j]
  {
    SelectRows(P, m, n);
    SelectColumns(Mul(Selector(m, n), P, n), m, m, n);
  }

  // ------------------------------------------------------------------ predict

  lemma SandwichDot(F: Mat, P: Mat, r: nat, n: nat, x: Vec, y: Vec)
    requires IsMat(F, r, n) && IsMat(P, n, n) && |x| == |y| == r
    ensures Dot(x, Apply(Mul(Mul(F, P, n), Transpose(F, n), r), y))
         == Dot(Apply(Transpose(F, n), x), Apply(P, Apply(Transpose(F, n), y)))
  {
    var Ft := Transpose(F, n);
    MulApply(Mul(F, P, n), Ft, r, y);
    MulApply(F, P, n, Apply(Ft, y));
    Adjoint(F, n, Apply(P, Apply(Ft, y)), x);
  }

  /** `F P F^T + Q` as a bilinear form. */
  lemma SandwichPlus(F: Mat, P: Mat, Q: Mat, r: nat, n: nat, x: Vec, y: Vec)
    requires IsMat(F, r, n) && IsMat(P, n, n) && IsMat(Q, r, r) && |x| == |y| == r
    ensures Dot(x, Apply(Add(Mul(Mul(F, P, n), Transpose(F, n), r), Q, r), y))
         == Dot(Apply(Transpose(F, n), x), Apply(P, Apply(Transpose(F, n), y))) + Dot(x, Apply(Q, y))
  {
    var M := Mul(Mul(F, P, n), Transpose(F, n), r);
    AddApply(M, Q, r, y);
    DotComm(x, VAdd(Apply(M, y), Apply(Q, y)));
    DotAdd(Apply(M, y), Apply(Q, y), x);
    DotComm(x, Apply(M, y));
    DotComm(x, Apply(Q, y));
    SandwichDot(F, P, r, n, x, y);
  }

  lemma SandwichSymmetric(F: Mat, P: Mat, Q: Mat, r: nat, n: nat)
    requires IsMat(F, r, n) && Symmetric(P, n) && Symmetric(Q, r)
    ensures Symmetric(Add(Mul(Mul(F, P, n), Transpose(F, n), r), Q, r), r)
  {
    var A := Add(Mul(Mul(F, P, n), Transpose(F, n), r), Q, r);
    forall x: Vec, y: Vec | |x| == |y| == r ensures Dot(x, Apply(A, y)) == Dot(y, Apply(A, x)) {
      SandwichPlus(F, P, Q, r, n, x, y);
      SandwichPlus(F, P, Q, r, n, y, x);
      SymmetricDot(P, n, Apply(Transpose(F, n), x), Apply(Transpose(F, n), y));
      SymmetricDot(Q, r, x, y);
    }
    DotSymmetric(A, r);
  }

  /** A prediction keeps the covariance a covariance, even without process noise. */
  lemma PredictKeepsSpd(F: Mat, P: Mat, Q: Mat, n: nat)
    requires IsMat(F, n, n) && KernelFree(Transpose(F, n), n)
    requires Spd(P, n) && Symmetric(Q, n) && PosSemi(Q, n)
    ensures Spd(PredictCov(F, P, Q, n), n)
  {
    SandwichSymmetric(F, P, Q, n, n);
    var P' := PredictCov(F, P, Q, n);
    forall x: Vec | |x| == n && x != Zero(n) ensures Dot(x, Apply(P', x)) > 0.0 {
      PredictedForm(F, P, Q, P', n, x);
    }
  }

  lemma PredictedForm(F: Mat, P: Mat, Q: Mat, P': Mat, n: nat, x: Vec)
    requires IsMat(F, n, n) && KernelFree(Transpose(F, n), n) && |x| == n && x != Zero(n)
    requires Spd(P, n) && Symmetric(Q, n) && PosSemi(Q, n) && P' == PredictCov(F, P, Q, n)
    ensures IsMat(P', n, n) && Dot(x, Apply(P', x)) > 0.0
  {
    SandwichPlus(F, P, Q, n, n, x, x);
    assert Apply(Transpose(F, n), x) != Zero(n);
  }

  /** The matrix that `update` inverts is symmetric positive definite. */
  lemma InnovationSpd(H: Mat, P: Mat, R: Mat, m: nat, n: nat)
    requires IsMat(H, m, n) && Spd(P, n) && Spd(R, m)
    ensures Spd(InnovationCov(H, P, R, m, n), m)
  {
    var S := InnovationCov(H, P, R, m, n);
    SandwichSymmetric(H, P, R, m, n);
    SpdSemi(P, n);
    forall x: Vec | |x| == m && x != Zero(m) ensures Dot(x, Apply(S, x)) > 0.0 {
      SandwichPlus(H, P, R, m, n, x, x);
    }
  }

  // ------------------------------------------------------------------- update

  /** `(I - K H) P y == P y - P H^T X H P y`. */
  lemma UpdateApply(H: Mat, P: Mat, X: Mat, m: nat, n: nat, y: Vec)
    requires IsMat(H, m, n) && IsMat(P, n, n) && IsMat(X, m, m) && |y| == n
    ensures Apply(UpdateCov(Gain(H, P, X, m, n), H, P, m, n), y)
         == VSub(Apply(P, y), Apply(P, Apply(Transpose(H, n), Apply(X, Apply(H, Apply(P, y))))))
  {
    var K := Gain(H, P, X, m, n);
    var Py := Apply(P, y);
    MulApply(Sub(Identity(n), Mul(K, H, n), n), P, n, y);
    AddApply(Identity(n), Mul(K, H, n), n, Py);
    IdentityApply(n, Py);
    MulApply(K, H, n, Py);
    MulApply(Mul(P, Transpose(H, n), m), X, m, Apply(H, Py));
    MulApply(P, Transpose(H, n), m, Apply(X, Apply(H, Py)));
  }

  /** The posterior as a bilinear form: prior minus `(H P x) . X (H P y)`. */
  lemma UpdateDot(H: Mat, P: Mat, X: Mat, m: nat, n: nat, x: Vec, y: Vec)
    requires IsMat(H, m, n) && Symmetric(P, n) && IsMat(X, m, m) && |x| == |y| == n
    ensures Dot(x, Apply(UpdateCov(Gain(H, P, X, m, n), H, P, m, n), y))
         == Dot(x, Apply(P, y)) - Dot(Apply(H, Apply(P, x)), Apply(X, Apply(H, Apply(P, y))))
  {
    var a := Apply(X, Apply(H, Apply(P, y)));
    var Ha := Apply(Transpose(H, n), a);
    UpdateApply(H, P, X, m, n, y);
    DotComm(x, VSub(Apply(P, y), Apply(P, Ha)));
    DotSub(Apply(P, y), Apply(P, Ha), x);
    DotComm(x, Apply(P, y));
    DotComm(x, Apply(P, Ha));
    SymmetricDot(P, n, x, Ha);
    Adjoint(H, n, Apply(P, x), a);
    DotComm(a, Apply(H, Apply(P, x)));
  }

  /** Joseph's form: the posterior variance along `x` is the prior variance of `x - H^T a` plus `a . R a`. */
  lemma JosephForm(H: Mat, P: Mat, R: Mat, X: Mat, m: nat, n: nat, x: Vec)
    requires IsMat(H, m, n) && Spd(P, n) && Spd(R, m) && |x| == n
    requires IsInverse(InnovationCov(H, P, R, m, n), X, m)
    ensures var a := Apply(X, Apply(H, Apply(P, x)));
            var v := VSub(x, Apply(Transpose(H, n), a));
            Dot(x, Apply(UpdateCov(Gain(H, P, X, m, n), H, P, m, n), x))
              == Dot(v, Apply(P, v)) + Dot(a, Apply(R, a))
  {
    var S := InnovationCov(H, P, R, m, n);
    var w := Apply(H, Apply(P, x));
    var a := Apply(X, w);
    var Ha := Apply(Transpose(H, n), a);
    var v := VSub(x, Ha);
    UpdateDot(H, P, X, m, n, x, x);
    // S a == w
    InverseApply(S, X, m, w);
    SandwichPlus(H, P, R, m, n, a, a);
    assert Dot(a, w) == Dot(Ha, Apply(P, Ha)) + Dot(a, Apply(R, a));
    // v . P v == x . P x - 2 (a . w) + Ha . P Ha
    ApplySub(P, n, x, Ha);
    DotSub(x, Ha, Apply(P, v));
    DotMinus(x, Apply(P, x), Apply(P, Ha));
    DotMinus(Ha, Apply(P, x), Apply(P, Ha));
    Adjoint(H, n, Apply(P, x), a);
    SymmetricDot(P, n, x, Ha);
    DotComm(w, a);
  }

  lemma DotMinus(u: Vec, y: Vec, z: Vec)
    requires |u| == |y| == |z|
    ensures Dot(u, VSub(y, z)) == Dot(u, y) - Dot(u, z)
  {
    DotComm(u, VSub(y, z));
    DotSub(y, z, u);
    DotComm(u, y);
    DotComm(u, z);
  }

  lemma UpdateSymmetric(H: Mat, P: Mat, X: Mat, m: nat, n: nat)
    requires IsMat(H, m, n) && Symmetric(P, n) && Symmetric(X, m)
    ensures Symmetric(UpdateCov(Gain(H, P, X, m, n), H, P, m, n), n)
  {
    var P' := UpdateCov(Gain(H, P, X, m, n), H, P, m, n);
    forall x: Vec, y: Vec | |x| == |y| == n ensures Dot(x, Apply(P', y)) == Dot(y, Apply(P', x)) {
      UpdateDot(H, P, X, m, n, x, y);
      UpdateDot(H, P, X, m, n, y, x);
      SymmetricDot(P, n, x, y);
      SymmetricDot(X, m, Apply(H, Apply(P, x)), Apply(H, Apply(P, y)));
    }
    DotSymmetric(P', n);
  }

  lemma UpdatePositive(H: Mat, P: Mat, R: Mat, X: Mat, m: nat, n: nat, x: Vec)
    requires IsMat(H, m, n) && Spd(P, n) && Spd(R, m)
    requires IsInverse(InnovationCov(H, P, R, m, n), X, m)
    requires |x| == n && x != Zero(n)
    ensures Dot(x, Apply(UpdateCov(Gain(H, P, X, m, n), H, P, m, n), x)) > 0.0
  {
    JosephForm(H, P, R, X, m, n, x);
    var a := Apply(X, Apply(H, Apply(P, x)));
    var v := VSub(x, Apply(Transpose(H, n), a));
    ResidualNonZero(H, m, n, x, a);
    SplitPositive(P, R, m, n, v, a);
  }

  lemma ResidualNonZero(H: Mat, m: nat, n: nat, x: Vec, a: Vec)
    requires IsMat(H, m, n) && |x| == n && |a| == m && x != Zero(n)
    ensures a != Zero(m) || VSub(x, Apply(Transpose(H, n), a)) != Zero(n)
  {
    if a == Zero(m) {
      ApplyZero(Transpose(H, n), m);
      assert VSub(x, Zero(n)) == x;
    }
  }

  lemma SplitPositive(P: Mat, R: Mat, m: nat, n: nat, v: Vec, a: Vec)
    requires Spd(P, n) && Spd(R, m) && |v| == n && |a| == m
    requires a != Zero(m) || v != Zero(n)
    ensures Dot(v, Apply(P, v)) + Dot(a, Apply(R, a)) > 0.0
  {
    SpdSemi(P, n);
    SpdSemi(R, m);
  }

  /** A correction keeps the covariance a covariance. */
  lemma UpdateKeepsSpd(H: Mat, P: Mat, R: Mat, X: Mat, m: nat, n: nat)
    requires IsMat(H, m, n) && Spd(P, n) && Spd(R, m)
    requires IsInverse(InnovationCov(H, P, R, m, n), X, m)
    ensures Spd(UpdateCov(Gain(H, P, X, m, n), H, P, m, n), n)
  {
    InnovationSpd(H, P, R, m, n);
    InverseSpd(InnovationCov(H, P, R, m, n), X, m);
    UpdateSymmetric(H, P, X, m, n);
    forall x: Vec | |x| == n && x != Zero(n)
      ensures Dot(x, Apply(UpdateCov(Gain(H, P, X, m, n), H, P, m, n), x)) > 0.0
    {
      UpdatePositive(H, P, R, X, m, n, x);
    }
  }

  /** `H P H^T e == S e - R e`, and applying the inverse of `S` to it gives `e - X R e`. */
  lemma InnovationSplit(H: Mat, P: Mat, R: Mat, X: Mat, m: nat, n: nat, e: Vec)
    requires IsMat(H, m, n) && IsMat(P, n, n) && IsMat(R, m, m) && |e| == m
    requires IsInverse(InnovationCov(H, P, R, m, n), X, m)
    ensures var S := InnovationCov(H, P, R, m, n);
            var w := Apply(H, Apply(P, Apply(Transpose(H, n), e)));
            w == VSub(Apply(S, e), Apply(R, e)) && Apply(X, w) == VSub(e, Apply(X, Apply(R, e)))
  {
    var S := InnovationCov(H, P, R, m, n);
    var x := Apply(Transpose(H, n), e);
    var w, Se, Re := Apply(H, Apply(P, x)), Apply(S, e), Apply(R, e);
    AddApply(Mul(Mul(H, P, n), Transpose(H, n), m), R, m, e);
    MulApply(Mul(H, P, n), Transpose(H, n), m, e);
    MulApply(H, P, n, x);
    assert Se == VAdd(w, Re);
    assert w == VSub(Se, Re);
    ApplySub(X, m, Se, Re);
    InverseApply(S, X, m, e);
  }

  /** `(S e - R e) . (e - X R e)` when `X` inverts the symmetric `S`. */
  lemma ResidualDot(S: Mat, R: Mat, X: Mat, m: nat, e: Vec)
    requires Symmetric(S, m) && IsInverse(S, X, m) && IsMat(R, m, m) && |e| == m
    ensures var Re := Apply(R, e);
            Dot(VSub(Apply(S, e), Re), VSub(e, Apply(X, Re)))
              == Dot(e, Apply(S, e)) - 2.0 * Dot(e, Re) + Dot(Re, Apply(X, Re))
  {
    var Se, Re := Apply(S, e), Apply(R, e);
    var y := Apply(X, Re);
    DotMinus(VSub(Se, Re), e, y);
    DotSub(Se, Re, e);
    DotSub(Se, Re, y);
    DotComm(Se, e);
    DotComm(Re, e);
    SymmetricDot(S, m, e, y);
    InverseApply(S, X, m, Re);
    DotComm(Se, y);
  }

  /** Along every measured direction the posterior variance is strictly below the measurement noise. */
  lemma PosteriorBelowNoise(H: Mat, P: Mat, R: Mat, X: Mat, m: nat, n: nat, e: Vec)
    requires IsMat(H, m, n) && Spd(P, n) && Spd(R, m) && |e| == m && e != Zero(m)
    requires IsInverse(InnovationCov(H, P, R, m, n), X, m)
    ensures var x := Apply(Transpose(H, n), e);
            Dot(x, Apply(UpdateCov(Gain(H, P, X, m, n), H, P, m, n), x)) < Dot(e, Apply(R, e))
  {
    var S := InnovationCov(H, P, R, m, n);
    var x := Apply(Transpose(H, n), e);
    var Re := Apply(R, e);
    InnovationSpd(H, P, R, m, n);
    InverseSpd(S, X, m);
    UpdateDot(H, P, X, m, n, x, x);
    InnovationSplit(H, P, R, X, m, n, e);
    ResidualDot(S, R, X, m, e);
    Adjoint(H, n, Apply(P, x), e);
    DotMinus(e, Apply(S, e), Re);
    if Re == Zero(m) {
      DotComm(e, Zero(m));
      DotZero(m, e);
    }
  }
}
