/** Least-squares regression over a caller-supplied basis: the
    `LinearRegression` type of src/algorithm/linear_regression.rs, over exact
    reals. `fit` builds the design matrix from the inputs and the feature map
    and takes its coefficients from a dense solver applied to the normal
    equations; `predict` multiplies the stored design matrix by them. */
module Regression {
  import opened LinAlg

  /** The boxed feature map handed to `fit`. */
  type FeatureMap = real -> seq<real>

  /** A dense linear solver: given G and b, a vector w meant to satisfy G w = b. */
  type Solver = (Matrix, Vector) -> Vector

  /** A fitted model: the solved coefficients and the design matrix they were
      solved for. */
  datatype LinearRegression = LinearRegression(coefficients: Vector, phiX: Matrix)

  // ---------------------------------------------------------------------
  // Design matrix

  /** The `phi` closure of `fit`: the constant 1.0 followed by f(v). */
  function Phi(f: FeatureMap, v: real): (row: seq<real>)
    ensures |row| == |f(v)| + 1
    ensures row[0] == 1.0 && row[1..] == f(v)
  {
    [1.0] + f(v)
  }

  /** The rows `phi(x[i])`, in input order. */
  function Rows(x: seq<real>, f: FeatureMap): (rows: seq<Vector>)
    ensures |rows| == |x|
    ensures forall i :: 0 <= i < |x| ==> rows[i] == Phi(f, x[i])
  {
    seq(|x|, i requires 0 <= i < |x| => Phi(f, x[i]))
  }

  /** Concatenation of a sequence of rows, front to back. */
  function Flatten(rows: seq<Vector>): (flat: Vector)
    ensures (forall i :: 0 <= i < |rows| ==> |rows[i]| >= 1) ==> |flat| >= |rows|
    ensures |rows| > 0 ==> |rows[0]| <= |flat| && flat[..|rows[0]|] == rows[0]
    decreases |rows|
  {
    if |rows| == 0 then [] else rows[0] + Flatten(rows[1..])
  }

  /** `x.to_vec().into_iter().flat_map(phi).collect()`. */
  function FlatMap(x: seq<real>, f: FeatureMap): (flat: Vector)
    ensures |flat| >= |x|
    ensures |x| > 0 ==> |Phi(f, x[0])| <= |flat| && flat[..|Phi(f, x[0])|] == Phi(f, x[0])
  {
    Flatten(Rows(x, f))
  }

  /** The column count `f(f64::NAN).len() + 1`; `probe` stands for the NaN
      sentinel, whose features are never read, only counted. */
  function Columns(f: FeatureMap, probe: real): (c: nat)
    ensures c >= 1
    ensures c == |Phi(f, probe)|
  {
    |f(probe)| + 1
  }

  /** The flattened rows fill an |x| by `Columns` matrix exactly: the
      condition under which `Array2::from_shape_vec` returns `Ok`. */
  predicate ShapeOk(x: seq<real>, f: FeatureMap, probe: real): (ok: bool)
    ensures UniformArity(x, f, probe) ==> ok
  {
    UniformShapeOk(x, f, probe);
    |FlatMap(x, f)| == |x| * Columns(f, probe)
  }

  /** Every feature vector has the probe's length. */
  predicate UniformArity(x: seq<real>, f: FeatureMap, probe: real) {
    forall i :: 0 <= i < |x| ==> |f(x[i])| == |f(probe)|
  }

  /** A feature map of constant arity always fills the |x| by `Columns` shape. */
  lemma UniformShapeOk(x: seq<real>, f: FeatureMap, probe: real)
    ensures UniformArity(x, f, probe) ==> |FlatMap(x, f)| == |x| * Columns(f, probe)
  {
    if UniformArity(x, f, probe) {
      FlattenLength(Rows(x, f), Columns(f, probe));
    }
  }

  lemma MulSucc(a: nat, c: nat)
    ensures (a + 1) * c == a * c + c
  {
  }

  lemma RowBounds(i: nat, n: nat, c: nat)
    requires i < n
    ensures i * c + c <= n * c
  {
    var k := n - i - 1;
    assert n * c == (i + 1 + k) * c;
    assert (i + 1 + k) * c == i * c + c + k * c;
    assert k * c >= 0;
  }

  /** `Array2::from_shape_vec((n, c), flat)` in standard layout: the first c
      elements form row 0, the next c row 1, and so on. */
  function Reshape(flat: Vector, n: nat, c: nat): (m: Matrix)
    requires |flat| == n * c
    ensures IsMatrix(m, n, c)
    decreases n
  {
    if n == 0 then []
    else
      MulSucc(n - 1, c);
      [flat[..c]] + Reshape(flat[c..], n - 1, c)
  }

  /** The design matrix Φ stored as `phi_x`. */
  function DesignMatrix(x: seq<real>, f: FeatureMap, probe: real): (phi: Matrix)
    requires ShapeOk(x, f, probe)
    ensures IsMatrix(phi, |x|, Columns(f, probe))
  {
    Reshape(FlatMap(x, f), |x|, Columns(f, probe))
  }

  // ---------------------------------------------------------------------
  // Normal equations and the solver

  /** The Gram matrix `phi_x.t().dot(&phi_x)` of a matrix with `c` columns. */
  function Gram(phi: Matrix, c: nat): (g: Matrix)
    requires IsMatrix(phi, |phi|, c)
    ensures IsMatrix(g, c, c)
  {
    MatMul(Transpose(phi, c), phi, c)
  }

  /** The right-hand side `phi_x.t().dot(&t)`. */
  function Cross(phi: Matrix, c: nat, t: Vector): (b: Vector)
    requires IsMatrix(phi, |t|, c)
    ensures |b| == c
  {
    MatVec(Transpose(phi, c), t)
  }

  /** `w` solves the square system g w = b. */
  predicate Solves(g: Matrix, b: Vector, w: Vector) {
    IsMatrix(g, |b|, |b|) && |w| == |b| && MatVec(g, w) == b
  }

  /** The normal equations ΦᵀΦ w = Φᵀ t. */
  predicate NormalEquations(phi: Matrix, c: nat, t: Vector, w: Vector)
    requires IsMatrix(phi, |t|, c)
  {
    Solves(Gram(phi, c), Cross(phi, c, t), w)
  }

  /** The square matrix g has a trivial kernel. */
  ghost predicate NonSingular(g: Matrix, n: nat) {
    IsMatrix(g, n, n) && forall v {:trigger MatVec(g, v)} :: |v| == n && MatVec(g, v) == Zeros(n) ==> v == Zeros(n)
  }

  /** The columns of phi are linearly independent. */
  ghost predicate FullColumnRank(phi: Matrix, c: nat) {
    IsMatrix(phi, |phi|, c) && forall v {:trigger MatVec(phi, v)} :: |v| == c && MatVec(phi, v) == Zeros(|phi|) ==> v == Zeros(c)
  }

  /** What `solve` of ndarray_linalg promises: on a non-singular system it
      returns the solution (on a singular one it fails, and `fit` panics). */
  ghost predicate LuSolveContract(solve: Solver) {
    forall g, b {:trigger solve(g, b)} :: NonSingular(g, |b|) ==> Solves(g, b, solve(g, b))
  }

  // ---------------------------------------------------------------------
  // fit and predict

  /** The conditions under which `fit` returns: x and t have the same
      length (`t` is multiplied by Φᵀ), the flattened rows have the shape |x|
      by `Columns` (`from_shape_vec(..).unwrap()`), and the Gram matrix is
      non-singular (`solve(..).unwrap()`). */
  ghost predicate CanFit(x: seq<real>, t: seq<real>, f: FeatureMap, probe: real) {
    && |t| == |x|
    && ShapeOk(x, f, probe)
    && NonSingular(Gram(DesignMatrix(x, f, probe), Columns(f, probe)), Columns(f, probe))
  }

  /** `LinearRegression::fit`. Every failure of the source is a panic, so
      `CanFit` is a precondition rather than an error result. */
  function Fit(x: seq<real>, t: seq<real>, f: FeatureMap, probe: real, solve: Solver): (m: LinearRegression)
    requires CanFit(x, t, f, probe)
    requires LuSolveContract(solve)
    ensures m.phiX == DesignMatrix(x, f, probe)
    ensures IsMatrix(m.phiX, |x|, Columns(f, probe))
    ensures |m.coefficients| == Columns(f, probe)
    ensures NormalEquations(m.phiX, Columns(f, probe), t, m.coefficients)
  {
    var c := Columns(f, probe);
    var phiX := DesignMatrix(x, f, probe);
    var w := solve(Gram(phiX, c), Cross(phiX, c, t));
    LinearRegression(w, phiX)
  }

  /** Every row of the design matrix has one entry per coefficient. */
  predicate WellShaped(m: LinearRegression) {
    forall i :: 0 <= i < |m.phiX| ==> |m.phiX[i]| == |m.coefficients|
  }

  /** `LinearRegression::predict`: Φ w. */
  function Predict(m: LinearRegression): (y: Vector)
    requires WellShaped(m)
    ensures |y| == |m.phiX|
    ensures forall i :: 0 <= i < |y| ==> y[i] == Dot(m.phiX[i], m.coefficients)
  {
    MatVec(m.phiX, m.coefficients)
  }

  // ---------------------------------------------------------------------
  // Layout of the design matrix

  lemma {:induction false} FlattenLength(rows: seq<Vector>, c: nat)
    requires IsMatrix(rows, |rows|, c)
    ensures |Flatten(rows)| == |rows| * c
    decreases |rows|
  {
    if |rows| > 0 {
      FlattenLength(rows[1..], c);
      assert |rows| * c == c + (|rows| - 1) * c;
    }
  }

  /** Entry (i, j) of the reshaped matrix is element i * c + j of the flat
      vector: row-major order. */
  lemma {:induction false} ReshapeRowMajor(flat: Vector, n: nat, c: nat, i: nat, j: nat)
    requires |flat| == n * c
    requires i < n && j < c
    ensures i * c + j < |flat|
    ensures Reshape(flat, n, c)[i][j] == flat[i * c + j]
    decreases n
  {
    RowBounds(i, n, c);
    MulSucc(n - 1, c);
    if i > 0 {
      ReshapeRowMajor(flat[c..], n - 1, c, i - 1, j);
      MulSucc(i - 1, c);
    }
  }

  /** Reshaping the concatenation of equal-length rows gives the rows back. */
  lemma {:induction false} ReshapeFlatten(rows: seq<Vector>, c: nat)
    requires IsMatrix(rows, |rows|, c)
    ensures |Flatten(rows)| == |rows| * c
    ensures Reshape(Flatten(rows), |rows|, c) == rows
    decreases |rows|
  {
    FlattenLength(rows, c);
    if |rows| > 0 {
      ReshapeFlatten(rows[1..], c);
      var flat := Flatten(rows);
      assert flat == rows[0] + Flatten(rows[1..]);
      assert flat[..c] == rows[0];
      assert flat[c..] == Flatten(rows[1..]);
      assert rows == [rows[0]] + rows[1..];
    }
  }

  /** Concatenating the rows of a reshaped vector gives the vector back. */
  lemma {:induction false} FlattenReshape(flat: Vector, n: nat, c: nat)
    requires |flat| == n * c
    ensures Flatten(Reshape(flat, n, c)) == flat
    decreases n
  {
    if n > 0 {
      MulSucc(n - 1, c);
      var m := Reshape(flat, n, c);
      var rest := Reshape(flat[c..], n - 1, c);
      assert m == [flat[..c]] + rest;
      assert m[0] == flat[..c] && m[1..] == rest;
      FlattenReshape(flat[c..], n - 1, c);
      assert Flatten(m) == flat[..c] + Flatten(rest);
      assert flat == flat[..c] + flat[c..];
    }
  }

  /** With a feature map of constant arity, the design matrix has exactly |x|
      rows and row i is [1.0] followed by f(x[i]). */
  lemma DesignMatrixRows(x: seq<real>, f: FeatureMap, probe: real)
    requires UniformArity(x, f, probe)
    ensures ShapeOk(x, f, probe)
    ensures DesignMatrix(x, f, probe) == Rows(x, f)
    ensures forall i :: 0 <= i < |x| ==>
      DesignMatrix(x, f, probe)[i][0] == 1.0 && DesignMatrix(x, f, probe)[i][1..] == f(x[i])
  {
    var rows := Rows(x, f);
    assert IsMatrix(rows, |x|, Columns(f, probe));
    ReshapeFlatten(rows, Columns(f, probe));
  }

  /** Entry (i, j) of Φ is element i * col + j of the flattened rows. */
  lemma DesignMatrixLayout(x: seq<real>, f: FeatureMap, probe: real, i: nat, j: nat)
    requires ShapeOk(x, f, probe)
    requires i < |x| && j < Columns(f, probe)
    ensures i * Columns(f, probe) + j < |FlatMap(x, f)|
    ensures DesignMatrix(x, f, probe)[i][j] == FlatMap(x, f)[i * Columns(f, probe) + j]
  {
    ReshapeRowMajor(FlatMap(x, f), |x|, Columns(f, probe), i, j);
  }

  // ---------------------------------------------------------------------
  // The normal equations

  /** Multiplying by the Gram matrix is multiplying by Φ and then by Φᵀ. */
  lemma GramApply(phi: Matrix, c: nat, v: Vector)
    requires IsMatrix(phi, |phi|, c) && |v| == c
    ensures MatVec(Gram(phi, c), v) == MatVec(Transpose(phi, c), MatVec(phi, v))
  {
    MatMulAssociates(Transpose(phi, c), phi, c, v);
  }

  /** w satisfies the normal equations exactly when the residual Φ w − t is
      orthogonal to every column of Φ. */
  lemma NormalEquationsIffOrthogonalResidual(phi: Matrix, c: nat, t: Vector, w: Vector)
    requires IsMatrix(phi, |t|, c) && |w| == c
    ensures NormalEquations(phi, c, t, w) <==>
      MatVec(Transpose(phi, c), Sub(MatVec(phi, w), t)) == Zeros(c)
  {
    var pt := Transpose(phi, c);
    var lhs := MatVec(Gram(phi, c), w);
    var rhs := Cross(phi, c, t);
    GramApply(phi, c, w);
    MatVecSub(pt, MatVec(phi, w), t);
    var d := MatVec(pt, Sub(MatVec(phi, w), t));
    assert d == Sub(lhs, rhs);
    if d == Zeros(c) {
      forall k | 0 <= k < c
        ensures lhs[k] == rhs[k]
      {
        assert d[k] == 0.0;
      }
      assert lhs == rhs;
    }
    if lhs == rhs {
      assert d == Zeros(c);
    }
  }

  /** If t is reproduced exactly by some v (t = Φ v), then v satisfies the
      normal equations. */
  lemma ExactTargetSolvesNormalEquations(phi: Matrix, c: nat, t: Vector, v: Vector)
    requires IsMatrix(phi, |t|, c) && |v| == c
    requires t == MatVec(phi, v)
    ensures NormalEquations(phi, c, t, v)
  {
    GramApply(phi, c, v);
  }

  /** A non-singular system has at most one solution. */
  lemma SolutionUnique(g: Matrix, b: Vector, w1: Vector, w2: Vector)
    requires NonSingular(g, |b|)
    requires Solves(g, b, w1) && Solves(g, b, w2)
    ensures w1 == w2
  {
    var d := Sub(w1, w2);
    MatVecSub(g, w1, w2);
    assert MatVec(g, d) == Zeros(|b|);
    assert d == Zeros(|b|);
    forall k | 0 <= k < |b|
      ensures w1[k] == w2[k]
    {
      assert d[k] == 0.0;
    }
  }

  /** The Gram matrix ΦᵀΦ is non-singular exactly when the columns of Φ are
      linearly independent. */
  lemma GramNonSingularIffFullColumnRank(phi: Matrix, c: nat)
    requires IsMatrix(phi, |phi|, c)
    ensures NonSingular(Gram(phi, c), c) <==> FullColumnRank(phi, c)
  {
    var n := |phi|;
    var g := Gram(phi, c);
    var pt := Transpose(phi, c);
    if NonSingular(g, c) {
      forall v | |v| == c && MatVec(phi, v) == Zeros(n)
        ensures v == Zeros(c)
      {
        GramApply(phi, c, v);
        MatVecZeros(pt, n);
      }
    }
    if FullColumnRank(phi, c) {
      forall v | |v| == c && MatVec(g, v) == Zeros(c)
        ensures v == Zeros(c)
      {
        var q := MatVec(phi, v);
        GramApply(phi, c, v);
        TransposeAdjoint(phi, c, v, q);
        DotZerosRight(v);
        SqNormNonNegative(q);
      }
    }
  }

  /** Any solution of the normal equations minimises the squared error
      ‖Φ v − t‖² over all coefficient vectors v. */
  lemma NormalEquationsMinimiseError(phi: Matrix, c: nat, t: Vector, w: Vector, v: Vector)
    requires IsMatrix(phi, |t|, c) && |v| == c
    requires NormalEquations(phi, c, t, w)
    ensures SqNorm(Sub(MatVec(phi, v), t)) >= SqNorm(Sub(MatVec(phi, w), t))
  {
    var pt := Transpose(phi, c);
    var p := MatVec(phi, w);
    var e := Sub(p, t);
    var d := Sub(v, w);
    var q := MatVec(phi, d);
    MatVecSub(phi, v, w);
    assert Sub(MatVec(phi, v), t) == Add(q, e);
    SqNormAdd(q, e);
    TransposeAdjoint(phi, c, d, e);
    NormalEquationsIffOrthogonalResidual(phi, c, t, w);
    DotZerosRight(d);
    SqNormNonNegative(q);
  }

  // ---------------------------------------------------------------------
  // Properties of fitted models

  /** A fitted model can always be asked to predict, and `predict` returns
      one value per input. */
  lemma FitPredictShape(x: seq<real>, t: seq<real>, f: FeatureMap, probe: real, solve: Solver)
    requires CanFit(x, t, f, probe)
    requires LuSolveContract(solve)
    ensures WellShaped(Fit(x, t, f, probe, solve))
    ensures |Predict(Fit(x, t, f, probe, solve))| == |x|
  {
  }

  /** The fitted coefficients do not depend on which correct solver is used. */
  lemma FitSolverIndependent(x: seq<real>, t: seq<real>, f: FeatureMap, probe: real, s1: Solver, s2: Solver)
    requires CanFit(x, t, f, probe)
    requires LuSolveContract(s1) && LuSolveContract(s2)
    ensures Fit(x, t, f, probe, s1) == Fit(x, t, f, probe, s2)
  {
    var c := Columns(f, probe);
    var phi := DesignMatrix(x, f, probe);
    SolutionUnique(Gram(phi, c), Cross(phi, c, t),
      Fit(x, t, f, probe, s1).coefficients, Fit(x, t, f, probe, s2).coefficients);
  }

  /** The predictions of a fitted model are the least-squares approximation
      of t: no coefficient vector gives a smaller squared error, and the
      residual is orthogonal to the columns of Φ. */
  lemma PredictIsLeastSquares(x: seq<real>, t: seq<real>, f: FeatureMap, probe: real, solve: Solver, v: Vector)
    requires CanFit(x, t, f, probe)
    requires LuSolveContract(solve)
    requires |v| == Columns(f, probe)
    ensures SqNorm(Sub(MatVec(DesignMatrix(x, f, probe), v), t)) >= SqNorm(Sub(Predict(Fit(x, t, f, probe, solve)), t))
    ensures MatVec(Transpose(DesignMatrix(x, f, probe), Columns(f, probe)), Sub(Predict(Fit(x, t, f, probe, solve)), t))
      == Zeros(Columns(f, probe))
  {
    var m := Fit(x, t, f, probe, solve);
    NormalEquationsMinimiseError(m.phiX, Columns(f, probe), t, m.coefficients, v);
    NormalEquationsIffOrthogonalResidual(m.phiX, Columns(f, probe), t, m.coefficients);
  }

  /** With a feature map of constant arity, `fit` returns exactly when the
      basis columns are linearly independent on the samples; otherwise the
      solve fails and `fit` panics. */
  lemma CanFitIffFullColumnRank(x: seq<real>, t: seq<real>, f: FeatureMap, probe: real)
    requires |t| == |x|
    requires UniformArity(x, f, probe)
    ensures CanFit(x, t, f, probe) <==> FullColumnRank(Rows(x, f), Columns(f, probe))
  {
    DesignMatrixRows(x, f, probe);
    GramNonSingularIffFullColumnRank(DesignMatrix(x, f, probe), Columns(f, probe));
  }

  /** With no samples the Gram matrix is zero, so the solve fails and `fit`
      panics, whatever the feature map. */
  lemma EmptyInputCannotFit(t: seq<real>, f: FeatureMap, probe: real)
    ensures !CanFit([], t, f, probe)
  {
    var c := Columns(f, probe);
    assert ShapeOk([], f, probe);
    var phi := DesignMatrix([], f, probe);
    var g := Gram(phi, c);
    var v := seq(c, k => 1.0);
    forall i | 0 <= i < c
      ensures MatVec(g, v)[i] == 0.0
    {
      assert forall k :: 0 <= k < c ==> g[i][k] == Dot(Transpose(phi, c)[i], Column(phi, k));
      assert g[i] == Zeros(c);
      DotCommutes(g[i], v);
      DotZerosRight(v);
    }
    assert MatVec(g, v) == Zeros(c);
    assert v[0] != Zeros(c)[0];
  }

  /** When the target lies in the span of the basis (t = Φ v) and the basis
      columns are independent on the samples, `fit` succeeds, recovers v and
      `predict` reproduces t exactly. */
  lemma FitRecoversExactTarget(x: seq<real>, t: seq<real>, f: FeatureMap, probe: real, solve: Solver, v: Vector)
    requires |t| == |x|
    requires UniformArity(x, f, probe)
    requires LuSolveContract(solve)
    requires FullColumnRank(Rows(x, f), Columns(f, probe))
    requires |v| == Columns(f, probe) && t == MatVec(Rows(x, f), v)
    ensures CanFit(x, t, f, probe)
    ensures Fit(x, t, f, probe, solve).coefficients == v
    ensures Predict(Fit(x, t, f, probe, solve)) == t
  {
    var c := Columns(f, probe);
    DesignMatrixRows(x, f, probe);
    var phi := DesignMatrix(x, f, probe);
    GramNonSingularIffFullColumnRank(phi, c);
    var m := Fit(x, t, f, probe, solve);
    ExactTargetSolvesNormalEquations(phi, c, t, v);
    SolutionUnique(Gram(phi, c), Cross(phi, c, t), m.coefficients, v);
  }
}
