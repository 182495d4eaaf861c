# Basis-expansion least-squares regression, modelled in Dafny

This project models `LinearRegression`, the regression type in
`src/algorithm/linear_regression.rs`. The model uses exact real arithmetic.

- `fit(x, t, f)` builds the design matrix Φ. When every `f(x[i])` has the
  same length as `f(NaN)`, row i of Φ is `phi(x[i])`: the constant 1.0
  followed by the features `f(x[i])`. A feature map of varying arity can give
  misaligned rows instead (see below).
- The column count is found by calling `f` once on NaN and adding one for the
  intercept.
- The rows are flattened and reshaped, in row-major order, into an |x| by
  `col` matrix.
- The coefficients come from solving the normal equations ΦᵀΦ w = Φᵀ t with
  an LU solver.
- `predict()` returns Φ w.

Modules:

- `LinAlg` (`linalg.dfy`) holds vectors as `seq<real>` and matrices as
  `seq<seq<real>>`. It defines sums, dot products, matrix-vector and
  matrix-matrix products, and transposition. It proves the algebra the
  regression needs: the adjoint identity ⟨M u, r⟩ = ⟨u, Mᵀ r⟩, associativity of
  (A B) v, and non-negativity of squared norms.
- `Regression` (`regression.dfy`) models `phi`, the column probe, the
  flattening and reshape, `fit` and `predict`. It proves that:
  - `fit` solves the normal equations;
  - the fitted model is the least-squares optimum;
  - when x and t have equal lengths and the feature map has constant arity,
    `fit` returns exactly when the basis columns are independent on the
    samples;
  - when the basis columns are independent and the target lies in their
    span, `fit` returns and recovers that target exactly;
  - `fit` panics on an empty input.
- `RegressionTests` (`regression_tests.dfy`) restates the three unit tests of
  the source as lemmas: `identity`, `linear` and `quad_ols`. It adds a case
  where the solve fails, and a case where a feature map with varying arity
  gives a misaligned design matrix.

Modelling choices:

- The NaN passed to `f` to count columns becomes a parameter `probe`. Only
  the length of `f(probe)` is used.
- The LU solver of ndarray_linalg becomes a parameter `solve`. The predicate
  `LuSolveContract` says what it is assumed to do: on a non-singular system,
  it returns the solution.
- The source's `fit` returns a `Result`, but it never returns `Err`. Each
  failure is a panic:
  - `from_shape_vec(..).unwrap()`, when the flattened rows do not fill an
    |x| by `col` matrix;
  - `solve(..).unwrap()`, when the Gram matrix is singular;
  - the shape check inside `dot`, when x and t differ in length.
- `Fit` therefore takes these conditions as its precondition `CanFit` and
  returns the model directly. Typed error results would be a different
  design; the code panics, and the model follows
  the code.
- A feature map of varying arity is not rejected as such. The code rejects it
  only when the total length of the flattened rows is wrong. Otherwise it
  silently cuts them into misaligned rows, and `RaggedArityMisalignsRows` shows one such input. The
  model follows the code.

## Model

| member | source | states |
|---|---|---|
| LinAlg.MatVec | src/algorithm/linear_regression.rs:37 | the product `dot` of a matrix and a vector has one entry per row, and each entry is that row's dot product with the vector |
| LinAlg.Transpose | src/algorithm/linear_regression.rs:28 | `t()` of an n×c matrix is c×n, with entry (j, i) equal to entry (i, j) of the original |
| LinAlg.MatMul | src/algorithm/linear_regression.rs:28 | the matrix product `dot` has entry (i, k) equal to row i of the left factor dotted with column k of the right |
| Regression.Phi | src/algorithm/linear_regression.rs:15-19 | the `phi` row for v has length `f(v).len() + 1`, starts with the intercept 1.0, and continues with exactly f(v) |
| Regression.Flatten | src/algorithm/linear_regression.rs:24 | concatenating rows keeps the first row as the prefix, and rows of at least one entry each give at least one element per row |
| Regression.FlatMap | src/algorithm/linear_regression.rs:24 | `flat_map(phi)` over x yields at least one element per input and begins with `phi(x[0])` |
| Regression.Columns | src/algorithm/linear_regression.rs:21 | the column count is at least one (the intercept) and equals the length of the `phi` row for the NaN probe |
| Regression.ShapeOk | src/algorithm/linear_regression.rs:22-26 | the `from_shape_vec` Ok condition always holds for a feature map of constant arity |
| Regression.UniformShapeOk | src/algorithm/linear_regression.rs:21-26 | a feature map of constant arity flattens to exactly n·col elements for n inputs |
| Regression.Rows | src/algorithm/linear_regression.rs:15-19 | the rows produced by mapping `phi` over x keep the input order, one per input |
| Regression.Reshape | src/algorithm/linear_regression.rs:22-26 | `from_shape_vec((n, c), ..)` on a vector of n·c elements yields n rows of exactly c entries |
| Regression.ReshapeRowMajor | src/algorithm/linear_regression.rs:22-24 | the reshape is row-major: entry (i, j) is element i·c + j of the flat vector, and that index is in range |
| Regression.FlattenLength | src/algorithm/linear_regression.rs:24 | flattening n rows of length c gives n·c elements, so `from_shape_vec` accepts them |
| Regression.ReshapeFlatten | src/algorithm/linear_regression.rs:22-24 | reshaping the flattened rows gives back the rows themselves |
| Regression.FlattenReshape | src/algorithm/linear_regression.rs:22-24 | flattening the reshaped matrix gives back the flat vector |
| Regression.DesignMatrix | src/algorithm/linear_regression.rs:21-26 | Φ has one row per input and `f(NaN).len() + 1` columns |
| Regression.DesignMatrixRows | src/algorithm/linear_regression.rs:15-26 | with a feature map of constant arity the shape check passes, and row i of Φ is 1.0 followed by f(x[i]) |
| Regression.DesignMatrixLayout | src/algorithm/linear_regression.rs:21-26 | whenever the shape check passes, Φ(i, j) is element i·col + j of the flat-mapped rows, ragged or not |
| Regression.Gram | src/algorithm/linear_regression.rs:28 | ΦᵀΦ for Φ with c columns is a square c×c matrix |
| Regression.Cross | src/algorithm/linear_regression.rs:28 | Φᵀt has one entry per column of Φ |
| Regression.Fit | src/algorithm/linear_regression.rs:10-34 | when `fit` does not panic (the precondition `CanFit`: equal lengths of x and t, the `from_shape_vec` condition `ShapeOk`, and a non-singular Gram matrix) and `solve` meets `LuSolveContract` (on a non-singular system it returns the solution), the model stores Φ, has one coefficient per column, and the coefficients solve the normal equations ΦᵀΦ w = Φᵀt |
| Regression.Predict | src/algorithm/linear_regression.rs:36-38 | `predict` gives one value per stored row, equal to that row dotted with the coefficients |
| Regression.GramApply | src/algorithm/linear_regression.rs:28 | multiplying by ΦᵀΦ is the same as multiplying by Φ and then by Φᵀ |
| Regression.NormalEquationsIffOrthogonalResidual | src/algorithm/linear_regression.rs:28 | w solves the normal equations if and only if the residual Φw − t is orthogonal to every column of Φ |
| Regression.ExactTargetSolvesNormalEquations | src/algorithm/linear_regression.rs:28 | a coefficient vector that reproduces t exactly solves the normal equations |
| Regression.SolutionUnique | src/algorithm/linear_regression.rs:28 | a non-singular system has at most one solution |
| Regression.GramNonSingularIffFullColumnRank | src/algorithm/linear_regression.rs:28 | ΦᵀΦ is non-singular if and only if the columns of Φ are linearly independent |
| Regression.NormalEquationsMinimiseError | src/algorithm/linear_regression.rs:28 | any solution of the normal equations has squared error ‖Φw − t‖² no larger than that of any other coefficient vector |
| Regression.FitPredictShape | src/algorithm/linear_regression.rs:30-38 | a fitted model always meets `predict`'s shape requirement, and `predict` returns one value per input |
| Regression.FitSolverIndependent | src/algorithm/linear_regression.rs:28-33 | any two solvers meeting the LU contract give the same fitted model |
| Regression.PredictIsLeastSquares | src/algorithm/linear_regression.rs:28-38 | the predictions of a fitted model have the least squared error to t over all coefficient vectors, and their residual is orthogonal to the columns of Φ |
| Regression.CanFitIffFullColumnRank | src/algorithm/linear_regression.rs:21-28 | with equal lengths and constant arity, `fit` returns if and only if the basis columns are independent on the samples |
| Regression.EmptyInputCannotFit | src/algorithm/linear_regression.rs:28 | with no samples ΦᵀΦ is the zero matrix, so the solve's `unwrap` panics for every feature map |
| Regression.FitRecoversExactTarget | src/algorithm/linear_regression.rs:10-38 | if t = Φv with independent columns, `fit` returns, its coefficients are exactly v, and `predict` reproduces t |
| RegressionTests.Identity | src/algorithm/linear_regression.rs:52 | the identity closure (`vec![v]`) returns the single feature v |
| RegressionTests.Quadratic | src/algorithm/linear_regression.rs:75 | the quadratic closure (`vec![v, v.powf(2.0)]`) returns v and v², with the power written as v·v |
| RegressionTests.IdentityFullRank | src/algorithm/linear_regression.rs:50-52 | the basis {1, x} is independent on the samples 1, 2 |
| RegressionTests.IdentityExact | src/algorithm/linear_regression.rs:50-51 | the targets [1, 2] equal Φ[0, 1] |
| RegressionTests.IdentityCase | src/algorithm/linear_regression.rs:47-56 | test `identity`: `fit` returns, finds w = [0, 1], and `predict` equals t exactly |
| RegressionTests.LinearSamples | src/algorithm/linear_regression.rs:61 | the samples are 0, 1, …, 10 |
| RegressionTests.LinearTargets | src/algorithm/linear_regression.rs:62 | the targets are 2x + 3 at each of the 11 samples |
| RegressionTests.LinearFullRank | src/algorithm/linear_regression.rs:61-63 | the basis {1, x} is independent on the samples 0..10 |
| RegressionTests.LinearExact | src/algorithm/linear_regression.rs:61-62 | the targets 2x + 3 equal Φ[3, 2] |
| RegressionTests.LinearCase | src/algorithm/linear_regression.rs:58-67 | test `linear`: `fit` returns, finds w = [3, 2], and `predict` equals t exactly |
| RegressionTests.QuadSamples | src/algorithm/linear_regression.rs:72 | the samples are −100, −99, …, 100 |
| RegressionTests.QuadTargets | src/algorithm/linear_regression.rs:73 | the targets are 3x² − 2x + 10 at each of the 201 samples, with x² written as x·x |
| RegressionTests.QuadFullRank | src/algorithm/linear_regression.rs:72-75 | the basis {1, x, x²} is independent on the samples −100..100 |
| RegressionTests.QuadExact | src/algorithm/linear_regression.rs:72-75 | the targets 3x² − 2x + 10 equal Φ[10, −2, 3] |
| RegressionTests.QuadOlsCase | src/algorithm/linear_regression.rs:69-79 | test `quad_ols`: `fit` returns, finds w = [10, −2, 3], and `predict` equals t exactly |
| RegressionTests.SingleSampleCannotFit | src/algorithm/linear_regression.rs:28 | with one sample and the basis {1, x}, ΦᵀΦ is singular, so the solve's `unwrap` panics |
| RegressionTests.RaggedArityMisalignsRows | src/algorithm/linear_regression.rs:21-26 | a feature map whose output length varies passes the shape check when the total length matches, and gives a design matrix whose rows are not phi(x[i]) |

## Left out

- f64 arithmetic: rounding, NaN and infinities are not modelled. The model
  uses exact reals, and the tests' comparison within 1e-6 becomes equality.
- `assert_vec_eq_approx`, the tests' 1e-6 helper, is not modelled, because
  with exact arithmetic its comparison is equality.
- The NaN passed to `f` is not modelled. It becomes an arbitrary `probe`,
  because only the length of `f(NaN)` is used.
- `v.powf(2.0)` is modelled as `v * v`. The two agree for the finite samples
  of the tests, and the model has no floating point.
- The LU factorisation inside ndarray_linalg's `solve` is not modelled. The
  solver is a parameter, constrained by `LuSolveContract`.
- Fit: requires an exactly non-singular Gram matrix. A floating-point LU may
  fail on a matrix that is non-singular but ill-conditioned, or succeed on one
  that is singular but perturbed by rounding. That behaviour is not modelled.
- Fit: returns the model directly instead of `Result`, because the source
  never returns `Err`. Each of its failures is a panic, and these become the
  precondition `CanFit`.
- `Box<dyn Fn>` ownership and the lifetime parameter are not modelled. The
  feature map is a plain Dafny function value.
- The demo binary `src/bin/linear_regression.rs` is not part of this model.
  It contains plotting, the Gaussian radial basis feature map `gaussian`
  fitted to `sin x`, and the `plotting_ends` helper.
- `ArrayView1` versus `Array1` is not modelled. Every vector is a `seq<real>`.
