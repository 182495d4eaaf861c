/** The unit tests of src/algorithm/linear_regression.rs, restated as lemmas
    over exact reals: for each sample set and feature map, `fit` succeeds on
    every correct solver, finds the expected coefficients exactly and
    `predict` reproduces the targets. The source compares with a 1e-6
    tolerance; with exact arithmetic the comparison is equality. */
module RegressionTests {
  import opened LinAlg
  import opened Regression

  /** The feature map `|v| vec![v]` of the identity test. */
  function Identity(v: real): (r: seq<real>)
    ensures |r| == 1 && r[0] == v
  {
    [v]
  }

  /** The feature map `|v| vec![v, v.powf(2.0)]` of the quadratic test. */
  function Quadratic(v: real): (r: seq<real>)
    ensures |r| == 2 && r[0] == v && r[1] == v * v
  {
    [v, v * v]
  }

  /** A feature map whose arity depends on its input. */
  function Ragged(v: real): seq<real> {
    if v == 0.0 then [7.0] else if v == 1.0 then [1.0, 2.0, 3.0] else [v, v]
  }

  lemma Dot2(a: Vector, b: Vector)
    requires |a| == 2 && |b| == 2
    ensures Dot(a, b) == a[0] * b[0] + a[1] * b[1]
  {
    var p := Products(a, b);
    assert p[..1][..0] == [];
    assert Sum(p[..1]) == p[0];
  }

  lemma Dot3(a: Vector, b: Vector)
    requires |a| == 3 && |b| == 3
    ensures Dot(a, b) == a[0] * b[0] + a[1] * b[1] + a[2] * b[2]
  {
    var p := Products(a, b);
    assert p[..2][..1][..0] == [];
    assert p[..2][..1] == p[..1];
    assert Sum(p[..1]) == p[0];
    assert Sum(p[..2]) == p[0] + p[1];
  }

  /** The identity basis is linearly independent on the samples 1, 2. */
  lemma IdentityFullRank()
    ensures FullColumnRank(Rows([1.0, 2.0], Identity), 2)
  {
    var rows := Rows([1.0, 2.0], Identity);
    forall v | |v| == 2 && MatVec(rows, v) == Zeros(2)
      ensures v == Zeros(2)
    {
      assert rows[0] == [1.0, 1.0];
      assert rows[1] == [1.0, 2.0];
      Dot2(rows[0], v);
      Dot2(rows[1], v);
      assert v[0] + v[1] == 0.0;
      assert v[0] + 2.0 * v[1] == 0.0;
      assert v == Zeros(2);
    }
  }

  /** The targets [1, 2] are exactly Φ [0, 1]. */
  lemma IdentityExact()
    ensures MatVec(Rows([1.0, 2.0], Identity), [0.0, 1.0]) == [1.0, 2.0]
  {
    var rows := Rows([1.0, 2.0], Identity);
    assert rows[0] == [1.0, 1.0];
    assert rows[1] == [1.0, 2.0];
    Dot2(rows[0], [0.0, 1.0]);
    Dot2(rows[1], [0.0, 1.0]);
  }

  /** `fit` on x = t = [1, 2] with the identity basis gives w = [0, 1]. */
  lemma IdentityCase(probe: real, solve: Solver)
    requires LuSolveContract(solve)
    ensures CanFit([1.0, 2.0], [1.0, 2.0], Identity, probe)
    ensures Fit([1.0, 2.0], [1.0, 2.0], Identity, probe, solve).coefficients == [0.0, 1.0]
    ensures Predict(Fit([1.0, 2.0], [1.0, 2.0], Identity, probe, solve)) == [1.0, 2.0]
  {
    IdentityFullRank();
    IdentityExact();
    FitRecoversExactTarget([1.0, 2.0], [1.0, 2.0], Identity, probe, solve, [0.0, 1.0]);
  }

  /** The eleven points 0, 1, …, 10 of the linear test. */
  function LinearSamples(): (x: seq<real>)
    ensures |x| == 11 && forall i :: 0 <= i < 11 ==> x[i] == i as real
  {
    seq(11, i => i as real)
  }

  /** The linear test's targets 2x + 3. */
  function LinearTargets(): (t: seq<real>)
    ensures |t| == 11
    ensures forall i :: 0 <= i < 11 ==> t[i] == 2.0 * LinearSamples()[i] + 3.0
  {
    seq(11, i requires 0 <= i < 11 => 2.0 * LinearSamples()[i] + 3.0)
  }

  /** The identity basis is linearly independent on the samples 0..10
      (witnessed by the rows for 0 and 1). */
  lemma LinearFullRank()
    ensures FullColumnRank(Rows(LinearSamples(), Identity), 2)
  {
    var rows := Rows(LinearSamples(), Identity);
    forall v | |v| == 2 && MatVec(rows, v) == Zeros(11)
      ensures v == Zeros(2)
    {
      assert rows[0] == [1.0, 0.0];
      assert rows[1] == [1.0, 1.0];
      Dot2(rows[0], v);
      Dot2(rows[1], v);
      assert v[0] == 0.0;
      assert v[0] + v[1] == 0.0;
      assert v == Zeros(2);
    }
  }

  /** The targets are exactly Φ [3, 2]. */
  lemma LinearExact()
    ensures MatVec(Rows(LinearSamples(), Identity), [3.0, 2.0]) == LinearTargets()
  {
    var x := LinearSamples();
    var rows := Rows(x, Identity);
    forall i | 0 <= i < 11
      ensures MatVec(rows, [3.0, 2.0])[i] == LinearTargets()[i]
    {
      assert rows[i] == [1.0, x[i]];
      Dot2(rows[i], [3.0, 2.0]);
    }
  }

  /** `fit` on t = 2x + 3 with the identity basis gives w = [3, 2]. */
  lemma LinearCase(probe: real, solve: Solver)
    requires LuSolveContract(solve)
    ensures CanFit(LinearSamples(), LinearTargets(), Identity, probe)
    ensures Fit(LinearSamples(), LinearTargets(), Identity, probe, solve).coefficients == [3.0, 2.0]
    ensures Predict(Fit(LinearSamples(), LinearTargets(), Identity, probe, solve)) == LinearTargets()
  {
    LinearFullRank();
    LinearExact();
    FitRecoversExactTarget(LinearSamples(), LinearTargets(), Identity, probe, solve, [3.0, 2.0]);
  }

  /** The 201 points −100, −99, …, 100 of the quadratic test. */
  function QuadSamples(): (x: seq<real>)
    ensures |x| == 201 && forall i :: 0 <= i < 201 ==> x[i] == (i - 100) as real
  {
    seq(201, i => (i - 100) as real)
  }

  /** The quadratic test's targets 3x² − 2x + 10. */
  function QuadTargets(): (t: seq<real>)
    ensures |t| == 201
    ensures forall i :: 0 <= i < 201 ==>
      t[i] == 3.0 * (QuadSamples()[i] * QuadSamples()[i]) - 2.0 * QuadSamples()[i] + 10.0
  {
    seq(201, i requires 0 <= i < 201 => 3.0 * (QuadSamples()[i] * QuadSamples()[i]) - 2.0 * QuadSamples()[i] + 10.0)
  }

  /** The quadratic basis is linearly independent on the samples −100..100
      (witnessed by the rows for −1, 0 and 1). */
  lemma QuadFullRank()
    ensures FullColumnRank(Rows(QuadSamples(), Quadratic), 3)
  {
    var rows := Rows(QuadSamples(), Quadratic);
    forall v | |v| == 3 && MatVec(rows, v) == Zeros(201)
      ensures v == Zeros(3)
    {
      assert rows[99] == [1.0, -1.0, 1.0];
      assert rows[100] == [1.0, 0.0, 0.0];
      assert rows[101] == [1.0, 1.0, 1.0];
      Dot3(rows[99], v);
      Dot3(rows[100], v);
      Dot3(rows[101], v);
      assert v[0] == 0.0;
      assert v[0] + v[1] + v[2] == 0.0;
      assert v[0] - v[1] + v[2] == 0.0;
    }
  }

  /** The targets are exactly Φ [10, −2, 3]. */
  lemma QuadExact()
    ensures MatVec(Rows(QuadSamples(), Quadratic), [10.0, -2.0, 3.0]) == QuadTargets()
  {
    var x := QuadSamples();
    var rows := Rows(x, Quadratic);
    var w := [10.0, -2.0, 3.0];
    forall i | 0 <= i < 201
      ensures MatVec(rows, w)[i] == QuadTargets()[i]
    {
      assert rows[i] == [1.0, x[i], x[i] * x[i]];
      Dot3(rows[i], w);
    }
  }

  /** `fit` on t = 3x² − 2x + 10 with the basis [x, x²] gives w = [10, −2, 3]. */
  lemma QuadOlsCase(probe: real, solve: Solver)
    requires LuSolveContract(solve)
    ensures CanFit(QuadSamples(), QuadTargets(), Quadratic, probe)
    ensures Fit(QuadSamples(), QuadTargets(), Quadratic, probe, solve).coefficients == [10.0, -2.0, 3.0]
    ensures Predict(Fit(QuadSamples(), QuadTargets(), Quadratic, probe, solve)) == QuadTargets()
  {
    QuadFullRank();
    QuadExact();
    FitRecoversExactTarget(QuadSamples(), QuadTargets(), Quadratic, probe, solve, [10.0, -2.0, 3.0]);
  }

  /** A single sample cannot determine an intercept and a slope: the
      coefficient vector [1, −1] lies in the kernel of Φ = [[1, 1]], so the
      solve fails and `fit` panics. */
  lemma SingleSampleCannotFit(probe: real)
    ensures !CanFit([1.0], [1.0], Identity, probe)
  {
    var rows := Rows([1.0], Identity);
    var v := [1.0, -1.0];
    assert rows[0] == [1.0, 1.0];
    Dot2(rows[0], v);
    assert MatVec(rows, v) == Zeros(1);
    assert v != Zeros(2);
    CanFitIffFullColumnRank([1.0], [1.0], Identity, probe);
  }

  /** A feature map whose arity varies is not rejected when the total length
      happens to match: with f(0) = [7], f(1) = [1, 2, 3] and a probe of arity
      2, the flattened rows [1, 7, 1, 1, 2, 3] are cut into rows of three, so
      the second row no longer starts with the constant 1 of phi(1) and the
      design matrix is not the stacked rows phi(x[i]). */
  lemma RaggedArityMisalignsRows()
    ensures ShapeOk([0.0, 1.0], Ragged, 5.0)
    ensures DesignMatrix([0.0, 1.0], Ragged, 5.0) == [[1.0, 7.0, 1.0], [1.0, 2.0, 3.0]]
    ensures DesignMatrix([0.0, 1.0], Ragged, 5.0) != Rows([0.0, 1.0], Ragged)
  {
    var x := [0.0, 1.0];
    assert Ragged(0.0) == [7.0];
    assert Ragged(1.0) == [1.0, 2.0, 3.0];
    var rows := Rows(x, Ragged);
    assert rows[0] == [1.0, 7.0];
    assert rows[1] == [1.0, 1.0, 2.0, 3.0];
    assert Flatten(rows[1..][1..]) == [];
    assert Flatten(rows[1..]) == rows[1];
    var flat := [1.0, 7.0, 1.0, 1.0, 2.0, 3.0];
    assert FlatMap(x, Ragged) == rows[0] + rows[1] == flat;
    assert Columns(Ragged, 5.0) == 3;
    var m := Reshape(flat, 2, 3);
    assert flat[..3] == [1.0, 7.0, 1.0];
    assert flat[3..][..3] == [1.0, 2.0, 3.0];
    assert Reshape(flat[3..][3..], 0, 3) == [];
    assert Reshape(flat[3..], 1, 3) == [[1.0, 2.0, 3.0]];
    assert m == [[1.0, 7.0, 1.0], [1.0, 2.0, 3.0]];
    assert m[0] != rows[0];
  }
}
