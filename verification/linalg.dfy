/** Dense real linear algebra: the part of ndarray's `dot` and `t()` that the
    regression uses, stated over exact reals. Matrices are sequences of rows;
    where a matrix may have no rows, its column count is passed explicitly. */
module LinAlg {

  type Vector = seq<real>
  type Matrix = seq<seq<real>>

  /** `m` has `rows` rows, each of length `cols`. */
  predicate IsMatrix(m: Matrix, rows: nat, cols: nat) {
    |m| == rows && forall i :: 0 <= i < |m| ==> |m[i]| == cols
  }

  /** Sum of the entries, accumulated from the front. */
  function Sum(s: Vector): real
    decreases |s|
  {
    if |s| == 0 then 0.0 else Sum(s[..|s| - 1]) + s[|s| - 1]
  }

  function Zeros(n: nat): (z: Vector)
    ensures |z| == n
    ensures forall i :: 0 <= i < n ==> z[i] == 0.0
  {
    seq(n, _ => 0.0)
  }

  function Add(u: Vector, v: Vector): (r: Vector)
    requires |u| == |v|
    ensures |r| == |u|
    ensures forall i :: 0 <= i < |u| ==> r[i] == u[i] + v[i]
  {
    seq(|u|, i requires 0 <= i < |u| => u[i] + v[i])
  }

  function Sub(u: Vector, v: Vector): (r: Vector)
    requires |u| == |v|
    ensures |r| == |u|
    ensures forall i :: 0 <= i < |u| ==> r[i] == u[i] - v[i]
  {
    seq(|u|, i requires 0 <= i < |u| => u[i] - v[i])
  }

  function Scale(c: real, v: Vector): (r: Vector)
    ensures |r| == |v|
    ensures forall i :: 0 <= i < |v| ==> r[i] == c * v[i]
  {
    seq(|v|, i requires 0 <= i < |v| => c * v[i])
  }

  /** Entrywise products of two vectors of equal length. */
  function Products(a: Vector, b: Vector): (r: Vector)
    requires |a| == |b|
    ensures |r| == |a|
    ensures forall i :: 0 <= i < |a| ==> r[i] == a[i] * b[i]
  {
    seq(|a|, i requires 0 <= i < |a| => a[i] * b[i])
  }

  function Dot(a: Vector, b: Vector): real
    requires |a| == |b|
  {
    Sum(Products(a, b))
  }

  /** Squared Euclidean norm. */
  function SqNorm(v: Vector): real {
    Dot(v, v)
  }

  /** The matrix-vector product `m.dot(v)`. */
  function MatVec(m: Matrix, v: Vector): (r: Vector)
    requires forall i :: 0 <= i < |m| ==> |m[i]| == |v|
    ensures |r| == |m|
    ensures forall i :: 0 <= i < |m| ==> r[i] == Dot(m[i], v)
  {
    seq(|m|, i requires 0 <= i < |m| => Dot(m[i], v))
  }

  function Column(m: Matrix, j: nat): (r: Vector)
    requires forall i :: 0 <= i < |m| ==> j < |m[i]|
    ensures |r| == |m|
    ensures forall i :: 0 <= i < |m| ==> r[i] == m[i][j]
  {
    seq(|m|, i requires 0 <= i < |m| => m[i][j])
  }

  /** The transposed view `m.t()` of a matrix with `cols` columns. */
  function Transpose(m: Matrix, cols: nat): (r: Matrix)
    requires IsMatrix(m, |m|, cols)
    ensures IsMatrix(r, cols, |m|)
    ensures forall j, i :: 0 <= j < cols && 0 <= i < |m| ==> r[j][i] == m[i][j]
  {
    seq(cols, j requires 0 <= j < cols => Column(m, j))
  }

  /** The matrix product `a.dot(b)` where `b` has `q` columns. */
  function MatMul(a: Matrix, b: Matrix, q: nat): (r: Matrix)
    requires IsMatrix(a, |a|, |b|) && IsMatrix(b, |b|, q)
    ensures IsMatrix(r, |a|, q)
    ensures forall i, k :: 0 <= i < |a| && 0 <= k < q ==> r[i][k] == Dot(a[i], Column(b, k))
  {
    seq(|a|, i requires 0 <= i < |a| => seq(q, k requires 0 <= k < q => Dot(a[i], Column(b, k))))
  }

  // ---------------------------------------------------------------------
  // Sums

  lemma {:induction false} SumAdd(u: Vector, v: Vector)
    requires |u| == |v|
    ensures Sum(Add(u, v)) == Sum(u) + Sum(v)
    decreases |u|
  {
    if |u| > 0 {
      var n := |u| - 1;
      assert Add(u, v)[..n] == Add(u[..n], v[..n]);
      SumAdd(u[..n], v[..n]);
    }
  }

  lemma {:induction false} SumSub(u: Vector, v: Vector)
    requires |u| == |v|
    ensures Sum(Sub(u, v)) == Sum(u) - Sum(v)
    decreases |u|
  {
    if |u| > 0 {
      var n := |u| - 1;
      assert Sub(u, v)[..n] == Sub(u[..n], v[..n]);
      SumSub(u[..n], v[..n]);
    }
  }

  lemma {:induction false} SumScale(c: real, v: Vector)
    ensures Sum(Scale(c, v)) == c * Sum(v)
    decreases |v|
  {
    if |v| > 0 {
      var n := |v| - 1;
      forall i | 0 <= i < n
        ensures Scale(c, v)[..n][i] == Scale(c, v[..n])[i]
      {
        assert v[..n][i] == v[i];
      }
      assert Scale(c, v)[..n] == Scale(c, v[..n]);
      SumScale(c, v[..n]);
      assert c * Sum(v[..n]) + c * v[n] == c * (Sum(v[..n]) + v[n]);
    }
  }

  lemma {:induction false} SumZeros(n: nat)
    ensures Sum(Zeros(n)) == 0.0
  {
    if n > 0 {
      assert Zeros(n)[..n - 1] == Zeros(n - 1);
      SumZeros(n - 1);
    }
  }

  /** A sum of non-negative entries is non-negative and bounds each entry. */
  lemma {:induction false} SumNonNegative(s: Vector)
    requires forall i :: 0 <= i < |s| ==> s[i] >= 0.0
    ensures Sum(s) >= 0.0
    ensures forall k :: 0 <= k < |s| ==> Sum(s) >= s[k]
    decreases |s|
  {
    if |s| > 0 {
      var n := |s| - 1;
      SumNonNegative(s[..n]);
      forall k | 0 <= k < n
        ensures Sum(s) >= s[k]
      {
        assert s[..n][k] == s[k];
      }
    }
  }

  lemma SumPositive(s: Vector, k: nat)
    requires forall i :: 0 <= i < |s| ==> s[i] >= 0.0
    requires k < |s| && s[k] > 0.0
    ensures Sum(s) > 0.0
  {
    SumNonNegative(s);
  }

  function RowSums(a: Matrix): (r: Vector)
    ensures |r| == |a|
    ensures forall i :: 0 <= i < |a| ==> r[i] == Sum(a[i])
  {
    seq(|a|, i requires 0 <= i < |a| => Sum(a[i]))
  }

  function ColumnSums(a: Matrix, cols: nat): (r: Vector)
    requires IsMatrix(a, |a|, cols)
    ensures |r| == cols
    ensures forall j :: 0 <= j < cols ==> r[j] == Sum(Column(a, j))
  {
    seq(cols, j requires 0 <= j < cols => Sum(Column(a, j)))
  }

  /** The column sums of a matrix with one more row gain that row. */
  lemma ColumnSumsSnoc(a: Matrix, cols: nat)
    requires IsMatrix(a, |a|, cols) && |a| > 0
    ensures ColumnSums(a, cols) == Add(ColumnSums(a[..|a| - 1], cols), a[|a| - 1])
  {
    var n := |a| - 1;
    forall j | 0 <= j < cols
      ensures ColumnSums(a, cols)[j] == Add(ColumnSums(a[..n], cols), a[n])[j]
    {
      assert Column(a, j)[..n] == Column(a[..n], j);
    }
  }

  /** Adding up a matrix row by row or column by column gives the same total. */
  lemma {:induction false} SumSwap(a: Matrix, cols: nat)
    requires IsMatrix(a, |a|, cols)
    ensures Sum(RowSums(a)) == Sum(ColumnSums(a, cols))
    decreases |a|
  {
    if |a| == 0 {
      assert ColumnSums(a, cols) == Zeros(cols);
      SumZeros(cols);
    } else {
      var n := |a| - 1;
      SumSwap(a[..n], cols);
      assert RowSums(a)[..n] == RowSums(a[..n]);
      ColumnSumsSnoc(a, cols);
      SumAdd(ColumnSums(a[..n], cols), a[n]);
    }
  }

  // ---------------------------------------------------------------------
  // Dot products

  lemma DotCommutes(a: Vector, b: Vector)
    requires |a| == |b|
    ensures Dot(a, b) == Dot(b, a)
  {
    assert Products(a, b) == Products(b, a);
  }

  lemma DotAddRight(a: Vector, u: Vector, v: Vector)
    requires |a| == |u| == |v|
    ensures Dot(a, Add(u, v)) == Dot(a, u) + Dot(a, v)
  {
    forall i | 0 <= i < |a|
      ensures Products(a, Add(u, v))[i] == Add(Products(a, u), Products(a, v))[i]
    {
      assert a[i] * (u[i] + v[i]) == a[i] * u[i] + a[i] * v[i];
    }
    assert Products(a, Add(u, v)) == Add(Products(a, u), Products(a, v));
    SumAdd(Products(a, u), Products(a, v));
  }

  lemma DotSubRight(a: Vector, u: Vector, v: Vector)
    requires |a| == |u| == |v|
    ensures Dot(a, Sub(u, v)) == Dot(a, u) - Dot(a, v)
  {
    forall i | 0 <= i < |a|
      ensures Products(a, Sub(u, v))[i] == Sub(Products(a, u), Products(a, v))[i]
    {
      assert a[i] * (u[i] - v[i]) == a[i] * u[i] - a[i] * v[i];
    }
    assert Products(a, Sub(u, v)) == Sub(Products(a, u), Products(a, v));
    SumSub(Products(a, u), Products(a, v));
  }

  lemma DotZerosRight(a: Vector)
    ensures Dot(a, Zeros(|a|)) == 0.0
  {
    assert Products(a, Zeros(|a|)) == Zeros(|a|);
    SumZeros(|a|);
  }

  /** The squared norm is non-negative and vanishes only at the zero vector. */
  lemma SqNormNonNegative(v: Vector)
    ensures SqNorm(v) >= 0.0
    ensures v != Zeros(|v|) ==> SqNorm(v) > 0.0
  {
    var p := Products(v, v);
    forall i | 0 <= i < |p|
      ensures p[i] >= 0.0
    {
      SquareNonNegative(v[i]);
      SquareIsProduct(v[i]);
    }
    SumNonNegative(p);
    if v != Zeros(|v|) {
      var k :| 0 <= k < |v| && v[k] != 0.0;
      SquarePositive(v[k]);
      SquareIsProduct(v[k]);
      SumPositive(p, k);
    }
  }

  /** The identity, used to keep the two factors of a square apart so that
      the solver reasons about x * x as a product of two positive or two
      negative factors. */
  function Id(x: real): real {
    x
  }

  function Square(x: real): real {
    x * Id(x)
  }

  lemma SquareIsProduct(x: real)
    ensures Square(x) == x * x
  {
  }

  lemma PositiveProduct(x: real, y: real)
    requires x > 0.0 && y > 0.0
    ensures x * y > 0.0
  {
  }

  lemma NegativeProduct(x: real, y: real)
    requires x < 0.0 && y < 0.0
    ensures x * y > 0.0
  {
  }

  lemma SquarePositive(x: real)
    requires x != 0.0
    ensures Square(x) > 0.0
  {
    if x > 0.0 {
      PositiveProduct(x, Id(x));
    } else {
      NegativeProduct(x, Id(x));
    }
  }

  lemma SquareNonNegative(x: real)
    ensures Square(x) >= 0.0
  {
    if x != 0.0 {
      SquarePositive(x);
    }
  }

  /** Expansion of the squared norm of a sum. */
  lemma SqNormAdd(a: Vector, b: Vector)
    requires |a| == |b|
    ensures SqNorm(Add(a, b)) == SqNorm(a) + 2.0 * Dot(a, b) + SqNorm(b)
  {
    var s := Add(a, b);
    DotCommutes(s, a);
    DotCommutes(s, b);
    DotAddRight(a, a, b);
    DotAddRight(b, a, b);
    DotCommutes(a, b);
    forall i | 0 <= i < |s|
      ensures Products(s, s)[i] == Add(Products(a, s), Products(b, s))[i]
    {
      assert (a[i] + b[i]) * s[i] == a[i] * s[i] + b[i] * s[i];
    }
    assert Products(s, s) == Add(Products(a, s), Products(b, s));
    SumAdd(Products(a, s), Products(b, s));
  }

  // ---------------------------------------------------------------------
  // Matrix products

  lemma MatVecSub(m: Matrix, u: Vector, v: Vector)
    requires |u| == |v|
    requires forall i :: 0 <= i < |m| ==> |m[i]| == |u|
    ensures MatVec(m, Sub(u, v)) == Sub(MatVec(m, u), MatVec(m, v))
  {
    forall i | 0 <= i < |m|
      ensures MatVec(m, Sub(u, v))[i] == MatVec(m, u)[i] - MatVec(m, v)[i]
    {
      DotSubRight(m[i], u, v);
    }
  }

  lemma MatVecZeros(m: Matrix, n: nat)
    requires forall i :: 0 <= i < |m| ==> |m[i]| == n
    ensures MatVec(m, Zeros(n)) == Zeros(|m|)
  {
    forall i | 0 <= i < |m|
      ensures MatVec(m, Zeros(n))[i] == 0.0
    {
      DotZerosRight(m[i]);
    }
  }

  /** The terms r[i] * m[i][j] * u[j] of the adjoint identity, as a matrix. */
  function AdjointTerms(m: Matrix, cols: nat, u: Vector, r: Vector): (a: Matrix)
    requires IsMatrix(m, |r|, cols) && |u| == cols
    ensures IsMatrix(a, |r|, cols)
  {
    seq(|r|, i requires 0 <= i < |r| => Scale(r[i], Products(m[i], u)))
  }

  lemma AdjointRows(m: Matrix, cols: nat, u: Vector, r: Vector)
    requires IsMatrix(m, |r|, cols) && |u| == cols
    ensures RowSums(AdjointTerms(m, cols, u, r)) == Products(MatVec(m, u), r)
  {
    var a := AdjointTerms(m, cols, u, r);
    forall i | 0 <= i < |r|
      ensures RowSums(a)[i] == Products(MatVec(m, u), r)[i]
    {
      SumScale(r[i], Products(m[i], u));
    }
  }

  lemma AdjointColumn(m: Matrix, cols: nat, u: Vector, r: Vector, j: nat)
    requires IsMatrix(m, |r|, cols) && |u| == cols && j < cols
    ensures Sum(Column(AdjointTerms(m, cols, u, r), j)) == u[j] * Dot(Transpose(m, cols)[j], r)
  {
    var a := AdjointTerms(m, cols, u, r);
    var mt := Transpose(m, cols);
    forall i | 0 <= i < |r|
      ensures Column(a, j)[i] == Scale(u[j], Products(mt[j], r))[i]
    {
      assert a[i][j] == r[i] * (m[i][j] * u[j]);
      assert r[i] * (m[i][j] * u[j]) == u[j] * (m[i][j] * r[i]);
      assert mt[j][i] == m[i][j];
    }
    assert Column(a, j) == Scale(u[j], Products(mt[j], r));
    SumScale(u[j], Products(mt[j], r));
  }

  lemma AdjointColumns(m: Matrix, cols: nat, u: Vector, r: Vector)
    requires IsMatrix(m, |r|, cols) && |u| == cols
    ensures ColumnSums(AdjointTerms(m, cols, u, r), cols) == Products(u, MatVec(Transpose(m, cols), r))
  {
    forall j | 0 <= j < cols
      ensures ColumnSums(AdjointTerms(m, cols, u, r), cols)[j] == Products(u, MatVec(Transpose(m, cols), r))[j]
    {
      AdjointColumn(m, cols, u, r, j);
    }
  }

  /** The transpose is the adjoint of a matrix: (m u) . r == u . (m^T r). */
  lemma TransposeAdjoint(m: Matrix, cols: nat, u: Vector, r: Vector)
    requires IsMatrix(m, |r|, cols) && |u| == cols
    ensures Dot(MatVec(m, u), r) == Dot(u, MatVec(Transpose(m, cols), r))
  {
    var a := AdjointTerms(m, cols, u, r);
    AdjointRows(m, cols, u, r);
    AdjointColumns(m, cols, u, r);
    SumSwap(a, cols);
  }

  /** Multiplying by a product of matrices is multiplying by each in turn. */
  lemma MatMulAssociates(a: Matrix, b: Matrix, q: nat, v: Vector)
    requires IsMatrix(a, |a|, |b|) && IsMatrix(b, |b|, q) && |v| == q
    ensures MatVec(MatMul(a, b, q), v) == MatVec(a, MatVec(b, v))
  {
    var ab := MatMul(a, b, q);
    var bt := Transpose(b, q);
    forall i | 0 <= i < |a|
      ensures MatVec(ab, v)[i] == MatVec(a, MatVec(b, v))[i]
    {
      forall k | 0 <= k < q
        ensures MatVec(bt, a[i])[k] == ab[i][k]
      {
        assert bt[k] == Column(b, k);
        DotCommutes(bt[k], a[i]);
      }
      assert MatVec(bt, a[i]) == ab[i];
      TransposeAdjoint(b, q, v, a[i]);
      DotCommutes(MatVec(b, v), a[i]);
      DotCommutes(v, ab[i]);
    }
  }
}
