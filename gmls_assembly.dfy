/**
 * The per-target matrix assembly of the GMLS solve that is not linear
 * algebra: the diagonal right-hand side sqrt(W) of the standard problem,
 * the zeroed padding rows and the diagonal Q of the manifold problem, and
 * the metric tensor of the tangent plane with its inverse.
 *
 * The matrices are the row-major scratch views of one target; the square
 * root is a parameter `root`, the weights w are given.
 */
module GmlsAssembly {

  // ---------------------------------------------------------------------
  // Right-hand sides
  // ---------------------------------------------------------------------

  /**
   * `RHS(j, i) = (i == j) ? sqrt(w(i)) : 0` for i, j < max_num_rows: the
   * right-hand side is the diagonal matrix sqrt(W), and nothing outside the
   * max_num_rows square changes.
   */
  method AssembleStandardRhs(RHS: array2<real>, w: seq<real>, maxNumRows: nat, root: real -> real)
    requires maxNumRows <= RHS.Length0 && maxNumRows <= RHS.Length1 && maxNumRows <= |w|
    modifies RHS
    ensures forall i, j :: 0 <= i < maxNumRows && 0 <= j < maxNumRows ==>
      RHS[j, i] == if i == j then root(w[i]) else 0.0
    ensures forall r, c :: 0 <= r < RHS.Length0 && 0 <= c < RHS.Length1 && (r >= maxNumRows || c >= maxNumRows) ==>
      RHS[r, c] == old(RHS[r, c])
  {
    var i := 0;
    while i < maxNumRows
      invariant i <= maxNumRows
      invariant forall i', j :: 0 <= i' < i && 0 <= j < maxNumRows ==>
        RHS[j, i'] == if i' == j then root(w[i']) else 0.0
      invariant forall r, c :: 0 <= r < RHS.Length0 && 0 <= c < RHS.Length1 && (r >= maxNumRows || c >= i) ==>
        RHS[r, c] == old(RHS[r, c])
    {
      var j := 0;
      while j < maxNumRows
        invariant j <= maxNumRows
        invariant forall i', j' :: 0 <= i' < i && 0 <= j' < maxNumRows ==>
          RHS[j', i'] == if i' == j' then root(w[i']) else 0.0
        invariant forall j' :: 0 <= j' < j ==> RHS[j', i] == if i == j' then root(w[i]) else 0.0
        invariant forall r, c ::
          (0 <= r < RHS.Length0 && 0 <= c < RHS.Length1 && (r >= maxNumRows || c > i || (c == i && r >= j))) ==>
          RHS[r, c] == old(RHS[r, c])
      {
        RHS[j, i] := if i == j then root(w[i]) else 0.0;
        j := j + 1;
      }
      i := i + 1;
    }
  }

  /**
   * The manifold problem's padding: rows this_num_rows <= i < max_num_rows of
   * P sqrt(W) are zero in their first this_num_columns columns, and nothing
   * else changes.
   */
  method ZeroPaddingRows(PsqrtW: array2<real>, thisNumRows: nat, maxNumRows: nat, thisNumColumns: nat)
    requires maxNumRows <= PsqrtW.Length0 && thisNumColumns <= PsqrtW.Length1
    modifies PsqrtW
    ensures forall i, j :: thisNumRows <= i < maxNumRows && 0 <= j < thisNumColumns ==> PsqrtW[i, j] == 0.0
    ensures forall r, c ::
      (0 <= r < PsqrtW.Length0 && 0 <= c < PsqrtW.Length1 && !(thisNumRows <= r < maxNumRows && c < thisNumColumns)) ==>
      PsqrtW[r, c] == old(PsqrtW[r, c])
  {
    var i := thisNumRows;
    while i < maxNumRows
      invariant thisNumRows <= i || maxNumRows <= thisNumRows
      invariant forall i', j :: thisNumRows <= i' < i && i' < maxNumRows && 0 <= j < thisNumColumns ==> PsqrtW[i', j] == 0.0
      invariant forall r, c ::
        (0 <= r < PsqrtW.Length0 && 0 <= c < PsqrtW.Length1 && !(thisNumRows <= r < i && r < maxNumRows && c < thisNumColumns)) ==>
        PsqrtW[r, c] == old(PsqrtW[r, c])
    {
      var j := 0;
      while j < thisNumColumns
        invariant j <= thisNumColumns
        invariant forall i', j' :: thisNumRows <= i' < i && i' < maxNumRows && 0 <= j' < thisNumColumns ==> PsqrtW[i', j'] == 0.0
        invariant forall j' :: 0 <= j' < j ==> PsqrtW[i, j'] == 0.0
        invariant forall r, c ::
          (0 <= r < PsqrtW.Length0 && 0 <= c < PsqrtW.Length1
           && !(thisNumRows <= r < i && r < maxNumRows && c < thisNumColumns) && !(r == i && c < j)) ==>
          PsqrtW[r, c] == old(PsqrtW[r, c])
      {
        PsqrtW[i, j] := 0.0;
        j := j + 1;
      }
      i := i + 1;
    }
  }

  /**
   * The manifold problem's right-hand side Q over the max_num_rows square:
   * sqrt(w(i)) on the diagonal for the rows of this target's neighbours,
   * zero everywhere else, including the padding rows.
   */
  method AssembleManifoldQ(Q: array2<real>, w: seq<real>, thisNumRows: nat, maxNumRows: nat, root: real -> real)
    requires maxNumRows <= Q.Length0 && maxNumRows <= Q.Length1
    requires thisNumRows <= |w| || maxNumRows <= |w|
    modifies Q
    ensures forall i, j :: 0 <= i < maxNumRows && 0 <= j < maxNumRows ==>
      Q[j, i] == if i < thisNumRows && i == j then root(w[i]) else 0.0
    ensures forall r, c :: 0 <= r < Q.Length0 && 0 <= c < Q.Length1 && (r >= maxNumRows || c >= maxNumRows) ==>
      Q[r, c] == old(Q[r, c])
  {
    var i := 0;
    while i < maxNumRows
      invariant i <= maxNumRows
      invariant forall i', j :: 0 <= i' < i && 0 <= j < maxNumRows ==>
        Q[j, i'] == if i' < thisNumRows && i' == j then root(w[i']) else 0.0
      invariant forall r, c :: 0 <= r < Q.Length0 && 0 <= c < Q.Length1 && (r >= maxNumRows || c >= i) ==>
        Q[r, c] == old(Q[r, c])
    {
      var j := 0;
      while j < maxNumRows
        invariant j <= maxNumRows
        invariant forall i', j' :: 0 <= i' < i && 0 <= j' < maxNumRows ==>
          Q[j', i'] == if i' < thisNumRows && i' == j' then root(w[i']) else 0.0
        invariant forall j' :: 0 <= j' < j ==> Q[j', i] == if i < thisNumRows && i == j' then root(w[i]) else 0.0
        invariant forall r, c ::
          (0 <= r < Q.Length0 && 0 <= c < Q.Length1 && (r >= maxNumRows || c > i || (c == i && r >= j))) ==>
          Q[r, c] == old(Q[r, c])
      {
        if i < thisNumRows {
          Q[j, i] := if i == j then root(w[i]) else 0.0;
        } else {
          Q[j, i] := 0.0;
        }
        j := j + 1;
      }
      i := i + 1;
    }
  }

  // ---------------------------------------------------------------------
  // The metric tensor of the tangent plane
  // ---------------------------------------------------------------------

  /**
   * G for the gradient (g1, g2) of the fitted surface: 1 + g1^2 when the
   * manifold is a curve (dims == 2); the 2x2 matrix I + g g^T otherwise.
   */
  function Metric(dims: nat, g1: real, g2: real): seq<seq<real>>
  {
    if dims == 2 then [[1.0 + g1 * g1]]
    else [[1.0 + g1 * g1, g1 * g2], [g2 * g1, 1.0 + g2 * g2]]
  }

  /** The determinant the kernel computes: G(0,0) for a curve, G00 G11 - G01 G10 otherwise. */
  function MetricDeterminant(dims: nat, g1: real, g2: real): real
  {
    var G := Metric(dims, g1, g2);
    if dims == 2 then G[0][0] else G[0][0] * G[1][1] - G[0][1] * G[1][0]
  }

  /** The inverse the kernel computes, by the 1x1 or the 2x2 cofactor formula. */
  function MetricInverse(dims: nat, g1: real, g2: real): seq<seq<real>>
    requires MetricDeterminant(dims, g1, g2) != 0.0
  {
    var G := Metric(dims, g1, g2);
    var det := MetricDeterminant(dims, g1, g2);
    if dims == 2 then [[1.0 / det]]
    else [[G[1][1] / det, -G[0][1] / det], [-G[1][0] / det, G[0][0] / det]]
  }

  /** The product of two n x n matrices given as rows, for n in {1, 2}. */
  function Product(A: seq<seq<real>>, B: seq<seq<real>>): seq<seq<real>>
    requires (|A| == |B| == 1 && |A[0]| == |B[0]| == 1)
          || (|A| == |B| == 2 && |A[0]| == |A[1]| == |B[0]| == |B[1]| == 2)
  {
    if |A| == 1 then [[A[0][0] * B[0][0]]]
    else [[A[0][0] * B[0][0] + A[0][1] * B[1][0], A[0][0] * B[0][1] + A[0][1] * B[1][1]],
          [A[1][0] * B[0][0] + A[1][1] * B[1][0], A[1][0] * B[0][1] + A[1][1] * B[1][1]]]
  }

  /**
   * Over the reals the determinant is 1 + g1^2 (+ g2^2 off a curve), so it is
   * positive and the "Determinant is zero" assertion never fires.
   */
  lemma DeterminantPositive(dims: nat, g1: real, g2: real)
    ensures MetricDeterminant(dims, g1, g2) == 1.0 + g1 * g1 + (if dims == 2 then 0.0 else g2 * g2)
    ensures MetricDeterminant(dims, g1, g2) > 0.0
  {
    if dims != 2 {
      var a, b := g1 * g1, g2 * g2;
      calc {
        MetricDeterminant(dims, g1, g2);
        (1.0 + a) * (1.0 + b) - (g1 * g2) * (g2 * g1);
        { assert (g1 * g2) * (g2 * g1) == a * b; }
        1.0 + a + b;
      }
      assert a >= 0.0 && b >= 0.0;
    } else {
      assert g1 * g1 >= 0.0;
    }
  }

  /** G is symmetric. */
  lemma MetricSymmetric(dims: nat, g1: real, g2: real)
    ensures var G := Metric(dims, g1, g2);
      forall i, j :: 0 <= i < |G| && 0 <= j < |G| ==> |G[i]| == |G| && |G[j]| == |G| && G[i][j] == G[j][i]
  {
    var G := Metric(dims, g1, g2);
    if dims != 2 {
      assert G[0][1] == G[1][0];
    }
  }

  /** G_inv G = I: the computed inverse is the inverse. */
  lemma InverseTimesMetric(dims: nat, g1: real, g2: real)
    ensures MetricDeterminant(dims, g1, g2) != 0.0
    ensures Product(MetricInverse(dims, g1, g2), Metric(dims, g1, g2))
         == if dims == 2 then [[1.0]] else [[1.0, 0.0], [0.0, 1.0]]
  {
    DeterminantPositive(dims, g1, g2);
    if dims == 2 {
      CurveInverse(g1, g2);
    } else {
      SurfaceInverse(dims, g1, g2);
    }
  }

  lemma CurveInverse(g1: real, g2: real)
    requires MetricDeterminant(2, g1, g2) != 0.0
    ensures Product(MetricInverse(2, g1, g2), Metric(2, g1, g2)) == [[1.0]]
  {
    var det := MetricDeterminant(2, g1, g2);
    var P := Product(MetricInverse(2, g1, g2), Metric(2, g1, g2));
    assert P[0][0] == (1.0 / det) * det == 1.0;
    assert P[0] == [1.0];
  }

  lemma SurfaceInverse(dims: nat, g1: real, g2: real)
    requires dims != 2 && MetricDeterminant(dims, g1, g2) != 0.0
    ensures Product(MetricInverse(dims, g1, g2), Metric(dims, g1, g2)) == [[1.0, 0.0], [0.0, 1.0]]
  {
    var G := Metric(dims, g1, g2);
    var det := MetricDeterminant(dims, g1, g2);
    var Gi := MetricInverse(dims, g1, g2);
    var a, b, c, d := G[0][0], G[0][1], G[1][0], G[1][1];
    assert det == a * d - b * c;
    CofactorInverse(a, b, c, d);
    assert Gi[0][0] == d / det && Gi[0][1] == -b / det && Gi[1][0] == -c / det && Gi[1][1] == a / det;
    var P := Product(Gi, G);
    assert P[0][0] == Gi[0][0] * a + Gi[0][1] * c == 1.0;
    assert P[0][1] == Gi[0][0] * b + Gi[0][1] * d == 0.0;
    assert P[1][0] == Gi[1][0] * a + Gi[1][1] * c == 0.0;
    assert P[1][1] == Gi[1][0] * b + Gi[1][1] * d == 1.0;
    assert P[0] == [1.0, 0.0];
    assert P[1] == [0.0, 1.0];
  }

  /** The 2x2 cofactor formula inverts a matrix with nonzero determinant. */
  lemma CofactorInverse(a: real, b: real, c: real, d: real)
    requires a * d - b * c != 0.0
    ensures var det := a * d - b * c;
      (d / det) * a + (-b / det) * c == 1.0 && (d / det) * b + (-b / det) * d == 0.0
      && (-c / det) * a + (a / det) * c == 0.0 && (-c / det) * b + (a / det) * d == 1.0
  {
    var det := a * d - b * c;
    assert (d / det) * a + (-b / det) * c == (a * d - b * c) / det;
    assert (d / det) * b + (-b / det) * d == (d * b - b * d) / det;
    assert (-c / det) * a + (a / det) * c == (a * c - c * a) / det;
    assert (-c / det) * b + (a / det) * d == (a * d - b * c) / det;
  }

  /**
   * The metric block of the manifold kernel in place: G from the surface
   * gradient and G_inv by the cofactor formula, both (dims - 1) x (dims - 1)
   * as the kernel allocates them, so every entry of both is determined. The zero-determinant
   * assertion is checked here and cannot fail.
   */
  method ComputeMetricTensor(G: array2<real>, Ginv: array2<real>, dims: nat, g1: real, g2: real)
    requires dims == 2 || dims == 3
    requires G != Ginv && G.Length0 == dims - 1 && G.Length1 == dims - 1
    requires Ginv.Length0 == dims - 1 && Ginv.Length1 == dims - 1
    modifies G, Ginv
    ensures forall i, j :: 0 <= i < dims - 1 && 0 <= j < dims - 1 ==>
      G[i, j] == Metric(dims, g1, g2)[i][j] && Ginv[i, j] == MetricInverse(dims, g1, g2)[i][j]
  {
    DeterminantPositive(dims, g1, g2);
    G[0, 0] := 1.0 + g1 * g1;
    if dims > 2 {
      G[0, 1] := g1 * g2;
      G[1, 0] := g2 * g1;
      G[1, 1] := 1.0 + g2 * g2;
    }
    var determinant: real;
    if dims == 2 {
      determinant := G[0, 0];
      assert determinant != 0.0;   // "Determinant is zero."
      Ginv[0, 0] := 1.0 / determinant;
    } else {
      determinant := G[0, 0] * G[1, 1] - G[0, 1] * G[1, 0];
      assert determinant != 0.0;   // "Determinant is zero."
      Ginv[0, 0] := G[1, 1] / determinant;
      Ginv[1, 1] := G[0, 0] / determinant;
      Ginv[0, 1] := -G[0, 1] / determinant;
      Ginv[1, 0] := -G[1, 0] / determinant;
    }
  }
}
