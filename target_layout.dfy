/**
 * What the hard-coded columns of the target dispatch mean under the
 * monomial enumeration, and which operations each reconstruction space
 * supports.
 */
module TargetLayout {
  import opened GmlsTypes
  import opened MonomialBasis
  import opened RowEdits
  import opened Outcomes
  import opened TargetFunctionals

  // ---------------------------------------------------------------------
  // Columns of the enumeration
  // ---------------------------------------------------------------------

  /** The first-order monomial in direction dir sits at column dir + 1, for every dimension up to three. */
  lemma FirstOrderColumn(dims: nat, p: nat, dir: nat)
    requires 1 <= dims <= 3 && dir < dims && p >= 1
    ensures MonomialIndex(dims, Unit(dir)) == dir + 1
    ensures dir + 1 < |Monomials(dims, p)| && Monomials(dims, p)[dir + 1] == Unit(dir)
  {
    FirstOrderIndex(dims, dir);
    MonomialAt(dims, p, Unit(dir));
  }

  lemma FirstOrderIndex(dims: nat, dir: nat)
    requires 1 <= dims <= 3 && dir < dims
    ensures MonomialIndex(dims, Unit(dir)) == dir + 1
  {
    if dims == 3 {
      assert Below3(1) == 1 by { assert BlockStart(0, 1) == 1; }
      assert BlockStart(1, 1) == 2;
    } else if dims == 2 {
      assert Below2(1) == 1;
    }
  }

  /** Column c holds the first-order monomial in direction dir exactly when c == dir + 1. */
  lemma FirstOrderColumnExactly(dims: nat, p: nat, dir: nat, c: nat)
    requires 1 <= dims <= 3 && dir < dims && p >= 1 && c < |Monomials(dims, p)|
    ensures Monomials(dims, p)[c] == Unit(dir) <==> c == dir + 1
  {
    if Monomials(dims, p)[c] == Unit(dir) {
      IndexOfMonomialAt(dims, p, c);
      FirstOrderIndex(dims, dir);
    }
    if c == dir + 1 {
      FirstOrderColumn(dims, p, dir);
    }
  }

  /** The index of each of x^2, y^2, z^2 that exists in dims variables is a Laplacian column. */
  lemma PureSecondOrderIndex(dims: nat, e: Exponent)
    requires 1 <= dims <= 3 && InDimension(dims, e) && IsPureSecondOrder(e)
    ensures MonomialIndex(dims, e) in LaplacianColumns(dims)
  {
    if dims == 3 {
      if e == Exponent(2, 0, 0) {
        XSquaredIndex3(e);
      } else if e == Exponent(0, 2, 0) {
        YSquaredIndex3(e);
      } else {
        ZSquaredIndex3(e);
      }
    } else if dims == 2 {
      assert Below2(2) == 3;
    }
  }

  lemma SecondOrderIndex3()
    ensures Index3(Exponent(2, 0, 0)) == 4 && Index3(Exponent(0, 2, 0)) == 6 && Index3(Exponent(0, 0, 2)) == 9
  {
    assert Below3(1) == 1 by { assert BlockStart(0, 1) == 1; }
    assert BlockStart(1, 2) == 3;
    assert Below3(2) == 4;
    assert BlockStart(2, 2) == 5;
  }

  lemma XSquaredIndex3(e: Exponent)
    requires e == Exponent(2, 0, 0)
    ensures Index3(e) == 4
  {
    SecondOrderIndex3();
  }

  lemma YSquaredIndex3(e: Exponent)
    requires e == Exponent(0, 2, 0)
    ensures Index3(e) == 6
  {
    SecondOrderIndex3();
  }

  lemma ZSquaredIndex3(e: Exponent)
    requires e == Exponent(0, 0, 2)
    ensures Index3(e) == 9
  {
    SecondOrderIndex3();
  }

  /** Each Laplacian column is the index of one of x^2, y^2, z^2 in dims variables. */
  lemma LaplacianColumnMonomial(dims: nat, c: nat) returns (e: Exponent)
    requires 1 <= dims <= 3 && c in LaplacianColumns(dims)
    ensures InDimension(dims, e) && IsPureSecondOrder(e) && MonomialIndex(dims, e) == c
  {
    if dims == 3 {
      SecondOrderIndex3();
      e := if c == 4 then Exponent(2, 0, 0) else if c == 6 then Exponent(0, 2, 0) else Exponent(0, 0, 2);
    } else if dims == 2 {
      assert Below2(2) == 3;
      e := if c == 3 then Exponent(2, 0, 0) else Exponent(0, 2, 0);
    } else {
      e := Exponent(2, 0, 0);
    }
  }

  /** Under the enumeration the hard-coded Laplacian columns are exactly the pure second-order monomials x^2, y^2, z^2. */
  lemma LaplacianColumnsArePureSecondOrder(dims: nat, p: nat, c: nat)
    requires 1 <= dims <= 3 && p >= 2 && c < |Monomials(dims, p)|
    ensures c in LaplacianColumns(dims) <==> IsPureSecondOrder(Monomials(dims, p)[c])
  {
    var M := Monomials(dims, p);
    IndexOfMonomialAt(dims, p, c);
    if IsPureSecondOrder(M[c]) {
      PureSecondOrderIndex(dims, M[c]);
    }
    if c in LaplacianColumns(dims) {
      var e := LaplacianColumnMonomial(dims, c);
      MonomialAt(dims, p, e);
    }
  }

  /** The Laplacian columns all lie inside the basis. */
  lemma LaplacianColumnsInBasis(dims: nat, p: nat)
    requires 1 <= dims <= 3 && p >= 2
    ensures forall c :: c in LaplacianColumns(dims) ==> c < |Monomials(dims, p)|
  {
    forall c | c in LaplacianColumns(dims) ensures c < |Monomials(dims, p)| {
      var e := LaplacianColumnMonomial(dims, c);
      MonomialAt(dims, p, e);
    }
  }

  // ---------------------------------------------------------------------
  // Branch layouts
  // ---------------------------------------------------------------------

  /** The branches that write the Laplacian columns: the Laplacian of the scalar and scalar-clone spaces, and the staggered-analytic divergence. */
  predicate WritesLaplacianColumns(d: TargetData, op: TargetOperation)
  {
    ((d.space == ScalarTaylorPolynomial || d.space == VectorOfScalarClonesTaylorPolynomial)
      && op == LaplacianOfScalarPointEvaluation)
    || (d.space == ScalarTaylorPolynomial && op == DivergenceOfVectorPointEvaluation
        && d.polynomialSampling == StaggeredEdgeAnalyticGradientIntegralSample)
  }

  /**
   * The Laplacian branches set eps^-2 at the columns of x^2, y^2, z^2 of the
   * target's row and nowhere else; they do not handle additional sites.
   */
  lemma LaplacianLayout(d: TargetData, o: Oracles, i: nat, r: nat, c: nat)
    requires i < |d.operations| && d.epsilon > 0.0 && WritesLaplacianColumns(d, d.operations[i])
    requires 1 <= d.dims <= 3 && d.polyOrder >= 2
    ensures ToolkitBranch(d, o, i).Success? && !ToolkitBranch(d, o, i).value.sitesHandled
    ensures CellAfter(0.0, ToolkitBranch(d, o, i).value.edits, r, c)
      == if r == o.offset(i, 0, 0, 0) && c < |Monomials(d.dims, d.polyOrder)|
            && IsPureSecondOrder(Monomials(d.dims, d.polyOrder)[c])
         then InverseEpsilonSquared(d) else 0.0
  {
    var row := o.offset(i, 0, 0, 0);
    assert ToolkitBranch(d, o, i) == Success(Effect(LaplacianEdits(row, d.dims, InverseEpsilonSquared(d)), false));
    AssignEachCell(0.0, row, LaplacianColumns(d.dims), InverseEpsilonSquared(d), r, c);
    LaplacianColumnsInBasis(d.dims, d.polyOrder);
    if c < |Monomials(d.dims, d.polyOrder)| {
      LaplacianColumnsArePureSecondOrder(d.dims, d.polyOrder, c);
    }
  }

  /** Block b, entry j of a row of blocks of width np: distinct (b, j) give distinct columns. */
  lemma BlockColumn(np: nat, a: nat, j: nat, b: nat, k: nat)
    requires j < np && k < np && a * np + j == b * np + k
    ensures a == b && j == k
  {
    if a < b {
      MultiplyMonotone(a + 1, b, np);
      assert false;
    } else if b < a {
      MultiplyMonotone(b + 1, a, np);
      assert false;
    }
  }

  lemma MultiplyMonotone(x: nat, y: nat, n: nat)
    requires x <= y
    ensures x * n <= y * n
  {
  }

  /** The staggered divergence columns list, for each component k < dims, the column k * np + (k + 1). */
  lemma StaggeredColumnsAre(dims: nat, np: nat)
    requires 1 <= dims <= 3
    ensures |StaggeredDivergenceColumns(dims, np)| == dims
    ensures forall k :: 0 <= k < dims ==> StaggeredDivergenceColumns(dims, np)[k] == k * np + (k + 1)
  {
  }

  /**
   * Divergence with the vector basis from edge integrals: in block comp of
   * the target's row (comp < dims), eps^-1 at the column of the comp-th
   * first-order monomial and zero elsewhere; nothing past the dims blocks.
   */
  lemma StaggeredDivergenceLayout(d: TargetData, o: Oracles, i: nat, comp: nat, j: nat)
    requires i < |d.operations| && d.epsilon > 0.0
    requires d.space == VectorTaylorPolynomial && d.operations[i] == DivergenceOfVectorPointEvaluation
    requires d.polynomialSampling == StaggeredEdgeIntegralSample
    requires 1 <= d.dims <= 3 && d.polyOrder >= 1 && d.targetNP == |Monomials(d.dims, d.polyOrder)|
    requires comp < d.dims && j < d.targetNP
    ensures ToolkitBranch(d, o, i).Success? && !ToolkitBranch(d, o, i).value.sitesHandled
    ensures CellAfter(0.0, ToolkitBranch(d, o, i).value.edits, o.offset(i, 0, 0, 0), comp * d.targetNP + j)
      == if Monomials(d.dims, d.polyOrder)[j] == Unit(comp) then InverseEpsilon(d) else 0.0
  {
    StaggeredDivergenceBranch(d, o, i);
    StaggeredDivergenceCell(o.offset(i, 0, 0, 0), d.dims, d.polyOrder, d.targetNP, InverseEpsilon(d), comp, j);
  }

  /** The branch the vector basis takes for divergence from edge integrals. */
  lemma StaggeredDivergenceBranch(d: TargetData, o: Oracles, i: nat)
    requires i < |d.operations| && d.epsilon > 0.0
    requires d.space == VectorTaylorPolynomial && d.operations[i] == DivergenceOfVectorPointEvaluation
    requires d.polynomialSampling == StaggeredEdgeIntegralSample
    ensures ToolkitBranch(d, o, i)
      == Success(Effect(StaggeredDivergenceEdits(o.offset(i, 0, 0, 0), d.dims, d.targetNP, InverseEpsilon(d)), false))
  {
  }

  /** Entry j of block comp of the staggered divergence row. */
  lemma StaggeredDivergenceCell(row: nat, dims: nat, p: nat, np: nat, v: real, comp: nat, j: nat)
    requires 1 <= dims <= 3 && p >= 1 && np == |Monomials(dims, p)|
    requires comp < dims && j < np
    ensures CellAfter(0.0, StaggeredDivergenceEdits(row, dims, np, v), row, comp * np + j)
      == if Monomials(dims, p)[j] == Unit(comp) then v else 0.0
  {
    AssignEachCell(0.0, row, StaggeredDivergenceColumns(dims, np), v, row, comp * np + j);
    FirstOrderColumnExactly(dims, p, comp, j);
    FirstOrderColumn(dims, p, dims - 1);
    StaggeredColumnMembership(dims, np, comp, j);
  }

  /** Entry j of block comp is a staggered divergence column exactly when j == comp + 1. */
  lemma StaggeredColumnMembership(dims: nat, np: nat, comp: nat, j: nat)
    requires 1 <= dims <= 3 && dims < np && comp < dims && j < np
    ensures comp * np + j in StaggeredDivergenceColumns(dims, np) <==> j == comp + 1
  {
    var cols := StaggeredDivergenceColumns(dims, np);
    StaggeredColumnsAre(dims, np);
    if comp * np + j in cols {
      var k :| 0 <= k < |cols| && cols[k] == comp * np + j;
      BlockColumn(np, comp, j, k, k + 1);
    }
    if j == comp + 1 {
      assert comp < |cols| && cols[comp] == comp * np + j;
      assert cols[comp] in cols;
    }
  }

  /** The staggered divergence writes nothing past the first dims blocks of its row, and no other row. */
  lemma StaggeredDivergenceNothingElse(d: TargetData, o: Oracles, i: nat, r: nat, c: nat)
    requires i < |d.operations| && d.epsilon > 0.0
    requires d.space == VectorTaylorPolynomial && d.operations[i] == DivergenceOfVectorPointEvaluation
    requires d.polynomialSampling == StaggeredEdgeIntegralSample
    requires 1 <= d.dims <= 3 && d.targetNP >= d.dims + 1
    requires r != o.offset(i, 0, 0, 0) || c >= d.dims * d.targetNP
    ensures ToolkitBranch(d, o, i).Success?
    ensures CellAfter(0.0, ToolkitBranch(d, o, i).value.edits, r, c) == 0.0
  {
    var np := d.targetNP;
    var row := o.offset(i, 0, 0, 0);
    var cols := StaggeredDivergenceColumns(d.dims, np);
    StaggeredDivergenceBranch(d, o, i);
    AssignEachCell(0.0, row, cols, InverseEpsilon(d), r, c);
    StaggeredColumnsAre(d.dims, np);
    forall k | 0 <= k < |cols| ensures cols[k] < d.dims * np {
      MultiplyMonotone(k + 1, d.dims, np);
    }
  }

  /** The Levi-Civita symbol on {0, 1, 2}: (curl u)_o = sum over dir, m of eps(o, dir, m) * d u_m / d x_dir. */
  function LeviCivita(a: nat, b: nat, c: nat): int
  {
    if (a == 0 && b == 1 && c == 2) || (a == 1 && b == 2 && c == 0) || (a == 2 && b == 0 && c == 1) then 1
    else if (a == 0 && b == 2 && c == 1) || (a == 2 && b == 1 && c == 0) || (a == 1 && b == 0 && c == 2) then -1
    else 0
  }

  /**
   * The write the curl owes to input m, output o, direction dir: in row
   * (m, o), column dir + 1 of block m, which holds the first-order monomial
   * in direction dir (FirstOrderColumn).
   */
  function CurlWrite(d: TargetData, orc: Oracles, i: nat, m: nat, o: nat, dir: nat): Edit
    requires d.epsilon > 0.0
  {
    Assign(orc.offset(i, m, o, 0), m * d.targetNP + (dir + 1),
           Signed(LeviCivita(o, dir, m), InverseEpsilon(d)))
  }

  /** sign * value for a sign in {-1, 0, 1}. */
  function Signed(sign: int, value: real): real
  {
    if sign > 0 then value else if sign < 0 then -value else 0.0
  }

  /**
   * The 3-D curl with the vector basis writes exactly one entry for each
   * nonzero term eps(o, dir, m) d u_m / d x_dir of the curl: that sign
   * times eps^-1, in row (m, o), at the dir-th first-order column of
   * block m. It does not handle additional sites.
   */
  lemma VectorCurlIsLeviCivita(d: TargetData, orc: Oracles, i: nat)
    requires i < |d.operations| && d.epsilon > 0.0
    requires d.space == VectorTaylorPolynomial && d.operations[i] == CurlOfVectorPointEvaluation && d.dims == 3
    ensures ToolkitBranch(d, orc, i).Success? && !ToolkitBranch(d, orc, i).value.sitesHandled
    ensures |ToolkitBranch(d, orc, i).value.edits| == 6
    ensures forall m, o, dir :: m < 3 && o < 3 && dir < 3 && LeviCivita(o, dir, m) != 0 ==>
      CurlWrite(d, orc, i, m, o, dir) in ToolkitBranch(d, orc, i).value.edits
    ensures forall k :: 0 <= k < |ToolkitBranch(d, orc, i).value.edits| ==>
      exists m, o, dir :: m < 3 && o < 3 && dir < 3 && LeviCivita(o, dir, m) != 0
        && ToolkitBranch(d, orc, i).value.edits[k] == CurlWrite(d, orc, i, m, o, dir)
  {
    assert ToolkitBranch(d, orc, i) == Success(Effect(VectorCurlEdits(d, orc, i, InverseEpsilon(d)), false));
    var edits := VectorCurlEdits(d, orc, i, InverseEpsilon(d));
    VectorCurlWrites3(d, orc, i);
    forall k | 0 <= k < |edits|
      ensures exists m, o, dir :: m < 3 && o < 3 && dir < 3 && LeviCivita(o, dir, m) != 0
                                   && edits[k] == CurlWrite(d, orc, i, m, o, dir)
    {
      if k == 0 { assert LeviCivita(0, 2, 1) != 0 && edits[k] == CurlWrite(d, orc, i, 1, 0, 2); }
      else if k == 1 { assert LeviCivita(0, 1, 2) != 0 && edits[k] == CurlWrite(d, orc, i, 2, 0, 1); }
      else if k == 2 { assert LeviCivita(1, 2, 0) != 0 && edits[k] == CurlWrite(d, orc, i, 0, 1, 2); }
      else if k == 3 { assert LeviCivita(1, 0, 2) != 0 && edits[k] == CurlWrite(d, orc, i, 2, 1, 0); }
      else if k == 4 { assert LeviCivita(2, 1, 0) != 0 && edits[k] == CurlWrite(d, orc, i, 0, 2, 1); }
      else { assert LeviCivita(2, 0, 1) != 0 && edits[k] == CurlWrite(d, orc, i, 1, 2, 0); }
    }
  }

  /** The six writes of the 3-D vector-basis curl, in program order, as curl terms. */
  lemma VectorCurlWrites3(d: TargetData, orc: Oracles, i: nat)
    requires d.epsilon > 0.0 && d.dims == 3
    ensures var edits := VectorCurlEdits(d, orc, i, InverseEpsilon(d));
      |edits| == 6
      && edits[0] == CurlWrite(d, orc, i, 1, 0, 2) && edits[1] == CurlWrite(d, orc, i, 2, 0, 1)
      && edits[2] == CurlWrite(d, orc, i, 0, 1, 2) && edits[3] == CurlWrite(d, orc, i, 2, 1, 0)
      && edits[4] == CurlWrite(d, orc, i, 0, 2, 1) && edits[5] == CurlWrite(d, orc, i, 1, 2, 0)
  {
  }

  /**
   * In 2-D the vector-basis curl writes two entries: eps^-1 at the y column
   * of block 1 in row (1, 0), and -eps^-1 at the x column of block 0 in row (0, 1).
   */
  lemma VectorCurl2D(d: TargetData, orc: Oracles, i: nat)
    requires i < |d.operations| && d.epsilon > 0.0
    requires d.space == VectorTaylorPolynomial && d.operations[i] == CurlOfVectorPointEvaluation && d.dims == 2
    ensures ToolkitBranch(d, orc, i).Success? && !ToolkitBranch(d, orc, i).value.sitesHandled
    ensures ToolkitBranch(d, orc, i).value.edits ==
      [ Assign(orc.offset(i, 1, 0, 0), d.targetNP + MonomialIndex(2, Unit(1)), InverseEpsilon(d)),
        Assign(orc.offset(i, 0, 1, 0), MonomialIndex(2, Unit(0)), -InverseEpsilon(d)) ]
  {
    FirstOrderIndex(2, 0);
    FirstOrderIndex(2, 1);
  }

  /** A cleared row followed by one assignment in it. */
  lemma ClearThenSet(init: real, d: TargetData, row: nat, col: nat, value: real, r: nat, c: nat)
    ensures CellAfter(init, ClearRow(d, row) + [Assign(row, col, value)], r, c)
      == if r == row && c == col then value else if r == row && c < d.targetNP then 0.0 else init
  {
    CellAfterAppend(init, ClearRow(d, row), [Assign(row, col, value)], r, c);
    AssignRowCell(init, row, 0, seq(d.targetNP, j => 0.0), r, c);
    assert [Assign(row, col, value)][..0] == [];
  }

  /**
   * Divergence with scalar clones: the row of each input component m < dims
   * is cleared and then holds eps^-1 at the column of the m-th first-order
   * monomial only, whatever it held before.
   */
  lemma ClonesDivergenceLayout(d: TargetData, o: Oracles, i: nat, init: real, m: nat, c: nat)
    requires i < |d.operations| && d.epsilon > 0.0
    requires d.space == VectorOfScalarClonesTaylorPolynomial && d.operations[i] == DivergenceOfVectorPointEvaluation
    requires 1 <= d.dims <= 3 && d.polyOrder >= 1 && d.targetNP == |Monomials(d.dims, d.polyOrder)|
    requires forall a, b :: 0 <= a < b < d.dims ==> o.offset(i, a, 0, 0) != o.offset(i, b, 0, 0)
    requires m < d.dims && c < d.targetNP
    ensures ToolkitBranch(d, o, i).Success? && !ToolkitBranch(d, o, i).value.sitesHandled
    ensures CellAfter(init, ToolkitBranch(d, o, i).value.edits, o.offset(i, m, 0, 0), c)
      == if Monomials(d.dims, d.polyOrder)[c] == Unit(m) then InverseEpsilon(d) else 0.0
  {
    ClonesDivergenceBranch(d, o, i);
    ClonesDivergenceCell(d, o, i, InverseEpsilon(d), init, m, c);
  }

  /** The branch the scalar clones take for divergence. */
  lemma ClonesDivergenceBranch(d: TargetData, o: Oracles, i: nat)
    requires i < |d.operations| && d.epsilon > 0.0
    requires d.space == VectorOfScalarClonesTaylorPolynomial && d.operations[i] == DivergenceOfVectorPointEvaluation
    ensures ToolkitBranch(d, o, i) == Success(Effect(ClonesDivergenceEdits(d, o, i, InverseEpsilon(d)), false))
  {
  }

  /** Entry c of the row of input m after the clones' divergence edits. */
  lemma ClonesDivergenceCell(d: TargetData, o: Oracles, i: nat, v: real, init: real, m: nat, c: nat)
    requires 1 <= d.dims <= 3 && d.polyOrder >= 1 && d.targetNP == |Monomials(d.dims, d.polyOrder)|
    requires forall a, b :: 0 <= a < b < d.dims ==> o.offset(i, a, 0, 0) != o.offset(i, b, 0, 0)
    requires m < d.dims && c < d.targetNP
    ensures CellAfter(init, ClonesDivergenceEdits(d, o, i, v), o.offset(i, m, 0, 0), c)
      == if Monomials(d.dims, d.polyOrder)[c] == Unit(m) then v else 0.0
  {
    var R := (k: nat) => o.offset(i, k, 0, 0);
    var s0 := ClearRow(d, R(0)) + [Assign(R(0), 1, v)];
    var s1 := if d.dims > 1 then ClearRow(d, R(1)) + [Assign(R(1), 2, v)] else [];
    var s2 := if d.dims > 2 then ClearRow(d, R(2)) + [Assign(R(2), 3, v)] else [];
    assert ClonesDivergenceEdits(d, o, i, v) == s0 + s1 + s2;
    var r := R(m);
    CellAfterAppend(init, s0 + s1, s2, r, c);
    CellAfterAppend(init, s0, s1, r, c);
    var a0 := CellAfter(init, s0, r, c);
    var a1 := CellAfter(a0, s1, r, c);
    ClearThenSet(init, d, R(0), 1, v, r, c);
    if d.dims > 1 {
      ClearThenSet(a0, d, R(1), 2, v, r, c);
    }
    if d.dims > 2 {
      ClearThenSet(a1, d, R(2), 3, v, r, c);
    }
    FirstOrderColumnExactly(d.dims, d.polyOrder, m, c);
  }

  // ---------------------------------------------------------------------
  // Which operations each space supports
  // ---------------------------------------------------------------------

  /** The operations each space has a branch for; the divergence-free space has no final `else`. */
  predicate HasBranch(d: TargetData, op: TargetOperation)
  {
    match d.space
    case ScalarTaylorPolynomial =>
      op in {ScalarPointEvaluation, LaplacianOfScalarPointEvaluation, GradientOfScalarPointEvaluation,
             PartialXOfScalarPointEvaluation, PartialYOfScalarPointEvaluation, PartialZOfScalarPointEvaluation,
             ScalarFaceAverageEvaluation}
      || (op == VectorPointEvaluation && d.dims == 1)
      || (op == DivergenceOfVectorPointEvaluation && d.polynomialSampling == StaggeredEdgeAnalyticGradientIntegralSample)
    case VectorTaylorPolynomial =>
      op in {ScalarPointEvaluation, VectorPointEvaluation, GradientOfScalarPointEvaluation,
             GradientOfVectorPointEvaluation, DivergenceOfVectorPointEvaluation, CurlOfVectorPointEvaluation}
    case VectorOfScalarClonesTaylorPolynomial =>
      op in {ScalarPointEvaluation, VectorPointEvaluation, LaplacianOfScalarPointEvaluation,
             GradientOfScalarPointEvaluation, GradientOfVectorPointEvaluation, PartialXOfScalarPointEvaluation,
             PartialYOfScalarPointEvaluation, PartialZOfScalarPointEvaluation, DivergenceOfVectorPointEvaluation,
             CurlOfVectorPointEvaluation}
    case DivergenceFreeVectorTaylorPolynomial => true
    case OtherReconstructionSpace => false
  }

  /** The scalar space asserts dims > 1 for the y partial and dims > 2 for the z partial. */
  predicate FailsDimensionCheck(d: TargetData, op: TargetOperation)
  {
    d.space == ScalarTaylorPolynomial
    && ((op == PartialYOfScalarPointEvaluation && d.dims <= 1) || (op == PartialZOfScalarPointEvaluation && d.dims <= 2))
  }

  /** The branches that set additional_evaluation_sites_handled. */
  predicate HandlesAdditionalSites(d: TargetData, op: TargetOperation)
  {
    match d.space
    case ScalarTaylorPolynomial =>
      op in {ScalarPointEvaluation, GradientOfScalarPointEvaluation, PartialXOfScalarPointEvaluation,
             PartialYOfScalarPointEvaluation, PartialZOfScalarPointEvaluation}
      || (op == VectorPointEvaluation && d.dims == 1)
    case VectorTaylorPolynomial =>
      op in {ScalarPointEvaluation, VectorPointEvaluation, GradientOfScalarPointEvaluation, GradientOfVectorPointEvaluation}
      || (op == DivergenceOfVectorPointEvaluation && d.polynomialSampling != StaggeredEdgeIntegralSample)
    case VectorOfScalarClonesTaylorPolynomial =>
      op in {ScalarPointEvaluation, VectorPointEvaluation, GradientOfScalarPointEvaluation,
             GradientOfVectorPointEvaluation, PartialXOfScalarPointEvaluation}
      || (op == PartialYOfScalarPointEvaluation && d.dims > 1)
      || (op == PartialZOfScalarPointEvaluation && d.dims > 2)
    case DivergenceFreeVectorTaylorPolynomial =>
      op in {VectorPointEvaluation, CurlOfVectorPointEvaluation, CurlCurlOfVectorPointEvaluation, GradientOfVectorPointEvaluation}
    case OtherReconstructionSpace => false
  }

  /**
   * The toolkit branch fails with "not yet available" exactly for the
   * (space, operation) pairs without a branch, with the dimension assertion
   * exactly for the scalar y and z partials in too few dimensions, and
   * otherwise sets the additional-sites flag as the table says.
   */
  lemma ToolkitBranchTable(d: TargetData, o: Oracles, i: nat)
    requires i < |d.operations| && d.epsilon > 0.0
    ensures ToolkitBranch(d, o, i).Failure? <==> !HasBranch(d, d.operations[i]) || FailsDimensionCheck(d, d.operations[i])
    ensures ToolkitBranch(d, o, i).Failure? ==>
      ToolkitBranch(d, o, i).error == if HasBranch(d, d.operations[i]) then DimensionTooSmall else NotYetAvailable
    ensures ToolkitBranch(d, o, i).Success? ==>
      ToolkitBranch(d, o, i).value.sitesHandled == HandlesAdditionalSites(d, d.operations[i])
  {
  }

  /**
   * One pass over an operation: the USER targets, when they take it, skip
   * every assertion; otherwise the pass stops on a missing branch, on the
   * dimension check, or, when additional evaluation sites exist, on a
   * branch that does not handle them.
   */
  lemma OperationPassFailure(d: TargetData, o: Oracles, i: nat)
    requires i < |d.operations| && d.epsilon > 0.0
    ensures OperationPass(d, o, i).failure ==
      var op := d.operations[i];
      if o.user(i, op).Some? then None
      else if !HasBranch(d, op) then Some(NotYetAvailable)
      else if FailsDimensionCheck(d, op) then Some(DimensionTooSmall)
      else if d.additionalSites > 0 && !HandlesAdditionalSites(d, op) then Some(AdditionalSitesNotHandled)
      else None
  {
    ToolkitBranchTable(d, o, i);
  }
}
