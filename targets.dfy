/**
 * computeTargetFunctionals: fills the target functional buffer P_target_row
 * for one target site. The buffer (and the scratch vectors delta and
 * thread_workspace) is zeroed; then, for each requested operation, the
 * USER targets get the first chance, and otherwise the toolkit branch
 * chosen by the reconstruction space and the operation writes its entries.
 *
 * The basis evaluations (calcPij, calcGradientPij, calcHessianPij), the
 * offset layout (getTargetOffsetIndex), the face-average quadrature terms
 * and the USER targets are not part of this model: they are parameters,
 * collected in Oracles.
 */
module TargetFunctionals {
  import opened GmlsTypes
  import opened MonomialBasis
  import opened RowEdits
  import opened Outcomes

  /** A call to one of the basis evaluators, whose result row is copied into P_target_row. */
  datatype BasisQuery =
    | Pij(space: ReconstructionSpace, component: int, site: nat)
    | GradientPij(space: ReconstructionSpace, component: int, direction: nat, site: nat)
    | HessianPij(space: ReconstructionSpace, component: int, direction1: nat, direction2: nat, site: nat)

  /** The fields of the target data the dispatch reads. */
  datatype TargetData = TargetData(
    space: ReconstructionSpace,
    polynomialSampling: SamplingFunctional,
    dims: nat,
    polyOrder: nat,
    /** getNP(polyOrder, dims, space): the number of basis columns per component. */
    targetNP: nat,
    samplingMultiplier: nat,
    basisMultiplier: nat,
    dataSamplingMultiplier: nat,
    operations: seq<TargetOperation>,
    /** Rows of the additional evaluation coordinates (all targets). */
    additionalSites: nat,
    /** Additional evaluation sites of this target; the target itself is site 0. */
    additionalNeighbors: nat,
    /** The target's search radius. */
    epsilon: real,
    /** Vertices of the target's face (extra data), for the face average. */
    faceVertices: nat,
    quadraturePoints: nat)

  /** What the model takes as given. */
  datatype Oracles = Oracles(
    /** getTargetOffsetIndex(operation, input component, output component, evaluation site). */
    offset: (nat, nat, nat, nat) -> nat,
    /** Entry j of the row the basis evaluator computes. */
    basis: (BasisQuery, nat) -> real,
    /** The term line 217 computes for sub-triangle v, quadrature point q and a monomial: weight times monomial over the reference-scaled area, so the terms of one sub-triangle sum to its quadrature average. */
    faceTerm: (nat, nat, Exponent) -> real,
    /** The USER targets: Some(writes) when they handle operation i, None when they pass it on. */
    user: (nat, TargetOperation) -> Option<seq<Edit>>)

  datatype TargetError =
    | NotYetAvailable             // "Functionality not yet available."
    | DimensionTooSmall           // "Partial{Y,Z}OfScalarPointEvaluation requested for dim < {2,3}"
    | AdditionalSitesNotHandled   // "Auxiliary evaluation coordinates are specified by user, but ..."

  /** What one toolkit branch does: its writes, and whether it sets additional_evaluation_sites_handled. */
  datatype Effect = Effect(edits: seq<Edit>, sitesHandled: bool)

  function EvaluationSites(d: TargetData): nat
  {
    d.additionalNeighbors + 1
  }

  /** pow(epsilon, -1) */
  function InverseEpsilon(d: TargetData): real
    requires d.epsilon > 0.0
  {
    1.0 / d.epsilon
  }

  /** pow(epsilon, -2) */
  function InverseEpsilonSquared(d: TargetData): real
    requires d.epsilon > 0.0
  {
    1.0 / (d.epsilon * d.epsilon)
  }

  /** The row the basis evaluator returns for query q, target_NP entries. */
  function BasisRow(d: TargetData, o: Oracles, q: BasisQuery): seq<real>
  {
    seq(d.targetNP, j requires 0 <= j < d.targetNP => o.basis(q, j))
  }

  function Negated(values: seq<real>): seq<real>
  {
    seq(|values|, j requires 0 <= j < |values| => -values[j])
  }

  /** `for (j = 0; j < target_NP; ++j) P_target_row(row, j) = 0` */
  function ClearRow(d: TargetData, row: nat): seq<Edit>
  {
    AssignRow(row, 0, seq(d.targetNP, j => 0.0))
  }

  // ---------------------------------------------------------------------
  // The writes of each branch, in program order
  // ---------------------------------------------------------------------

  /** Point evaluation with the scalar basis, at every evaluation site. */
  function ScalarPointEdits(d: TargetData, o: Oracles, i: nat): seq<Edit>
  {
    Concat(EvaluationSites(d), (j: nat) =>
      AssignRow(o.offset(i, 0, 0, j), 0, BasisRow(d, o, Pij(ScalarTaylorPolynomial, -1, j))))
  }

  /** The hard-coded Laplacian columns: 4, 6, 9 in 3-D; 3, 5 in 2-D; 2 otherwise (the `default:`). */
  function LaplacianColumns(dims: nat): seq<nat>
  {
    if dims == 3 then [4, 6, 9] else if dims == 2 then [3, 5] else [2]
  }

  function LaplacianEdits(row: nat, dims: nat, value: real): seq<Edit>
  {
    AssignEach(row, LaplacianColumns(dims), value)
  }

  /** Gradient with the scalar basis: one row per direction d < dims, at every site. */
  function ScalarGradientEdits(d: TargetData, o: Oracles, i: nat): seq<Edit>
  {
    Concat(EvaluationSites(d), (j: nat) =>
      Concat(d.dims, (dd: nat) =>
        AssignRow(o.offset(i, 0, dd, j), 0, BasisRow(d, o, GradientPij(ScalarTaylorPolynomial, -1, dd, j)))))
  }

  /** One partial derivative with the scalar basis, at every site. */
  function PartialEdits(d: TargetData, o: Oracles, i: nat, direction: nat): seq<Edit>
  {
    Concat(EvaluationSites(d), (j: nat) =>
      AssignRow(o.offset(i, 0, 0, j), 0, BasisRow(d, o, GradientPij(ScalarTaylorPolynomial, -1, direction, j))))
  }

  /** Vector point evaluation with the vector basis: component c's block starts at column c * target_NP. */
  function VectorPointEdits(d: TargetData, o: Oracles, i: nat): seq<Edit>
  {
    Concat(EvaluationSites(d), (e: nat) =>
      Concat(d.samplingMultiplier, (m: nat) =>
        Concat(d.basisMultiplier, (c: nat) =>
          AssignRow(o.offset(i, m, c, e), c * d.targetNP, BasisRow(d, o, Pij(ScalarTaylorPolynomial, -1, e))))))
  }

  function VectorGradientEdits(d: TargetData, o: Oracles, i: nat): seq<Edit>
  {
    Concat(EvaluationSites(d), (e: nat) =>
      Concat(d.basisMultiplier, (m2: nat) =>
        AssignRow(o.offset(i, 0, m2, e), 0, BasisRow(d, o, GradientPij(ScalarTaylorPolynomial, -1, m2, e)))))
  }

  function VectorGradientOfVectorEdits(d: TargetData, o: Oracles, i: nat): seq<Edit>
  {
    var bm := d.basisMultiplier;
    Concat(EvaluationSites(d), (e: nat) =>
      Concat(d.samplingMultiplier, (m0: nat) =>
        Concat(bm, (m1: nat) =>
          Concat(bm, (m2: nat) =>
            AssignRow(o.offset(i, m0, m1 * bm + m2, e), m1 * d.targetNP,
                      BasisRow(d, o, GradientPij(ScalarTaylorPolynomial, -1, m2, e)))))))
  }

  /** The hard-coded staggered divergence columns: 1, np + 2, 2 * np + 3 in 3-D; 1, np + 2 in 2-D; 1 otherwise. */
  function StaggeredDivergenceColumns(dims: nat, np: nat): seq<nat>
  {
    if dims == 3 then [1, np + 2, 2 * np + 3] else if dims == 2 then [1, np + 2] else [1]
  }

  function StaggeredDivergenceEdits(row: nat, dims: nat, np: nat, value: real): seq<Edit>
  {
    AssignEach(row, StaggeredDivergenceColumns(dims, np), value)
  }

  function VectorDivergenceEdits(d: TargetData, o: Oracles, i: nat): seq<Edit>
  {
    Concat(EvaluationSites(d), (e: nat) =>
      Concat(d.samplingMultiplier, (m: nat) =>
        AssignRow(o.offset(i, m, 0, e), m * d.targetNP, BasisRow(d, o, GradientPij(ScalarTaylorPolynomial, -1, m, e)))))
  }

  /** Curl with the vector basis, at the target only; row (in, out) holds the term of input `in` in output `out`. */
  function VectorCurlEdits(d: TargetData, o: Oracles, i: nat, value: real): seq<Edit>
  {
    var np := d.targetNP;
    if d.dims == 3 then
      [ Assign(o.offset(i, 1, 0, 0), np + 3, -value),      // -u_{1,z}
        Assign(o.offset(i, 2, 0, 0), 2 * np + 2, value),   //  u_{2,y}
        Assign(o.offset(i, 0, 1, 0), 3, value),            //  u_{0,z}
        Assign(o.offset(i, 2, 1, 0), 2 * np + 1, -value),  // -u_{2,x}
        Assign(o.offset(i, 0, 2, 0), 2, -value),           // -u_{0,y}
        Assign(o.offset(i, 1, 2, 0), np + 1, value) ]      //  u_{1,x}
    else if d.dims == 2 then
      [ Assign(o.offset(i, 1, 0, 0), np + 2, value),
        Assign(o.offset(i, 0, 1, 0), 1, -value) ]
    else []
  }

  function ClonesVectorPointEdits(d: TargetData, o: Oracles, i: nat): seq<Edit>
  {
    Concat(EvaluationSites(d), (e: nat) =>
      Concat(d.samplingMultiplier, (m: nat) =>
        Concat(d.dataSamplingMultiplier, (c: nat) =>
          AssignRow(o.offset(i, c, c, e), 0, BasisRow(d, o, Pij(ScalarTaylorPolynomial, -1, e))))))
  }

  function ClonesGradientOfVectorEdits(d: TargetData, o: Oracles, i: nat): seq<Edit>
  {
    var n := d.dims;
    Concat(EvaluationSites(d), (j: nat) =>
      Concat(n, (m0: nat) =>
        Concat(n, (m1: nat) =>
          Concat(n, (m2: nat) =>
            AssignRow(o.offset(i, m0, m1 * n + m2, j), 0, BasisRow(d, o, GradientPij(ScalarTaylorPolynomial, -1, m2, j)))))))
  }

  /** The row of input m is cleared, then column m + 1 (the m-th first-order column) is set. */
  function ClonesDivergenceEdits(d: TargetData, o: Oracles, i: nat, value: real): seq<Edit>
  {
    ClearRow(d, o.offset(i, 0, 0, 0)) + [Assign(o.offset(i, 0, 0, 0), 1, value)]
    + (if d.dims > 1 then ClearRow(d, o.offset(i, 1, 0, 0)) + [Assign(o.offset(i, 1, 0, 0), 2, value)] else [])
    + (if d.dims > 2 then ClearRow(d, o.offset(i, 2, 0, 0)) + [Assign(o.offset(i, 2, 0, 0), 3, value)] else [])
  }

  function ClonesCurlEdits(d: TargetData, o: Oracles, i: nat, value: real): seq<Edit>
  {
    var R := (m: nat, c: nat) => o.offset(i, m, c, 0);
    if d.dims == 3 then
      ClearRow(d, R(0, 0))
      + ClearRow(d, R(1, 0)) + [Assign(R(1, 0), 3, -value)]
      + ClearRow(d, R(2, 0)) + [Assign(R(2, 0), 2, value)]
      + ClearRow(d, R(0, 1)) + [Assign(R(0, 1), 3, value)]
      + ClearRow(d, R(1, 1))
      + ClearRow(d, R(2, 1)) + [Assign(R(2, 1), 1, -value)]
      + ClearRow(d, R(0, 2)) + [Assign(R(0, 2), 2, -value)]
      + ClearRow(d, R(1, 2)) + [Assign(R(1, 2), 1, value)]
      + ClearRow(d, R(2, 2))
    else if d.dims == 2 then
      ClearRow(d, R(0, 0))
      + ClearRow(d, R(1, 0)) + [Assign(R(1, 0), 2, value)]
      + ClearRow(d, R(0, 1)) + [Assign(R(0, 1), 1, -value)]
      + ClearRow(d, R(1, 1))
    else []
  }

  /** Component index the divergence-free basis evaluators take for component m: -(m + 1). */
  function DivFreeComponent(m: nat): int
  {
    -(m as int + 1)
  }

  function DivFreeVectorPointEdits(d: TargetData, o: Oracles, i: nat): seq<Edit>
  {
    var sm := d.samplingMultiplier;
    Concat(EvaluationSites(d), (e: nat) =>
      Concat(sm, (m0: nat) =>
        Concat(sm, (m1: nat) =>
          AssignRow(o.offset(i, m0, m1, e), 0,
                    BasisRow(d, o, Pij(DivergenceFreeVectorTaylorPolynomial, DivFreeComponent(m1), e))))))
  }

  /** The curl row of output m1 at site e: `=` the first term, then `+=`/`-=` the second. */
  function DivFreeCurlEntry(d: TargetData, o: Oracles, i: nat, m0: nat, m1: nat, e: nat, value: real): seq<Edit>
  {
    var row := o.offset(i, m0, m1, e);
    var G := (c: nat, dir: nat) => BasisRow(d, o, GradientPij(DivergenceFreeVectorTaylorPolynomial, DivFreeComponent(c), dir, e));
    if d.dims == 3 then
      if m1 == 0 then AssignRow(row, 0, G(2, 1)) + AccumulateRow(row, Negated(G(1, 2)))            // u2y - u1z
      else if m1 == 1 then AssignRow(row, 0, Negated(G(2, 0))) + AccumulateRow(row, G(0, 2))       // -u2x + u0z
      else AssignRow(row, 0, G(1, 0)) + AccumulateRow(row, Negated(G(0, 1)))                       // u1x - u0y
    else if m1 == 0 then
      [Assign(row, 2, -value), Assign(row, 3, value)]
      + AssignRow(row, 0, G(1, 0)) + AccumulateRow(row, Negated(G(0, 1)))                          // u1x - u0y
    else []
  }

  function DivFreeCurlEdits(d: TargetData, o: Oracles, i: nat, value: real): seq<Edit>
  {
    var sm := d.samplingMultiplier;
    Concat(EvaluationSites(d), (e: nat) =>
      Concat(sm, (m0: nat) =>
        Concat(sm, (m1: nat) => DivFreeCurlEntry(d, o, i, m0, m1, e, value))))
  }

  /** The curl-curl row of output m1 at site e, from four Hessian rows. */
  function DivFreeCurlCurlEntry(d: TargetData, o: Oracles, i: nat, m0: nat, m1: nat, e: nat): seq<Edit>
  {
    var row := o.offset(i, m0, m1, e);
    var H := (c: nat, d1: nat, d2: nat) => BasisRow(d, o, HessianPij(DivergenceFreeVectorTaylorPolynomial, DivFreeComponent(c), d1, d2, e));
    var three :=
      if d.dims != 3 then []
      else if m1 == 0 then  // u1xy - u0yy + u2xz - u0zz
        AssignRow(row, 0, H(1, 0, 1)) + AccumulateRow(row, Negated(H(0, 1, 1)))
        + AccumulateRow(row, H(2, 0, 2)) + AccumulateRow(row, Negated(H(0, 2, 2)))
      else if m1 == 1 then  // -u1xx + u0yx + u2yz - u1zz
        AssignRow(row, 0, Negated(H(1, 0, 0))) + AccumulateRow(row, H(0, 1, 0))
        + AccumulateRow(row, H(2, 1, 2)) + AccumulateRow(row, Negated(H(1, 2, 2)))
      else                  // -u2xx + u0zx - u2yy + u1zy
        AssignRow(row, 0, Negated(H(2, 0, 0))) + AccumulateRow(row, H(0, 2, 0))
        + AccumulateRow(row, Negated(H(2, 1, 1))) + AccumulateRow(row, H(1, 2, 1));
    var two :=
      if d.dims != 2 then []
      else if m1 == 0 then  // u0xx + u1yx - u0xx - u0yy
        AssignRow(row, 0, H(0, 0, 0)) + AccumulateRow(row, H(1, 1, 0))
        + AccumulateRow(row, Negated(H(0, 0, 0))) + AccumulateRow(row, Negated(H(0, 1, 1)))
      else if m1 == 1 then  // u0xy + u1yy - u1xx - u1yy
        AssignRow(row, 0, H(0, 0, 1)) + AccumulateRow(row, H(1, 1, 1))
        + AccumulateRow(row, Negated(H(1, 0, 0))) + AccumulateRow(row, Negated(H(1, 1, 1)))
      else [];
    three + two
  }

  function DivFreeCurlCurlEdits(d: TargetData, o: Oracles, i: nat): seq<Edit>
  {
    var sm := d.samplingMultiplier;
    Concat(EvaluationSites(d), (e: nat) =>
      Concat(sm, (m0: nat) =>
        Concat(sm, (m1: nat) => DivFreeCurlCurlEntry(d, o, i, m0, m1, e))))
  }

  function DivFreeGradientOfVectorEdits(d: TargetData, o: Oracles, i: nat): seq<Edit>
  {
    var sm := d.samplingMultiplier;
    Concat(EvaluationSites(d), (e: nat) =>
      Concat(sm, (m0: nat) =>
        Concat(sm, (m1: nat) =>
          Concat(sm, (m2: nat) =>
            AssignRow(o.offset(i, m0, m1 * sm + m2, e), 0,
                      BasisRow(d, o, GradientPij(DivergenceFreeVectorTaylorPolynomial, DivFreeComponent(m1), m2, e)))))))
  }

  // ---------------------------------------------------------------------
  // The face average over the sub-triangles of a face
  // ---------------------------------------------------------------------

  /** Sum over the quadrature points q < nQ of sub-triangle v. */
  function QuadratureSum(term: (nat, nat, Exponent) -> real, v: nat, nQ: nat, e: Exponent): real
  {
    if nQ == 0 then 0.0 else QuadratureSum(term, v, nQ - 1, e) + term(v, nQ - 1, e)
  }

  /**
   * The face average of the standard (non-manifold) branch, as written: the
   * quadrature sum restarts at the first quadrature point of EVERY
   * sub-triangle, so each column ends up holding the last sub-triangle's
   * sum only.
   */
  method FaceAverageRowAsWritten(P: array2<real>, row: nat, ghost M: seq<Exponent>, p: nat, nV: nat, nQ: nat, term: (nat, nat, Exponent) -> real)
    requires Enumerates3(M, p) && row < P.Length0 && |M| <= P.Length1
    modifies P
    ensures forall c :: 0 <= c < |M| ==>
      P[row, c] == if nV > 0 && nQ > 0 then QuadratureSum(term, nV - 1, nQ, M[c]) else old(P[row, c])
    ensures forall r, c :: 0 <= r < P.Length0 && 0 <= c < P.Length1 && (r != row || c >= |M|) ==>
      P[r, c] == old(P[r, c])
  {
    var v := 0;
    while v < nV
      invariant v <= nV
      invariant forall c :: 0 <= c < |M| ==>
        P[row, c] == if v > 0 && nQ > 0 then QuadratureSum(term, v - 1, nQ, M[c]) else old(P[row, c])
      invariant forall r, c :: 0 <= r < P.Length0 && 0 <= c < P.Length1 && (r != row || c >= |M|) ==>
        P[r, c] == old(P[r, c])
    {
      var q := 0;
      while q < nQ
        invariant q <= nQ
        invariant forall c :: 0 <= c < |M| ==>
          P[row, c] == if q == 0 then (if v > 0 && nQ > 0 then QuadratureSum(term, v - 1, nQ, M[c]) else old(P[row, c]))
                       else QuadratureSum(term, v, q, M[c])
        invariant forall r, c :: 0 <= r < P.Length0 && 0 <= c < P.Length1 && (r != row || c >= |M|) ==>
          P[r, c] == old(P[r, c])
      {
        FaceAverageQuadraturePoint3(P, row, M, p, q == 0, (e: Exponent) => term(v, q, e));
        q := q + 1;
      }
      v := v + 1;
    }
  }

  // ---------------------------------------------------------------------
  // The intended face average
  //
  // Each term of the standard branch is divided by its own sub-triangle's
  // reference-scaled area, so QuadratureSum(term, v, nQ, e) is the
  // quadrature average of the monomial over sub-triangle v. The average
  // over the face weights every sub-triangle by its share of the face's
  // area, as the manifold branch does with scaling_factor / entire_cell_area.
  // ---------------------------------------------------------------------

  /** Sum over the sub-triangles v < nV of fraction(v) times sub-triangle v's quadrature average. */
  function AreaWeightedSum(term: (nat, nat, Exponent) -> real, fraction: nat -> real, nV: nat, nQ: nat, e: Exponent): real
  {
    if nV == 0 then 0.0
    else AreaWeightedSum(term, fraction, nV - 1, nQ, e) + fraction(nV - 1) * QuadratureSum(term, nV - 1, nQ, e)
  }

  /** The sum of the area fractions of the first nV sub-triangles. */
  function FractionSum(fraction: nat -> real, nV: nat): real
  {
    if nV == 0 then 0.0 else FractionSum(fraction, nV - 1) + fraction(nV - 1)
  }

  /** The sum of the first nQ quadrature weights, normalised by the reference triangle's area. */
  function WeightSum(weight: nat -> real, nQ: nat): real
  {
    if nQ == 0 then 0.0 else WeightSum(weight, nQ - 1) + weight(nQ - 1)
  }

  /**
   * The face average with every sub-triangle's contribution weighted by its
   * area fraction and the sum restarted only at the first quadrature point
   * of the first sub-triangle: every column k of the row ends up holding
   * the area-weighted sum of the sub-triangle averages of its monomial.
   */
  method FaceAverageRowWeighted(P: array2<real>, row: nat, ghost M: seq<Exponent>, p: nat, nV: nat, nQ: nat,
                                term: (nat, nat, Exponent) -> real, fraction: nat -> real)
    requires Enumerates3(M, p) && row < P.Length0 && |M| <= P.Length1
    modifies P
    ensures forall c :: 0 <= c < |M| ==>
      P[row, c] == if nV > 0 && nQ > 0 then AreaWeightedSum(term, fraction, nV, nQ, M[c]) else old(P[row, c])
    ensures forall r, c :: 0 <= r < P.Length0 && 0 <= c < P.Length1 && (r != row || c >= |M|) ==>
      P[r, c] == old(P[r, c])
  {
    var v := 0;
    while v < nV
      invariant v <= nV
      invariant forall c :: 0 <= c < |M| ==>
        P[row, c] == if v > 0 && nQ > 0 then AreaWeightedSum(term, fraction, v, nQ, M[c]) else old(P[row, c])
      invariant forall r, c :: 0 <= r < P.Length0 && 0 <= c < P.Length1 && (r != row || c >= |M|) ==>
        P[r, c] == old(P[r, c])
    {
      var q := 0;
      while q < nQ
        invariant q <= nQ
        invariant forall c :: 0 <= c < |M| ==>
          P[row, c] == if (v == 0 || nQ == 0) && q == 0 then old(P[row, c])
                       else AreaWeightedSum(term, fraction, v, nQ, M[c]) + fraction(v) * QuadratureSum(term, v, q, M[c])
        invariant forall r, c :: 0 <= r < P.Length0 && 0 <= c < P.Length1 && (r != row || c >= |M|) ==>
          P[r, c] == old(P[r, c])
      {
        FaceAverageQuadraturePoint3(P, row, M, p, v == 0 && q == 0, (e: Exponent) => fraction(v) * term(v, q, e));
        q := q + 1;
      }
      v := v + 1;
    }
  }

  /** Sub-triangles of zero weight contribute nothing. */
  lemma {:induction false} AreaWeightedSumZero(term: (nat, nat, Exponent) -> real, fraction: nat -> real, m: nat, nQ: nat, e: Exponent)
    requires forall v: nat :: v < m ==> fraction(v) == 0.0
    ensures AreaWeightedSum(term, fraction, m, nQ, e) == 0.0
  {
    if m > 0 {
      AreaWeightedSumZero(term, fraction, m - 1, nQ, e);
    }
  }

  /** All of the area on the last of nV sub-triangles. */
  function LastOnly(nV: nat): nat -> real
  {
    (v: nat) => if v + 1 == nV then 1.0 else 0.0
  }

  /**
   * What the standard branch as written leaves is the area-weighted sum
   * that gives the last sub-triangle the whole face's area.
   */
  lemma AsWrittenIsLastTriangleOnly(term: (nat, nat, Exponent) -> real, nV: nat, nQ: nat, e: Exponent)
    requires nV > 0
    ensures QuadratureSum(term, nV - 1, nQ, e) == AreaWeightedSum(term, LastOnly(nV), nV, nQ, e)
  {
    AreaWeightedSumZero(term, LastOnly(nV), nV - 1, nQ, e);
  }

  /** When every sub-triangle has the same average a, the area-weighted sum is a times the total fraction. */
  lemma {:induction false} EqualAverages(term: (nat, nat, Exponent) -> real, fraction: nat -> real, nV: nat, nQ: nat, e: Exponent, a: real)
    requires forall v: nat :: v < nV ==> QuadratureSum(term, v, nQ, e) == a
    ensures AreaWeightedSum(term, fraction, nV, nQ, e) == FractionSum(fraction, nV) * a
  {
    if nV > 0 {
      EqualAverages(term, fraction, nV - 1, nQ, e, a);
    }
  }

  /**
   * When every sub-triangle has the same average and the area fractions sum
   * to 1, the as-written value and the intended face average agree; in
   * particular they agree on a face with a single sub-triangle.
   */
  lemma AsWrittenAgreesOnEqualAverages(term: (nat, nat, Exponent) -> real, fraction: nat -> real, nV: nat, nQ: nat, e: Exponent)
    requires nV > 0 && FractionSum(fraction, nV) == 1.0
    requires forall v: nat :: v < nV ==> QuadratureSum(term, v, nQ, e) == QuadratureSum(term, nV - 1, nQ, e)
    ensures AreaWeightedSum(term, fraction, nV, nQ, e) == QuadratureSum(term, nV - 1, nQ, e)
  {
    EqualAverages(term, fraction, nV, nQ, e, QuadratureSum(term, nV - 1, nQ, e));
  }

  /** The quadrature sum of a term constant over sub-triangle v is the weight sum times that constant. */
  lemma {:induction false} QuadratureOfConstant(term: (nat, nat, Exponent) -> real, weight: nat -> real, v: nat, nQ: nat, e: Exponent, k: real)
    requires forall q: nat :: q < nQ ==> term(v, q, e) == weight(q) * k
    ensures QuadratureSum(term, v, nQ, e) == WeightSum(weight, nQ) * k
  {
    if nQ > 0 {
      QuadratureOfConstant(term, weight, v, nQ - 1, e, k);
    }
  }

  /**
   * A monomial constant over the face averages to that constant: with
   * quadrature weights summing to 1 and area fractions summing to 1, the
   * intended face average of the value k is k.
   */
  lemma ConstantAveragesToItself(term: (nat, nat, Exponent) -> real, weight: nat -> real, fraction: nat -> real,
                                 nV: nat, nQ: nat, e: Exponent, k: real)
    requires forall v: nat, q: nat :: v < nV && q < nQ ==> term(v, q, e) == weight(q) * k
    requires WeightSum(weight, nQ) == 1.0 && FractionSum(fraction, nV) == 1.0
    ensures AreaWeightedSum(term, fraction, nV, nQ, e) == k
  {
    forall v: nat | v < nV
      ensures QuadratureSum(term, v, nQ, e) == k
    {
      QuadratureOfConstant(term, weight, v, nQ, e, k);
    }
    EqualAverages(term, fraction, nV, nQ, e, k);
  }

  /** x of vertex v of the square face (-1,-1), (1,-1), (1,1), (-1,1). */
  function SquareVertexX(v: nat): real
  {
    if v % 4 == 0 || v % 4 == 3 then -1.0 else 1.0
  }

  /**
   * The term of the monomial x on sub-triangle v of the square under the
   * one-point centroid rule (normalised weight 1), with the target at the
   * face's midpoint (0, 0) and epsilon 1: the x of the centroid of the
   * triangle (midpoint, vertex v, vertex v + 1).
   */
  function SquareCentroidX(v: nat, q: nat, e: Exponent): real
  {
    (SquareVertexX(v) + SquareVertexX((v + 1) % 4)) / 3.0
  }

  /**
   * The square [-1, 1]^2 split at its midpoint into four sub-triangles of
   * equal area: the face average of x is 0, which the area-weighted sum
   * gives, while the standard branch as written leaves the left
   * sub-triangle's average -2/3.
   */
  lemma SquareFaceCounterexample(e: Exponent)
    ensures QuadratureSum(SquareCentroidX, 3, 1, e) == -2.0 / 3.0
    ensures AreaWeightedSum(SquareCentroidX, (v: nat) => 0.25, 4, 1, e) == 0.0
  {
    var quarter := (v: nat) => 0.25;
    assert QuadratureSum(SquareCentroidX, 0, 1, e) == 0.0;
    assert QuadratureSum(SquareCentroidX, 1, 1, e) == 2.0 / 3.0;
    assert QuadratureSum(SquareCentroidX, 2, 1, e) == 0.0;
    assert QuadratureSum(SquareCentroidX, 3, 1, e) == -2.0 / 3.0;
    assert AreaWeightedSum(SquareCentroidX, quarter, 2, 1, e) == 0.25 * (2.0 / 3.0) by {
      assert AreaWeightedSum(SquareCentroidX, quarter, 1, 1, e) == 0.0;
    }
    assert AreaWeightedSum(SquareCentroidX, quarter, 3, 1, e) == 0.25 * (2.0 / 3.0);
  }

  /** What the standard face average as written leaves in the row, as writes. */
  function FaceAverageEdits(d: TargetData, o: Oracles, i: nat): seq<Edit>
  {
    var M := Monomials3(d.polyOrder);
    if d.faceVertices > 0 && d.quadraturePoints > 0 then
      AssignRow(o.offset(i, 0, 0, 0), 0,
                seq(|M|, k requires 0 <= k < |M| => QuadratureSum(o.faceTerm, d.faceVertices - 1, d.quadraturePoints, M[k])))
    else []
  }

  // ---------------------------------------------------------------------
  // The dispatch
  // ---------------------------------------------------------------------

  function ScalarBranch(d: TargetData, o: Oracles, i: nat): Result<Effect, TargetError>
    requires i < |d.operations| && d.epsilon > 0.0
  {
    var op := d.operations[i];
    if op == ScalarPointEvaluation || (op == VectorPointEvaluation && d.dims == 1) then
      Success(Effect(ScalarPointEdits(d, o, i), true))
    else if op == LaplacianOfScalarPointEvaluation then
      Success(Effect(LaplacianEdits(o.offset(i, 0, 0, 0), d.dims, InverseEpsilonSquared(d)), false))
    else if op == GradientOfScalarPointEvaluation then
      Success(Effect(ScalarGradientEdits(d, o, i), true))
    else if op == PartialXOfScalarPointEvaluation then
      Success(Effect(PartialEdits(d, o, i, 0), true))
    else if op == PartialYOfScalarPointEvaluation then
      if d.dims > 1 then Success(Effect(PartialEdits(d, o, i, 1), true)) else Failure(DimensionTooSmall)
    else if op == PartialZOfScalarPointEvaluation then
      if d.dims > 2 then Success(Effect(PartialEdits(d, o, i, 2), true)) else Failure(DimensionTooSmall)
    else if op == DivergenceOfVectorPointEvaluation && d.polynomialSampling == StaggeredEdgeAnalyticGradientIntegralSample then
      Success(Effect(LaplacianEdits(o.offset(i, 0, 0, 0), d.dims, InverseEpsilonSquared(d)), false))
    else if op == ScalarFaceAverageEvaluation then
      Success(Effect(FaceAverageEdits(d, o, i), false))
    else
      Failure(NotYetAvailable)
  }

  function VectorBranch(d: TargetData, o: Oracles, i: nat): Result<Effect, TargetError>
    requires i < |d.operations| && d.epsilon > 0.0
  {
    var op := d.operations[i];
    if op == ScalarPointEvaluation || (op == VectorPointEvaluation && d.dims == 1) then
      Success(Effect(ScalarPointEdits(d, o, i), true))
    else if op == VectorPointEvaluation then
      Success(Effect(VectorPointEdits(d, o, i), true))
    else if op == GradientOfScalarPointEvaluation && d.polynomialSampling == StaggeredEdgeIntegralSample then
      Success(Effect(VectorPointEdits(d, o, i), true))
    else if op == GradientOfScalarPointEvaluation then
      Success(Effect(VectorGradientEdits(d, o, i), true))
    else if op == GradientOfVectorPointEvaluation then
      Success(Effect(VectorGradientOfVectorEdits(d, o, i), true))
    else if op == DivergenceOfVectorPointEvaluation then
      if d.polynomialSampling == StaggeredEdgeIntegralSample then
        Success(Effect(StaggeredDivergenceEdits(o.offset(i, 0, 0, 0), d.dims, d.targetNP, InverseEpsilon(d)), false))
      else
        Success(Effect(VectorDivergenceEdits(d, o, i), true))
    else if op == CurlOfVectorPointEvaluation then
      Success(Effect(VectorCurlEdits(d, o, i, InverseEpsilon(d)), false))
    else
      Failure(NotYetAvailable)
  }

  function ClonesBranch(d: TargetData, o: Oracles, i: nat): Result<Effect, TargetError>
    requires i < |d.operations| && d.epsilon > 0.0
  {
    var op := d.operations[i];
    if op == ScalarPointEvaluation || (op == VectorPointEvaluation && d.dims == 1) then
      Success(Effect(ScalarPointEdits(d, o, i), true))
    else if op == VectorPointEvaluation then
      Success(Effect(ClonesVectorPointEdits(d, o, i), true))
    else if op == LaplacianOfScalarPointEvaluation then
      Success(Effect(LaplacianEdits(o.offset(i, 0, 0, 0), d.dims, InverseEpsilonSquared(d)), false))
    else if op == GradientOfScalarPointEvaluation then
      Success(Effect(ScalarGradientEdits(d, o, i), true))
    else if op == GradientOfVectorPointEvaluation then
      Success(Effect(ClonesGradientOfVectorEdits(d, o, i), true))
    else if op == PartialXOfScalarPointEvaluation then
      Success(Effect(PartialEdits(d, o, i, 0), true))
    else if op == PartialYOfScalarPointEvaluation then
      if d.dims > 1 then Success(Effect(PartialEdits(d, o, i, 1), true)) else Success(Effect([], false))
    else if op == PartialZOfScalarPointEvaluation then
      if d.dims > 2 then Success(Effect(PartialEdits(d, o, i, 2), true)) else Success(Effect([], false))
    else if op == DivergenceOfVectorPointEvaluation then
      Success(Effect(ClonesDivergenceEdits(d, o, i, InverseEpsilon(d)), false))
    else if op == CurlOfVectorPointEvaluation then
      Success(Effect(ClonesCurlEdits(d, o, i, InverseEpsilon(d)), false))
    else
      Failure(NotYetAvailable)
  }

  /** The divergence-free space has no final `else`: other operations write nothing. */
  function DivFreeBranch(d: TargetData, o: Oracles, i: nat): Result<Effect, TargetError>
    requires i < |d.operations| && d.epsilon > 0.0
  {
    var op := d.operations[i];
    if op == VectorPointEvaluation then
      Success(Effect(DivFreeVectorPointEdits(d, o, i), true))
    else if op == CurlOfVectorPointEvaluation then
      Success(Effect(DivFreeCurlEdits(d, o, i, InverseEpsilon(d)), true))
    else if op == CurlCurlOfVectorPointEvaluation then
      Success(Effect(DivFreeCurlCurlEdits(d, o, i), true))
    else if op == GradientOfVectorPointEvaluation then
      Success(Effect(DivFreeGradientOfVectorEdits(d, o, i), true))
    else
      Success(Effect([], false))
  }

  /** The toolkit's own branch for operation i. */
  function ToolkitBranch(d: TargetData, o: Oracles, i: nat): Result<Effect, TargetError>
    requires i < |d.operations| && d.epsilon > 0.0
  {
    match d.space
    case ScalarTaylorPolynomial => ScalarBranch(d, o, i)
    case VectorTaylorPolynomial => VectorBranch(d, o, i)
    case VectorOfScalarClonesTaylorPolynomial => ClonesBranch(d, o, i)
    case DivergenceFreeVectorTaylorPolynomial => DivFreeBranch(d, o, i)
    case OtherReconstructionSpace => Failure(NotYetAvailable)
  }

  /** The writes of one pass of the loop over operations, and the assertion that stops the kernel, if one does. */
  datatype Stage = Stage(edits: seq<Edit>, failure: Option<TargetError>)

  function OperationPass(d: TargetData, o: Oracles, i: nat): Stage
    requires i < |d.operations| && d.epsilon > 0.0
  {
    match o.user(i, d.operations[i])
    case Some(edits) => Stage(edits, None)
    case None =>
      match ToolkitBranch(d, o, i)
      case Failure(err) => Stage([], Some(err))
      case Success(effect) =>
        if d.additionalSites > 0 && !effect.sitesHandled then Stage(effect.edits, Some(AdditionalSitesNotHandled))
        else Stage(effect.edits, None)
  }

  /** The loop over the first n operations, stopping at the first failed assertion. */
  function Run(d: TargetData, o: Oracles, n: nat): Stage
    requires n <= |d.operations| && d.epsilon > 0.0
  {
    if n == 0 then Stage([], None)
    else
      var before := Run(d, o, n - 1);
      if before.failure.Some? then before
      else
        var pass := OperationPass(d, o, n - 1);
        Stage(before.edits + pass.edits, pass.failure)
  }

  /** An earlier stage of the loop wrote a prefix of what a later one has written. */
  lemma {:induction false} RunPrefix(d: TargetData, o: Oracles, i: nat, n: nat)
    requires i <= n <= |d.operations| && d.epsilon > 0.0
    ensures Run(d, o, i).edits <= Run(d, o, n).edits
    ensures Run(d, o, i).failure.Some? ==> Run(d, o, n) == Run(d, o, i)
    decreases n - i
  {
    if i < n {
      RunPrefix(d, o, i, n - 1);
    }
  }

  /** P_target_row, delta and thread_workspace are set to zero. */
  method ZeroScratch(P: array2<real>, delta: array<real>, workspace: array<real>)
    modifies P, delta, workspace
    ensures forall r, c :: 0 <= r < P.Length0 && 0 <= c < P.Length1 ==> P[r, c] == 0.0
    ensures forall j :: 0 <= j < delta.Length ==> delta[j] == 0.0
    ensures forall j :: 0 <= j < workspace.Length ==> workspace[j] == 0.0
  {
    var j := 0;
    while j < P.Length0
      invariant j <= P.Length0
      invariant forall r, c :: 0 <= r < j && 0 <= c < P.Length1 ==> P[r, c] == 0.0
    {
      var k := 0;
      while k < P.Length1
        invariant k <= P.Length1
        invariant forall r, c :: 0 <= r < j && 0 <= c < P.Length1 ==> P[r, c] == 0.0
        invariant forall c :: 0 <= c < k ==> P[j, c] == 0.0
      {
        P[j, k] := 0.0;
        k := k + 1;
      }
      j := j + 1;
    }
    j := 0;
    while j < delta.Length
      invariant j <= delta.Length
      invariant forall t :: 0 <= t < j ==> delta[t] == 0.0
      invariant forall r, c :: 0 <= r < P.Length0 && 0 <= c < P.Length1 ==> P[r, c] == 0.0
    {
      delta[j] := 0.0;
      j := j + 1;
    }
    j := 0;
    while j < workspace.Length
      invariant j <= workspace.Length
      invariant forall t :: 0 <= t < j ==> workspace[t] == 0.0
      invariant forall t :: 0 <= t < delta.Length ==> delta[t] == 0.0
      invariant forall r, c :: 0 <= r < P.Length0 && 0 <= c < P.Length1 ==> P[r, c] == 0.0
    {
      workspace[j] := 0.0;
      j := j + 1;
    }
  }

  /** The operation is the face average taken by the toolkit's scalar branch. */
  predicate IsToolkitFaceAverage(d: TargetData, o: Oracles, i: nat)
    requires i < |d.operations|
  {
    o.user(i, d.operations[i]).None? && d.space == ScalarTaylorPolynomial
    && d.operations[i] == ScalarFaceAverageEvaluation
  }

  /** The writes of pass i are among those of the whole run, so they fit wherever the run's do. */
  lemma PassFits(d: TargetData, o: Oracles, i: nat, rows: nat, cols: nat)
    requires i < |d.operations| && d.epsilon > 0.0
    requires Run(d, o, i).failure.None?
    requires FitsIn(Run(d, o, |d.operations|).edits, rows, cols)
    ensures Run(d, o, i + 1).edits == Run(d, o, i).edits + OperationPass(d, o, i).edits
    ensures FitsIn(OperationPass(d, o, i).edits, rows, cols)
  {
    var pass := OperationPass(d, o, i);
    var before := |Run(d, o, i).edits|;
    RunPrefix(d, o, i + 1, |d.operations|);
    forall k | 0 <= k < |pass.edits|
      ensures pass.edits[k].row < rows && pass.edits[k].col < cols
    {
      assert pass.edits[k] == Run(d, o, i + 1).edits[before + k] == Run(d, o, |d.operations|).edits[before + k];
    }
  }

  /** The face average's pass writes the last sub-triangle's quadrature sums into the first |Monomials3| columns of its row. */
  lemma FaceAveragePass(d: TargetData, o: Oracles, i: nat)
    requires i < |d.operations| && d.epsilon > 0.0
    requires IsToolkitFaceAverage(d, o, i) && d.faceVertices > 0 && d.quadraturePoints > 0
    ensures OperationPass(d, o, i).edits == FaceAverageEdits(d, o, i)
    ensures |Monomials3(d.polyOrder)| > 0
  {
    Monomials3Nonempty(d.polyOrder);
  }

  /** One pass of the loop over operations, performed on P. */
  method PerformPass(d: TargetData, o: Oracles, P: array2<real>, i: nat)
    requires i < |d.operations| && d.epsilon > 0.0
    requires FitsIn(OperationPass(d, o, i).edits, P.Length0, P.Length1)
    modifies P
    ensures forall r, c :: 0 <= r < P.Length0 && 0 <= c < P.Length1 ==>
      P[r, c] == CellAfter(old(P[r, c]), OperationPass(d, o, i).edits, r, c)
  {
    if IsToolkitFaceAverage(d, o, i) && d.faceVertices > 0 && d.quadraturePoints > 0 {
      FaceAveragePass(d, o, i);
      FaceAverageInPlace(d, o, P, i);
    } else {
      ApplyEdits(P, OperationPass(d, o, i).edits);
    }
  }

  /** The face average's writes, performed by the loops as written. */
  method FaceAverageInPlace(d: TargetData, o: Oracles, P: array2<real>, i: nat)
    requires d.faceVertices > 0 && d.quadraturePoints > 0 && |Monomials3(d.polyOrder)| > 0
    requires FitsIn(FaceAverageEdits(d, o, i), P.Length0, P.Length1)
    modifies P
    ensures forall r, c :: 0 <= r < P.Length0 && 0 <= c < P.Length1 ==>
      P[r, c] == CellAfter(old(P[r, c]), FaceAverageEdits(d, o, i), r, c)
  {
    var M := Monomials3(d.polyOrder);
    var row := o.offset(i, 0, 0, 0);
    var sums := seq(|M|, k requires 0 <= k < |M| => QuadratureSum(o.faceTerm, d.faceVertices - 1, d.quadraturePoints, M[k]));
    var edits := FaceAverageEdits(d, o, i);
    assert edits == AssignRow(row, 0, sums);
    assert edits[|M| - 1].row == row && edits[|M| - 1].col == |M| - 1;
    Monomials3Enumerates(d.polyOrder);
    FaceAverageRowAsWritten(P, row, M, d.polyOrder, d.faceVertices, d.quadraturePoints, o.faceTerm);
    forall r, c | 0 <= r < P.Length0 && 0 <= c < P.Length1
      ensures P[r, c] == CellAfter(old(P[r, c]), edits, r, c)
    {
      AssignRowCell(old(P[r, c]), row, 0, sums, r, c);
    }
  }

  /**
   * Zeroes the buffers, then runs the operations in order; stops at the
   * first failed assertion. P_target_row ends up as the writes of Run leave
   * it, from all zeros.
   */
  method ComputeTargetFunctionals(d: TargetData, o: Oracles, P: array2<real>, delta: array<real>, workspace: array<real>)
    returns (outcome: Outcome<TargetError>)
    requires d.epsilon > 0.0
    requires FitsIn(Run(d, o, |d.operations|).edits, P.Length0, P.Length1)
    modifies P, delta, workspace
    ensures outcome == match Run(d, o, |d.operations|).failure
                       case None => Pass
                       case Some(err) => Fail(err)
    ensures forall r, c :: 0 <= r < P.Length0 && 0 <= c < P.Length1 ==>
      P[r, c] == CellAfter(0.0, Run(d, o, |d.operations|).edits, r, c)
  {
    ZeroScratch(P, delta, workspace);
    var n := |d.operations|;
    var i := 0;
    while i < n
      invariant i <= n
      invariant Run(d, o, i).failure.None?
      invariant forall r, c :: 0 <= r < P.Length0 && 0 <= c < P.Length1 ==>
        P[r, c] == CellAfter(0.0, Run(d, o, i).edits, r, c)
    {
      var failure := PerformStage(d, o, P, i);
      if failure.Some? {
        return Fail(failure.value);
      }
      i := i + 1;
    }
    return Pass;
  }

  /**
   * One turn of the loop over the operations: P goes from the state after
   * the first i passes to the state after the first i + 1, and a failed
   * assertion ends the run where it stands.
   */
  method PerformStage(d: TargetData, o: Oracles, P: array2<real>, i: nat) returns (failure: Option<TargetError>)
    requires i < |d.operations| && d.epsilon > 0.0
    requires Run(d, o, i).failure.None?
    requires FitsIn(Run(d, o, |d.operations|).edits, P.Length0, P.Length1)
    requires forall r, c :: 0 <= r < P.Length0 && 0 <= c < P.Length1 ==>
      P[r, c] == CellAfter(0.0, Run(d, o, i).edits, r, c)
    modifies P
    ensures failure == Run(d, o, i + 1).failure
    ensures failure.Some? ==> Run(d, o, |d.operations|) == Run(d, o, i + 1)
    ensures forall r, c :: 0 <= r < P.Length0 && 0 <= c < P.Length1 ==>
      P[r, c] == CellAfter(0.0, Run(d, o, i + 1).edits, r, c)
  {
    PassFits(d, o, i, P.Length0, P.Length1);
    RunFailureStep(d, o, i);
    RunCellsStep(d, o, i);
    PerformPass(d, o, P, i);
    failure := OperationPass(d, o, i).failure;
  }

  /** Pass i's failure is the run's after i + 1 passes, and a failure ends the run there. */
  lemma RunFailureStep(d: TargetData, o: Oracles, i: nat)
    requires i < |d.operations| && d.epsilon > 0.0
    requires Run(d, o, i).failure.None?
    ensures OperationPass(d, o, i).failure == Run(d, o, i + 1).failure
    ensures Run(d, o, i + 1).failure.Some? ==> Run(d, o, |d.operations|) == Run(d, o, i + 1)
  {
    RunStep(d, o, i);
    RunPrefix(d, o, i + 1, |d.operations|);
  }

  /** Every cell after i + 1 passes is the cell after i passes updated by pass i. */
  lemma RunCellsStep(d: TargetData, o: Oracles, i: nat)
    requires i < |d.operations| && d.epsilon > 0.0
    requires Run(d, o, i).failure.None?
    ensures forall r, c ::
      CellAfter(0.0, Run(d, o, i + 1).edits, r, c)
        == CellAfter(CellAfter(0.0, Run(d, o, i).edits, r, c), OperationPass(d, o, i).edits, r, c)
  {
    forall r, c
      ensures CellAfter(0.0, Run(d, o, i + 1).edits, r, c)
        == CellAfter(CellAfter(0.0, Run(d, o, i).edits, r, c), OperationPass(d, o, i).edits, r, c)
    {
      RunCellStep(d, o, i, r, c);
    }
  }

  /** A run that has not failed takes the next pass's edits and its failure. */
  lemma RunStep(d: TargetData, o: Oracles, i: nat)
    requires i < |d.operations| && d.epsilon > 0.0
    requires Run(d, o, i).failure.None?
    ensures Run(d, o, i + 1) == Stage(Run(d, o, i).edits + OperationPass(d, o, i).edits, OperationPass(d, o, i).failure)
  {
  }

  /** A cell after i + 1 passes is the cell after i passes, updated by pass i. */
  lemma RunCellStep(d: TargetData, o: Oracles, i: nat, r: nat, c: nat)
    requires i < |d.operations| && d.epsilon > 0.0
    requires Run(d, o, i).failure.None?
    ensures CellAfter(0.0, Run(d, o, i + 1).edits, r, c)
      == CellAfter(CellAfter(0.0, Run(d, o, i).edits, r, c), OperationPass(d, o, i).edits, r, c)
  {
    RunStep(d, o, i);
    CellAfterAppend(0.0, Run(d, o, i).edits, OperationPass(d, o, i).edits, r, c);
  }

  lemma Monomials3Nonempty(p: nat)
    ensures |Monomials3(p)| > 0
  {
    assert |Block3(p, 0)| == p + 1;
    assert |DegreeFrom3(p, 0)| >= |Block3(p, 0)|;
  }
}
