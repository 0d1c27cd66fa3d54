/**
 * The integer sizing done by GMLS::generateAlphas before any kernel runs:
 * the sampling and basis multipliers, the polynomial-order bump for
 * gradient sampling, and the dimensions of the per-target matrices.
 *
 * The rank tables (SamplingOutputTensorRank, ReconstructionSpaceRank) and
 * getNP live in headers that are not part of this model: their values are
 * the fields dataSamplingRank and reconstructionSpaceRank, and NP counts
 * are parameters.
 */
module GmlsSizing {
  import opened GmlsTypes

  /**
   * The rule both multipliers follow: one component for a rank-0 tensor,
   * otherwise one per dimension, or one per tangent dimension on a manifold.
   */
  function Multiplier(rank: nat, solver: DenseSolverType, dims: nat): int
  {
    if rank > 0 then (if solver == MANIFOLD then dims - 1 else dims) else 1
  }

  /**
   * For the dimensions the toolkit runs in (1 to 3, and at least 2 on a
   * manifold) a multiplier counts components: it is between 1 and dims, and
   * it is 1 exactly for a rank-0 tensor or a curve (a manifold in 2-D).
   */
  lemma MultiplierBounds(rank: nat, solver: DenseSolverType, dims: nat)
    requires 1 <= dims <= 3 && (solver == MANIFOLD ==> dims >= 2)
    ensures 1 <= Multiplier(rank, solver, dims) <= dims
    ensures Multiplier(rank, solver, dims) == 1 <==> rank == 0 || (solver == MANIFOLD && dims == 2) || dims == 1
  {
  }

  /** The polynomial order after setup: one higher when the basis is sampled by gradient edge integrals. */
  function PolyOrderAfterSetup(polyOrder: nat, polynomialSampling: SamplingFunctional): nat
  {
    if polynomialSampling == StaggeredEdgeAnalyticGradientIntegralSample then polyOrder + 1 else polyOrder
  }

  /** The larger of two sizes: the `a > b ? a : b` of the sizing code. */
  function Max(a: int, b: int): (m: int)
    ensures m >= a && m >= b && (m == a || m == b)
  {
    if a > b then a else b
  }

  datatype Sizes = Sizes(maxNumRows: int, thisNumColumns: int, maxMatrixDimension: int)

  /** The standard problem: rows of sampled neighbours, columns of basis components. */
  function StandardSizes(samplingMultiplier: int, basisMultiplier: int, maxNeighbors: nat, np: nat): (s: Sizes)
    ensures s.maxNumRows == samplingMultiplier * maxNeighbors
    ensures s.thisNumColumns == basisMultiplier * np
    ensures s.maxMatrixDimension >= s.maxNumRows && s.maxMatrixDimension >= s.thisNumColumns
    ensures s.maxMatrixDimension == s.maxNumRows || s.maxMatrixDimension == s.thisNumColumns
  {
    var rows := samplingMultiplier * maxNeighbors;
    var columns := basisMultiplier * np;
    Sizes(rows, columns, Max(rows, columns))
  }

  datatype ManifoldSizes = ManifoldSizes(
    maxNumRows: int,
    maxManifoldNP: int,
    maxNP: int,
    thisNumColumns: int,
    maxMatrixDimension: int,
    maxPRowSize: int)

  /**
   * The manifold problem: the basis is the larger of the curvature and the
   * target basis on the tangent plane, and the square matrix must hold the
   * largest of those and the ambient basis.
   */
  function ManifoldSizing(samplingMultiplier: int, basisMultiplier: int, maxNeighbors: nat, dims: nat,
                          manifoldNP: nat, targetNP: nat, np: nat, totalAlphaValues: nat): ManifoldSizes
  {
    var maxManifoldNP := Max(manifoldNP, targetNP);
    var maxNP := Max(maxManifoldNP, np);
    ManifoldSizes(
      samplingMultiplier * maxNeighbors,
      maxManifoldNP,
      maxNP,
      basisMultiplier * maxManifoldNP,
      Max(maxNeighbors * samplingMultiplier, maxNP * basisMultiplier),
      Max((dims - 1) * manifoldNP, maxNP * totalAlphaValues * basisMultiplier))
  }

  /**
   * max_NP bounds every basis size, and with a nonnegative basis multiplier
   * the square matrix holds both the rows and the columns of the manifold problem.
   */
  lemma ManifoldSizesCover(samplingMultiplier: int, basisMultiplier: int, maxNeighbors: nat, dims: nat,
                           manifoldNP: nat, targetNP: nat, np: nat, totalAlphaValues: nat)
    requires basisMultiplier >= 0
    ensures var s := ManifoldSizing(samplingMultiplier, basisMultiplier, maxNeighbors, dims,
                                    manifoldNP, targetNP, np, totalAlphaValues);
      s.maxNP >= manifoldNP && s.maxNP >= targetNP && s.maxNP >= np
      && (s.maxNP == manifoldNP || s.maxNP == targetNP || s.maxNP == np)
      && s.maxMatrixDimension >= s.maxNumRows
      && s.maxMatrixDimension >= s.thisNumColumns
  {
    var s := ManifoldSizing(samplingMultiplier, basisMultiplier, maxNeighbors, dims,
                            manifoldNP, targetNP, np, totalAlphaValues);
    assert s.maxNP * basisMultiplier >= s.maxManifoldNP * basisMultiplier by {
      MultiplyRight(s.maxManifoldNP, s.maxNP, basisMultiplier);
    }
  }

  lemma MultiplyRight(a: int, b: int, n: int)
    requires a <= b && n >= 0
    ensures a * n <= b * n
  {
  }

  /** The part of a GMLS problem that setup sizes. */
  class GmlsProblem {
    var dimensions: nat
    var denseSolverType: DenseSolverType
    var dataSamplingRank: nat      // SamplingOutputTensorRank[_data_sampling_functional]
    var reconstructionSpaceRank: nat  // ReconstructionSpaceRank[_reconstruction_space]
    var polynomialSampling: SamplingFunctional
    var polyOrder: nat
    var samplingMultiplier: int
    var basisMultiplier: int

    constructor(dimensions: nat, solver: DenseSolverType, dataSamplingRank: nat, spaceRank: nat,
                polynomialSampling: SamplingFunctional, polyOrder: nat)
      ensures this.dimensions == dimensions && this.denseSolverType == solver
      ensures this.dataSamplingRank == dataSamplingRank && this.reconstructionSpaceRank == spaceRank
      ensures this.polynomialSampling == polynomialSampling && this.polyOrder == polyOrder
      ensures this.samplingMultiplier == 1 && this.basisMultiplier == 1
    {
      this.dimensions := dimensions;
      this.denseSolverType := solver;
      this.dataSamplingRank := dataSamplingRank;
      this.reconstructionSpaceRank := spaceRank;
      this.polynomialSampling := polynomialSampling;
      this.polyOrder := polyOrder;
      this.samplingMultiplier := 1;
      this.basisMultiplier := 1;
    }

    /**
     * The sizing steps of generateAlphas: both multipliers by the rank rule,
     * and the polynomial order one higher for gradient edge-integral sampling.
     */
    method SetUpSizes()
      modifies this
      ensures samplingMultiplier == Multiplier(dataSamplingRank, denseSolverType, dimensions)
      ensures basisMultiplier == Multiplier(reconstructionSpaceRank, denseSolverType, dimensions)
      ensures polyOrder == PolyOrderAfterSetup(old(polyOrder), polynomialSampling)
      ensures polyOrder == old(polyOrder) + 1 <==> polynomialSampling == StaggeredEdgeAnalyticGradientIntegralSample
      ensures polyOrder == old(polyOrder) <==> polynomialSampling != StaggeredEdgeAnalyticGradientIntegralSample
      ensures dimensions == old(dimensions) && denseSolverType == old(denseSolverType)
      ensures dataSamplingRank == old(dataSamplingRank) && reconstructionSpaceRank == old(reconstructionSpaceRank)
      ensures polynomialSampling == old(polynomialSampling)
    {
      if dataSamplingRank > 0 {
        if denseSolverType == MANIFOLD {
          samplingMultiplier := dimensions - 1;
        } else {
          samplingMultiplier := dimensions;
        }
      } else {
        samplingMultiplier := 1;
      }
      if reconstructionSpaceRank > 0 {
        if denseSolverType == MANIFOLD {
          basisMultiplier := dimensions - 1;
        } else {
          basisMultiplier := dimensions;
        }
      } else {
        basisMultiplier := 1;
      }
      if polynomialSampling == StaggeredEdgeAnalyticGradientIntegralSample {
        polyOrder := polyOrder + 1;
      }
    }
  }
}
