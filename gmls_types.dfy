/**
 * The enumerations the GMLS toolkit dispatches on: the reconstruction
 * space, the target operations, the sampling functionals and the dense
 * solver type.
 */
module GmlsTypes {

  datatype ReconstructionSpace =
    | ScalarTaylorPolynomial
    | VectorTaylorPolynomial
    | VectorOfScalarClonesTaylorPolynomial
    | DivergenceFreeVectorTaylorPolynomial
      /** Any space the dispatch has no branch for. */
    | OtherReconstructionSpace

  datatype TargetOperation =
    | ScalarPointEvaluation
    | VectorPointEvaluation
    | LaplacianOfScalarPointEvaluation
    | VectorLaplacianPointEvaluation
    | GradientOfScalarPointEvaluation
    | GradientOfVectorPointEvaluation
    | DivergenceOfVectorPointEvaluation
    | CurlOfVectorPointEvaluation
    | CurlCurlOfVectorPointEvaluation
    | PartialXOfScalarPointEvaluation
    | PartialYOfScalarPointEvaluation
    | PartialZOfScalarPointEvaluation
    | ChainedStaggeredLaplacianOfScalarPointEvaluation
    | GaussianCurvaturePointEvaluation
    | ScalarFaceAverageEvaluation

  datatype SamplingFunctional =
    | PointSample
    | VectorPointSample
    | ManifoldVectorPointSample
    | StaggeredEdgeAnalyticGradientIntegralSample
    | StaggeredEdgeIntegralSample
    | ManifoldVectorSample
    | ManifoldGradientVectorSample

  datatype DenseSolverType = QR | SVD | LU | MANIFOLD
}
