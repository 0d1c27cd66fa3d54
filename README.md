# Compadre GMLS: the discrete core, modelled in Dafny

Compadre computes Generalized Moving Least Squares (GMLS) reconstructions. For
every target site it fits a polynomial basis to neighbour data, then applies
target functionals (point values, gradients, divergence, curl, Laplacian,
face averages, ...) to that basis. This project models the integer and
index logic around that numerical work and proves its properties:

- **Target functionals** (`targets.dfy`, `target_layout.dfy`, `row_edits.dfy`).
  `computeTargetFunctionals` zeroes `P_target_row`. It then dispatches each
  requested operation to the USER targets, or else to the toolkit branch
  chosen by the reconstruction space. The model represents every branch as
  its list of writes (`Edit`s). It proves that:
  - the in-place method leaves every cell as those writes leave it;
  - the run stops at the first failed assertion ("not yet available", the
    dimension checks, unhandled additional evaluation sites);
  - the hard-coded columns mean what the mathematics needs: the Laplacian
    columns hold x², y², z², the divergence columns the first-order
    monomials, and the curl writes are the Levi-Civita terms.
- **Monomial enumeration** (`monomials.dfy`). The loops over (n, alphaz,
  alphay) with a running column k define the order of the Taylor basis. The
  model defines that order and its inverse (the column of a monomial),
  proves that they are inverse bijections and gives the closed-form counts.
  It also proves that the in-place loops of the face average and the
  surface curl walk exactly that order.
- **GMLS setup and assembly** (`gmls_sizing.dfy`, `gmls_assembly.dfy`):
  - the sampling and basis multipliers, and the polynomial-order bump for
    gradient sampling;
  - the standard and manifold matrix sizes;
  - the diagonal right-hand sides sqrt(W) and Q, and the zeroed padding rows;
  - the tangent-plane metric tensor G with its cofactor inverse. The model
    proves G_inv · G = I, so the "Determinant is zero" assertion cannot fire.
- **Prestencil weights** (`prestencil.dfy`). The flat index
  k·d·2·no + j·2·no + 2m + b of the manifold prestencils is proved to be a
  bijection onto the allocated row width. The model also covers the
  manifold vector and gradient prestencils and the (−c, +c) pairs of the
  gradient edge-integral sampling.
- **Curl-curl boundary conditions** (`curlcurl_bc.dfy`). It flags the
  particles on the faces of [−1, 1]³, writes the analytic solution into the
  right-hand side at their degrees of freedom, and lists the field
  interactions.

Real numbers stand for doubles. The basis evaluators, the offset layout, the
quadrature terms, the square root and the analytic test functions are
parameters.

## Model

| member | source | states |
|---|---|---|
| RowEdits.ApplyEdits | src/Compadre_Targets.hpp:54-959 | The model's semantics of the branches' in-place writes to P_target_row (not a model of particular lines): performing a list of writes leaves every cell equal to CellAfter of that list, the last write to a cell winning. |
| RowEdits.AssignRowCell | src/Compadre_Targets.hpp:77-79 | The row copy `P(offset, base + j) = values[j]` sets exactly the cells base..base+|values|-1 of that row and leaves every other cell as it was. |
| RowEdits.AssignEachCell | src/Compadre_Targets.hpp:82-98 | A list of single-cell writes of one value sets exactly the listed columns of the row. |
| RowEdits.CellAfterAppend | src/Compadre_Targets.hpp:54-959 | Performing two write lists one after the other is the same as performing their concatenation. This is the composition law of the loop over operations. |
| TargetFunctionals.ZeroScratch | src/Compadre_Targets.hpp:36-47 | Afterwards every entry of P_target_row, delta and thread_workspace is zero. |
| TargetFunctionals.ComputeTargetFunctionals | src/Compadre_Targets.hpp:30-959 | The outcome is Pass exactly when Run reaches no failed assertion, and otherwise Fail carries the first failure. Every cell of P equals the cell the writes of all completed passes leave, starting from zero. |
| TargetFunctionals.PerformStage | src/Compadre_Targets.hpp:54-58 | One turn of the operation loop moves P from the state after i passes to the state after i+1 passes, and returns the run's failure; a failure ends the run at that pass. |
| TargetFunctionals.PerformPass | src/Compadre_Targets.hpp:60-65 | One operation's pass (USER targets first, else the toolkit branch) updates every cell by exactly that pass's writes. |
| TargetFunctionals.RunPrefix | src/Compadre_Targets.hpp:54-959 | The writes after i operations are a prefix of the writes after n ≥ i operations, and a run that has failed stays as it is. |
| TargetFunctionals.FaceAverageInPlace | src/Compadre_Targets.hpp:152-228 | The face-average loops as written leave column k of the target's row equal to the last sub-triangle's quadrature sum for the k-th monomial, and change nothing else. |
| TargetFunctionals.FaceAverageRowAsWritten | src/Compadre_Targets.hpp:175-225 | The face average as written: the sum restarts at the first quadrature point of every sub-triangle, so each column holds only the last sub-triangle's sum. |
| TargetFunctionals.AsWrittenIsLastTriangleOnly | src/Compadre_Targets.hpp:175-220 | What the as-written loops leave is the area-weighted sum of the sub-triangle averages with the whole face's area put on the last sub-triangle. |
| TargetFunctionals.SquareFaceCounterexample | src/Compadre_Targets.hpp:219 | On the square [−1, 1]² split into four sub-triangles with the centroid rule, the as-written column of x holds −2/3, while the area-weighted face average is 0. |
| TargetFunctionals.FaceAverageRowWeighted | src/Compadre_Targets.hpp:1696-1719 | The corrected face average, with the manifold branch's loop structure: every contribution is weighted by its sub-triangle's area fraction, and the sum restarts only at the first quadrature point of the first sub-triangle, so each column holds the area-weighted sum of the sub-triangle averages. |
| TargetFunctionals.AsWrittenAgreesOnEqualAverages | src/Compadre_Targets.hpp:175-225 | When the area fractions sum to 1 and every sub-triangle has the same average (a face with one sub-triangle, say), the corrected and the as-written values agree. |
| TargetFunctionals.ConstantAveragesToItself | src/Compadre_Targets.hpp:1704-1712 | With quadrature weights and area fractions each summing to 1, the corrected face average of a value constant over the face is that value. |
| TargetFunctionals.EqualAverages | src/Compadre_Targets.hpp:1704-1712 | With every sub-triangle average equal to a, the area-weighted sum is a times the sum of the area fractions. |
| TargetLayout.ToolkitBranchTable | src/Compadre_Targets.hpp:67-952 | The toolkit branch fails with "not yet available" exactly for a (space, operation) pair without a branch. It fails with the dimension check exactly for the scalar y and z partials in too few dimensions. Otherwise it sets additional_evaluation_sites_handled exactly for the branches listed in HandlesAdditionalSites. |
| TargetLayout.OperationPassFailure | src/Compadre_Targets.hpp:56-65 | A pass fails exactly as follows: never when the USER targets take the operation; otherwise on a missing branch, on the dimension check, or when additional sites exist that the branch does not handle (line 957). |
| TargetLayout.LaplacianLayout | src/Compadre_Targets.hpp:82-98 | The Laplacian branches (and the staggered-analytic divergence, lines 134-151) set eps⁻² at the columns of the target's row holding x², y², z² under the enumeration, write nothing else, and do not handle additional sites. |
| TargetLayout.LaplacianColumnsArePureSecondOrder | src/Compadre_Targets.hpp:85-97 | A column is one of the hard-coded 4, 6, 9 / 3, 5 / 2 exactly when the enumeration puts a pure second-order monomial (x², y² or z²) there. |
| TargetLayout.FirstOrderColumn | src/Compadre_Targets.hpp:323-332 | In 1, 2 and 3 dimensions the first-order monomial in direction dir is at column dir+1. |
| TargetLayout.FirstOrderColumnExactly | src/Compadre_Targets.hpp:323-332 | Column c holds the first-order monomial in direction dir exactly when c == dir+1. |
| TargetLayout.StaggeredDivergenceLayout | src/Compadre_Targets.hpp:317-334 | Divergence with the vector basis from edge integrals puts eps⁻¹ in block comp of the target's row exactly at the column of the comp-th first-order monomial, and 0 elsewhere in the block. |
| TargetLayout.StaggeredDivergenceNothingElse | src/Compadre_Targets.hpp:317-334 | That branch writes nothing outside the first dims blocks of the target's row. |
| TargetLayout.VectorCurlIsLeviCivita | src/Compadre_Targets.hpp:347-403 | The 3-D vector-basis curl writes six entries, one for each nonzero Levi-Civita term eps(o, dir, m): that sign times eps⁻¹, in row (m, o), at the dir-th first-order column of block m. It writes nothing else. |
| TargetLayout.VectorCurl2D | src/Compadre_Targets.hpp:347-403 | In 2-D the curl writes eps⁻¹ at the y column of block 1 and −eps⁻¹ at the x column of block 0. |
| TargetLayout.ClonesDivergenceLayout | src/Compadre_Targets.hpp:539-563 | With scalar clones, the row of each input component m is cleared. It then holds eps⁻¹ exactly at the m-th first-order column, whatever it held before. |
| MonomialBasis.Monomials3At | src/Compadre_Targets.hpp:205-225 | Every monomial of degree ≤ p in three variables sits at column Index3(e) of the loop order. |
| MonomialBasis.Monomials3Inverse | src/Compadre_Targets.hpp:205-225 | Every column k of the loop order holds a monomial of degree ≤ p whose Index3 is k, so Index3 and the order are inverse bijections. |
| MonomialBasis.Monomials2At | src/Compadre_Targets.hpp:1704-1719 | In two variables (n, then alphay) every monomial of degree ≤ p sits at column Index2(e). |
| MonomialBasis.Monomials2Inverse | src/Compadre_Targets.hpp:1704-1719 | Every column of the 2-D order holds a monomial of degree ≤ p in x, y whose Index2 is that column. |
| MonomialBasis.MonomialAt | src/Compadre_Targets.hpp:205-225 | In dims = 1, 2 or 3 variables, every monomial of degree ≤ p that lives in those dimensions is at column MonomialIndex. |
| MonomialBasis.IndexOfMonomialAt | src/Compadre_Targets.hpp:205-225 | Every column holds a monomial of degree ≤ p in dims variables, and MonomialIndex maps it back to that column. |
| MonomialBasis.MonomialsDistinct | src/Compadre_Targets.hpp:205-225 | Distinct columns hold distinct monomials. |
| MonomialBasis.MonomialCount | src/Compadre_Targets.hpp:205-225 | The basis has (p+1)(p+2)(p+3)/6 columns in 3-D, (p+1)(p+2)/2 in 2-D and p+1 in 1-D. |
| MonomialBasis.Below3Closed | src/Compadre_Targets.hpp:208-212 | The number of 3-D monomials of degree < n is n(n+1)(n+2)/6. |
| MonomialBasis.FaceAverageQuadraturePoint3 | src/Compadre_Targets.hpp:205-225 | One quadrature point's pass of the (n, alphaz, alphay) loops with running k: column c gets the term of the c-th monomial, stored or added depending on the reset condition. No other cell changes. |
| MonomialBasis.FaceAverageQuadraturePoint2 | src/Compadre_Targets.hpp:1704-1719 | The same for the manifold face average's (n, alphay) loops. |
| MonomialBasis.SurfaceCurlRow2 | src/Compadre_Targets.hpp:1610-1627 | The surface curl's (n, alphay) loops with running index store the value of the c-th 2-D monomial at column c of the row, and change nothing else. |
| GmlsSizing.MultiplierBounds | GMLS/src/GMLS.cpp:56-75 | A sampling or basis multiplier lies between 1 and dims. It is 1 exactly for a rank-0 tensor, in 1-D, or for a curve (a manifold in 2-D). |
| GmlsSizing.GmlsProblem.SetUpSizes | GMLS/src/GMLS.cpp:56-82 | The multipliers follow the rank rule (dims−1 on a manifold). The polynomial order goes up by one exactly for gradient edge-integral sampling. No other field changes. |
| GmlsSizing.StandardSizes | GMLS/src/GMLS.cpp:97-100 | The rows are sampling multiplier × neighbours, the columns basis multiplier × NP, and the square dimension is the larger of the two. |
| GmlsSizing.ManifoldSizesCover | GMLS/src/GMLS.cpp:102-110 | max_NP is the largest of the three basis sizes, and the manifold square dimension covers both the rows and the columns. |
| GmlsAssembly.AssembleStandardRhs | GMLS/src/GMLS.cpp:311-315 | RHS over the max_num_rows square is diagonal with sqrt(w(i)) on the diagonal. Nothing outside that square changes. |
| GmlsAssembly.ZeroPaddingRows | GMLS/src/GMLS.cpp:621-626 | Rows this_num_rows..max_num_rows−1 of P sqrt(W) are zero in their first this_num_columns columns. Nothing else changes. |
| GmlsAssembly.AssembleManifoldQ | GMLS/src/GMLS.cpp:632-640 | Q is diagonal sqrt(w(i)) for the rows of this target's neighbours and zero everywhere else in the square, the padding rows included. |
| GmlsAssembly.DeterminantPositive | GMLS/src/GMLS.cpp:590-599 | det G = 1 + g1² (+ g2² on a surface) > 0, so the determinant assertion holds. |
| GmlsAssembly.MetricSymmetric | GMLS/src/GMLS.cpp:583-588 | G is symmetric. |
| GmlsAssembly.InverseTimesMetric | GMLS/src/GMLS.cpp:590-606 | The computed G_inv times G is the identity, for curves and for surfaces. |
| GmlsAssembly.CofactorInverse | GMLS/src/GMLS.cpp:600-605 | The 2×2 cofactor formula inverts any matrix with nonzero determinant, on both sides. |
| GmlsAssembly.ComputeMetricTensor | GMLS/src/GMLS.cpp:583-606 | The in-place kernel leaves G and G_inv equal to Metric and MetricInverse of the surface gradient, and its zero-determinant assertion cannot fail. |
| Prestencil.SlotInjective | GMLS/src/GMLS.cpp:796-801 | Distinct (block, component, neighbour, endpoint) tuples get distinct flat indices. |
| Prestencil.SlotCoverage | GMLS/src/GMLS.cpp:796-801 | Every index below d·d·2·no is the flat index of one tuple, recovered by division and remainder. |
| Prestencil.LargestSlot | GMLS/src/GMLS.cpp:37 | The largest index written is d²·2·no − 1, the last entry of the pow(d, rank+1)·2·max_num_neighbors allocation for a rank-1 output. |
| Prestencil.NeighborsCoverRow | GMLS/src/GMLS.cpp:791-816 | With all neighbours written, the indices written are exactly those below d·d·2·no. |
| Prestencil.ManifoldPrestencil | GMLS/src/GMLS.cpp:791-816 | For every neighbour m < n, every component j and every block k < d−1, the first endpoint holds entry (j, k) of the change of basis. The last block and every second endpoint hold 0. No other index changes. |
| Prestencil.PairCoefficientConstant | GMLS/src/GMLS.cpp:773-786 | A constant operator coefficient c gives every pair c, and no coefficients give 1. |
| Prestencil.PairCoefficientBetween | GMLS/src/GMLS.cpp:783 | Each pair coefficient lies between the coefficients of the two neighbours it averages. |
| Prestencil.StaggeredAnalyticPrestencil | GMLS/src/GMLS.cpp:771-789 | Entries 2i and 2i+1 of the target's row are −c and +c, with c the pair coefficient of neighbour i. This holds for every i < n, and always for i = 0. Nothing else changes. |
| Prestencil.ComputePrestencilWeights | GMLS/src/GMLS.cpp:771-816 | The dispatch on the data sampling functional gives each sampling its prestencil. Only the target's own row changes, and within it only the indices that prestencil writes. Point samples and other samplings leave W unchanged. |
| CurlCurlBoundaryConditions.BoundaryFlag | physics/Compadre_GMLS_CurlCurl_BoundaryConditions.cpp:20-26 | The flag is 0 or 1, and it is 1 exactly when a coordinate is within 1e-6 of ±1. |
| CurlCurlBoundaryConditions.FacePointsOnBoundary | physics/Compadre_GMLS_CurlCurl_BoundaryConditions.cpp:20-21 | A point on a face of the cube is flagged. |
| CurlCurlBoundaryConditions.InteriorPointsNotOnBoundary | physics/Compadre_GMLS_CurlCurl_BoundaryConditions.cpp:20-21 | A point whose coordinates all stay 1e-6 inside the cube is not flagged. |
| CurlCurlBoundaryConditions.BoundarySymmetric | physics/Compadre_GMLS_CurlCurl_BoundaryConditions.cpp:21 | The face test is invariant under p ↦ −p. |
| CurlCurlBoundaryConditions.CurlCurlBoundaries.FlagBoundaries | physics/Compadre_GMLS_CurlCurl_BoundaryConditions.cpp:16-27 | Every particle's flag is 1 exactly when it is on the boundary, and 0 otherwise. |
| CurlCurlBoundaryConditions.SolutionFor | physics/Compadre_GMLS_CurlCurl_BoundaryConditions.cpp:32-37 | The sine test is chosen exactly for "sine", and the polynomial test otherwise. |
| CurlCurlBoundaryConditions.CurlCurlBoundaries.ApplyBoundaries | physics/Compadre_GMLS_CurlCurl_BoundaryConditions.cpp:31-60 | Without a right-hand side it fails with the Tpetra message. Otherwise component k of every flagged particle's field_one DOF gets component k of the analytic solution at that particle, and every other entry keeps its value. |
| CurlCurlBoundaryConditions.GatherFieldInteractions | physics/Compadre_GMLS_CurlCurl_BoundaryConditions.cpp:65-69 | Exactly one interaction: a bc interaction on the field named "vector solution". |

## Left out

- Kokkos team and thread parallelism: every parallel loop is modelled as a sequential loop (the writes of different iterations go to different cells).
- Floating point: doubles are modelled as reals, and `std::pow(eps, -1)` and `std::pow(eps, -2)` as `1/eps` and `1/(eps·eps)`.
- The basis evaluators calcPij, calcGradientPij and calcHessianPij: their rows are a parameter (`Oracles.basis`), so the values the gradient, point and curl-curl branches copy are not computed.
- getTargetOffsetIndex, getNP and the rank tables (SamplingOutputTensorRank, ReconstructionSpaceRank) are parameters or fields.
- The USER targets included at Compadre_Targets.hpp:62 are a parameter (`Oracles.user`) that either takes an operation with its own writes or passes it on.
- The geometry of the face average (midpoint, sub-triangle areas, quadrature sites, factorials, powers of the relative coordinate) is folded into the parameter `Oracles.faceTerm`.
- SurfaceCurlOfScalar, GaussianCurvature and the rest of the manifold target dispatch (Compadre_Targets.hpp:963-1747): only their enumeration loops (SurfaceCurlRow2, FaceAverageQuadraturePoint2) are modelled.
- The debug-only assertion about scalar clones (Compadre_Targets.hpp:20-28) is compiled out of release builds.
- QR, SVD and LU solves, createWeightsAndP, the tangent-plane fit and the scratch-space tallies of generateAlphas: linear algebra and memory sizing outside the discrete core.
- The square root is a parameter `root` of the right-hand-side assemblies.
- ComputePrestencilWeights: excludes StaggeredEdgeIntegralSample (GMLS.cpp:817-836), whose tangent-vector quadrature accumulates floating products of coordinates and is not modelled.
- ComputeTargetFunctionals: requires epsilon > 0 (a positive search radius), as do the branch functions it is proved against; the source divides by `_epsilons(target_index)` without checking it, and a zero radius would give infinite doubles that the model of reals cannot express.
- ComputeTargetFunctionals: requires every write to fall inside P_target_row (`FitsIn`); the source would write out of bounds otherwise.
- CurlCurlBoundaryConditions.CurlCurlBoundaries.ApplyBoundaries: requires the DOF map to be one-to-one on (particle, component) pairs, as a DOF map is; which colliding write lands last is not modelled.
- The analytic test functions (CurlCurlSineTest, CurlCurlPolyTest evaluation), the DOF manager, the field manager, Teuchos parameter lists and Tpetra vectors are parameters or left out.
- The time arguments of applyBoundaries are not modelled: the source never reads them. Neither is the field_two argument, whose −1 default (lines 40-42) is assigned to the by-value parameter and never read.

## Findings

| source | as written | input that shows it | evidently intended | confidence | as-written member | corrected member |
|---|---|---|---|---|---|---|
| src/Compadre_Targets.hpp:219 | The standard face average restarts the column at `quadrature == 0` for every sub-triangle v. Each term is divided by its own sub-triangle's scaled area (line 217), so each column keeps only the last sub-triangle's quadrature average | The square face [−1, 1]² with the target at its midpoint, epsilon 1, four sub-triangles and the one-point centroid rule: the column of x holds −2/3 (the left sub-triangle's average), while the average of x over the face is 0 | Weight each sub-triangle's average by its share of the face's area and restart only at the first quadrature point of the first sub-triangle, as the manifold branch does (lines 1696-1714: scaling_factor / entire_cell_area, reset at `quadrature == 0 && v == 0`) | medium, not executed | TargetFunctionals.FaceAverageRowAsWritten, TargetFunctionals.SquareFaceCounterexample | TargetFunctionals.FaceAverageRowWeighted |

The target-functional dispatch (ToolkitBranch, ComputeTargetFunctionals) models the code as written. The corrected face average stands beside it, with its properties proved.
