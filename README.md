# Kratos material-point element, particle Dirichlet condition, shallow-water BDF scheme and contact geometry

This project models four pieces of the Kratos multiphysics framework in Dafny and proves properties of them:

- **The updated-Lagrangian material-point (MPM) element.** It is a background-grid cell (4-node quadrilateral or 8-node hexahedron) that carries one material point.
  - The element keeps the point's history between steps: the total deformation gradient `F0`, its determinant `detF0`, and the "finalized step" flag.
  - At the start of a step, the element scatters the point's mass, momentum and inertia onto the grid nodes.
  - It builds the local system: external and internal forces, material and geometric stiffness, lumped mass, and Rayleigh damping.
  - At the end of an implicit step it commits the history and moves the point with the grid solution.
  - It also exposes the point's variables through accessors keyed by variable name.
- **The material-point Dirichlet condition.** It is a boundary particle with an imposed velocity and acceleration. Each step it turns these into a displacement increment and spreads its area over the grid; finalizing commits the increment to the particle.
- **The shallow-water residual-based BDF time scheme.**
  - It predicts the momentum and height from the previous step.
  - It computes their first time derivatives with the backward-differentiation coefficients.
  - It adds the mass contributions to the local system.
- **Contact geometry helpers.**
  - projection of a point onto a plane;
  - projection of a point along a direction onto a 2-D master segment;
  - the squared radius of a condition;
  - the (unnormalised) normal of a line, quadratic line, triangle or quadrilateral.

All arithmetic is exact, over `real`. Matrices are sequences of rows.

The model is laid out as follows:
- The element's object state is a `class` with its history fields.
- Grid nodes are shared objects that the element and the condition update with `+=`.
- Every loop of the source is a `method` proved against a specification function, `CalculateCurrentDisp` included. The properties are proved about those functions.

Modules:

| module | file | models |
|---|---|---|
| `Algebra` | algebra.dfy | vectors, matrices, determinants, sums (support) |
| `MpmErrors` | mpm_errors.dfy | the error conditions the element raises |
| `MpmGrid` | mpm_grid.dfy | grid-node solution-step data |
| `MpmShapeFunctions` | mpm_shape_functions.dfy | shape functions, local gradients, Jacobians |
| `MpmKinematics` | mpm_kinematics.dfy | `F`, `B`, inversion check, volume change |
| `MpmAssembly` | mpm_assembly.dfy | forces, stiffness, component dispatch, mass, damping, DOFs |
| `MpmElement` | mpm_element.dfy | interpolation and particle-to-grid scatter |
| `UpdatedLagrangianElement` | updated_lagrangian_quadrilateral.dfy | the element object, its step lifecycle and accessors |
| `MpmDirichletCondition` | mpm_dirichlet_condition.dfy | the particle Dirichlet condition |
| `ShallowWaterBdfScheme` | shallow_water_bdf_scheme.dfy | the shallow-water BDF scheme |
| `ContactUtilities` | contact_utilities.dfy | the contact geometry helpers |

## Model

| member | source | states |
|---|---|---|
| MpmShapeFunctions.ShapeFunctionValues | applications/ParticleMechanicsApplication/custom_elements/updated_lagrangian_quadrilateral.cpp:1581-1637 | in 2-D and 3-D there are 4 or 8 weights and they sum to one; any other dimension hands back the previous result unchanged |
| MpmShapeFunctions.ShapeFunctionLocalGradients | applications/ParticleMechanicsApplication/custom_elements/updated_lagrangian_quadrilateral.cpp:1642-1733 | the gradient table is nodes x dim and each column sums to zero; any other dimension hands back the previous result |
| MpmShapeFunctions.QuadPartitionOfUnity | applications/ParticleMechanicsApplication/custom_elements/updated_lagrangian_quadrilateral.cpp:1594-1597 | the four bilinear weights sum to 1 at every local point |
| MpmShapeFunctions.HexPartitionOfUnity | applications/ParticleMechanicsApplication/custom_elements/updated_lagrangian_quadrilateral.cpp:1624-1631 | the eight trilinear weights sum to 1 at every local point |
| MpmShapeFunctions.QuadGradientColumnsSumToZero | applications/ParticleMechanicsApplication/custom_elements/updated_lagrangian_quadrilateral.cpp:1654-1661 | each column of the quadrilateral gradient table sums to 0 |
| MpmShapeFunctions.HexGradientColumnsSumToZero | applications/ParticleMechanicsApplication/custom_elements/updated_lagrangian_quadrilateral.cpp:1699-1729 | each column of the hexahedron gradient table sums to 0 |
| MpmShapeFunctions.QuadKronecker | applications/ParticleMechanicsApplication/custom_elements/updated_lagrangian_quadrilateral.cpp:1594-1597 | weight i is 1 at corner i and 0 at every other corner |
| MpmShapeFunctions.HexKronecker | applications/ParticleMechanicsApplication/custom_elements/updated_lagrangian_quadrilateral.cpp:1624-1631 | weight i is 1 at vertex i and 0 at every other vertex |
| MpmShapeFunctions.QuadGradientsAreDerivatives | applications/ParticleMechanicsApplication/custom_elements/updated_lagrangian_quadrilateral.cpp:1654-1661 | the gradient table is the exact derivative of the weights: moving xi or eta by h changes weight i by h times its table entry |
| MpmShapeFunctions.QuadDifferenceXi | applications/ParticleMechanicsApplication/custom_elements/updated_lagrangian_quadrilateral.cpp:1654-1661 | moving xi by h changes each weight by h times its dN/dxi entry |
| MpmShapeFunctions.QuadDifferenceEta | applications/ParticleMechanicsApplication/custom_elements/updated_lagrangian_quadrilateral.cpp:1654-1661 | moving eta by h changes each weight by h times its dN/deta entry |
| MpmShapeFunctions.HexGradientsAreDerivatives | applications/ParticleMechanicsApplication/custom_elements/updated_lagrangian_quadrilateral.cpp:1699-1729 | the same along xi, eta and zeta for the hexahedron: moving one local coordinate by h moves the whole weight table by h times the matching gradient column |
| MpmShapeFunctions.MPMJacobian | applications/ParticleMechanicsApplication/custom_elements/updated_lagrangian_quadrilateral.cpp:1459-1507 | in 2-D and 3-D the result is the Jacobian (coordinates times local gradients) of the cell; other dimensions leave the previous result |
| MpmShapeFunctions.MPMJacobianDelta | applications/ParticleMechanicsApplication/custom_elements/updated_lagrangian_quadrilateral.cpp:1520-1566 | the Jacobian of the cell displaced by the nodal increment; other dimensions leave the previous result |
| MpmShapeFunctions.AccumulateJacobian | applications/ParticleMechanicsApplication/custom_elements/updated_lagrangian_quadrilateral.cpp:1472-1484 | the node-by-node accumulation equals the Jacobian of the displaced coordinates |
| MpmShapeFunctions.PartialJacobianEnds | applications/ParticleMechanicsApplication/custom_elements/updated_lagrangian_quadrilateral.cpp:1472-1484 | the accumulation starts from zero and ends at the full Jacobian |
| MpmShapeFunctions.DisplacedByZero | applications/ParticleMechanicsApplication/custom_elements/updated_lagrangian_quadrilateral.cpp:1532-1544 | a zero increment gives back the undisplaced coordinates, so the delta Jacobian reduces to the plain one |
| MpmShapeFunctions.JacobianTranslationInvariant | applications/ParticleMechanicsApplication/custom_elements/updated_lagrangian_quadrilateral.cpp:1459-1507 | translating every node by the same vector leaves the Jacobian unchanged |
| MpmShapeFunctions.JacobianDeltaSplits | applications/ParticleMechanicsApplication/custom_elements/updated_lagrangian_quadrilateral.cpp:1520-1566 | the delta Jacobian is the Jacobian of the coordinates plus that of the increment |
| MpmShapeFunctions.QuadReferenceJacobian | applications/ParticleMechanicsApplication/custom_elements/updated_lagrangian_quadrilateral.cpp:1654-1661 | on the reference square the Jacobian is the identity at every local point |
| MpmShapeFunctions.HexReferenceJacobian | applications/ParticleMechanicsApplication/custom_elements/updated_lagrangian_quadrilateral.cpp:1699-1729 | on the reference cube the Jacobian is the identity at every local point |
| MpmKinematics.CalculateKinematics | applications/ParticleMechanicsApplication/custom_elements/updated_lagrangian_quadrilateral.cpp:358-415 | succeeds exactly in 2-D and 3-D; DN_DX = DN_De * Invj, F = I + CurrentDisp^T DN_DX, F0 and detF0 are the stored history, B is the strain-displacement matrix |
| MpmKinematics.CalculateDeformationMatrix | applications/ParticleMechanicsApplication/custom_elements/updated_lagrangian_quadrilateral.cpp:418-466 | succeeds exactly in 2-D and 3-D with B laid out node block by node block; any other dimension is an error |
| MpmKinematics.FillPlaneBlocks | applications/ParticleMechanicsApplication/custom_elements/updated_lagrangian_quadrilateral.cpp:431-438 | the 2-D loop leaves every entry of node k's block equal to its B entry (DN_DX in the normal rows, the swapped pair in the shear row) |
| MpmKinematics.FillSolidBlocks | applications/ParticleMechanicsApplication/custom_elements/updated_lagrangian_quadrilateral.cpp:442-458 | the 3-D loop leaves every entry of node k's block equal to its B entry (three normal rows, three shear rows) |
| MpmKinematics.BFromBlocks | applications/ParticleMechanicsApplication/custom_elements/updated_lagrangian_quadrilateral.cpp:427-459 | a matrix that has the B entries on every node block and zeros elsewhere is B |
| MpmKinematics.VoigtPair | applications/ParticleMechanicsApplication/custom_elements/updated_lagrangian_quadrilateral.cpp:429-459 | each Voigt row refers to a tensor component (p, q) with p <= q inside the dimension |
| MpmKinematics.StrainDisplacement | applications/ParticleMechanicsApplication/custom_elements/updated_lagrangian_quadrilateral.cpp:427-459 | B times the nodal displacements is the engineering strain of the displacement gradient (normal rows g[p][p], shear rows g[p][q] + g[q][p]) |
| MpmKinematics.TranslationIsStrainFree | applications/ParticleMechanicsApplication/custom_elements/updated_lagrangian_quadrilateral.cpp:427-459 | when the gradient columns sum to zero, B maps a rigid translation of all nodes to the zero strain vector |
| MpmKinematics.VolumeChange | applications/ParticleMechanicsApplication/custom_elements/updated_lagrangian_quadrilateral.cpp:725-734 | the ratio times detF * detF0 is 1; a zero product is an error |
| MpmKinematics.SetGeneralVariables | applications/ParticleMechanicsApplication/custom_elements/updated_lagrangian_quadrilateral.cpp:200-252 | fails exactly when det F < 0, with the inverted-element error carrying det F; otherwise the law receives det F, the element's DN_DX and N, and a deformation gradient FT of the element's size |
| MpmKinematics.LawDeterminant | applications/ParticleMechanicsApplication/custom_elements/updated_lagrangian_quadrilateral.cpp:204-242 | for any increment F and history (F0, detF0): refused exactly when det F < 0; otherwise detFT = det F * detF0 and FT = F F0, detFT is det FT whenever detF0 was det F0, and detFT is non-negative whenever detF0 was |
| MpmKinematics.SpatialGradientColumnsSumToZero | applications/ParticleMechanicsApplication/custom_elements/updated_lagrangian_quadrilateral.cpp:384 | spatial gradient columns sum to zero when the local ones do |
| MpmKinematics.UniformDisplacementGradient | applications/ParticleMechanicsApplication/custom_elements/updated_lagrangian_quadrilateral.cpp:398-404 | equal displacements at every node give a zero displacement gradient |
| MpmKinematics.RigidTranslationGivesIdentity | applications/ParticleMechanicsApplication/custom_elements/updated_lagrangian_quadrilateral.cpp:398-404 | a rigid translation of the cell gives F = I (in particular, zero displacement does) |
| MpmKinematics.SpatialGradientsReproduceCoordinates | applications/ParticleMechanicsApplication/custom_elements/updated_lagrangian_quadrilateral.cpp:367-384 | when Invj inverts the current Jacobian, the spatial gradients reproduce the current coordinates |
| MpmAssembly.ExternalForceEntry | applications/ParticleMechanicsApplication/custom_elements/updated_lagrangian_quadrilateral.cpp:551-559 | entry dim * i + j of the external force is N[i] * f[j] |
| MpmAssembly.CalculateAndAddExternalForces | applications/ParticleMechanicsApplication/custom_elements/updated_lagrangian_quadrilateral.cpp:540-562 | the right-hand side gains exactly the external force vector |
| MpmAssembly.ExternalForceResultant | applications/ParticleMechanicsApplication/custom_elements/updated_lagrangian_quadrilateral.cpp:551-559 | when the weights sum to one, component j of the external force summed over the nodes is f[j] |
| MpmAssembly.CalculateAndAddInternalForces | applications/ParticleMechanicsApplication/custom_elements/updated_lagrangian_quadrilateral.cpp:566-576 | the right-hand side loses w * B^T sigma |
| MpmAssembly.InternalForceWork | applications/ParticleMechanicsApplication/custom_elements/updated_lagrangian_quadrilateral.cpp:566-576 | the work of the internal force on any x is w times sigma dotted with B x |
| MpmAssembly.EquilibriumOfTranslationKernel | applications/ParticleMechanicsApplication/custom_elements/updated_lagrangian_quadrilateral.cpp:566-576 | for any B that maps a unit translation along axis j to zero strain, component j of the internal force w B^T sigma sums to zero over the nodes |
| MpmAssembly.InternalForceEquilibrium | applications/ParticleMechanicsApplication/custom_elements/updated_lagrangian_quadrilateral.cpp:566-576 | the internal force is self-equilibrated: each component summed over the nodes is zero |
| MpmAssembly.AddToMatrix | applications/ParticleMechanicsApplication/custom_elements/updated_lagrangian_quadrilateral.cpp:700 | the array gains the matrix entry by entry |
| MpmAssembly.CalculateAndAddKuum | applications/ParticleMechanicsApplication/custom_elements/updated_lagrangian_quadrilateral.cpp:693-703 | the left-hand side gains B^T (w C) B |
| MpmAssembly.MaterialStiffnessForm | applications/ParticleMechanicsApplication/custom_elements/updated_lagrangian_quadrilateral.cpp:693-703 | the stiffness form x . K y equals w (B x) . C (B y) |
| MpmAssembly.MaterialStiffnessSymmetric | applications/ParticleMechanicsApplication/custom_elements/updated_lagrangian_quadrilateral.cpp:693-703 | the material stiffness is symmetric when C is |
| MpmAssembly.MaterialStiffnessRigidTranslation | applications/ParticleMechanicsApplication/custom_elements/updated_lagrangian_quadrilateral.cpp:693-703 | a rigid translation is in the kernel of the material stiffness |
| MpmAssembly.FirstUnsuppliedRhs | applications/ParticleMechanicsApplication/custom_elements/updated_lagrangian_quadrilateral.cpp:478-502 | the index of the first requested right-hand-side component that is neither the external nor the internal force vector |
| MpmAssembly.CalculateAndAddRhsComponents | applications/ParticleMechanicsApplication/custom_elements/updated_lagrangian_quadrilateral.cpp:478-502 | succeeds exactly when every requested name is known; each vector up to the first unknown name gains its own contribution |
| MpmAssembly.CalculateAndAddRhs | applications/ParticleMechanicsApplication/custom_elements/updated_lagrangian_quadrilateral.cpp:503-534 | the whole right-hand side gains the external force and, explicit, the supplied internal force or, implicit, minus w B^T sigma |
| MpmAssembly.RhsComponentsAddUp | applications/ParticleMechanicsApplication/custom_elements/updated_lagrangian_quadrilateral.cpp:470-536 | the external and internal components add up to the whole right-hand side |
| MpmAssembly.FirstUnsuppliedLhs | applications/ParticleMechanicsApplication/custom_elements/updated_lagrangian_quadrilateral.cpp:650-675 | the index of the first requested stiffness that is unknown, or geometric while geometric stiffness is ignored |
| MpmAssembly.CalculateAndAddLhsComponents | applications/ParticleMechanicsApplication/custom_elements/updated_lagrangian_quadrilateral.cpp:650-675 | succeeds exactly when every requested name is supplied, including the ignored-geometric error; each matrix before the failure gains its contribution |
| MpmAssembly.AddLhsComponent | applications/ParticleMechanicsApplication/custom_elements/updated_lagrangian_quadrilateral.cpp:657-673 | one requested matrix gains its contribution exactly when the element supplies that name (geometric only while not ignored); otherwise it is untouched and the step reports it |
| MpmAssembly.CalculateAndAddLhs | applications/ParticleMechanicsApplication/custom_elements/updated_lagrangian_quadrilateral.cpp:676-688 | the whole left-hand side gains the material stiffness and, unless ignored, the geometric one |
| MpmAssembly.LhsComponentsAddUp | applications/ParticleMechanicsApplication/custom_elements/updated_lagrangian_quadrilateral.cpp:647-689 | the material and geometric components add up to the whole left-hand side |
| MpmAssembly.NodalMassEntry | applications/ParticleMechanicsApplication/custom_elements/updated_lagrangian_quadrilateral.cpp:1441-1450 | diagonal slot dim * i + j holds N[i] * mass |
| MpmAssembly.CalculateMassMatrix | applications/ParticleMechanicsApplication/custom_elements/updated_lagrangian_quadrilateral.cpp:1422-1453 | a fresh (nodes * dim) square array holding the lumped mass matrix |
| MpmAssembly.LumpedMassConservesMass | applications/ParticleMechanicsApplication/custom_elements/updated_lagrangian_quadrilateral.cpp:1441-1450 | every off-diagonal entry is 0, and per component the diagonal sums to the point's mass |
| MpmAssembly.LumpedMassSymmetric | applications/ParticleMechanicsApplication/custom_elements/updated_lagrangian_quadrilateral.cpp:1441-1450 | the lumped mass matrix is symmetric |
| MpmAssembly.RayleighCoefficient | applications/ParticleMechanicsApplication/custom_elements/updated_lagrangian_quadrilateral.cpp:1363-1381 | the element's properties take precedence over the process info, and the coefficient is 0 when neither has it |
| MpmAssembly.DampingMatrixSymmetric | applications/ParticleMechanicsApplication/custom_elements/updated_lagrangian_quadrilateral.cpp:1385-1386 | alpha M + beta K is symmetric when M and K are |
| MpmAssembly.NoDampingWithoutCoefficients | applications/ParticleMechanicsApplication/custom_elements/updated_lagrangian_quadrilateral.cpp:1363-1386 | with no coefficient anywhere the damping matrix is zero |
| MpmAssembly.BuiltStiffness | applications/ParticleMechanicsApplication/custom_elements/updated_lagrangian_quadrilateral.cpp:271-274 | the left-hand side built into a zeroed matrix is zero in an explicit analysis (line 333), otherwise the material stiffness plus, unless ignored, the geometric one |
| MpmAssembly.ExplicitDampingIsMassProportional | applications/ParticleMechanicsApplication/custom_elements/updated_lagrangian_quadrilateral.cpp:1385-1386 | with a zero stiffness the damping matrix is alpha M, whatever beta is |
| MpmAssembly.DampingForce | applications/ParticleMechanicsApplication/custom_elements/updated_lagrangian_quadrilateral.cpp:1385-1386 | the damping force on v is alpha M v + beta K v |
| MpmAssembly.ThicknessScalesInternalForce | applications/ParticleMechanicsApplication/custom_elements/updated_lagrangian_quadrilateral.cpp:1278-1286 | weighting a plane element by its thickness scales its internal force w B^T sigma by the thickness; a solid element's is unchanged |
| MpmAssembly.ThicknessScalesStiffness | applications/ParticleMechanicsApplication/custom_elements/updated_lagrangian_quadrilateral.cpp:1278-1286 | weighting a plane element by its thickness scales its material stiffness B^T (w C B) by the thickness; a solid element's is unchanged |
| MpmAssembly.DecimalCorrection | applications/ParticleMechanicsApplication/custom_elements/updated_lagrangian_quadrilateral.cpp:1820-1833 | every component is replaced by its corrected value in place |
| MpmAssembly.DecimalCorrectionProperties | applications/ParticleMechanicsApplication/custom_elements/updated_lagrangian_quadrilateral.cpp:1820-1833 | a component whose square is below 1e-24 becomes 0 and every other one is kept; correcting twice changes nothing more |
| MpmAssembly.GetDofList | applications/ParticleMechanicsApplication/custom_elements/updated_lagrangian_quadrilateral.cpp:1317-1332 | the node-major list of displacement DOFs (X, Y and in 3-D Z) |
| MpmAssembly.DofListEntry | applications/ParticleMechanicsApplication/custom_elements/updated_lagrangian_quadrilateral.cpp:1317-1332 | position dofs * i + j holds node i, component j |
| MpmAssembly.DofListCompleteAndDistinct | applications/ParticleMechanicsApplication/custom_elements/updated_lagrangian_quadrilateral.cpp:1317-1332 | every (node, component) pair appears, and no DOF appears twice |
| MpmAssembly.EquationIdVector | applications/ParticleMechanicsApplication/custom_elements/updated_lagrangian_quadrilateral.cpp:1292-1312 | a fresh array whose position k holds the equation id of DOF k of the list, in the same order |
| MpmElement.InterpolateUniform | applications/ParticleMechanicsApplication/custom_elements/updated_lagrangian_quadrilateral.cpp:924-943 | weights summing to one interpolate a uniform nodal field to its value |
| MpmElement.ActiveSumIsFull | applications/ParticleMechanicsApplication/custom_elements/updated_lagrangian_quadrilateral.cpp:1066-1089 | when every weight exceeds machine epsilon, the thresholded interpolation is the plain one |
| MpmElement.ScatterConservesMass | applications/ParticleMechanicsApplication/custom_elements/updated_lagrangian_quadrilateral.cpp:946-971 | the grid's NODAL_MASS grows in total by exactly the point's mass |
| MpmElement.ScatteredMomentumEntry | applications/ParticleMechanicsApplication/custom_elements/updated_lagrangian_quadrilateral.cpp:957-969 | node i's momentum gains N[i] (v - aux v) m, plus 0.5 dt N[i] a m under central difference |
| MpmElement.ScatteredMomentumShifts | applications/ParticleMechanicsApplication/custom_elements/updated_lagrangian_quadrilateral.cpp:957-969 | each node's NODAL_MOMENTUM is shifted by N[i] times the point's momentum share |
| MpmElement.ScatteredInertiaEntry | applications/ParticleMechanicsApplication/custom_elements/updated_lagrangian_quadrilateral.cpp:957-969 | node i's inertia gains N[i] (a - aux a) m |
| MpmElement.ScatteredInertiaShifts | applications/ParticleMechanicsApplication/custom_elements/updated_lagrangian_quadrilateral.cpp:957-969 | each node's NODAL_INERTIA is shifted by N[i] times the point's inertia share |
| MpmElement.ScatterMomentum | applications/ParticleMechanicsApplication/custom_elements/updated_lagrangian_quadrilateral.cpp:946-971 | with unit-sum weights the total momentum added is the point's momentum share |
| MpmElement.ScatterInertia | applications/ParticleMechanicsApplication/custom_elements/updated_lagrangian_quadrilateral.cpp:946-971 | with unit-sum weights the total inertia added is the point's inertia share |
| MpmElement.ExplicitScatterShares | applications/ParticleMechanicsApplication/custom_elements/updated_lagrangian_quadrilateral.cpp:924-969 | in an explicit analysis nothing is subtracted: node i gains N[i] v m of momentum and N[i] a m of inertia |
| MpmElement.MatchingGridVelocityAddsNoMomentum | applications/ParticleMechanicsApplication/custom_elements/updated_lagrangian_quadrilateral.cpp:924-969 | implicit, without central difference, a point moving with the interpolated grid velocity adds no momentum |
| UpdatedLagrangianElement.CurrentDisp | applications/ParticleMechanicsApplication/custom_elements/updated_lagrangian_quadrilateral.cpp:1163-1186 | the (nodes x dim) matrix whose row i is node i's DISPLACEMENT |
| UpdatedLagrangianElement.ActiveInterpolateStep | applications/ParticleMechanicsApplication/custom_elements/updated_lagrangian_quadrilateral.cpp:1066-1089 | one more node adds its weighted value only when its weight exceeds epsilon |
| UpdatedLagrangianElement.GaussPointMovesWithDisplacement | applications/ParticleMechanicsApplication/custom_elements/updated_lagrangian_quadrilateral.cpp:1050-1112 | position and total displacement move by the same increment, velocity follows the trapezoidal rule, out-of-plane components do not move, and mass, density, volume, stress and strain are untouched |
| UpdatedLagrangianElement.GaussPointFollowsRigidTranslation | applications/ParticleMechanicsApplication/custom_elements/updated_lagrangian_quadrilateral.cpp:1066-1103 | when every node moved by t and carries the point, the point moves by t |
| UpdatedLagrangianElement.ResidualConservation | applications/ParticleMechanicsApplication/custom_elements/updated_lagrangian_quadrilateral.cpp:1391-1415 | the grid's FORCE_RESIDUAL grows per component by exactly the residual's component sum |
| UpdatedLagrangianElement.ResidualKeepsOtherComponents | applications/ParticleMechanicsApplication/custom_elements/updated_lagrangian_quadrilateral.cpp:1391-1415 | components beyond the working dimension, and every other nodal value, are unchanged |
| UpdatedLagrangianElement.GetInt | applications/ParticleMechanicsApplication/custom_elements/updated_lagrangian_quadrilateral.cpp:1875-1889 | only MP_MATERIAL_ID is known and reads the properties id; anything else is an error |
| UpdatedLagrangianElement.GetReal | applications/ParticleMechanicsApplication/custom_elements/updated_lagrangian_quadrilateral.cpp:1891-1923 | fails exactly on an unknown scalar variable |
| UpdatedLagrangianElement.GetVector | applications/ParticleMechanicsApplication/custom_elements/updated_lagrangian_quadrilateral.cpp:1925-1951 | fails exactly on an unknown vector variable |
| UpdatedLagrangianElement.GetList | applications/ParticleMechanicsApplication/custom_elements/updated_lagrangian_quadrilateral.cpp:1953-1970 | fails exactly on an unknown stress or strain vector |
| UpdatedLagrangianElement.SetReal | applications/ParticleMechanicsApplication/custom_elements/updated_lagrangian_quadrilateral.cpp:1982-2003 | more than one value is an error; with one value only density, mass and volume can be set |
| UpdatedLagrangianElement.SetVector | applications/ParticleMechanicsApplication/custom_elements/updated_lagrangian_quadrilateral.cpp:2005-2032 | more than one value is an error; with one value every known vector variable can be set |
| UpdatedLagrangianElement.SetList | applications/ParticleMechanicsApplication/custom_elements/updated_lagrangian_quadrilateral.cpp:2034-2052 | more than one value is an error; with one value the stress and the strain vectors can be set |
| UpdatedLagrangianElement.RealSetGetRoundTrip | applications/ParticleMechanicsApplication/custom_elements/updated_lagrangian_quadrilateral.cpp:1891-2003 | a scalar that is set reads back; every other scalar, every vector and every stress or strain vector reads as before |
| UpdatedLagrangianElement.VectorSetGetRoundTrip | applications/ParticleMechanicsApplication/custom_elements/updated_lagrangian_quadrilateral.cpp:1925-2032 | a vector that is set reads back (both coordinate names read it); every other vector, every scalar and every stress or strain vector reads as before |
| UpdatedLagrangianElement.ListSetGetRoundTrip | applications/ParticleMechanicsApplication/custom_elements/updated_lagrangian_quadrilateral.cpp:1953-2052 | a stress or strain vector that is set reads back; the other one, every scalar and every vector reads as before |
| UpdatedLagrangianElement.StepKinematics | applications/ParticleMechanicsApplication/custom_elements/updated_lagrangian_quadrilateral.cpp:358-415 | the step's F comes from the nodal displacements, the history is the stored one, B has the system's size |
| UpdatedLagrangianElement.StepLawComposesHistory | applications/ParticleMechanicsApplication/custom_elements/updated_lagrangian_quadrilateral.cpp:204-250 | the step is refused exactly when det F < 0; otherwise detFT = det F * detF0, FT = F F0, and detFT stays the determinant of FT |
| UpdatedLagrangianElement.PointDensity | applications/ParticleMechanicsApplication/custom_elements/updated_lagrangian_quadrilateral.cpp:308-337 | explicit keeps the point's density; implicit takes DENSITY / detFT and fails with the law's error; the density used is never zero |
| UpdatedLagrangianElement.ReweightingConservesMass | applications/ParticleMechanicsApplication/custom_elements/updated_lagrangian_quadrilateral.cpp:329-337 | after reweighting, density times volume is the point's mass and the mass is unchanged |
| UpdatedLagrangianElement.RigidGridMotionNoDeformation | applications/ParticleMechanicsApplication/custom_elements/updated_lagrangian_quadrilateral.cpp:358-404 | when every node moved by the same vector, the step's deformation gradient is the identity |
| UpdatedLagrangianElement.UpdatedLagrangianQuadrilateral.constructor | applications/ParticleMechanicsApplication/custom_elements/updated_lagrangian_quadrilateral.cpp:62-69 | the element holds its nodes and point, and its step is marked finalized |
| UpdatedLagrangianElement.UpdatedLagrangianQuadrilateral.Initialize | applications/ParticleMechanicsApplication/custom_elements/updated_lagrangian_quadrilateral.cpp:137-150 | F0 = I and detF0 = 1 = det F0; stress and strain are sized for the law, and a missing law is an error |
| UpdatedLagrangianElement.UpdatedLagrangianQuadrilateral.InitializeSolutionStep | applications/ParticleMechanicsApplication/custom_elements/updated_lagrangian_quadrilateral.cpp:899-972 | clears the finalized flag, keeps point and history, and the nodes become the scattered grid (see the scatter lemmas) |
| UpdatedLagrangianElement.UpdatedLagrangianQuadrilateral.ScatterToNodes | applications/ParticleMechanicsApplication/custom_elements/updated_lagrangian_quadrilateral.cpp:946-971 | the nodes become exactly the scattered grid: each node gains its share of mass, momentum and inertia and nothing else changes |
| UpdatedLagrangianElement.UpdatedLagrangianQuadrilateral.InterpolatePrevious | applications/ParticleMechanicsApplication/custom_elements/updated_lagrangian_quadrilateral.cpp:924-943 | the previous grid velocity and acceleration interpolated at the point |
| UpdatedLagrangianElement.UpdatedLagrangianQuadrilateral.UpdateGaussPoint | applications/ParticleMechanicsApplication/custom_elements/updated_lagrangian_quadrilateral.cpp:1050-1112 | the point becomes the updated point, and the history is unchanged |
| UpdatedLagrangianElement.UpdatedLagrangianQuadrilateral.InterpolateActive | applications/ParticleMechanicsApplication/custom_elements/updated_lagrangian_quadrilateral.cpp:1066-1089 | the increment and acceleration interpolated over the nodes above epsilon |
| UpdatedLagrangianElement.UpdatedLagrangianQuadrilateral.FinalizeStepVariables | applications/ParticleMechanicsApplication/custom_elements/updated_lagrangian_quadrilateral.cpp:1019-1042 | commits detF0 := detFT and F0 := FT, stores stress and strain, and moves the point |
| UpdatedLagrangianElement.UpdatedLagrangianQuadrilateral.FinalizeSolutionStep | applications/ParticleMechanicsApplication/custom_elements/updated_lagrangian_quadrilateral.cpp:977-1015 | explicit is refused before any change; an inverted step is refused with the law's error; otherwise the history is composed, the point moved and the flag set |
| UpdatedLagrangianElement.UpdatedLagrangianQuadrilateral.CalculateElementalSystem | applications/ParticleMechanicsApplication/custom_elements/updated_lagrangian_quadrilateral.cpp:289-353 | the point is reweighted with the step's density, or the error leaves everything untouched; an explicit step builds no left-hand side; the arrays gain the stiffness and forces over the new volume |
| UpdatedLagrangianElement.UpdatedLagrangianQuadrilateral.AddLocalSystem | applications/ParticleMechanicsApplication/custom_elements/updated_lagrangian_quadrilateral.cpp:339-350 | the left-hand side gains the material and, unless ignored, geometric stiffness only when requested and implicit; the right-hand side gains the external force and either the internal force of the stress or the explicit internal force; unrequested arrays are untouched |
| UpdatedLagrangianElement.UpdatedLagrangianQuadrilateral.Reweight | applications/ParticleMechanicsApplication/custom_elements/updated_lagrangian_quadrilateral.cpp:308-337 | the density, volume and B of the step, or the error with the point unchanged |
| UpdatedLagrangianElement.UpdatedLagrangianQuadrilateral.StepDensity | applications/ParticleMechanicsApplication/custom_elements/updated_lagrangian_quadrilateral.cpp:308-337 | the density of the step as PointDensity defines it (kept when explicit, DENSITY / detFT when implicit, division by zero reported) and B when implicit, without changing anything |
| UpdatedLagrangianElement.UpdatedLagrangianQuadrilateral.CalculateCurrentDisp | applications/ParticleMechanicsApplication/custom_elements/updated_lagrangian_quadrilateral.cpp:1163-1186 | the nested loop yields CurrentDisp of the nodes: row i is node i's DISPLACEMENT cut to dim |
| UpdatedLagrangianElement.UpdatedLagrangianQuadrilateral.CalculateDampingMatrix | applications/ParticleMechanicsApplication/custom_elements/updated_lagrangian_quadrilateral.cpp:1338-1389 | alpha M + beta K with M the lumped mass, K the left-hand side built from zero, and each coefficient from the properties before the process information; the point is reweighted as in CalculateElementalSystem; an error is passed on with the damping matrix left zeroed |
| UpdatedLagrangianElement.UpdatedLagrangianQuadrilateral.CalculateStiffness | applications/ParticleMechanicsApplication/custom_elements/updated_lagrangian_quadrilateral.cpp:797-815 | the left-hand side only, into a zeroed matrix: BuiltStiffness of the step's B and the new volume, or the error with the point unchanged |
| UpdatedLagrangianElement.UpdatedLagrangianQuadrilateral.ComputeStepLaw | applications/ParticleMechanicsApplication/custom_elements/updated_lagrangian_quadrilateral.cpp:313-317 | the parameters the law receives are StepLaw of the current nodes and history, and B is that of the step kinematics |
| UpdatedLagrangianElement.UpdatedLagrangianQuadrilateral.AddExplicitContribution | applications/ParticleMechanicsApplication/custom_elements/updated_lagrangian_quadrilateral.cpp:1391-1415 | the residual is added to FORCE_RESIDUAL only for that pairing of variables; otherwise nothing changes |
| UpdatedLagrangianElement.UpdatedLagrangianQuadrilateral.SetIntValues | applications/ParticleMechanicsApplication/custom_elements/updated_lagrangian_quadrilateral.cpp:1976-1980 | any integer variable and any number of values leave the point, the history and the flag as they were, so MP_MATERIAL_ID cannot be set |
| UpdatedLagrangianElement.UpdatedLagrangianQuadrilateral.SetRealValues | applications/ParticleMechanicsApplication/custom_elements/updated_lagrangian_quadrilateral.cpp:1982-2003 | the point becomes the one SetReal gives, or the error leaves it unchanged |
| UpdatedLagrangianElement.UpdatedLagrangianQuadrilateral.SetVectorValues | applications/ParticleMechanicsApplication/custom_elements/updated_lagrangian_quadrilateral.cpp:2005-2032 | the point becomes the one SetVector gives, or the error leaves it unchanged |
| UpdatedLagrangianElement.UpdatedLagrangianQuadrilateral.SetListValues | applications/ParticleMechanicsApplication/custom_elements/updated_lagrangian_quadrilateral.cpp:2034-2052 | the point becomes the one SetList gives, or the error leaves it unchanged |
| MpmDirichletCondition.ImposedRestAddsNothing | applications/ParticleMechanicsApplication/custom_conditions/particle_based_conditions/mpm_particle_base_dirichlet_condition.cpp:39 | zero imposed velocity and acceleration leave the increment unchanged |
| MpmDirichletCondition.ImposedMotionFromRest | applications/ParticleMechanicsApplication/custom_conditions/particle_based_conditions/mpm_particle_base_dirichlet_condition.cpp:39 | from rest the increment is v dt + a dt^2 / 2 |
| MpmDirichletCondition.ImposedVelocitySteps | applications/ParticleMechanicsApplication/custom_conditions/particle_based_conditions/mpm_particle_base_dirichlet_condition.cpp:39 | under constant velocity two steps equal one step over the summed time |
| MpmDirichletCondition.AreaScatterConservesArea | applications/ParticleMechanicsApplication/custom_conditions/particle_based_conditions/mpm_particle_base_dirichlet_condition.cpp:48-55 | with unit-sum weights the grid's NODAL_AREA grows by exactly the particle's area, and nothing else on a node changes |
| MpmDirichletCondition.Commit | applications/ParticleMechanicsApplication/custom_conditions/particle_based_conditions/mpm_particle_base_dirichlet_condition.cpp:66-79 | the increment is cleared after committing |
| MpmDirichletCondition.CommitIdempotent | applications/ParticleMechanicsApplication/custom_conditions/particle_based_conditions/mpm_particle_base_dirichlet_condition.cpp:66-79 | coordinate and total displacement advance by the same increment, and a second finalize changes nothing |
| MpmDirichletCondition.DirichletCondition.constructor | applications/ParticleMechanicsApplication/custom_conditions/particle_based_conditions/mpm_particle_base_dirichlet_condition.cpp:26-40 | the particle starts at its coordinate with zero displacement and zero increment |
| MpmDirichletCondition.DirichletCondition.InitializeSolutionStep | applications/ParticleMechanicsApplication/custom_conditions/particle_based_conditions/mpm_particle_base_dirichlet_condition.cpp:26-57 | the increment grows by v dt + a dt^2 / 2, coordinate and displacement are kept, and each node's NODAL_AREA gains N[i] * area |
| MpmDirichletCondition.DirichletCondition.FinalizeSolutionStep | applications/ParticleMechanicsApplication/custom_conditions/particle_based_conditions/mpm_particle_base_dirichlet_condition.cpp:62-82 | the state becomes its commit: coordinate and displacement gain the increment, which is cleared |
| ShallowWaterBdfScheme.PredictedStep | applications/ShallowWaterApplication/custom_strategies/shallow_water_residual_based_bdf_scheme.h:145-152 | one component of the predictor loop: a fixed one is skipped, a free one extrapolated |
| ShallowWaterBdfScheme.PredictedValues | applications/ShallowWaterApplication/custom_strategies/shallow_water_residual_based_bdf_scheme.h:138-152 | a fixed component keeps its value, a free one becomes previous + dt * previous derivative; past values and derivatives are untouched |
| ShallowWaterBdfScheme.CombinationOfLinearHistory | applications/ShallowWaterApplication/custom_strategies/shallow_water_residual_based_bdf_scheme.h:206-214 | on a linear history the BDF combination is the coefficient sum and the first moment weighted by the history's offset and slope |
| ShallowWaterBdfScheme.BdfExactOnLinearHistory | applications/ShallowWaterApplication/custom_strategies/shallow_water_residual_based_bdf_scheme.h:206-214 | with the first- and second-order coefficients, the derivative of a history changing at constant rate s is s |
| ShallowWaterBdfScheme.PredictionKeepsFirstOrderRate | applications/ShallowWaterApplication/custom_strategies/shallow_water_residual_based_bdf_scheme.h:138-155 | with first-order coefficients, predicting a free component and then differentiating gives back its previous derivative |
| ShallowWaterBdfScheme.FirstOrderRate | applications/ShallowWaterApplication/custom_strategies/shallow_water_residual_based_bdf_scheme.h:206-214 | the first-order formula applied to a history that moved by dt * v over the last step gives v |
| ShallowWaterBdfScheme.LhsIsResidualDerivative | applications/ShallowWaterApplication/custom_strategies/shallow_water_residual_based_bdf_scheme.h:238-265 | the left-hand-side term bdf0 M is the exact derivative of the dynamic residual with respect to the current unknowns |
| ShallowWaterBdfScheme.BdfScheme.constructor | applications/ShallowWaterApplication/custom_strategies/shallow_water_residual_based_bdf_scheme.h:86-89 | the scheme holds its order and one coefficient per history step |
| ShallowWaterBdfScheme.BdfScheme.UpdateFirstDerivative | applications/ShallowWaterApplication/custom_strategies/shallow_water_residual_based_bdf_scheme.h:204-215 | ACCELERATION and VELOCITY_Z of the current step become the BDF combinations of the MOMENTUM and HEIGHT histories; nothing else changes |
| ShallowWaterBdfScheme.BdfScheme.UpdateSecondDerivative | applications/ShallowWaterApplication/custom_strategies/shallow_water_residual_based_bdf_scheme.h:221 | the node is unchanged |
| ShallowWaterBdfScheme.BdfScheme.Predict | applications/ShallowWaterApplication/custom_strategies/shallow_water_residual_based_bdf_scheme.h:123-159 | every node, fixed or not, becomes its prediction followed by its derivative update |
| ShallowWaterBdfScheme.BdfScheme.PredictNode | applications/ShallowWaterApplication/custom_strategies/shallow_water_residual_based_bdf_scheme.h:142-156 | the loop body for one node: predict the free components, then update the derivatives |
| ShallowWaterBdfScheme.BdfScheme.AddDynamicsToLhs | applications/ShallowWaterApplication/custom_strategies/shallow_water_residual_based_bdf_scheme.h:230-241 | the left-hand side gains bdf[0] M when M is declared, and is unchanged otherwise |
| ShallowWaterBdfScheme.BdfScheme.AddDynamicsToRhs | applications/ShallowWaterApplication/custom_strategies/shallow_water_residual_based_bdf_scheme.h:251-291 | the right-hand side (of an element or a condition) loses M times the current first derivatives when M is declared, and is unchanged otherwise |
| ContactUtilities.CrossPerpendicular | applications/StructuralMechanicsApplication/custom_utilities/contact_utilities.h:410-422 | the cross product is perpendicular to both factors |
| ContactUtilities.Project | applications/StructuralMechanicsApplication/custom_utilities/contact_utilities.h:202-215 | the destination is the projected point plus dist times the normal |
| ContactUtilities.ProjectionLiesOnPlane | applications/StructuralMechanicsApplication/custom_utilities/contact_utilities.h:210-214 | for a unit normal the projected point lies on the plane through the origin |
| ContactUtilities.ProjectionIdempotent | applications/StructuralMechanicsApplication/custom_utilities/contact_utilities.h:210-214 | for a unit normal, projecting the projected point gives the same point at distance 0 |
| ContactUtilities.MasterLineThroughNodes | applications/StructuralMechanicsApplication/custom_utilities/contact_utilities.h:143-145 | the master line y = a1 x + b1 passes through both master nodes |
| ContactUtilities.ProjectDirection | applications/StructuralMechanicsApplication/custom_utilities/contact_utilities.h:129-188 | a dimension other than 2 is an error; a vertical master or parallel lines is a division by zero; z is 0; a near-vertical direction keeps the destination's x |
| ContactUtilities.ProjectDirectionOnMasterLine | applications/StructuralMechanicsApplication/custom_utilities/contact_utilities.h:143-166 | the projected point lies on the master line |
| ContactUtilities.ProjectDirectionAlongDirection | applications/StructuralMechanicsApplication/custom_utilities/contact_utilities.h:149-166 | the projected point lies on the line through the destination along the direction |
| ContactUtilities.SquaredRadius | applications/StructuralMechanicsApplication/custom_utilities/contact_utilities.h:304-331 | the squared radius is the largest squared node distance from the center (an upper bound that is attained), or 0 |
| ContactUtilities.LineNormalPerpendicular | applications/StructuralMechanicsApplication/custom_utilities/contact_utilities.h:367-381 | the 2-node normal has zero z, is perpendicular to the segment and has the segment's length |
| ContactUtilities.QuadraticLineNormalPerpendicular | applications/StructuralMechanicsApplication/custom_utilities/contact_utilities.h:384-409 | the quadratic-line normal is perpendicular to the parabola's tangent at the middle node |
| ContactUtilities.TriangleNormalPerpendicular | applications/StructuralMechanicsApplication/custom_utilities/contact_utilities.h:410-422 | the triangle normal is perpendicular to both edges from node 0 |
| ContactUtilities.NewellOfQuadrilateral | applications/StructuralMechanicsApplication/custom_utilities/contact_utilities.h:424-447 | the Newell loop over four nodes is the sum of its four edge terms |
| ContactUtilities.QuadrilateralNormalIsDiagonalCross | applications/StructuralMechanicsApplication/custom_utilities/contact_utilities.h:424-447 | the Newell normal (corrected form) is the cross product of the two diagonals, perpendicular to both |
| ContactUtilities.NewellAsWrittenVanishesOnUnitSquare | applications/StructuralMechanicsApplication/custom_utilities/contact_utilities.h:435-442 | on the unit square the loop as written gives the zero vector, while the corrected form gives (0, 0, 2) |
| ContactUtilities.NormalDirection | applications/StructuralMechanicsApplication/custom_utilities/contact_utilities.h:357-454 | fails exactly on a node count other than 2, 3 or 4, with that count |
| ContactUtilities.GeometryNormal | applications/StructuralMechanicsApplication/custom_utilities/contact_utilities.h:357-454 | the loop computes the normal direction: line, quadratic line, triangle or Newell's quadrilateral normal, before normalisation |

## Left out

- The constitutive law is not part of this model. Stress, tangent matrix C and strain are inputs, and so is the size of its strain vector. The same goes for its `CalculateMaterialResponse`, `FinalizeMaterialResponse`, `InitializeMaterial`, `ResetConstitutiveLaw` and plastic-strain queries.
- `InvertMatrix` is not part of this model. The inverse Jacobian Invj is an input, and `SpatialGradientsReproduceCoordinates` states what it must satisfy.
- `PointLocalCoordinates` is not part of this model. The material point's local coordinates are an input to the shape functions.
- The geometric stiffness `CalculateAndAddKuug` needs `StressVectorToTensor` and `ExpandAndAddReducedMatrix`, which are not part of this model. The geometric stiffness matrix is an input and is added as a whole.
- `CalculateAlmansiStrain` and `CalculateGreenLagrangeStrain` are not modelled: they are constitutive-side strain measures that need the inverse.
- `MPMExplicitUtilities` is not part of this model. The explicit internal force is an input, and `CalculateExplicitStresses` is not modelled.
- `MPMEnergyCalculationUtility` is not part of this model. The energies that `GetReal` reports are inputs.
- The boolean `CalculateOnIntegrationPoints` is left out: it only queries the constitutive law.
- `GetValuesVector`, `GetFirstDerivativesVector`, `GetSecondDerivativesVector`, `GetHistoricalVariables`, `InitializeGeneralVariables` and `InitializeSystemMatrices` are left out. They are plain copies and resizes; the model's matrices carry their sizes in the preconditions.
- `CalculateRightHandSide` and `CalculateLocalSystem` (lines 738-894) are left out. They only choose which of the arrays `CalculateElementalSystem` fills. `CalculateLeftHandSide` is modelled as `CalculateStiffness`, the step of `CalculateDampingMatrix` that uses it.
- Locks and OpenMP are left out. The nodal `+=` updates are modelled as sequential adds on shared node objects.
- The `KRATOS_INFO` dumps before the inversion error are left out. Only the error is kept.
- Serialization, `Clone`, `Create`, `Check` and the copy and assignment operators are left out. Note that `operator=` does not copy `mFinalizedStep`.
- Division by zero is modelled as an explicit error instead of IEEE infinity or NaN. This applies to `VolumeChange`, `PointDensity` (a zero `detFT`, density or point density) and `ProjectDirection` (a vertical master segment or parallel lines).
- ProjectDirection: the returned distance needs a square root and is omitted. The model returns the projected point only.
- SquaredRadius: `CenterAndRadius` returns the square root of this value, and the model stops before the square root. `Geometry::Center` is an input, and the trailing `ConditionNormal` call is left out.
- NormalDirection: the division by the norm is left out, so the model gives the direction before normalisation.
- NormalDirection: for the quadratic line, the parabola's coefficients are an input. They come from `InvMat3x3`, which is not part of this model.
- `ContactContainerFiller`, `LocalLine2D2NProcess`, `ConditionNormal` and `ComputeNodesMeanNormalModelPart` are left out. They need geometry queries, model-part iteration and printing.
- The BDF coefficients come from the generic BDF scheme, which is not part of this model. The scheme takes them as an input. `BdfCoefficients` gives the first- and second-order values for a constant step, and is used only to state what the combination computes.
- `CalculateIntegrationWeight` (lines 1278-1286) is a one-multiplication helper that this element never calls: `CalculateElementalSystem` integrates over MP_VOLUME directly. `IntegrationWeight` models it, and `ThicknessScalesInternalForce` and `ThicknessScalesStiffness` state what it would do to the forces and the stiffness.
- Machine epsilon in `UpdateGaussPoint` and the `1e-24` threshold in `DecimalCorrection` are named real constants. Rounding is not modelled.
- SetGeneralVariables follows the code: only a strictly negative `det F` is fatal (line 207), so a zero determinant passes.
- ShapeFunctionValues and `ShapeFunctionLocalGradients` also follow the code. A dimension other than 2 or 3 hands back the caller's previous result instead of raising an error.

## Findings

| source | as written | input that shows it | evidently intended | confidence | as-written member | corrected member |
|---|---|---|---|---|---|---|
| applications/StructuralMechanicsApplication/custom_utilities/contact_utilities.h:435-442 | Newell's terms multiply differences by differences: `(y_i - y_j) * (z_i - z_j)`, `(z_i - z_j) * (x_i - x_j)`, `(x_i - x_j) * (y_i - y_j)` | the unit square (0,0,0), (1,0,0), (1,1,0), (0,1,0) gives the zero normal, so the division by its norm is 0/0 | Newell's method multiplies differences by sums, `(y_i - y_j) * (z_i + z_j)` and so on, giving (0, 0, 2), twice the area along +z | not executed | ContactUtilities.NewellAsWrittenVanishesOnUnitSquare | ContactUtilities.QuadrilateralNormalIsDiagonalCross |

`GeometryNormal` and `NormalDirection` use the corrected form.
