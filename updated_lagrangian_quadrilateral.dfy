/** The updated-Lagrangian quadrilateral/hexahedral MPM element as an object:
    the material point it carries, the stored total deformation gradient and
    its determinant, the finalized-step flag, and the grid nodes it shares
    with the other elements of its cell. */
module UpdatedLagrangianElement {
  import opened Algebra
  import opened MpmErrors
  import opened MpmShapeFunctions
  import opened MpmKinematics
  import opened MpmAssembly
  import opened MpmGrid
  import opened MpmElement

  // ---------------------------------------------------------------------------
  // Grid-to-particle update (UpdateGaussPoint)

  function Displacements(data: seq<NodeData>): (u: seq<Vec3>)
    ensures |u| == |data|
  {
    seq(|data|, i requires 0 <= i < |data| => data[i].displacement)
  }

  function CurrentAccelerations(data: seq<NodeData>): (a: seq<Vec3>)
    ensures |a| == |data|
  {
    seq(|data|, i requires 0 <= i < |data| => CurrentAcceleration(data[i]))
  }

  /** The nodal displacements as a (nodes x dim) matrix, CalculateCurrentDisp. */
  function CurrentDisp(dim: nat, data: seq<NodeData>): (u: Mat)
    requires dim <= 3
    ensures IsMatrix(u, |data|, dim)
    ensures forall i, j :: 0 <= i < |data| && 0 <= j < dim ==> u[i][j] == data[i].displacement[j]
  {
    seq(|data|, i requires 0 <= i < |data| => data[i].displacement[..dim])
  }

  /** The material point after the grid solution has been mapped back to it:
      delta and the grid acceleration are interpolated over the nodes whose
      weight exceeds Epsilon; the velocity follows the trapezoidal rule. */
  function UpdatedPoint(dim: nat, mp: MaterialPoint, n: seq<real>, data: seq<NodeData>, dt: real): (p: MaterialPoint)
    requires |n| == |data|
  {
    var delta := ActiveInterpolate(dim, n, Displacements(data));
    var acc := ActiveInterpolate(dim, n, CurrentAccelerations(data));
    mp.(velocity := VecAdd(mp.velocity, VecScale(0.5 * dt, VecAdd(acc, mp.acceleration))),
        xg := VecAdd(mp.xg, delta),
        acceleration := acc,
        displacement := VecAdd(mp.displacement, delta))
  }

  /** The thresholded interpolation over the first m nodes. */
  function ActiveInterpolateUpTo(dim: nat, n: seq<real>, values: seq<Vec3>, m: nat): (v: Vec3)
    requires |values| == |n| && m <= |n|
    ensures m == |n| ==> v == ActiveInterpolate(dim, n, values)
  {
    [ if 0 < dim then ActiveWeightedSum(n, values, 0, m) else 0.0,
      if 1 < dim then ActiveWeightedSum(n, values, 1, m) else 0.0,
      if 2 < dim then ActiveWeightedSum(n, values, 2, m) else 0.0 ]
  }

  /** One node's contribution, skipped when its weight is at most Epsilon. */
  function ActiveStep(dim: nat, v: Vec3, ni: real, x: Vec3): Vec3 {
    if ni > Epsilon then
      [ if 0 < dim then v[0] + ni * x[0] else v[0],
        if 1 < dim then v[1] + ni * x[1] else v[1],
        if 2 < dim then v[2] + ni * x[2] else v[2] ]
    else v
  }

  lemma {:induction false} ActiveInterpolateStep(dim: nat, n: seq<real>, values: seq<Vec3>, m: nat)
    requires |values| == |n| && m < |n|
    ensures ActiveInterpolateUpTo(dim, n, values, m + 1)
         == ActiveStep(dim, ActiveInterpolateUpTo(dim, n, values, m), n[m], values[m])
  {
    var before := ActiveInterpolateUpTo(dim, n, values, m);
    var after := ActiveInterpolateUpTo(dim, n, values, m + 1);
    var step := ActiveStep(dim, before, n[m], values[m]);
    forall k | 0 <= k < 3
      ensures after[k] == step[k]
    {
      if k < dim {
        assert after[k] == ActiveWeightedSum(n, values, k, m + 1);
        assert before[k] == ActiveWeightedSum(n, values, k, m);
      }
    }
  }

  /** The plain interpolation over the first m nodes. */
  function InterpolateUpTo(dim: nat, n: seq<real>, values: seq<Vec3>, m: nat): (v: Vec3)
    requires |values| == |n| && m <= |n|
    ensures m == |n| ==> v == Interpolate(dim, n, values)
  {
    [ if 0 < dim then WeightedSum(n, values, 0, m) else 0.0,
      if 1 < dim then WeightedSum(n, values, 1, m) else 0.0,
      if 2 < dim then WeightedSum(n, values, 2, m) else 0.0 ]
  }

  /** One node's contribution to the working components. */
  function WeightedStep(dim: nat, v: Vec3, ni: real, x: Vec3): Vec3 {
    [ if 0 < dim then v[0] + ni * x[0] else v[0],
      if 1 < dim then v[1] + ni * x[1] else v[1],
      if 2 < dim then v[2] + ni * x[2] else v[2] ]
  }

  lemma {:induction false} InterpolateStep(dim: nat, n: seq<real>, values: seq<Vec3>, m: nat)
    requires |values| == |n| && m < |n|
    ensures InterpolateUpTo(dim, n, values, m + 1)
         == WeightedStep(dim, InterpolateUpTo(dim, n, values, m), n[m], values[m])
  {
    var before := InterpolateUpTo(dim, n, values, m);
    var after := InterpolateUpTo(dim, n, values, m + 1);
    var step := WeightedStep(dim, before, n[m], values[m]);
    forall k | 0 <= k < 3
      ensures after[k] == step[k]
    {
      if k < dim {
        assert after[k] == WeightedSum(n, values, k, m + 1);
        assert before[k] == WeightedSum(n, values, k, m);
      }
    }
  }

  /** Position and total displacement move by the same increment, the new
      acceleration is the interpolated grid acceleration, the velocity is
      advanced by the mean of old and new accelerations, and the mass,
      density, volume and stresses are not touched. */
  lemma {:induction false} GaussPointMovesWithDisplacement(dim: nat, mp: MaterialPoint, n: seq<real>, data: seq<NodeData>, dt: real)
    requires |n| == |data|
    ensures var p := UpdatedPoint(dim, mp, n, data, dt);
      && (forall k :: 0 <= k < 3 ==> p.xg[k] - mp.xg[k] == p.displacement[k] - mp.displacement[k])
      && (forall k :: 0 <= k < 3 ==> p.velocity[k] == mp.velocity[k] + 0.5 * dt * (p.acceleration[k] + mp.acceleration[k]))
      && (forall k :: dim <= k < 3 ==> p.xg[k] == mp.xg[k] && p.acceleration[k] == 0.0)
      && p.mass == mp.mass && p.density == mp.density && p.volume == mp.volume
      && p.cauchyStress == mp.cauchyStress && p.almansiStrain == mp.almansiStrain
  {
  }

  /** When every node carries the point (all weights above Epsilon) and the
      grid translates rigidly by t, the point moves by t as well. */
  lemma {:induction false} GaussPointFollowsRigidTranslation(dim: nat, mp: MaterialPoint, n: seq<real>, data: seq<NodeData>, dt: real, t: Vec3)
    requires |n| == |data| && Sum(n) == 1.0
    requires forall i :: 0 <= i < |n| ==> n[i] > Epsilon
    requires forall i :: 0 <= i < |data| ==> data[i].displacement == t
    ensures forall k :: 0 <= k < dim && k < 3 ==> UpdatedPoint(dim, mp, n, data, dt).xg[k] == mp.xg[k] + t[k]
  {
    var u := Displacements(data);
    ActiveSumIsFull(n, u, 0, |n|);
    ActiveSumIsFull(n, u, 1, |n|);
    ActiveSumIsFull(n, u, 2, |n|);
    InterpolateUniform(dim, n, u, t);
  }

  // ---------------------------------------------------------------------------
  // Residual handed back to the grid (AddExplicitContribution)

  /** Each node's FORCE_RESIDUAL gains its block of the residual vector. */
  function WithResidual(dim: nat, data: seq<NodeData>, rhs: seq<real>): (r: seq<NodeData>)
    requires (dim == 2 || dim == 3) && |rhs| == dim * |data|
    ensures |r| == |data|
  {
    seq(|data|, i requires 0 <= i < |data| =>
      SlotInRange(dim, i, 0, |data|);
      SlotInRange(dim, i, dim - 1, |data|);
      data[i].(forceResidual := ResidualShare(dim, data[i].forceResidual, rhs[dim * i..dim * i + dim])))
  }

  function ResidualShare(dim: nat, f: Vec3, block: seq<real>): (g: Vec3)
    requires |block| == dim
  {
    seq(3, k requires 0 <= k < 3 => if k < dim then f[k] + block[k] else f[k])
  }

  function ResidualComponents(data: seq<NodeData>, k: nat): (m: seq<real>)
    requires k < 3
    ensures |m| == |data|
  {
    seq(|data|, i requires 0 <= i < |data| => data[i].forceResidual[k])
  }

  /** Adding the residual block by block hands the grid exactly the
      residual's component sums, and leaves the components beyond the
      working dimension alone. */
  lemma {:induction false} ResidualConservation(dim: nat, data: seq<NodeData>, rhs: seq<real>, j: nat)
    requires (dim == 2 || dim == 3) && |rhs| == dim * |data| && j < dim
    ensures Sum(ResidualComponents(WithResidual(dim, data, rhs), j))
         == Sum(ResidualComponents(data, j)) + ComponentSum(dim, rhs, j, |data|)
  {
    ResidualPrefix(dim, data, rhs, j, |data|);
    assert ResidualComponents(WithResidual(dim, data, rhs), j)[..|data|] == ResidualComponents(WithResidual(dim, data, rhs), j);
    assert ResidualComponents(data, j)[..|data|] == ResidualComponents(data, j);
  }

  lemma {:induction false} ResidualPrefix(dim: nat, data: seq<NodeData>, rhs: seq<real>, j: nat, m: nat)
    requires (dim == 2 || dim == 3) && |rhs| == dim * |data| && j < dim && m <= |data| && dim * m <= |rhs|
    ensures Sum(ResidualComponents(WithResidual(dim, data, rhs), j)[..m])
        == Sum(ResidualComponents(data, j)[..m]) + ComponentSum(dim, rhs, j, m)
  {
    if m > 0 {
      MulMonotone(dim, m - 1, m);
      ResidualPrefix(dim, data, rhs, j, m - 1);
      SumPrefixStep(ResidualComponents(WithResidual(dim, data, rhs), j), m - 1);
      SumPrefixStep(ResidualComponents(data, j), m - 1);
      ResidualEntry(dim, data, rhs, m - 1, j);
    }
  }

  lemma {:induction false} ResidualEntry(dim: nat, data: seq<NodeData>, rhs: seq<real>, i: nat, j: nat)
    requires (dim == 2 || dim == 3) && |rhs| == dim * |data| && j < dim && i < |data|
    ensures Slot(dim, i, j) < |rhs|
    ensures ResidualComponents(WithResidual(dim, data, rhs), j)[i]
         == ResidualComponents(data, j)[i] + rhs[Slot(dim, i, j)]
  {
    SlotInRange(dim, i, j, |data|);
    SlotInRange(dim, i, 0, |data|);
    SlotInRange(dim, i, dim - 1, |data|);
    assert rhs[dim * i..dim * i + dim][j] == rhs[Slot(dim, i, j)];
  }

  lemma {:induction false} ResidualKeepsOtherComponents(dim: nat, data: seq<NodeData>, rhs: seq<real>, i: nat, k: nat)
    requires (dim == 2 || dim == 3) && |rhs| == dim * |data| && i < |data| && dim <= k < 3
    ensures WithResidual(dim, data, rhs)[i].forceResidual[k] == data[i].forceResidual[k]
    ensures WithResidual(dim, data, rhs)[i].(forceResidual := data[i].forceResidual) == data[i]
  {
  }

  // ---------------------------------------------------------------------------
  // Accessors keyed by variable (CalculateOnIntegrationPoints and
  // SetValuesOnIntegrationPoints)

  datatype RealVariable =
    | MpDensity | MpMass | MpVolume
    | MpPotentialEnergy | MpKineticEnergy | MpStrainEnergy | MpTotalEnergy
    | OtherRealVariable(name: string)

  datatype VectorVariable =
    | MpCoord | MpcCoord | MpDisplacement | MpVelocity | MpAcceleration | MpVolumeAcceleration
    | OtherVectorVariable(name: string)

  datatype ListVariable = MpCauchyStressVector | MpAlmansiStrainVector | OtherListVariable(name: string)

  datatype IntVariable = MpMaterialId | OtherIntVariable(name: string)

  /** The energies of the point, which a utility outside this model computes. */
  datatype Energies = Energies(potential: real, kinetic: real, strain: real, total: real)

  function GetInt(v: IntVariable, propertiesId: int): (r: Result<int, ElementError>)
    ensures r.Success? <==> v == MpMaterialId
    ensures r.Success? ==> r.value == propertiesId
    ensures r.Failure? ==> r.error == UnknownVariable
  {
    match v
    case MpMaterialId => Success(propertiesId)
    case OtherIntVariable(_) => Failure(UnknownVariable)
  }

  function GetReal(mp: MaterialPoint, v: RealVariable, e: Energies): (r: Result<real, ElementError>)
    ensures r.Failure? <==> v.OtherRealVariable?
    ensures r.Failure? ==> r.error == UnknownVariable
  {
    match v
    case MpDensity => Success(mp.density)
    case MpMass => Success(mp.mass)
    case MpVolume => Success(mp.volume)
    case MpPotentialEnergy => Success(e.potential)
    case MpKineticEnergy => Success(e.kinetic)
    case MpStrainEnergy => Success(e.strain)
    case MpTotalEnergy => Success(e.total)
    case OtherRealVariable(_) => Failure(UnknownVariable)
  }

  function GetVector(mp: MaterialPoint, v: VectorVariable): (r: Result<Vec3, ElementError>)
    ensures r.Failure? <==> v.OtherVectorVariable?
    ensures r.Failure? ==> r.error == UnknownVariable
  {
    match v
    case MpCoord => Success(mp.xg)
    case MpcCoord => Success(mp.xg)
    case MpDisplacement => Success(mp.displacement)
    case MpVelocity => Success(mp.velocity)
    case MpAcceleration => Success(mp.acceleration)
    case MpVolumeAcceleration => Success(mp.volumeAcceleration)
    case OtherVectorVariable(_) => Failure(UnknownVariable)
  }

  function GetList(mp: MaterialPoint, v: ListVariable): (r: Result<seq<real>, ElementError>)
    ensures r.Failure? <==> v.OtherListVariable?
    ensures r.Failure? ==> r.error == UnknownVariable
  {
    match v
    case MpCauchyStressVector => Success(mp.cauchyStress)
    case MpAlmansiStrainVector => Success(mp.almansiStrain)
    case OtherListVariable(_) => Failure(UnknownVariable)
  }

  /** Only mass, density and volume can be set; more than one value is an
      error, checked before the variable. */
  function SetReal(mp: MaterialPoint, v: RealVariable, values: seq<real>): (r: Result<MaterialPoint, ElementError>)
    requires |values| >= 1
    ensures |values| > 1 ==> r == Failure(TooManyIntegrationPoints)
    ensures |values| == 1 ==> (r.Success? <==> v in {MpDensity, MpMass, MpVolume})
    ensures r.Failure? ==> r.error in {TooManyIntegrationPoints, UnknownVariable}
  {
    if |values| > 1 then Failure(TooManyIntegrationPoints)
    else match v
      case MpMass => Success(mp.(mass := values[0]))
      case MpDensity => Success(mp.(density := values[0]))
      case MpVolume => Success(mp.(volume := values[0]))
      case _ => Failure(UnknownVariable)
  }

  function SetVector(mp: MaterialPoint, v: VectorVariable, values: seq<Vec3>): (r: Result<MaterialPoint, ElementError>)
    requires |values| >= 1
    ensures |values| > 1 ==> r == Failure(TooManyIntegrationPoints)
    ensures |values| == 1 ==> (r.Success? <==> !v.OtherVectorVariable?)
    ensures r.Failure? ==> r.error in {TooManyIntegrationPoints, UnknownVariable}
  {
    if |values| > 1 then Failure(TooManyIntegrationPoints)
    else match v
      case MpCoord => Success(mp.(xg := values[0]))
      case MpcCoord => Success(mp.(xg := values[0]))
      case MpDisplacement => Success(mp.(displacement := values[0]))
      case MpVelocity => Success(mp.(velocity := values[0]))
      case MpAcceleration => Success(mp.(acceleration := values[0]))
      case MpVolumeAcceleration => Success(mp.(volumeAcceleration := values[0]))
      case OtherVectorVariable(_) => Failure(UnknownVariable)
  }

  function SetList(mp: MaterialPoint, v: ListVariable, values: seq<seq<real>>): (r: Result<MaterialPoint, ElementError>)
    requires |values| >= 1
    ensures |values| > 1 ==> r == Failure(TooManyIntegrationPoints)
    ensures |values| == 1 ==> (r.Success? <==> !v.OtherListVariable?)
    ensures r.Failure? ==> r.error in {TooManyIntegrationPoints, UnknownVariable}
  {
    if |values| > 1 then Failure(TooManyIntegrationPoints)
    else match v
      case MpCauchyStressVector => Success(mp.(cauchyStress := values[0]))
      case MpAlmansiStrainVector => Success(mp.(almansiStrain := values[0]))
      case OtherListVariable(_) => Failure(UnknownVariable)
  }

  /** What is set is what is read back, and every other variable, of every
      kind, reads as before; the two coordinate names are one variable. */
  lemma {:induction false} VectorSetGetRoundTrip(mp: MaterialPoint, v: VectorVariable, w: VectorVariable, x: Vec3)
    requires !v.OtherVectorVariable? && !w.OtherVectorVariable?
    ensures SetVector(mp, v, [x]).Success?
    ensures var p := SetVector(mp, v, [x]).value;
      && GetVector(p, v) == Success(x)
      && (SameVectorSlot(v, w) || GetVector(p, w) == GetVector(mp, w))
      && (forall u: RealVariable, e: Energies :: GetReal(p, u, e) == GetReal(mp, u, e))
      && (forall u: ListVariable :: GetList(p, u) == GetList(mp, u))
  {
  }

  predicate SameVectorSlot(v: VectorVariable, w: VectorVariable) {
    v == w || (v in {MpCoord, MpcCoord} && w in {MpCoord, MpcCoord})
  }

  lemma {:induction false} RealSetGetRoundTrip(mp: MaterialPoint, v: RealVariable, w: RealVariable, x: real, e: Energies)
    requires v in {MpDensity, MpMass, MpVolume} && v != w
    ensures SetReal(mp, v, [x]).Success?
    ensures var p := SetReal(mp, v, [x]).value;
      && GetReal(p, v, e) == Success(x)
      && GetReal(p, w, e) == GetReal(mp, w, e)
      && (forall u: VectorVariable :: GetVector(p, u) == GetVector(mp, u))
      && (forall u: ListVariable :: GetList(p, u) == GetList(mp, u))
  {
  }

  lemma {:induction false} ListSetGetRoundTrip(mp: MaterialPoint, v: ListVariable, w: ListVariable, x: seq<real>)
    requires !v.OtherListVariable? && !w.OtherListVariable? && v != w
    ensures SetList(mp, v, [x]).Success?
    ensures var p := SetList(mp, v, [x]).value;
      && GetList(p, v) == Success(x)
      && GetList(p, w) == GetList(mp, w)
      && (forall u: RealVariable, e: Energies :: GetReal(p, u, e) == GetReal(mp, u, e))
      && (forall u: VectorVariable :: GetVector(p, u) == GetVector(mp, u))
  {
  }

  // ---------------------------------------------------------------------------
  // What one step computes from the grid (the kinematics of the current
  // configuration, given the inverse of its Jacobian)

  function StepGradients(dim: nat, local: Vec3, invj: Mat): (dnDx: Mat)
    requires (dim == 2 || dim == 3) && IsMatrix(invj, dim, dim)
    ensures IsMatrix(dnDx, NodeCount(dim), dim)
  {
    SpatialGradients(ShapeFunctionLocalGradients(dim, local, []), invj, NodeCount(dim), dim)
  }

  function StepDeformationGradient(dim: nat, local: Vec3, invj: Mat, data: seq<NodeData>): (f: Mat)
    requires (dim == 2 || dim == 3) && IsMatrix(invj, dim, dim) && |data| == NodeCount(dim)
    ensures IsMatrix(f, dim, dim)
  {
    DeformationGradient(CurrentDisp(dim, data), StepGradients(dim, local, invj), NodeCount(dim), dim)
  }

  /** The kinematics FinalizeSolutionStep recomputes: the step's gradients,
      the nodal displacements, the increment of deformation and B, with the
      stored history alongside. */
  function StepKinematics(dim: nat, local: Vec3, invj: Mat, data: seq<NodeData>, f0: Mat, detF0: real): (k: Kinematics)
    requires (dim == 2 || dim == 3) && IsMatrix(invj, dim, dim) && |data| == NodeCount(dim)
    ensures k.f == StepDeformationGradient(dim, local, invj, data) && k.f0 == f0 && k.detF0 == detF0
    ensures IsMatrix(k.b, VoigtSize(dim), dim * NodeCount(dim))
  {
    var dnDx := StepGradients(dim, local, invj);
    Kinematics(dnDx, CurrentDisp(dim, data), DeformationGradient(CurrentDisp(dim, data), dnDx, NodeCount(dim), dim),
               detF0, f0, DeformationMatrix(dim, dnDx, NodeCount(dim)))
  }

  /** The B the element works with in a step: the B of the step's spatial
      gradients in an implicit one.  An explicit step never computes
      kinematics and only sizes B, leaving its entries unspecified; nothing
      on the explicit path reads them, so the zero matrix stands in. */
  function StepB(dim: nat, local: Vec3, invj: Mat, isExplicit: bool): (b: Mat)
    requires (dim == 2 || dim == 3) && IsMatrix(invj, dim, dim)
    ensures IsMatrix(b, VoigtSize(dim), dim * NodeCount(dim))
    ensures forall data: seq<NodeData>, f0: Mat, detF0: real {:trigger StepKinematics(dim, local, invj, data, f0, detF0)} ::
      !isExplicit && |data| == NodeCount(dim) ==> b == StepKinematics(dim, local, invj, data, f0, detF0).b
  {
    if isExplicit then ZeroMatrix(VoigtSize(dim), dim * NodeCount(dim))
    else DeformationMatrix(dim, StepGradients(dim, local, invj), NodeCount(dim))
  }

  /** The law parameters of the step, or the error of an inverted element. */
  function StepLaw(dim: nat, local: Vec3, invj: Mat, data: seq<NodeData>, f0: Mat, detF0: real): Result<LawParameters, ElementError>
    requires (dim == 2 || dim == 3) && IsMatrix(invj, dim, dim) && |data| == NodeCount(dim) && IsMatrix(f0, dim, dim)
  {
    SetGeneralVariables(dim, StepKinematics(dim, local, invj, data, f0, detF0), ShapeFunctionValues(dim, local, []))
  }

  /** What committing a step does to the history: it is refused exactly when
      the increment inverts the element; otherwise the determinant is
      multiplied by the increment's and the gradient composed with it, and
      a history whose determinant matched its gradient still does. */
  lemma {:induction false} StepLawComposesHistory(dim: nat, local: Vec3, invj: Mat, data: seq<NodeData>, f0: Mat, detF0: real)
    requires (dim == 2 || dim == 3) && IsMatrix(invj, dim, dim) && |data| == NodeCount(dim) && IsMatrix(f0, dim, dim)
    ensures var f := StepDeformationGradient(dim, local, invj, data);
      var law := StepLaw(dim, local, invj, data, f0, detF0);
      && (law.Failure? <==> Det(f, dim) < 0.0)
      && (law.Failure? ==> law.error == InvertedElement(Det(f, dim)))
      && (law.Success? ==> law.value.detFT == Det(f, dim) * detF0 && law.value.ft == MatMul(f, f0, dim, dim, dim))
      && (law.Success? && detF0 == Det(f0, dim) ==> law.value.detFT == Det(law.value.ft, dim))
  {
    LawDeterminant(dim, StepKinematics(dim, local, invj, data, f0, detF0), ShapeFunctionValues(dim, local, []),
                   StepDeformationGradient(dim, local, invj, data), f0, detF0);
  }

  /** The density the point takes for the step, given the step's law
      parameters: an implicit step divides the material's density by the
      total determinant, an explicit one keeps the point's own and does not
      look at the law.  A division by zero, here or in the volume that
      follows, is an error. */
  function PointDensity(law: Result<LawParameters, ElementError>, mp: MaterialPoint, density: real,
                        isExplicit: bool): (r: Result<real, ElementError>)
    ensures r.Success? ==> r.value != 0.0
    ensures isExplicit ==> (r.Success? <==> mp.density != 0.0) && (r.Success? ==> r.value == mp.density)
    ensures !isExplicit && law.Failure? ==> r == Failure(law.error)
    ensures !isExplicit && law.Success? ==> (r.Success? <==> law.value.detFT != 0.0 && density != 0.0)
    ensures !isExplicit && r.Success? ==> law.Success? && r.value * law.value.detFT == density
  {
    if isExplicit then
      if mp.density == 0.0 then Failure(DivisionByZero) else Success(mp.density)
    else
      match law
      case Failure(e) => Failure(e)
      case Success(p) =>
        if p.detFT == 0.0 || density == 0.0 then Failure(DivisionByZero) else Success(density / p.detFT)
  }

  /** The point with the step's density and the volume its unchanged mass
      then occupies. */
  function Reweighted(mp: MaterialPoint, density: real): MaterialPoint
    requires density != 0.0
  {
    mp.(density := density, volume := mp.mass / density)
  }

  /** The forces of the step: body force is volume acceleration times mass,
      and the point's volume is the integration weight. */
  function StepForceInputs(dim: nat, n: seq<real>, mp: MaterialPoint, b: Mat, stress: seq<real>): ForceInputs {
    ForceInputs(dim, n, VecScale(mp.mass, mp.volumeAcceleration), b, stress, mp.volume)
  }

  /** The material points keep the mass they were given: reweighting
      changes density and volume together so that their product is still
      the mass. */
  lemma {:induction false} ReweightingConservesMass(mp: MaterialPoint, density: real)
    requires density != 0.0
    ensures Reweighted(mp, density).density * Reweighted(mp, density).volume == mp.mass
    ensures Reweighted(mp, density).mass == mp.mass
  {
    assert density * (mp.mass / density) == mp.mass;
  }

  /** When every node has moved by the same t the increment of deformation
      is the identity, so the stored history carries over unchanged. */
  lemma {:induction false} RigidGridMotionNoDeformation(dim: nat, local: Vec3, invj: Mat, data: seq<NodeData>, t: Vec3)
    requires (dim == 2 || dim == 3) && IsMatrix(invj, dim, dim) && |data| == NodeCount(dim)
    requires forall i :: 0 <= i < |data| ==> data[i].displacement == t
    ensures StepDeformationGradient(dim, local, invj, data) == Identity(dim)
  {
    var u := CurrentDisp(dim, data);
    assert forall i :: 0 <= i < |data| ==> u[i] == t[..dim];
    var dnDe := ShapeFunctionLocalGradients(dim, local, []);
    RigidTranslationGivesIdentity(dnDe, invj, u, t[..dim], NodeCount(dim), dim);
  }

  // ---------------------------------------------------------------------------
  // The element

  class UpdatedLagrangianQuadrilateral {
    const dim: nat
    const nodes: seq<GridNode>
    var mp: MaterialPoint
    var f0: Mat              // mDeformationGradientF0
    var detF0: real          // mDeterminantF0
    var finalizedStep: bool  // mFinalizedStep

    predicate Valid()
      reads this
    {
      && (dim == 2 || dim == 3)
      && |nodes| == NodeCount(dim)
      && Distinct(nodes)
    }

    /** The history has been set up by Initialize or by a finalized step. */
    predicate HasHistory()
      reads this
    {
      IsMatrix(f0, dim, dim)
    }

    /** Construction with properties marks the step as finalized; the
        history is left for Initialize to set. */
    constructor (dim: nat, nodes: seq<GridNode>, mp: MaterialPoint)
      requires dim == 2 || dim == 3
      requires |nodes| == NodeCount(dim) && Distinct(nodes)
      ensures Valid()
      ensures this.dim == dim && this.nodes == nodes && this.mp == mp
      ensures finalizedStep && f0 == []
    {
      this.dim := dim;
      this.nodes := nodes;
      this.mp := mp;
      f0 := [];
      detF0 := 0.0;
      finalizedStep := true;
    }

    /** Resets the history to the identity and sizes stress and strain for
        the constitutive law; strainSize is None when the properties hold
        no constitutive law, which is an error raised after the history
        has been reset. */
    method Initialize(strainSize: Option<nat>) returns (r: Outcome<ElementError>)
      requires Valid()
      modifies this
      ensures Valid() && HasHistory()
      ensures detF0 == 1.0 && f0 == Identity(dim) && detF0 == Det(f0, dim)
      ensures finalizedStep == old(finalizedStep)
      ensures r.Pass? <==> strainSize.Some?
      ensures r.Fail? ==> r.error == MissingConstitutiveLaw && mp == old(mp)
      ensures r.Pass? ==>
        mp == old(mp).(cauchyStress := Zeros(strainSize.value), almansiStrain := Zeros(strainSize.value))
    {
      detF0 := 1.0;
      f0 := Identity(dim);
      DetIdentity(dim);
      match strainSize {
        case Some(s) =>
          mp := mp.(almansiStrain := Zeros(s), cauchyStress := Zeros(s));
          r := Pass;
        case None =>
          r := Fail(MissingConstitutiveLaw);
      }
    }

    /** Particle-to-grid scatter at the start of a step: clears the
        finalized flag and adds to each node its share of the point's mass,
        momentum and inertia, the latter two relative to the grid velocity
        and acceleration of the previous step in an implicit analysis. */
    method InitializeSolutionStep(local: Vec3, isExplicit: bool, centralDifference: bool, dt: real)
      requires Valid()
      modifies this, nodes
      ensures Valid()
      ensures !finalizedStep
      ensures mp == old(mp) && f0 == old(f0) && detF0 == old(detF0)
      ensures var n := ShapeFunctionValues(dim, local, []);
        Data(nodes) == Scattered(dim, old(Data(nodes)), n, mp,
                                 AuxVelocity(dim, old(Data(nodes)), n, isExplicit),
                                 AuxAcceleration(dim, old(Data(nodes)), n, isExplicit),
                                 centralDifference, dt)
    {
      finalizedStep := false;
      var n := ShapeFunctionValues(dim, local, []);
      var auxV := ZeroVec3;
      var auxA := ZeroVec3;
      if !isExplicit {
        auxV, auxA := InterpolatePrevious(n);
      }
      ScatterToNodes(n, auxV, auxA, centralDifference, dt);
    }

    /** Adds to each node its share, weight n[i], of the point's mass,
        momentum and inertia. */
    method ScatterToNodes(n: seq<real>, auxV: Vec3, auxA: Vec3, centralDifference: bool, dt: real)
      requires Valid() && |n| == |nodes|
      modifies nodes
      ensures Data(nodes) == Scattered(dim, old(Data(nodes)), n, mp, auxV, auxA, centralDifference, dt)
    {
      ghost var data := Data(nodes);
      var i := 0;
      while i < |nodes|
        invariant 0 <= i <= |nodes|
        invariant forall q :: 0 <= q < i ==>
          nodes[q].data == ScatterNode(dim, data[q], n[q], mp, auxV, auxA, centralDifference, dt)
        invariant forall q :: i <= q < |nodes| ==> nodes[q].data == data[q]
        modifies nodes
      {
        nodes[i].data := ScatterNode(dim, nodes[i].data, n[i], mp, auxV, auxA, centralDifference, dt);
        i := i + 1;
      }
      assert Data(nodes) == Scattered(dim, data, n, mp, auxV, auxA, centralDifference, dt);
    }

    /** The grid velocity and acceleration of the previous step interpolated
        at the point; a node without the variable contributes zero. */
    method InterpolatePrevious(n: seq<real>) returns (auxV: Vec3, auxA: Vec3)
      requires Valid() && |n| == |nodes|
      ensures auxV == Interpolate(dim, n, PreviousVelocities(Data(nodes)))
      ensures auxA == Interpolate(dim, n, PreviousAccelerations(Data(nodes)))
    {
      ghost var data := Data(nodes);
      auxV, auxA := ZeroVec3, ZeroVec3;
      var j := 0;
      while j < |nodes|
        invariant 0 <= j <= |nodes|
        invariant auxV == InterpolateUpTo(dim, n, PreviousVelocities(data), j)
        invariant auxA == InterpolateUpTo(dim, n, PreviousAccelerations(data), j)
      {
        InterpolateStep(dim, n, PreviousVelocities(data), j);
        InterpolateStep(dim, n, PreviousAccelerations(data), j);
        auxV := WeightedStep(dim, auxV, n[j], PreviousVelocity(nodes[j].data));
        auxA := WeightedStep(dim, auxA, n[j], PreviousAcceleration(nodes[j].data));
        j := j + 1;
      }
    }

    /** Maps the grid solution back to the point: the nodes whose weight
        exceeds Epsilon contribute their displacement and acceleration. */
    method UpdateGaussPoint(local: Vec3, dt: real)
      requires Valid()
      modifies this
      ensures Valid()
      ensures mp == UpdatedPoint(dim, old(mp), ShapeFunctionValues(dim, local, []), Data(nodes), dt)
      ensures f0 == old(f0) && detF0 == old(detF0) && finalizedStep == old(finalizedStep)
    {
      var n := ShapeFunctionValues(dim, local, []);
      var delta, acc := InterpolateActive(n);
      mp := mp.(velocity := VecAdd(mp.velocity, VecScale(0.5 * dt, VecAdd(acc, mp.acceleration))),
                xg := VecAdd(mp.xg, delta),
                acceleration := acc,
                displacement := VecAdd(mp.displacement, delta));
    }

    /** The displacement increment and current acceleration of the grid at
        the point, over the nodes whose weight exceeds Epsilon. */
    method InterpolateActive(n: seq<real>) returns (delta: Vec3, acc: Vec3)
      requires Valid() && |n| == |nodes|
      ensures delta == ActiveInterpolate(dim, n, Displacements(Data(nodes)))
      ensures acc == ActiveInterpolate(dim, n, CurrentAccelerations(Data(nodes)))
    {
      ghost var data := Data(nodes);
      delta, acc := ZeroVec3, ZeroVec3;
      var i := 0;
      while i < |nodes|
        invariant 0 <= i <= |nodes|
        invariant delta == ActiveInterpolateUpTo(dim, n, Displacements(data), i)
        invariant acc == ActiveInterpolateUpTo(dim, n, CurrentAccelerations(data), i)
      {
        ActiveInterpolateStep(dim, n, Displacements(data), i);
        ActiveInterpolateStep(dim, n, CurrentAccelerations(data), i);
        delta := ActiveStep(dim, delta, n[i], nodes[i].data.displacement);
        acc := ActiveStep(dim, acc, n[i], CurrentAcceleration(nodes[i].data));
        i := i + 1;
      }
    }

    /** Commits the step: the total deformation gradient and its
        determinant absorb the increment, the point keeps the law's stress
        and strain, and an implicit analysis moves the point. */
    method FinalizeStepVariables(p: LawParameters, stress: seq<real>, strain: seq<real>,
                                 isExplicit: bool, local: Vec3, dt: real)
      requires Valid()
      modifies this
      ensures Valid()
      ensures detF0 == p.detFT && f0 == p.ft && finalizedStep == old(finalizedStep)
      ensures var committed := old(mp).(cauchyStress := stress, almansiStrain := strain);
        mp == if isExplicit then committed
              else UpdatedPoint(dim, committed, ShapeFunctionValues(dim, local, []), Data(nodes), dt)
    {
      detF0 := p.detFT;
      f0 := p.ft;
      mp := mp.(cauchyStress := stress, almansiStrain := strain);
      if !isExplicit {
        UpdateGaussPoint(local, dt);
      }
    }

    /** Ends an implicit step: recomputes the kinematics from the nodal
        displacements, rejects an inverted element, commits the history,
        moves the point and marks the step finalized.  An explicit analysis
        is refused before anything changes.  invj is the inverse of the
        current Jacobian; stress and strain are the constitutive law's. */
    method FinalizeSolutionStep(local: Vec3, invj: Mat, isExplicit: bool, dt: real,
                                stress: seq<real>, strain: seq<real>) returns (r: Outcome<ElementError>)
      requires Valid() && HasHistory() && IsMatrix(invj, dim, dim)
      modifies this
      ensures Valid() && HasHistory()
      ensures isExplicit ==> r == Fail(ExplicitFinalize)
      ensures r.Fail? ==> mp == old(mp) && f0 == old(f0) && detF0 == old(detF0) && finalizedStep == old(finalizedStep)
      ensures !isExplicit ==>
        var law := StepLaw(dim, local, invj, Data(nodes), old(f0), old(detF0));
        && (law.Failure? ==> r == Fail(law.error))
        && (law.Success? ==> r == Pass && detF0 == law.value.detFT && f0 == law.value.ft && finalizedStep)
      ensures r.Pass? ==>
        mp == UpdatedPoint(dim, old(mp).(cauchyStress := stress, almansiStrain := strain),
                           ShapeFunctionValues(dim, local, []), Data(nodes), dt)
    {
      if isExplicit {
        return Fail(ExplicitFinalize);
      }
      var p, _ := ComputeStepLaw(local, invj);
      if p.Failure? {
        return Fail(p.error);
      }
      ghost var data := Data(nodes);
      FinalizeStepVariables(p.value, stress, strain, false, local, dt);
      finalizedStep := true;
      assert Data(nodes) == data;
      r := Pass;
    }

    /** The local system of one step.  An implicit step recomputes the
        kinematics, rejects an inverted element and updates the density from
        the total determinant; an explicit one keeps the density and never
        builds a left-hand side.  Either way the volume is the mass over the
        density, the stiffness (material, and geometric unless ignored) is
        integrated over that volume and the right-hand side gains the
        external force and either the internal force of the stress or the
        explicit internal force.  density is the material's DENSITY; stress,
        c and kg are the constitutive law's stress, tangent and the
        geometric stiffness; a failure leaves the point and both arrays
        untouched. */
    method CalculateElementalSystem(local: Vec3, invj: Mat, isExplicit: bool, density: real,
                                    stress: seq<real>, c: Mat, kg: Mat, explicitInternalForce: seq<real>,
                                    computeLhs: bool, computeRhs: bool, ignoreGeometric: bool,
                                    lhs: array2<real>, rhs: array<real>) returns (r: Outcome<ElementError>)
      requires Valid() && HasHistory() && IsMatrix(invj, dim, dim)
      requires |stress| == VoigtSize(dim) && IsMatrix(c, VoigtSize(dim), VoigtSize(dim))
      requires IsMatrix(kg, dim * |nodes|, dim * |nodes|) && |explicitInternalForce| == dim * |nodes|
      requires lhs.Length0 == dim * |nodes| && lhs.Length1 == dim * |nodes| && rhs.Length == dim * |nodes|
      modifies this, lhs, rhs
      ensures f0 == old(f0) && detF0 == old(detF0) && finalizedStep == old(finalizedStep)
      ensures var d := PointDensity(StepLaw(dim, local, invj, Data(nodes), f0, detF0), old(mp), density, isExplicit);
        && (d.Failure? ==> r == Fail(d.error) && mp == old(mp))
        && (d.Success? ==> r == Pass && mp == Reweighted(old(mp), d.value))
      ensures r.Fail? || !computeRhs ==> rhs[..] == old(rhs[..])
      ensures r.Fail? || !computeLhs || isExplicit ==> Entries(lhs) == old(Entries(lhs))
      ensures r.Pass? && computeLhs && !isExplicit ==>
        var k := StiffnessInputs(StepB(dim, local, invj, isExplicit), c, mp.volume,
                                 VoigtSize(dim), dim * |nodes|, kg);
        var material := LhsContribution(MaterialStiffnessMatrix, old(Entries(lhs)), k);
        Entries(lhs) == if ignoreGeometric then material else LhsContribution(GeometricStiffnessMatrix, material, k)
      ensures r.Pass? && computeRhs ==>
        var n := ShapeFunctionValues(dim, local, []);
        var b := StepB(dim, local, invj, isExplicit);
        var f := StepForceInputs(dim, n, mp, b, stress);
        var external := RhsContribution(ExternalForcesVector, old(rhs[..]), f);
        rhs[..] == if isExplicit then VecAdd(external, explicitInternalForce)
                   else RhsContribution(InternalForcesVector, external, f)
    {
      var b;
      r, b := Reweight(local, invj, isExplicit, density);
      if r.Fail? {
        return;
      }
      ghost var data, point := Data(nodes), mp;
      var n := ShapeFunctionValues(dim, local, []);
      AddLocalSystem(n, b, isExplicit, stress, c, kg, explicitInternalForce, computeLhs, computeRhs, ignoreGeometric, lhs, rhs);
      assert Data(nodes) == data && mp == point;
    }

    /** The second half of CalculateElementalSystem: adds the stiffness and
        the forces of the point, with weights n and deformation matrix b,
        to the requested arrays. */
    method AddLocalSystem(n: seq<real>, b: Mat, isExplicit: bool, stress: seq<real>, c: Mat, kg: Mat,
                          explicitInternalForce: seq<real>, computeLhs: bool, computeRhs: bool, ignoreGeometric: bool,
                          lhs: array2<real>, rhs: array<real>)
      requires Valid() && |n| == |nodes| && IsMatrix(b, VoigtSize(dim), dim * |nodes|)
      requires |stress| == VoigtSize(dim) && IsMatrix(c, VoigtSize(dim), VoigtSize(dim))
      requires IsMatrix(kg, dim * |nodes|, dim * |nodes|) && |explicitInternalForce| == dim * |nodes|
      requires lhs.Length0 == dim * |nodes| && lhs.Length1 == dim * |nodes| && rhs.Length == dim * |nodes|
      modifies lhs, rhs
      ensures !computeRhs ==> rhs[..] == old(rhs[..])
      ensures !computeLhs || isExplicit ==> Entries(lhs) == old(Entries(lhs))
      ensures computeLhs && !isExplicit ==>
        var k := StiffnessInputs(b, c, mp.volume, VoigtSize(dim), dim * |nodes|, kg);
        var material := LhsContribution(MaterialStiffnessMatrix, old(Entries(lhs)), k);
        Entries(lhs) == if ignoreGeometric then material else LhsContribution(GeometricStiffnessMatrix, material, k)
      ensures computeRhs ==>
        var f := StepForceInputs(dim, n, mp, b, stress);
        var external := RhsContribution(ExternalForcesVector, old(rhs[..]), f);
        rhs[..] == if isExplicit then VecAdd(external, explicitInternalForce)
                   else RhsContribution(InternalForcesVector, external, f)
    {
      if computeLhs && !isExplicit {
        CalculateAndAddLhs(lhs, StiffnessInputs(b, c, mp.volume, VoigtSize(dim), dim * |nodes|, kg), ignoreGeometric);
      }
      if computeRhs {
        CalculateAndAddRhs(rhs, StepForceInputs(dim, n, mp, b, stress), isExplicit, explicitInternalForce);
      }
    }

    /** The first half of CalculateElementalSystem: the point's new density
        and volume, and the B of the step (zero in an explicit analysis). */
    method Reweight(local: Vec3, invj: Mat, isExplicit: bool, density: real) returns (r: Outcome<ElementError>, b: Mat)
      requires Valid() && HasHistory() && IsMatrix(invj, dim, dim)
      modifies this
      ensures f0 == old(f0) && detF0 == old(detF0) && finalizedStep == old(finalizedStep)
      ensures var d := PointDensity(StepLaw(dim, local, invj, Data(nodes), f0, detF0), old(mp), density, isExplicit);
        && (d.Failure? ==> r == Fail(d.error) && mp == old(mp))
        && (d.Success? ==> r == Pass && mp == Reweighted(old(mp), d.value))
      ensures r.Pass? ==> b == StepB(dim, local, invj, isExplicit)
      ensures IsMatrix(b, VoigtSize(dim), dim * |nodes|)
    {
      var d;
      d, b := StepDensity(local, invj, isExplicit, density);
      if d.Failure? {
        return Fail(d.error), b;
      }
      ghost var data := Data(nodes);
      mp := Reweighted(mp, d.value);
      assert Data(nodes) == data;
      r := Pass;
    }

    /** The density the point takes for the step and the B of the step;
        an implicit step recomputes the kinematics to find them. */
    method StepDensity(local: Vec3, invj: Mat, isExplicit: bool, density: real) returns (d: Result<real, ElementError>, b: Mat)
      requires Valid() && HasHistory() && IsMatrix(invj, dim, dim)
      ensures d == PointDensity(StepLaw(dim, local, invj, Data(nodes), f0, detF0), mp, density, isExplicit)
      ensures d.Success? ==> b == StepB(dim, local, invj, isExplicit)
      ensures IsMatrix(b, VoigtSize(dim), dim * |nodes|)
    {
      b := ZeroMatrix(VoigtSize(dim), dim * |nodes|);
      if isExplicit {
        d := if mp.density == 0.0 then Failure(DivisionByZero) else Success(mp.density);
        return;
      }
      var p, bk := ComputeStepLaw(local, invj);
      if p.Failure? {
        return Failure(p.error), b;
      }
      if p.value.detFT == 0.0 || density == 0.0 {
        return Failure(DivisionByZero), b;
      }
      d := Success(density / p.value.detFT);
      b := bk;
    }

    /** CalculateKinematics followed by SetGeneralVariables at the point:
        the law parameters of the step and its B. */
    method ComputeStepLaw(local: Vec3, invj: Mat) returns (p: Result<LawParameters, ElementError>, b: Mat)
      requires Valid() && HasHistory() && IsMatrix(invj, dim, dim)
      ensures p == StepLaw(dim, local, invj, Data(nodes), f0, detF0)
      ensures b == StepB(dim, local, invj, false)
      ensures IsMatrix(b, VoigtSize(dim), dim * |nodes|)
    {
      var n := ShapeFunctionValues(dim, local, []);
      var dnDe := ShapeFunctionLocalGradients(dim, local, []);
      var u := CalculateCurrentDisp();
      var k := CalculateKinematics(dim, |nodes|, dnDe, invj, u, f0, detF0);
      assert k.Success?;
      assert k.value == StepKinematics(dim, local, invj, Data(nodes), f0, detF0);
      p := SetGeneralVariables(dim, k.value, n);
      b := k.value.b;
    }

    /** CalculateCurrentDisp: row i holds the first dim components of
        node i's DISPLACEMENT. */
    method CalculateCurrentDisp() returns (u: Mat)
      requires Valid()
      ensures u == CurrentDisp(dim, Data(nodes))
    {
      ghost var target := CurrentDisp(dim, Data(nodes));
      u := [];
      var i := 0;
      while i < |nodes|
        invariant 0 <= i <= |nodes|
        invariant u == target[..i]
      {
        var d := nodes[i].data.displacement;
        var row := [];
        var j := 0;
        while j < dim
          invariant 0 <= j <= dim
          invariant row == d[..j]
        {
          row := row + [d[j]];
          j := j + 1;
        }
        u := u + [row];
        i := i + 1;
      }
    }

    /** CalculateDampingMatrix: alpha M + beta K, with K the left-hand side
        of an element system asked for the left-hand side only, built into
        a zeroed matrix, M the lumped mass and each Rayleigh coefficient
        read from the properties before the process information.  Building
        K reweights the point as CalculateElementalSystem does and passes
        on its error, the damping matrix then staying zeroed; in an
        explicit analysis K is zero. */
    method CalculateDampingMatrix(local: Vec3, invj: Mat, isExplicit: bool, density: real, c: Mat, kg: Mat,
                                  ignoreGeometric: bool, alphaProperties: Option<real>, alphaProcess: Option<real>,
                                  betaProperties: Option<real>, betaProcess: Option<real>)
      returns (r: Outcome<ElementError>, d: Mat)
      requires Valid() && HasHistory() && IsMatrix(invj, dim, dim)
      requires IsMatrix(c, VoigtSize(dim), VoigtSize(dim)) && IsMatrix(kg, dim * |nodes|, dim * |nodes|)
      modifies this
      ensures f0 == old(f0) && detF0 == old(detF0) && finalizedStep == old(finalizedStep)
      ensures var p := PointDensity(StepLaw(dim, local, invj, Data(nodes), f0, detF0), old(mp), density, isExplicit);
        && (p.Failure? ==> r == Fail(p.error) && mp == old(mp))
        && (p.Success? ==> r == Pass && mp == Reweighted(old(mp), p.value))
      ensures r.Fail? ==> d == ZeroMatrix(dim * |nodes|, dim * |nodes|)
      ensures r.Pass? ==>
        var k := StiffnessInputs(StepB(dim, local, invj, isExplicit), c, mp.volume, VoigtSize(dim), dim * |nodes|, kg);
        d == DampingMatrix(RayleighCoefficient(alphaProperties, alphaProcess), RayleighCoefficient(betaProperties, betaProcess),
                           LumpedMass(dim, ShapeFunctionValues(dim, local, []), mp.mass),
                           BuiltStiffness(k, isExplicit, ignoreGeometric), dim * |nodes|)
    {
      var k;
      r, k := CalculateStiffness(local, invj, isExplicit, density, c, kg, ignoreGeometric);
      var m := dim * |nodes|;
      if r.Fail? {
        return r, ZeroMatrix(m, m);
      }
      var mass := CalculateMassMatrix(dim, ShapeFunctionValues(dim, local, []), mp.mass);
      d := DampingMatrix(RayleighCoefficient(alphaProperties, alphaProcess), RayleighCoefficient(betaProperties, betaProcess),
                         Entries(mass), k, m);
    }

    /** The K of CalculateDampingMatrix: CalculateLeftHandSide, that is an
        element system asked for the left-hand side only, into a zeroed
        matrix. */
    method CalculateStiffness(local: Vec3, invj: Mat, isExplicit: bool, density: real, c: Mat, kg: Mat,
                              ignoreGeometric: bool)
      returns (r: Outcome<ElementError>, k: Mat)
      requires Valid() && HasHistory() && IsMatrix(invj, dim, dim)
      requires IsMatrix(c, VoigtSize(dim), VoigtSize(dim)) && IsMatrix(kg, dim * |nodes|, dim * |nodes|)
      modifies this
      ensures f0 == old(f0) && detF0 == old(detF0) && finalizedStep == old(finalizedStep)
      ensures var p := PointDensity(StepLaw(dim, local, invj, Data(nodes), f0, detF0), old(mp), density, isExplicit);
        && (p.Failure? ==> r == Fail(p.error) && mp == old(mp))
        && (p.Success? ==> r == Pass && mp == Reweighted(old(mp), p.value))
      ensures r.Pass? ==>
        k == BuiltStiffness(StiffnessInputs(StepB(dim, local, invj, isExplicit), c, mp.volume, VoigtSize(dim), dim * |nodes|, kg),
                            isExplicit, ignoreGeometric)
    {
      var m := dim * |nodes|;
      var lhs := new real[m, m]((_, _) => 0.0);
      var rhs := new real[m](_ => 0.0);
      MatrixEquality(Entries(lhs), ZeroMatrix(m, m), m, m);
      r := CalculateElementalSystem(local, invj, isExplicit, density, Zeros(VoigtSize(dim)), c, kg, Zeros(m),
                                    true, false, ignoreGeometric, lhs, rhs);
      k := Entries(lhs);
    }

    /** Hands the residual back to the grid when the residual vector is
        destined for FORCE_RESIDUAL; any other pairing changes nothing. */
    method AddExplicitContribution(rhs: seq<real>, residualToForceResidual: bool)
      requires Valid() && |rhs| == dim * |nodes|
      modifies nodes
      ensures Data(nodes) == if residualToForceResidual then WithResidual(dim, old(Data(nodes)), rhs)
                             else old(Data(nodes))
    {
      if residualToForceResidual {
        ghost var data := Data(nodes);
        ghost var target := WithResidual(dim, data, rhs);
        var i := 0;
        while i < |nodes|
          invariant 0 <= i <= |nodes|
          invariant forall q :: 0 <= q < i ==> nodes[q].data == target[q]
          invariant forall q :: i <= q < |nodes| ==> nodes[q].data == data[q]
          modifies nodes
        {
          var index := dim * i;
          assert index + dim <= |rhs| by { SlotInRange(dim, i, dim - 1, |nodes|); }
          var next := nodes[i].data.(forceResidual := ResidualShare(dim, nodes[i].data.forceResidual, rhs[index..index + dim]));
          assert next == target[i];
          nodes[i].data := next;
          i := i + 1;
        }
        assert Data(nodes) == target;
      }
    }

    /** SetValuesOnIntegrationPoints for the integer variables: the element
        accepts any variable and any number of values and stores nothing,
        so not even MP_MATERIAL_ID can be set. */
    method SetIntValues(v: IntVariable, values: seq<int>)
      modifies this
      ensures mp == old(mp) && f0 == old(f0) && detF0 == old(detF0) && finalizedStep == old(finalizedStep)
    {
    }

    /** SetValuesOnIntegrationPoints for the scalar variables. */
    method SetRealValues(v: RealVariable, values: seq<real>) returns (r: Outcome<ElementError>)
      requires |values| >= 1
      modifies this
      ensures SetReal(old(mp), v, values).Success? ==> r.Pass? && mp == SetReal(old(mp), v, values).value
      ensures SetReal(old(mp), v, values).Failure? ==> r == Fail(SetReal(old(mp), v, values).error) && mp == old(mp)
      ensures f0 == old(f0) && detF0 == old(detF0) && finalizedStep == old(finalizedStep)
    {
      var s := SetReal(mp, v, values);
      if s.Success? {
        mp := s.value;
        r := Pass;
      } else {
        r := Fail(s.error);
      }
    }

    /** SetValuesOnIntegrationPoints for the vector variables. */
    method SetVectorValues(v: VectorVariable, values: seq<Vec3>) returns (r: Outcome<ElementError>)
      requires |values| >= 1
      modifies this
      ensures SetVector(old(mp), v, values).Success? ==> r.Pass? && mp == SetVector(old(mp), v, values).value
      ensures SetVector(old(mp), v, values).Failure? ==> r == Fail(SetVector(old(mp), v, values).error) && mp == old(mp)
      ensures f0 == old(f0) && detF0 == old(detF0) && finalizedStep == old(finalizedStep)
    {
      var s := SetVector(mp, v, values);
      if s.Success? {
        mp := s.value;
        r := Pass;
      } else {
        r := Fail(s.error);
      }
    }

    /** SetValuesOnIntegrationPoints for the stress and strain vectors. */
    method SetListValues(v: ListVariable, values: seq<seq<real>>) returns (r: Outcome<ElementError>)
      requires |values| >= 1
      modifies this
      ensures SetList(old(mp), v, values).Success? ==> r.Pass? && mp == SetList(old(mp), v, values).value
      ensures SetList(old(mp), v, values).Failure? ==> r == Fail(SetList(old(mp), v, values).error) && mp == old(mp)
      ensures f0 == old(f0) && detF0 == old(detF0) && finalizedStep == old(finalizedStep)
    {
      var s := SetList(mp, v, values);
      if s.Success? {
        mp := s.value;
        r := Pass;
      } else {
        r := Fail(s.error);
      }
    }
  }
}
