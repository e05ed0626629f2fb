/** The updated-Lagrangian material-point element: one material point
    carried through a background-grid cell, the history it keeps between
    steps, the particle-to-grid scatter that starts a step, the update that
    ends it, the elemental system and the accessors keyed by variable. */
module MpmElement {
  import opened Algebra
  import opened MpmErrors
  import opened MpmShapeFunctions
  import opened MpmKinematics
  import opened MpmAssembly
  import opened MpmGrid

  /** The material point the element carries. */
  datatype MaterialPoint = MaterialPoint(
    xg: Vec3,                   // MP_COORD
    displacement: Vec3,         // MP_DISPLACEMENT
    velocity: Vec3,             // MP_VELOCITY
    acceleration: Vec3,         // MP_ACCELERATION
    volumeAcceleration: Vec3,   // MP_VOLUME_ACCELERATION
    mass: real,                 // MP_MASS
    density: real,              // MP_DENSITY
    volume: real,               // MP_VOLUME
    cauchyStress: seq<real>,    // MP_CAUCHY_STRESS_VECTOR
    almansiStrain: seq<real>)   // MP_ALMANSI_STRAIN_VECTOR

  /** The machine epsilon of a double: nodes whose shape function does not
      exceed it take no part in the update of the material point. */
  const Epsilon: real := 0.0000000000000002220446049250313

  // ---------------------------------------------------------------------------
  // Interpolation from the nodes to the material point

  /** Component k of the sum over the first m nodes of N[i] * values[i]. */
  function WeightedSum(n: seq<real>, values: seq<Vec3>, k: nat, m: nat): real
    requires k < 3 && m <= |n| && m <= |values|
  {
    if m == 0 then 0.0 else WeightedSum(n, values, k, m - 1) + n[m - 1] * values[m - 1][k]
  }

  /** The same sum over the nodes whose weight exceeds Epsilon only. */
  function ActiveWeightedSum(n: seq<real>, values: seq<Vec3>, k: nat, m: nat): real
    requires k < 3 && m <= |n| && m <= |values|
  {
    if m == 0 then 0.0
    else ActiveWeightedSum(n, values, k, m - 1) + (if n[m - 1] > Epsilon then n[m - 1] * values[m - 1][k] else 0.0)
  }

  /** The nodal values interpolated at the point, in the first dim
      components; the others stay zero. */
  function Interpolate(dim: nat, n: seq<real>, values: seq<Vec3>): Vec3
    requires |values| == |n|
  {
    [ if 0 < dim then WeightedSum(n, values, 0, |n|) else 0.0,
      if 1 < dim then WeightedSum(n, values, 1, |n|) else 0.0,
      if 2 < dim then WeightedSum(n, values, 2, |n|) else 0.0 ]
  }

  function ActiveInterpolate(dim: nat, n: seq<real>, values: seq<Vec3>): Vec3
    requires |values| == |n|
  {
    [ if 0 < dim then ActiveWeightedSum(n, values, 0, |n|) else 0.0,
      if 1 < dim then ActiveWeightedSum(n, values, 1, |n|) else 0.0,
      if 2 < dim then ActiveWeightedSum(n, values, 2, |n|) else 0.0 ]
  }

  lemma {:induction false} WeightedSumOfUniform(n: seq<real>, values: seq<Vec3>, t: Vec3, k: nat, m: nat)
    requires k < 3 && m <= |n| && m <= |values|
    requires forall i :: 0 <= i < m ==> values[i][k] == t[k]
    ensures WeightedSum(n, values, k, m) == Sum(n[..m]) * t[k]
  {
    if m == 0 {
      assert Sum(n[..0]) == 0.0;
    } else {
      WeightedSumOfUniform(n, values, t, k, m - 1);
      SumPrefixStep(n, m - 1);
      RightDistributes(Sum(n[..m - 1]), n[m - 1], t[k]);
    }
  }

  /** Interpolation reproduces a value all nodes share. */
  lemma {:induction false} InterpolateUniform(dim: nat, n: seq<real>, values: seq<Vec3>, t: Vec3)
    requires |values| == |n| && Sum(n) == 1.0
    requires forall i :: 0 <= i < |n| ==> values[i] == t
    ensures forall k :: 0 <= k < dim && k < 3 ==> Interpolate(dim, n, values)[k] == t[k]
  {
    assert n[..|n|] == n;
    WeightedSumOfUniform(n, values, t, 0, |n|);
    WeightedSumOfUniform(n, values, t, 1, |n|);
    WeightedSumOfUniform(n, values, t, 2, |n|);
  }

  /** When every weight exceeds Epsilon, the thresholded sum is the full one. */
  lemma {:induction false} ActiveSumIsFull(n: seq<real>, values: seq<Vec3>, k: nat, m: nat)
    requires k < 3 && m <= |n| && m <= |values|
    requires forall i :: 0 <= i < m ==> n[i] > Epsilon
    ensures ActiveWeightedSum(n, values, k, m) == WeightedSum(n, values, k, m)
  {
    if m > 0 {
      ActiveSumIsFull(n, values, k, m - 1);
    }
  }

  // ---------------------------------------------------------------------------
  // Particle-to-grid scatter (InitializeSolutionStep)

  function PreviousVelocities(data: seq<NodeData>): (v: seq<Vec3>)
    ensures |v| == |data|
  {
    seq(|data|, j requires 0 <= j < |data| => PreviousVelocity(data[j]))
  }

  function PreviousAccelerations(data: seq<NodeData>): (a: seq<Vec3>)
    ensures |a| == |data|
  {
    seq(|data|, j requires 0 <= j < |data| => PreviousAcceleration(data[j]))
  }

  /** The grid velocity of the previous step at the point; an explicit
      analysis does not subtract it. */
  function AuxVelocity(dim: nat, data: seq<NodeData>, n: seq<real>, isExplicit: bool): Vec3
    requires |n| == |data|
  {
    if isExplicit then ZeroVec3 else Interpolate(dim, n, PreviousVelocities(data))
  }

  function AuxAcceleration(dim: nat, data: seq<NodeData>, n: seq<real>, isExplicit: bool): Vec3
    requires |n| == |data|
  {
    if isExplicit then ZeroVec3 else Interpolate(dim, n, PreviousAccelerations(data))
  }

  /** The momentum node i receives, with the central-difference predictor
      term when that scheme is active. */
  function MomentumShare(dim: nat, ni: real, mp: MaterialPoint, auxV: Vec3, centralDifference: bool, dt: real): Vec3 {
    seq(3, k requires 0 <= k < 3 =>
      if k < dim then
        ni * (mp.velocity[k] - auxV[k]) * mp.mass
          + (if centralDifference then 0.5 * dt * (ni * mp.acceleration[k]) * mp.mass else 0.0)
      else 0.0)
  }

  function InertiaShare(dim: nat, ni: real, mp: MaterialPoint, auxA: Vec3): Vec3 {
    seq(3, k requires 0 <= k < 3 => if k < dim then ni * (mp.acceleration[k] - auxA[k]) * mp.mass else 0.0)
  }

  /** The grid after the scatter: each node gains its share of momentum,
      inertia and mass.  auxV and auxA are the interpolated grid velocity and
      acceleration the particle's own are taken relative to. */
  function Scattered(dim: nat, data: seq<NodeData>, n: seq<real>, mp: MaterialPoint,
                     auxV: Vec3, auxA: Vec3, centralDifference: bool, dt: real): (r: seq<NodeData>)
    requires |n| == |data|
    ensures |r| == |data|
  {
    seq(|data|, i requires 0 <= i < |data| => ScatterNode(dim, data[i], n[i], mp, auxV, auxA, centralDifference, dt))
  }

  /** One node's data after it has received its share, weight ni. */
  function ScatterNode(dim: nat, d: NodeData, ni: real, mp: MaterialPoint,
                       auxV: Vec3, auxA: Vec3, centralDifference: bool, dt: real): NodeData
  {
    d.(nodalMomentum := VecAdd(d.nodalMomentum, MomentumShare(dim, ni, mp, auxV, centralDifference, dt)),
       nodalInertia := VecAdd(d.nodalInertia, InertiaShare(dim, ni, mp, auxA)),
       nodalMass := d.nodalMass + ni * mp.mass)
  }

  function GridMasses(data: seq<NodeData>): (m: seq<real>)
    ensures |m| == |data|
  {
    seq(|data|, i requires 0 <= i < |data| => data[i].nodalMass)
  }

  function MomentumComponents(data: seq<NodeData>, k: nat): (m: seq<real>)
    requires k < 3
    ensures |m| == |data|
  {
    seq(|data|, i requires 0 <= i < |data| => data[i].nodalMomentum[k])
  }

  function InertiaComponents(data: seq<NodeData>, k: nat): (m: seq<real>)
    requires k < 3
    ensures |m| == |data|
  {
    seq(|data|, i requires 0 <= i < |data| => data[i].nodalInertia[k])
  }

  /** With a partition of unity the grid gains exactly the particle mass. */
  lemma {:induction false} ScatterConservesMass(dim: nat, data: seq<NodeData>, n: seq<real>, mp: MaterialPoint,
                             auxV: Vec3, auxA: Vec3, centralDifference: bool, dt: real)
    requires |n| == |data| && Sum(n) == 1.0
    ensures Sum(GridMasses(Scattered(dim, data, n, mp, auxV, auxA, centralDifference, dt)))
         == Sum(GridMasses(data)) + mp.mass
  {
    SharesAdd(GridMasses(data), GridMasses(Scattered(dim, data, n, mp, auxV, auxA, centralDifference, dt)), n, mp.mass);
  }

  lemma {:induction false} MomentumShareFactor(ni: real, v: real, aux: real, a: real, mass: real, dt: real, centralDifference: bool)
    ensures ni * (v - aux) * mass + (if centralDifference then 0.5 * dt * (ni * a) * mass else 0.0)
         == ni * ((v - aux) * mass + (if centralDifference then 0.5 * dt * a * mass else 0.0))
  {
  }

  /** The momentum the particle hands to the grid in direction k:
      (v - auxV) * mass plus the central-difference predictor term. */
  function MomentumTotal(dim: nat, mp: MaterialPoint, auxV: Vec3, centralDifference: bool, dt: real, k: nat): real
    requires k < 3
  {
    if k < dim then
      (mp.velocity[k] - auxV[k]) * mp.mass + (if centralDifference then 0.5 * dt * mp.acceleration[k] * mp.mass else 0.0)
    else 0.0
  }

  lemma {:induction false} ScatteredMomentumEntry(dim: nat, data: seq<NodeData>, n: seq<real>, mp: MaterialPoint,
                               auxV: Vec3, auxA: Vec3, centralDifference: bool, dt: real, i: nat, k: nat)
    requires |n| == |data| && i < |data| && k < 3
    ensures MomentumComponents(Scattered(dim, data, n, mp, auxV, auxA, centralDifference, dt), k)[i]
         == MomentumComponents(data, k)[i] + n[i] * MomentumTotal(dim, mp, auxV, centralDifference, dt, k)
  {
    var share := MomentumShare(dim, n[i], mp, auxV, centralDifference, dt);
    assert Scattered(dim, data, n, mp, auxV, auxA, centralDifference, dt)[i].nodalMomentum[k]
        == data[i].nodalMomentum[k] + share[k];
    if k < dim {
      MomentumShareFactor(n[i], mp.velocity[k], auxV[k], mp.acceleration[k], mp.mass, dt, centralDifference);
    }
  }

  lemma {:induction false} ScatteredMomentumShifts(dim: nat, data: seq<NodeData>, n: seq<real>, mp: MaterialPoint,
                               auxV: Vec3, auxA: Vec3, centralDifference: bool, dt: real, k: nat, t: real)
    requires |n| == |data| && k < 3 && t == MomentumTotal(dim, mp, auxV, centralDifference, dt, k)
    ensures forall i :: 0 <= i < |data| ==>
      MomentumComponents(Scattered(dim, data, n, mp, auxV, auxA, centralDifference, dt), k)[i]
        == MomentumComponents(data, k)[i] + n[i] * t
  {
    forall i | 0 <= i < |data| {
      ScatteredMomentumEntry(dim, data, n, mp, auxV, auxA, centralDifference, dt, i, k);
    }
  }

  /** The inertia the particle hands to the grid in direction k. */
  function InertiaTotal(dim: nat, mp: MaterialPoint, auxA: Vec3, k: nat): real
    requires k < 3
  {
    if k < dim then (mp.acceleration[k] - auxA[k]) * mp.mass else 0.0
  }

  lemma {:induction false} ScatteredInertiaEntry(dim: nat, data: seq<NodeData>, n: seq<real>, mp: MaterialPoint,
                              auxV: Vec3, auxA: Vec3, centralDifference: bool, dt: real, i: nat, k: nat)
    requires |n| == |data| && i < |data| && k < 3
    ensures InertiaComponents(Scattered(dim, data, n, mp, auxV, auxA, centralDifference, dt), k)[i]
         == InertiaComponents(data, k)[i] + n[i] * InertiaTotal(dim, mp, auxA, k)
  {
    var share := InertiaShare(dim, n[i], mp, auxA);
    assert Scattered(dim, data, n, mp, auxV, auxA, centralDifference, dt)[i].nodalInertia[k]
        == data[i].nodalInertia[k] + share[k];
    if k < dim {
      assert n[i] * (mp.acceleration[k] - auxA[k]) * mp.mass == n[i] * ((mp.acceleration[k] - auxA[k]) * mp.mass);
    }
  }

  lemma {:induction false} ScatteredInertiaShifts(dim: nat, data: seq<NodeData>, n: seq<real>, mp: MaterialPoint,
                               auxV: Vec3, auxA: Vec3, centralDifference: bool, dt: real, k: nat, t: real)
    requires |n| == |data| && k < 3 && t == InertiaTotal(dim, mp, auxA, k)
    ensures forall i :: 0 <= i < |data| ==>
      InertiaComponents(Scattered(dim, data, n, mp, auxV, auxA, centralDifference, dt), k)[i]
        == InertiaComponents(data, k)[i] + n[i] * t
  {
    forall i | 0 <= i < |data| {
      ScatteredInertiaEntry(dim, data, n, mp, auxV, auxA, centralDifference, dt, i, k);
    }
  }

  /** With a partition of unity the grid gains the particle momentum
      relative to the interpolated grid velocity, plus the central-difference
      predictor term; directions beyond the working dimension gain nothing. */
  lemma {:induction false} ScatterMomentum(dim: nat, data: seq<NodeData>, n: seq<real>, mp: MaterialPoint,
                        auxV: Vec3, auxA: Vec3, centralDifference: bool, dt: real, k: nat)
    requires |n| == |data| && Sum(n) == 1.0 && k < 3
    ensures Sum(MomentumComponents(Scattered(dim, data, n, mp, auxV, auxA, centralDifference, dt), k))
         == Sum(MomentumComponents(data, k)) + MomentumTotal(dim, mp, auxV, centralDifference, dt, k)
  {
    var before := MomentumComponents(data, k);
    var after := MomentumComponents(Scattered(dim, data, n, mp, auxV, auxA, centralDifference, dt), k);
    var t := MomentumTotal(dim, mp, auxV, centralDifference, dt, k);
    ScatteredMomentumShifts(dim, data, n, mp, auxV, auxA, centralDifference, dt, k, t);
    SharesAddUnity(before, after, n, t);
  }

  /** The same for the inertia, relative to the interpolated grid
      acceleration. */
  lemma {:induction false} ScatterInertia(dim: nat, data: seq<NodeData>, n: seq<real>, mp: MaterialPoint,
                       auxV: Vec3, auxA: Vec3, centralDifference: bool, dt: real, k: nat)
    requires |n| == |data| && Sum(n) == 1.0 && k < 3
    ensures Sum(InertiaComponents(Scattered(dim, data, n, mp, auxV, auxA, centralDifference, dt), k))
         == Sum(InertiaComponents(data, k)) + InertiaTotal(dim, mp, auxA, k)
  {
    var before := InertiaComponents(data, k);
    var after := InertiaComponents(Scattered(dim, data, n, mp, auxV, auxA, centralDifference, dt), k);
    var t := InertiaTotal(dim, mp, auxA, k);
    ScatteredInertiaShifts(dim, data, n, mp, auxV, auxA, centralDifference, dt, k, t);
    SharesAddUnity(before, after, n, t);
  }

  /** In an explicit analysis without the central-difference predictor each
      node gains N[i] * v * mass of momentum and N[i] * a * mass of inertia. */
  lemma {:induction false} ExplicitScatterShares(dim: nat, data: seq<NodeData>, n: seq<real>, mp: MaterialPoint, dt: real, i: nat, k: nat)
    requires |n| == |data| && i < |data| && k < dim && k < 3
    ensures var after := Scattered(dim, data, n, mp, AuxVelocity(dim, data, n, true), AuxAcceleration(dim, data, n, true), false, dt);
      && after[i].nodalMomentum[k] == data[i].nodalMomentum[k] + n[i] * mp.velocity[k] * mp.mass
      && after[i].nodalInertia[k] == data[i].nodalInertia[k] + n[i] * mp.acceleration[k] * mp.mass
  {
  }

  /** In an implicit analysis a particle that moves with the grid velocity of
      the previous step adds no momentum to the grid. */
  lemma {:induction false} MatchingGridVelocityAddsNoMomentum(dim: nat, data: seq<NodeData>, n: seq<real>, mp: MaterialPoint,
                                           auxA: Vec3, dt: real, k: nat)
    requires |n| == |data| && Sum(n) == 1.0 && k < 3
    requires forall i :: 0 <= i < |data| ==> data[i].hasVelocity && data[i].velocityPrevious == mp.velocity
    ensures Sum(MomentumComponents(Scattered(dim, data, n, mp, AuxVelocity(dim, data, n, false), auxA, false, dt), k))
         == Sum(MomentumComponents(data, k))
  {
    InterpolateUniform(dim, n, PreviousVelocities(data), mp.velocity);
    ScatterMomentum(dim, data, n, mp, AuxVelocity(dim, data, n, false), auxA, false, dt, k);
  }
}
