/** The material-point Dirichlet condition: a boundary particle that carries
    an imposed motion.  Each step turns the imposed velocity and
    acceleration into a displacement increment and spreads the particle's
    area over the grid; finalizing the step commits the increment to the
    particle's position and total displacement and clears it. */
module MpmDirichletCondition {
  import opened Algebra
  import opened MpmGrid

  /** The increment after one more step of length dt under imposed velocity
      v and acceleration a. */
  function AdvanceImposed(u: Vec3, v: Vec3, a: Vec3, dt: real): Vec3 {
    seq(3, k requires 0 <= k < 3 => u[k] + (v[k] * dt + 0.5 * a[k] * dt * dt))
  }

  /** A particle with no imposed velocity or acceleration is held in place:
      its increment does not grow. */
  lemma {:induction false} ImposedRestAddsNothing(u: Vec3, dt: real)
    ensures AdvanceImposed(u, ZeroVec3, ZeroVec3, dt) == u
  {
    assert forall k :: 0 <= k < 3 ==> AdvanceImposed(u, ZeroVec3, ZeroVec3, dt)[k] == u[k];
  }

  /** From rest the increment is the displacement of uniformly accelerated
      motion, v t + a t^2 / 2. */
  lemma {:induction false} ImposedMotionFromRest(v: Vec3, a: Vec3, dt: real)
    ensures forall k :: 0 <= k < 3 ==>
      AdvanceImposed(ZeroVec3, v, a, dt)[k] == v[k] * dt + a[k] * dt * dt / 2.0
  {
  }

  /** Under a constant imposed velocity, two steps add up to one step over
      the combined time. */
  lemma {:induction false} ImposedVelocitySteps(u: Vec3, v: Vec3, dt1: real, dt2: real)
    ensures AdvanceImposed(AdvanceImposed(u, v, ZeroVec3, dt1), v, ZeroVec3, dt2)
         == AdvanceImposed(u, v, ZeroVec3, dt1 + dt2)
  {
    var twice := AdvanceImposed(AdvanceImposed(u, v, ZeroVec3, dt1), v, ZeroVec3, dt2);
    var once := AdvanceImposed(u, v, ZeroVec3, dt1 + dt2);
    forall k | 0 <= k < 3
      ensures twice[k] == once[k]
    {
      assert v[k] * (dt1 + dt2) == v[k] * dt1 + v[k] * dt2;
    }
  }

  /** The grid after the particle has added its share n[i] * area to each
      node's NODAL_AREA. */
  function WithArea(data: seq<NodeData>, n: seq<real>, area: real): (d: seq<NodeData>)
    requires |n| == |data|
    ensures |d| == |data|
  {
    seq(|data|, i requires 0 <= i < |data| => data[i].(nodalArea := data[i].nodalArea + n[i] * area))
  }

  function NodalAreas(data: seq<NodeData>): (a: seq<real>)
    ensures |a| == |data|
  {
    seq(|data|, i requires 0 <= i < |data| => data[i].nodalArea)
  }

  /** Only NODAL_AREA changes, by the node's share, so shares that form a
      partition of unity hand the grid exactly the particle's area. */
  lemma {:induction false} AreaScatterConservesArea(data: seq<NodeData>, n: seq<real>, area: real)
    requires |n| == |data| && Sum(n) == 1.0
    ensures Sum(NodalAreas(WithArea(data, n, area))) == Sum(NodalAreas(data)) + area
    ensures forall i :: 0 <= i < |data| ==>
      WithArea(data, n, area)[i].(nodalArea := data[i].nodalArea) == data[i]
  {
    SharesAddUnity(NodalAreas(data), NodalAreas(WithArea(data, n, area)), n, area);
  }

  /** The position, total displacement and pending increment of the
      particle. */
  datatype Placement = Placement(coord: Vec3, displacement: Vec3, increment: Vec3)

  /** Finalizing: the increment moves the particle and is added to its
      total displacement, then cleared. */
  function Commit(p: Placement): (q: Placement)
    ensures q.increment == ZeroVec3
  {
    Placement(VecAdd(p.coord, p.increment), VecAdd(p.displacement, p.increment), ZeroVec3)
  }

  /** Position and total displacement advance together, and a second
      commit changes nothing. */
  lemma {:induction false} CommitIdempotent(p: Placement)
    ensures Commit(Commit(p)) == Commit(p)
    ensures forall k :: 0 <= k < 3 ==>
      Commit(p).coord[k] - p.coord[k] == Commit(p).displacement[k] - p.displacement[k]
  {
    var q := Commit(p);
    assert VecAdd(q.coord, ZeroVec3) == q.coord;
    assert VecAdd(q.displacement, ZeroVec3) == q.displacement;
  }

  class DirichletCondition {
    const nodes: seq<GridNode>
    const imposedVelocity: Vec3       // MPC_IMPOSED_VELOCITY
    const imposedAcceleration: Vec3   // MPC_IMPOSED_ACCELERATION
    const area: real                  // the integration weight, MPC_AREA
    var coord: Vec3                   // MPC_COORD
    var displacement: Vec3            // MPC_DISPLACEMENT
    var imposedDisplacement: Vec3     // MPC_IMPOSED_DISPLACEMENT

    predicate Valid()
      reads this
    {
      Distinct(nodes)
    }

    function State(): Placement
      reads this
    {
      Placement(coord, displacement, imposedDisplacement)
    }

    constructor (nodes: seq<GridNode>, coord: Vec3, velocity: Vec3, acceleration: Vec3, area: real)
      requires Distinct(nodes)
      ensures Valid() && this.nodes == nodes && this.area == area
      ensures imposedVelocity == velocity && imposedAcceleration == acceleration
      ensures State() == Placement(coord, ZeroVec3, ZeroVec3)
    {
      this.nodes := nodes;
      imposedVelocity := velocity;
      imposedAcceleration := acceleration;
      this.area := area;
      this.coord := coord;
      displacement := ZeroVec3;
      imposedDisplacement := ZeroVec3;
    }

    /** Grows the increment by the step's imposed motion and adds the
        particle's area to the nodes, weighted by the shape function values
        n at its position. */
    method InitializeSolutionStep(n: seq<real>, dt: real)
      requires Valid() && |n| == |nodes|
      modifies this, nodes
      ensures Valid()
      ensures imposedDisplacement == AdvanceImposed(old(imposedDisplacement), imposedVelocity, imposedAcceleration, dt)
      ensures coord == old(coord) && displacement == old(displacement)
      ensures Data(nodes) == WithArea(old(Data(nodes)), n, area)
    {
      imposedDisplacement := AdvanceImposed(imposedDisplacement, imposedVelocity, imposedAcceleration, dt);
      ghost var data := Data(nodes);
      var i := 0;
      while i < |nodes|
        invariant 0 <= i <= |nodes|
        invariant forall q :: 0 <= q < i ==> nodes[q].data == WithArea(data, n, area)[q]
        invariant forall q :: i <= q < |nodes| ==> nodes[q].data == data[q]
        modifies nodes
      {
        nodes[i].data := nodes[i].data.(nodalArea := nodes[i].data.nodalArea + n[i] * area);
        i := i + 1;
      }
      assert Data(nodes) == WithArea(data, n, area);
    }

    /** Commits the increment to position and total displacement and
        clears it. */
    method FinalizeSolutionStep()
      modifies this
      ensures State() == Commit(old(State()))
    {
      var delta := imposedDisplacement;
      coord := VecAdd(coord, delta);
      displacement := VecAdd(displacement, delta);
      imposedDisplacement := ZeroVec3;
    }
  }
}
