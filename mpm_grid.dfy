/** Background-grid nodes as the material-point element and condition see
    them: a solution-step data container that several particles update in
    place with `+=`. */
module MpmGrid {
  import opened Algebra

  /** The nodal values the particles read and write.  Velocity and
      acceleration are kept for the previous step as well, and whether the
      model part stores them at all is recorded by the two flags. */
  datatype NodeData = NodeData(
    nodalMass: real,              // NODAL_MASS
    nodalMomentum: Vec3,          // NODAL_MOMENTUM
    nodalInertia: Vec3,           // NODAL_INERTIA
    nodalArea: real,              // NODAL_AREA
    forceResidual: Vec3,          // FORCE_RESIDUAL
    displacement: Vec3,           // DISPLACEMENT, current step
    velocityPrevious: Vec3,       // VELOCITY, previous step
    acceleration: Vec3,           // ACCELERATION, current step
    accelerationPrevious: Vec3,   // ACCELERATION, previous step
    hasVelocity: bool,            // VELOCITY is a solution-step variable
    hasAcceleration: bool)        // ACCELERATION is a solution-step variable

  class GridNode {
    var data: NodeData

    constructor (initial: NodeData)
      ensures data == initial
    {
      data := initial;
    }
  }

  predicate Distinct(nodes: seq<GridNode>) {
    forall i, j :: 0 <= i < j < |nodes| ==> nodes[i] != nodes[j]
  }

  /** The data of every node, in node order. */
  function Data(nodes: seq<GridNode>): (d: seq<NodeData>)
    reads nodes
    ensures |d| == |nodes|
  {
    seq(|nodes|, i requires 0 <= i < |nodes| reads nodes => nodes[i].data)
  }

  /** The value a node holds for a variable it may not store: zero when the
      model part has no such variable. */
  function PreviousVelocity(d: NodeData): Vec3 {
    if d.hasVelocity then d.velocityPrevious else ZeroVec3
  }

  function PreviousAcceleration(d: NodeData): Vec3 {
    if d.hasAcceleration then d.accelerationPrevious else ZeroVec3
  }

  function CurrentAcceleration(d: NodeData): Vec3 {
    if d.hasAcceleration then d.acceleration else ZeroVec3
  }
}
