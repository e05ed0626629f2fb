/** Geometric helpers of the contact mechanics utilities: projecting a point
    onto a plane along its normal, projecting it onto a 2-D master line along
    a given direction, the bounding radius of a condition around its center,
    and the (not yet normalised) normal of a line, triangle or quadrilateral.
    Points are 3-vectors; the source's 1-based Coordinate(1..3) are the
    components 0..2 here. */
module ContactUtilities {
  import opened Algebra

  datatype ContactError =
    | NotImplementedDimension(dimension: nat)
    | DivisionByZero
    | UnsupportedNodeCount(count: nat)

  /** Below this magnitude the projection direction counts as vertical. */
  const Tolerance: real := 0.000000000000001

  function Abs(x: real): real {
    if x < 0.0 then -x else x
  }

  function Cross(a: Vec3, b: Vec3): (c: Vec3) {
    [a[1] * b[2] - a[2] * b[1], a[2] * b[0] - a[0] * b[2], a[0] * b[1] - a[1] * b[0]]
  }

  /** The cross product is orthogonal to both of its factors. */
  lemma {:induction false} CrossPerpendicular(a: Vec3, b: Vec3)
    ensures Dot(Cross(a, b), a) == 0.0 && Dot(Cross(a, b), b) == 0.0
  {
    Dot3(Cross(a, b), a);
    Dot3(Cross(a, b), b);
  }

  // ---------------------------------------------------------------------
  // Projection onto a plane

  datatype Projection = Projection(point: Vec3, dist: real)

  /** The signed distance of destiny from the plane through origin with the
      given normal, and destiny moved back along the normal by it. */
  function Project(origin: Vec3, destiny: Vec3, normal: Vec3): (p: Projection)
    ensures forall k :: 0 <= k < 3 ==> destiny[k] == p.point[k] + p.dist * normal[k]
  {
    var dist := Dot(VecSub(destiny, origin), normal);
    Projection(VecSub(destiny, VecScale(dist, normal)), dist)
  }

  /** For a unit normal the projected point lies on the plane. */
  lemma {:induction false} ProjectionLiesOnPlane(origin: Vec3, destiny: Vec3, normal: Vec3)
    requires Dot(normal, normal) == 1.0
    ensures Dot(VecSub(Project(origin, destiny, normal).point, origin), normal) == 0.0
  {
    var p := Project(origin, destiny, normal);
    var d := p.dist;
    var w := VecSub(destiny, origin);
    forall k | 0 <= k < 3
      ensures VecSub(p.point, origin)[k] == VecAdd(w, VecScale(-d, normal))[k]
    {
      assert (-d) * normal[k] == -(d * normal[k]);
    }
    assert VecSub(p.point, origin) == VecAdd(w, VecScale(-d, normal));
    DotLinearLeft(w, normal, -d, normal);
  }

  /** Projecting a projected point again (unit normal) finds it at distance
      zero and leaves it where it is. */
  lemma {:induction false} ProjectionIdempotent(origin: Vec3, destiny: Vec3, normal: Vec3)
    requires Dot(normal, normal) == 1.0
    ensures var p := Project(origin, destiny, normal);
            Project(origin, p.point, normal) == Projection(p.point, 0.0)
  {
    var p := Project(origin, destiny, normal);
    ProjectionLiesOnPlane(origin, destiny, normal);
    var q := Project(origin, p.point, normal);
    assert q.dist == 0.0;
    assert q.point == p.point;
  }

  // ---------------------------------------------------------------------
  // Projection onto a 2-D master line along a direction

  /** Slope a1 and intercept b1 of the line through the first two master
      nodes, y = a1 x + b1. */
  function MasterSlope(p0: Vec3, p1: Vec3): real
    requires p0[0] != p1[0]
  {
    (p0[1] - p1[1]) / (p0[0] - p1[0])
  }

  function MasterIntercept(p0: Vec3, p1: Vec3): real
    requires p0[0] != p1[0]
  {
    (-p1[0] * p0[1] + p0[0] * p1[1]) / (p0[0] - p1[0])
  }

  /** The master line passes through both master nodes. */
  lemma {:induction false} MasterLineThroughNodes(p0: Vec3, p1: Vec3)
    requires p0[0] != p1[0]
    ensures MasterSlope(p0, p1) * p0[0] + MasterIntercept(p0, p1) == p0[1]
    ensures MasterSlope(p0, p1) * p1[0] + MasterIntercept(p0, p1) == p1[1]
  {
    var aux1 := p0[0] - p1[0];
    var a1 := MasterSlope(p0, p1);
    var b1 := MasterIntercept(p0, p1);
    assert a1 * aux1 == p0[1] - p1[1];
    assert b1 * aux1 == -p1[0] * p0[1] + p0[0] * p1[1];
    assert (a1 * p0[0] + b1) * aux1 == p0[1] * aux1;
    assert (a1 * p1[0] + b1) * aux1 == p1[1] * aux1;
  }

  /** Projects destiny onto the master line along direction.  Only the
      two-dimensional case exists; a vertical master line or a direction
      parallel to it divides by zero. */
  function ProjectDirection(master: seq<Vec3>, dimension: nat, destiny: Vec3, direction: Vec3): (r: Result<Vec3, ContactError>)
    requires dimension == 2 ==> |master| >= 2
    ensures dimension != 2 <==> r == Failure(NotImplementedDimension(dimension))
    ensures dimension == 2 && master[0][0] == master[1][0] ==> r == Failure(DivisionByZero)
    ensures dimension == 2 && r.Failure? ==> r.error == DivisionByZero
    ensures r.Success? ==> r.value[2] == 0.0
    ensures r.Success? && Abs(direction[0]) <= Tolerance ==> r.value[0] == destiny[0]
  {
    if dimension != 2 then Failure(NotImplementedDimension(dimension))
    else if master[0][0] == master[1][0] then Failure(DivisionByZero)
    else
      var a1 := MasterSlope(master[0], master[1]);
      var b1 := MasterIntercept(master[0], master[1]);
      if Abs(direction[0]) > Tolerance then
        var a2 := direction[1] / direction[0];
        var b2 := destiny[1] - destiny[0] * a2;
        var aux2 := a2 - a1;
        if aux2 == 0.0 then Failure(DivisionByZero)
        else
          var p: Vec3 := [(b1 - b2) / aux2, (a2 * b1 - a1 * b2) / aux2, 0.0];
          Success(p)
      else
        var p: Vec3 := [destiny[0], destiny[0] * a1 + b1, 0.0];
        Success(p)
  }

  /** Whatever the direction, a projected point lies on the master line. */
  lemma {:induction false} ProjectDirectionOnMasterLine(master: seq<Vec3>, destiny: Vec3, direction: Vec3)
    requires |master| >= 2
    requires ProjectDirection(master, 2, destiny, direction).Success?
    ensures var p := ProjectDirection(master, 2, destiny, direction).value;
            p[1] == MasterSlope(master[0], master[1]) * p[0] + MasterIntercept(master[0], master[1])
  {
    var p := ProjectDirection(master, 2, destiny, direction).value;
    if Abs(direction[0]) > Tolerance {
      var a1 := MasterSlope(master[0], master[1]);
      var b1 := MasterIntercept(master[0], master[1]);
      var a2 := direction[1] / direction[0];
      var b2 := destiny[1] - destiny[0] * a2;
      var aux2 := a2 - a1;
      assert p[0] * aux2 == b1 - b2;
      assert p[1] * aux2 == a2 * b1 - a1 * b2;
      assert (a1 * p[0] + b1) * aux2 == a1 * (b1 - b2) + b1 * aux2;
      assert (a1 * p[0] + b1) * aux2 == p[1] * aux2;
    }
  }

  /** A direction that is not vertical moves destiny along itself: the
      displacement to the projected point is parallel to direction. */
  lemma {:induction false} ProjectDirectionAlongDirection(master: seq<Vec3>, destiny: Vec3, direction: Vec3)
    requires |master| >= 2 && Abs(direction[0]) > Tolerance
    requires ProjectDirection(master, 2, destiny, direction).Success?
    ensures var p := ProjectDirection(master, 2, destiny, direction).value;
            (p[1] - destiny[1]) * direction[0] == (p[0] - destiny[0]) * direction[1]
  {
    var p := ProjectDirection(master, 2, destiny, direction).value;
    var a1 := MasterSlope(master[0], master[1]);
    var b1 := MasterIntercept(master[0], master[1]);
    var a2 := direction[1] / direction[0];
    var b2 := destiny[1] - destiny[0] * a2;
    var aux2 := a2 - a1;
    assert p[0] * aux2 == b1 - b2;
    assert p[1] * aux2 == a2 * b1 - a1 * b2;
    assert (a2 * p[0] + b2) * aux2 == a2 * (b1 - b2) + b2 * aux2;
    assert p[1] == a2 * p[0] + b2;
    assert a2 * direction[0] == direction[1];
  }

  // ---------------------------------------------------------------------
  // Bounding radius

  function SquaredDistance(a: Vec3, b: Vec3): real {
    Dot(VecSub(a, b), VecSub(a, b))
  }

  /** The squared radius of a condition: the largest squared distance from
      its center to one of its nodes (zero for no nodes). */
  method SquaredRadius(center: Vec3, points: seq<Vec3>) returns (radius2: real)
    ensures forall i :: 0 <= i < |points| ==> SquaredDistance(center, points[i]) <= radius2
    ensures radius2 == 0.0 || exists i :: 0 <= i < |points| && radius2 == SquaredDistance(center, points[i])
    ensures radius2 >= 0.0
  {
    radius2 := 0.0;
    var i := 0;
    while i < |points|
      invariant 0 <= i <= |points| && radius2 >= 0.0
      invariant forall q :: 0 <= q < i ==> SquaredDistance(center, points[q]) <= radius2
      invariant radius2 == 0.0 || exists q :: 0 <= q < i && radius2 == SquaredDistance(center, points[q])
    {
      var tmp := SquaredDistance(center, points[i]);
      if tmp > radius2 {
        radius2 := tmp;
      }
      i := i + 1;
    }
  }

  // ---------------------------------------------------------------------
  // Geometry normals

  /** A segment's normal in the X-Y plane: the out-of-plane unit vector
      crossed with the segment. */
  function LineNormal(p0: Vec3, p1: Vec3): Vec3 {
    Cross([0.0, 0.0, 1.0], VecSub(p1, p0))
  }

  /** The normal of a quadratic line, given the coefficients c of the
      parabola y = c0 x^2 + c1 x + c2 through its nodes: the tangent's slope
      at the middle node against -1. */
  function QuadraticLineNormal(middle: Vec3, c: Vec3): Vec3 {
    [2.0 * middle[0] * c[0] + c[1], -1.0, 0.0]
  }

  function TriangleNormal(p0: Vec3, p1: Vec3, p2: Vec3): Vec3 {
    Cross(VecSub(p1, p0), VecSub(p2, p0))
  }

  /** The two forms of the Newell sum: the textbook one, with the sum of the
      coordinates in the second factor, and the one the source accumulates,
      with their difference. */
  datatype NewellForm = Intended | AsWritten

  function NewellTerm(p: Vec3, q: Vec3, form: NewellForm): Vec3 {
    match form
    case Intended =>
      [(p[1] - q[1]) * (p[2] + q[2]), (p[2] - q[2]) * (p[0] + q[0]), (p[0] - q[0]) * (p[1] + q[1])]
    case AsWritten =>
      [(p[1] - q[1]) * (p[2] - q[2]), (p[2] - q[2]) * (p[0] - q[0]), (p[0] - q[0]) * (p[1] - q[1])]
  }

  /** The node after i around the polygon, wrapping to the first. */
  function Next(i: nat, n: nat): nat {
    if i == n - 1 then 0 else i + 1
  }

  /** The Newell sum over the first m edges of the closed polygon. */
  function NewellUpTo(points: seq<Vec3>, m: nat, form: NewellForm): Vec3
    requires m <= |points|
  {
    if m == 0 then ZeroVec3
    else VecAdd(NewellUpTo(points, m - 1, form), NewellTerm(points[m - 1], points[Next(m - 1, |points|)], form))
  }

  /** The normal direction of a geometry, before it is scaled to unit
      length, by node count: a segment, a quadratic line (dimension 2) or a
      triangle, a quadrilateral; other node counts have no method.  The
      parabola coefficients serve the quadratic line only. */
  function NormalDirection(points: seq<Vec3>, dimension: nat, parabola: Vec3): (r: Result<Vec3, ContactError>)
    ensures r.Failure? <==> |points| != 2 && |points| != 3 && |points| != 4
    ensures r.Failure? ==> r.error == UnsupportedNodeCount(|points|)
  {
    if |points| == 2 then Success(LineNormal(points[0], points[1]))
    else if |points| == 3 then
      if dimension == 2 then Success(QuadraticLineNormal(points[1], parabola))
      else Success(TriangleNormal(points[0], points[1], points[2]))
    else if |points| == 4 then Success(NewellUpTo(points, 4, Intended))
    else Failure(UnsupportedNodeCount(|points|))
  }

  /** Computes the normal direction, accumulating Newell's sum edge by edge
      for a quadrilateral. */
  method GeometryNormal(points: seq<Vec3>, dimension: nat, parabola: Vec3) returns (r: Result<Vec3, ContactError>)
    ensures r == NormalDirection(points, dimension, parabola)
  {
    if |points| == 2 {
      r := Success(LineNormal(points[0], points[1]));
    } else if |points| == 3 {
      if dimension == 2 {
        r := Success(QuadraticLineNormal(points[1], parabola));
      } else {
        r := Success(TriangleNormal(points[0], points[1], points[2]));
      }
    } else if |points| == 4 {
      var normal: Vec3 := ZeroVec3;
      var i := 0;
      while i < |points|
        invariant 0 <= i <= |points|
        invariant normal == NewellUpTo(points, i, Intended)
      {
        var next := i + 1;
        if i == |points| - 1 {
          next := 0;
        }
        normal := VecAdd(normal, NewellTerm(points[i], points[next], Intended));
        i := i + 1;
      }
      r := Success(normal);
    } else {
      r := Failure(UnsupportedNodeCount(|points|));
    }
  }

  /** A segment's normal lies in the X-Y plane, is perpendicular to the
      segment and is as long as the segment's X-Y projection. */
  lemma {:induction false} LineNormalPerpendicular(p0: Vec3, p1: Vec3)
    ensures var n := LineNormal(p0, p1);
            n[2] == 0.0 && Dot(n, VecSub(p1, p0)) == 0.0
            && n[0] * n[0] + n[1] * n[1] == (p1[0] - p0[0]) * (p1[0] - p0[0]) + (p1[1] - p0[1]) * (p1[1] - p0[1])
  {
    CrossPerpendicular([0.0, 0.0, 1.0], VecSub(p1, p0));
  }

  /** A triangle's normal is perpendicular to the two edges from its first
      node, hence to its plane. */
  lemma {:induction false} TriangleNormalPerpendicular(p0: Vec3, p1: Vec3, p2: Vec3)
    ensures Dot(TriangleNormal(p0, p1, p2), VecSub(p1, p0)) == 0.0
    ensures Dot(TriangleNormal(p0, p1, p2), VecSub(p2, p0)) == 0.0
  {
    CrossPerpendicular(VecSub(p1, p0), VecSub(p2, p0));
  }

  /** The quadratic line's normal is perpendicular to the parabola's tangent
      (1, 2 c0 x + c1) at the middle node. */
  lemma {:induction false} QuadraticLineNormalPerpendicular(middle: Vec3, c: Vec3)
    ensures Dot(QuadraticLineNormal(middle, c), [1.0, 2.0 * c[0] * middle[0] + c[1], 0.0]) == 0.0
  {
    Dot3(QuadraticLineNormal(middle, c), [1.0, 2.0 * c[0] * middle[0] + c[1], 0.0]);
  }

  /** Unfolds the four edges of a quadrilateral's Newell sum. */
  lemma {:induction false} NewellOfQuadrilateral(points: seq<Vec3>, form: NewellForm)
    requires |points| == 4
    ensures forall k :: 0 <= k < 3 ==>
      NewellUpTo(points, 4, form)[k]
        == NewellTerm(points[0], points[1], form)[k] + NewellTerm(points[1], points[2], form)[k]
         + NewellTerm(points[2], points[3], form)[k] + NewellTerm(points[3], points[0], form)[k]
  {
    var t0 := NewellTerm(points[0], points[1], form);
    var t1 := NewellTerm(points[1], points[2], form);
    var t2 := NewellTerm(points[2], points[3], form);
    var t3 := NewellTerm(points[3], points[0], form);
    assert NewellUpTo(points, 1, form) == VecAdd(ZeroVec3, t0);
    assert NewellUpTo(points, 2, form) == VecAdd(NewellUpTo(points, 1, form), t1);
    assert NewellUpTo(points, 3, form) == VecAdd(NewellUpTo(points, 2, form), t2);
    assert NewellUpTo(points, 4, form) == VecAdd(NewellUpTo(points, 3, form), t3);
  }

  /** One component of the quadrilateral identity: over the closed polygon
      the squares in (u_i - u_j)(v_i + v_j) cancel, leaving the cross terms
      of the two diagonals. */
  lemma {:induction false} DiagonalComponent(u0: real, u1: real, u2: real, u3: real, v0: real, v1: real, v2: real, v3: real)
    ensures (u0 - u1) * (v0 + v1) + (u1 - u2) * (v1 + v2) + (u2 - u3) * (v2 + v3) + (u3 - u0) * (v3 + v0)
         == (u2 - u0) * (v3 - v1) - (v2 - v0) * (u3 - u1)
  {
  }

  /** The intended Newell term of the edge from p to q, component by
      component. */
  lemma {:induction false} IntendedTerm(p: Vec3, q: Vec3)
    ensures NewellTerm(p, q, Intended)[0] == (p[1] - q[1]) * (p[2] + q[2])
    ensures NewellTerm(p, q, Intended)[1] == (p[2] - q[2]) * (p[0] + q[0])
    ensures NewellTerm(p, q, Intended)[2] == (p[0] - q[0]) * (p[1] + q[1])
  {
  }

  /** The Newell term as the source accumulates it, component by
      component. */
  lemma {:induction false} AsWrittenTerm(p: Vec3, q: Vec3)
    ensures NewellTerm(p, q, AsWritten)[0] == (p[1] - q[1]) * (p[2] - q[2])
    ensures NewellTerm(p, q, AsWritten)[1] == (p[2] - q[2]) * (p[0] - q[0])
    ensures NewellTerm(p, q, AsWritten)[2] == (p[0] - q[0]) * (p[1] - q[1])
  {
  }

  /** The cross product of the diagonals p0p2 and p1p3, component by
      component. */
  lemma {:induction false} DiagonalsCross(p0: Vec3, p1: Vec3, p2: Vec3, p3: Vec3)
    ensures Cross(VecSub(p2, p0), VecSub(p3, p1))[0]
         == (p2[1] - p0[1]) * (p3[2] - p1[2]) - (p2[2] - p0[2]) * (p3[1] - p1[1])
    ensures Cross(VecSub(p2, p0), VecSub(p3, p1))[1]
         == (p2[2] - p0[2]) * (p3[0] - p1[0]) - (p2[0] - p0[0]) * (p3[2] - p1[2])
    ensures Cross(VecSub(p2, p0), VecSub(p3, p1))[2]
         == (p2[0] - p0[0]) * (p3[1] - p1[1]) - (p2[1] - p0[1]) * (p3[0] - p1[0])
  {
    var a, b := VecSub(p2, p0), VecSub(p3, p1);
    assert a[0] == p2[0] - p0[0] && a[1] == p2[1] - p0[1] && a[2] == p2[2] - p0[2];
    assert b[0] == p3[0] - p1[0] && b[1] == p3[1] - p1[1] && b[2] == p3[2] - p1[2];
  }

  /** One component of the intended Newell sum of four points against the
      same component of the cross product of the diagonals. */
  lemma {:induction false} NewellComponent(points: seq<Vec3>, k: nat)
    requires |points| == 4 && k < 3
    ensures NewellUpTo(points, 4, Intended)[k]
         == Cross(VecSub(points[2], points[0]), VecSub(points[3], points[1]))[k]
  {
    var p0, p1, p2, p3 := points[0], points[1], points[2], points[3];
    NewellOfQuadrilateral(points, Intended);
    IntendedTerm(p0, p1);
    IntendedTerm(p1, p2);
    IntendedTerm(p2, p3);
    IntendedTerm(p3, p0);
    DiagonalsCross(p0, p1, p2, p3);
    if k == 0 {
      DiagonalComponent(p0[1], p1[1], p2[1], p3[1], p0[2], p1[2], p2[2], p3[2]);
    } else if k == 1 {
      DiagonalComponent(p0[2], p1[2], p2[2], p3[2], p0[0], p1[0], p2[0], p3[0]);
    } else {
      DiagonalComponent(p0[0], p1[0], p2[0], p3[0], p0[1], p1[1], p2[1], p3[1]);
    }
  }



  /** Newell's sum over a quadrilateral is the cross product of its
      diagonals, so it is perpendicular to both of them: for a planar
      quadrilateral it is normal to the plane, and for a convex
      counter-clockwise one in the X-Y plane it points along +z with twice
      the area as length. */
  lemma {:induction false} QuadrilateralNormalIsDiagonalCross(points: seq<Vec3>)
    requires |points| == 4
    ensures NewellUpTo(points, 4, Intended) == Cross(VecSub(points[2], points[0]), VecSub(points[3], points[1]))
    ensures Dot(NewellUpTo(points, 4, Intended), VecSub(points[2], points[0])) == 0.0
    ensures Dot(NewellUpTo(points, 4, Intended), VecSub(points[3], points[1])) == 0.0
  {
    var n := NewellUpTo(points, 4, Intended);
    var d := Cross(VecSub(points[2], points[0]), VecSub(points[3], points[1]));
    NewellComponent(points, 0);
    NewellComponent(points, 1);
    NewellComponent(points, 2);
    assert n == d;
    CrossPerpendicular(VecSub(points[2], points[0]), VecSub(points[3], points[1]));
  }

  /** The corners of the unit square in the X-Y plane, counter-clockwise. */
  function UnitSquare(): seq<Vec3> {
    [[0.0, 0.0, 0.0], [1.0, 0.0, 0.0], [1.0, 1.0, 0.0], [0.0, 1.0, 0.0]]
  }

  /** On the unit square in the X-Y plane the sum as accumulated in the
      source is the zero vector, which cannot be scaled to unit length,
      while the intended sum is (0, 0, 2). */
  lemma {:induction false} NewellAsWrittenVanishesOnUnitSquare()
    ensures NewellUpTo(UnitSquare(), 4, AsWritten) == ZeroVec3
    ensures NewellUpTo(UnitSquare(), 4, Intended) == [0.0, 0.0, 2.0]
  {
    var s := UnitSquare();
    SquareNewellSums(s[0], s[1], s[2], s[3]);
    assert s == [s[0], s[1], s[2], s[3]];
  }

  /** Both Newell sums of the square with the given corners, from its four
      edge terms. */
  lemma {:induction false} SquareNewellSums(p0: Vec3, p1: Vec3, p2: Vec3, p3: Vec3)
    requires p0 == [0.0, 0.0, 0.0] && p1 == [1.0, 0.0, 0.0] && p2 == [1.0, 1.0, 0.0] && p3 == [0.0, 1.0, 0.0]
    ensures NewellUpTo([p0, p1, p2, p3], 4, AsWritten) == ZeroVec3
    ensures NewellUpTo([p0, p1, p2, p3], 4, Intended) == [0.0, 0.0, 2.0]
  {
    NewellOfQuadrilateral([p0, p1, p2, p3], AsWritten);
    AsWrittenTerm(p0, p1);
    AsWrittenTerm(p1, p2);
    AsWrittenTerm(p2, p3);
    AsWrittenTerm(p3, p0);
    NewellOfQuadrilateral([p0, p1, p2, p3], Intended);
    IntendedTerm(p0, p1);
    IntendedTerm(p1, p2);
    IntendedTerm(p2, p3);
    IntendedTerm(p3, p0);
  }
}
