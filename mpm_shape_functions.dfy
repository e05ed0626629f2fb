/** Shape functions of the background-grid cell that holds a material point:
    the bilinear quadrilateral (4 nodes) in 2-D and the trilinear hexahedron
    (8 nodes, first node at (-1,-1,-1)) in 3-D, their local gradients, and
    the Jacobians assembled from them.  The local coordinates of the material
    point inside the cell are an input of every function here. */
module MpmShapeFunctions {
  import opened Algebra

  /** Nodes of the cell in the working-space dimension (2 or 3). */
  function NodeCount(dim: nat): nat {
    if dim == 2 then 4 else 8
  }

  function QuadValues(xi: real, eta: real): (n: seq<real>)
    ensures |n| == 4
  {
    [ 0.25 * (1.0 - xi) * (1.0 - eta),
      0.25 * (1.0 + xi) * (1.0 - eta),
      0.25 * (1.0 + xi) * (1.0 + eta),
      0.25 * (1.0 - xi) * (1.0 + eta) ]
  }

  /** Row i holds dN_i/dxi and dN_i/deta. */
  function QuadGradients(xi: real, eta: real): (dn: Mat)
    ensures IsMatrix(dn, 4, 2)
  {
    [ [-0.25 * (1.0 - eta), -0.25 * (1.0 - xi)],
      [ 0.25 * (1.0 - eta), -0.25 * (1.0 + xi)],
      [ 0.25 * (1.0 + eta),  0.25 * (1.0 + xi)],
      [-0.25 * (1.0 + eta),  0.25 * (1.0 - xi)] ]
  }

  function HexValues(xi: real, eta: real, zeta: real): (n: seq<real>)
    ensures |n| == 8
  {
    [ 0.125 * (1.0 - xi) * (1.0 - eta) * (1.0 - zeta),
      0.125 * (1.0 + xi) * (1.0 - eta) * (1.0 - zeta),
      0.125 * (1.0 + xi) * (1.0 + eta) * (1.0 - zeta),
      0.125 * (1.0 - xi) * (1.0 + eta) * (1.0 - zeta),
      0.125 * (1.0 - xi) * (1.0 - eta) * (1.0 + zeta),
      0.125 * (1.0 + xi) * (1.0 - eta) * (1.0 + zeta),
      0.125 * (1.0 + xi) * (1.0 + eta) * (1.0 + zeta),
      0.125 * (1.0 - xi) * (1.0 + eta) * (1.0 + zeta) ]
  }

  /** Row i holds dN_i/dxi, dN_i/deta and dN_i/dzeta. */
  function HexGradients(xi: real, eta: real, zeta: real): (dn: Mat)
    ensures IsMatrix(dn, 8, 3)
  {
    [ [-0.125 * (1.0 - eta) * (1.0 - zeta), -0.125 * (1.0 - xi) * (1.0 - zeta), -0.125 * (1.0 - eta) * (1.0 - xi)],
      [ 0.125 * (1.0 - eta) * (1.0 - zeta), -0.125 * (1.0 + xi) * (1.0 - zeta), -0.125 * (1.0 - eta) * (1.0 + xi)],
      [ 0.125 * (1.0 + eta) * (1.0 - zeta),  0.125 * (1.0 + xi) * (1.0 - zeta), -0.125 * (1.0 + eta) * (1.0 + xi)],
      [-0.125 * (1.0 + eta) * (1.0 - zeta),  0.125 * (1.0 - xi) * (1.0 - zeta), -0.125 * (1.0 + eta) * (1.0 - xi)],
      [-0.125 * (1.0 - eta) * (1.0 + zeta), -0.125 * (1.0 - xi) * (1.0 + zeta),  0.125 * (1.0 - eta) * (1.0 - xi)],
      [ 0.125 * (1.0 - eta) * (1.0 + zeta), -0.125 * (1.0 + xi) * (1.0 + zeta),  0.125 * (1.0 - eta) * (1.0 + xi)],
      [ 0.125 * (1.0 + eta) * (1.0 + zeta),  0.125 * (1.0 + xi) * (1.0 + zeta),  0.125 * (1.0 + eta) * (1.0 + xi)],
      [-0.125 * (1.0 + eta) * (1.0 + zeta),  0.125 * (1.0 - xi) * (1.0 + zeta),  0.125 * (1.0 + eta) * (1.0 - xi)] ]
  }

  /** Shape-function values at the local point; a dimension other than 2 or
      3 leaves the previous result untouched. */
  function ShapeFunctionValues(dim: nat, local: Vec3, previous: seq<real>): (n: seq<real>)
    ensures dim == 2 || dim == 3 ==> |n| == NodeCount(dim) && Sum(n) == 1.0
    ensures dim != 2 && dim != 3 ==> n == previous
  {
    if dim == 2 then
      QuadPartitionOfUnity(local[0], local[1]);
      QuadValues(local[0], local[1])
    else if dim == 3 then
      HexPartitionOfUnity(local[0], local[1], local[2]);
      HexValues(local[0], local[1], local[2])
    else previous
  }

  /** Local gradients at the local point; a dimension other than 2 or 3
      leaves the previous result untouched. */
  function ShapeFunctionLocalGradients(dim: nat, local: Vec3, previous: Mat): (dn: Mat)
    ensures dim == 2 || dim == 3 ==> IsMatrix(dn, NodeCount(dim), dim)
    ensures dim == 2 || dim == 3 ==> forall c :: 0 <= c < dim ==> Sum(Column(dn, c)) == 0.0
    ensures dim != 2 && dim != 3 ==> dn == previous
  {
    if dim == 2 then
      QuadGradientColumnsSumToZero(local[0], local[1]);
      QuadGradients(local[0], local[1])
    else if dim == 3 then
      HexGradientColumnsSumToZero(local[0], local[1], local[2]);
      HexGradients(local[0], local[1], local[2])
    else previous
  }

  // ---------------------------------------------------------------------------
  // Partition of unity and its derivative

  lemma {:induction false} QuadPartitionOfUnity(xi: real, eta: real)
    ensures Sum(QuadValues(xi, eta)) == 1.0
  {
    Sum4(QuadValues(xi, eta));
  }

  lemma {:induction false} HexPartitionOfUnity(xi: real, eta: real, zeta: real)
    ensures Sum(HexValues(xi, eta, zeta)) == 1.0
  {
    Sum8(HexValues(xi, eta, zeta));
  }

  lemma {:induction false} QuadGradientColumnsSumToZero(xi: real, eta: real)
    ensures forall c :: 0 <= c < 2 ==> Sum(Column(QuadGradients(xi, eta), c)) == 0.0
  {
    forall c | 0 <= c < 2 {
      Sum4(Column(QuadGradients(xi, eta), c));
    }
  }

  lemma {:induction false} HexGradientColumnsSumToZero(xi: real, eta: real, zeta: real)
    ensures forall c :: 0 <= c < 3 ==> Sum(Column(HexGradients(xi, eta, zeta), c)) == 0.0
  {
    forall c | 0 <= c < 3 {
      Sum8(Column(HexGradients(xi, eta, zeta), c));
    }
  }

  // ---------------------------------------------------------------------------
  // Nodal interpolation: N_i is one at node i and zero at the other nodes

  /** Local coordinates of the quadrilateral's nodes, counter-clockwise from
      the bottom-left corner. */
  const QuadNodes: seq<Vec3> := [[-1.0, -1.0, 0.0], [1.0, -1.0, 0.0], [1.0, 1.0, 0.0], [-1.0, 1.0, 0.0]]

  /** Local coordinates of the hexahedron's nodes: the bottom face
      (zeta = -1) counter-clockwise from (-1,-1,-1), then the top face. */
  const HexNodes: seq<Vec3> :=
    [[-1.0, -1.0, -1.0], [1.0, -1.0, -1.0], [1.0, 1.0, -1.0], [-1.0, 1.0, -1.0],
     [-1.0, -1.0,  1.0], [1.0, -1.0,  1.0], [1.0, 1.0,  1.0], [-1.0, 1.0,  1.0]]

  lemma {:induction false} QuadKronecker(i: nat, j: nat)
    requires i < 4 && j < 4
    ensures QuadValues(QuadNodes[j][0], QuadNodes[j][1])[i] == if i == j then 1.0 else 0.0
  {
  }

  lemma {:induction false} HexKronecker(i: nat, j: nat)
    requires i < 8 && j < 8
    ensures HexValues(HexNodes[j][0], HexNodes[j][1], HexNodes[j][2])[i] == if i == j then 1.0 else 0.0
  {
  }

  // ---------------------------------------------------------------------------
  // The gradients are the derivatives of the values.  The functions are
  // linear in each local coordinate separately, so the difference quotient
  // along one coordinate is exactly the tabulated derivative.

  lemma {:induction false} QuadGradientsAreDerivatives(xi: real, eta: real, h: real)
    ensures forall i :: 0 <= i < 4 ==>
      QuadValues(xi + h, eta)[i] == QuadValues(xi, eta)[i] + h * QuadGradients(xi, eta)[i][0]
    ensures forall i :: 0 <= i < 4 ==>
      QuadValues(xi, eta + h)[i] == QuadValues(xi, eta)[i] + h * QuadGradients(xi, eta)[i][1]
  {
    QuadDifferenceXi(xi, eta, h);
    QuadDifferenceEta(xi, eta, h);
  }

  lemma {:induction false} QuadDifferenceXi(xi: real, eta: real, h: real)
    ensures forall i :: 0 <= i < 4 ==>
      QuadValues(xi + h, eta)[i] == QuadValues(xi, eta)[i] + h * QuadGradients(xi, eta)[i][0]
  {
    var n, g, a := QuadValues(xi, eta), QuadGradients(xi, eta), QuadValues(xi + h, eta);
    assert a[0] == n[0] + h * g[0][0] by { QuadFirstShiftDown(xi, h, 1.0 - eta); }
    assert a[1] == n[1] + h * g[1][0] by { QuadFirstShiftUp(xi, h, 1.0 - eta); }
    assert a[2] == n[2] + h * g[2][0] by { QuadFirstShiftUp(xi, h, 1.0 + eta); }
    assert a[3] == n[3] + h * g[3][0] by { QuadFirstShiftDown(xi, h, 1.0 + eta); }
  }

  lemma {:induction false} QuadDifferenceEta(xi: real, eta: real, h: real)
    ensures forall i :: 0 <= i < 4 ==>
      QuadValues(xi, eta + h)[i] == QuadValues(xi, eta)[i] + h * QuadGradients(xi, eta)[i][1]
  {
    var n, g, b := QuadValues(xi, eta), QuadGradients(xi, eta), QuadValues(xi, eta + h);
    assert b[0] == n[0] + h * g[0][1] by { QuadSecondShiftDown(eta, h, 1.0 - xi); }
    assert b[1] == n[1] + h * g[1][1] by { QuadSecondShiftDown(eta, h, 1.0 + xi); }
    assert b[2] == n[2] + h * g[2][1] by { QuadSecondShiftUp(eta, h, 1.0 + xi); }
    assert b[3] == n[3] + h * g[3][1] by { QuadSecondShiftUp(eta, h, 1.0 - xi); }
  }

  lemma {:induction false} QuadFirstShiftDown(x: real, h: real, q: real)
    ensures 0.25 * (1.0 - (x + h)) * q == 0.25 * (1.0 - x) * q + h * (-0.25 * q)
  {}

  lemma {:induction false} QuadFirstShiftUp(x: real, h: real, q: real)
    ensures 0.25 * (1.0 + (x + h)) * q == 0.25 * (1.0 + x) * q + h * (0.25 * q)
  {}

  lemma {:induction false} QuadSecondShiftDown(y: real, h: real, p: real)
    ensures 0.25 * p * (1.0 - (y + h)) == 0.25 * p * (1.0 - y) + h * (-0.25 * p)
  {}

  lemma {:induction false} QuadSecondShiftUp(y: real, h: real, p: real)
    ensures 0.25 * p * (1.0 + (y + h)) == 0.25 * p * (1.0 + y) + h * (0.25 * p)
  {}

  lemma {:induction false} HexGradientsAreDerivatives(xi: real, eta: real, zeta: real, h: real)
    ensures HexValues(xi + h, eta, zeta)
         == VecAdd(HexValues(xi, eta, zeta), VecScale(h, Column(HexGradients(xi, eta, zeta), 0)))
    ensures HexValues(xi, eta + h, zeta)
         == VecAdd(HexValues(xi, eta, zeta), VecScale(h, Column(HexGradients(xi, eta, zeta), 1)))
    ensures HexValues(xi, eta, zeta + h)
         == VecAdd(HexValues(xi, eta, zeta), VecScale(h, Column(HexGradients(xi, eta, zeta), 2)))
  {
    HexDifferenceXi(xi, eta, zeta, h);
    HexDifferenceEta(xi, eta, zeta, h);
    HexDifferenceZeta(xi, eta, zeta, h);
  }

  /** Eight entries that each moved by h times their rate in column c of g:
      the whole table moved by h times that column.  Kept apart from the
      tables so that no product of coordinates is in scope when the entries
      are compared. */
  lemma {:induction false} EightShifts(a: seq<real>, n: seq<real>, g: Mat, c: nat, h: real)
    requires |a| == 8 && |n| == 8 && IsMatrix(g, 8, 3) && c < 3
    requires a[0] == n[0] + h * g[0][c]
    requires a[1] == n[1] + h * g[1][c]
    requires a[2] == n[2] + h * g[2][c]
    requires a[3] == n[3] + h * g[3][c]
    requires a[4] == n[4] + h * g[4][c]
    requires a[5] == n[5] + h * g[5][c]
    requires a[6] == n[6] + h * g[6][c]
    requires a[7] == n[7] + h * g[7][c]
    ensures a == VecAdd(n, VecScale(h, Column(g, c)))
  {
    var b := VecAdd(n, VecScale(h, Column(g, c)));
    forall i | 0 <= i < 8
      ensures a[i] == b[i]
    {
      if i == 0 {} else if i == 1 {} else if i == 2 {} else if i == 3 {}
      else if i == 4 {} else if i == 5 {} else if i == 6 {} else {}
    }
  }

  lemma {:induction false} HexDifferenceXi(xi: real, eta: real, zeta: real, h: real)
    ensures HexValues(xi + h, eta, zeta)
         == VecAdd(HexValues(xi, eta, zeta), VecScale(h, Column(HexGradients(xi, eta, zeta), 0)))
  {
    var n, g, a := HexValues(xi, eta, zeta), HexGradients(xi, eta, zeta), HexValues(xi + h, eta, zeta);
    var c: nat := 0;
    assert a[0] == n[0] + h * g[0][c] by { FirstFactorShiftDown(xi, h, (1.0 - eta), (1.0 - zeta)); }
    assert a[1] == n[1] + h * g[1][c] by { FirstFactorShiftUp(xi, h, (1.0 - eta), (1.0 - zeta)); }
    assert a[2] == n[2] + h * g[2][c] by { FirstFactorShiftUp(xi, h, (1.0 + eta), (1.0 - zeta)); }
    assert a[3] == n[3] + h * g[3][c] by { FirstFactorShiftDown(xi, h, (1.0 + eta), (1.0 - zeta)); }
    assert a[4] == n[4] + h * g[4][c] by { FirstFactorShiftDown(xi, h, (1.0 - eta), (1.0 + zeta)); }
    assert a[5] == n[5] + h * g[5][c] by { FirstFactorShiftUp(xi, h, (1.0 - eta), (1.0 + zeta)); }
    assert a[6] == n[6] + h * g[6][c] by { FirstFactorShiftUp(xi, h, (1.0 + eta), (1.0 + zeta)); }
    assert a[7] == n[7] + h * g[7][c] by { FirstFactorShiftDown(xi, h, (1.0 + eta), (1.0 + zeta)); }
    EightShifts(a, n, g, c, h);
  }

  lemma {:induction false} HexDifferenceEta(xi: real, eta: real, zeta: real, h: real)
    ensures HexValues(xi, eta + h, zeta)
         == VecAdd(HexValues(xi, eta, zeta), VecScale(h, Column(HexGradients(xi, eta, zeta), 1)))
  {
    var n, g, a := HexValues(xi, eta, zeta), HexGradients(xi, eta, zeta), HexValues(xi, eta + h, zeta);
    var c: nat := 1;
    assert a[0] == n[0] + h * g[0][c] by { MiddleFactorShiftDown(eta, h, (1.0 - xi), (1.0 - zeta)); }
    assert a[1] == n[1] + h * g[1][c] by { MiddleFactorShiftDown(eta, h, (1.0 + xi), (1.0 - zeta)); }
    assert a[2] == n[2] + h * g[2][c] by { MiddleFactorShiftUp(eta, h, (1.0 + xi), (1.0 - zeta)); }
    assert a[3] == n[3] + h * g[3][c] by { MiddleFactorShiftUp(eta, h, (1.0 - xi), (1.0 - zeta)); }
    assert a[4] == n[4] + h * g[4][c] by { MiddleFactorShiftDown(eta, h, (1.0 - xi), (1.0 + zeta)); }
    assert a[5] == n[5] + h * g[5][c] by { MiddleFactorShiftDown(eta, h, (1.0 + xi), (1.0 + zeta)); }
    assert a[6] == n[6] + h * g[6][c] by { MiddleFactorShiftUp(eta, h, (1.0 + xi), (1.0 + zeta)); }
    assert a[7] == n[7] + h * g[7][c] by { MiddleFactorShiftUp(eta, h, (1.0 - xi), (1.0 + zeta)); }
    EightShifts(a, n, g, c, h);
  }

  lemma {:induction false} HexDifferenceZeta(xi: real, eta: real, zeta: real, h: real)
    ensures HexValues(xi, eta, zeta + h)
         == VecAdd(HexValues(xi, eta, zeta), VecScale(h, Column(HexGradients(xi, eta, zeta), 2)))
  {
    var n, g, a := HexValues(xi, eta, zeta), HexGradients(xi, eta, zeta), HexValues(xi, eta, zeta + h);
    var c: nat := 2;
    assert a[0] == n[0] + h * g[0][c] by { LastFactorShiftDown(zeta, h, (1.0 - xi), (1.0 - eta)); }
    assert a[1] == n[1] + h * g[1][c] by { LastFactorShiftDown(zeta, h, (1.0 + xi), (1.0 - eta)); }
    assert a[2] == n[2] + h * g[2][c] by { LastFactorShiftDown(zeta, h, (1.0 + xi), (1.0 + eta)); }
    assert a[3] == n[3] + h * g[3][c] by { LastFactorShiftDown(zeta, h, (1.0 - xi), (1.0 + eta)); }
    assert a[4] == n[4] + h * g[4][c] by { LastFactorShiftUp(zeta, h, (1.0 - xi), (1.0 - eta)); }
    assert a[5] == n[5] + h * g[5][c] by { LastFactorShiftUp(zeta, h, (1.0 + xi), (1.0 - eta)); }
    assert a[6] == n[6] + h * g[6][c] by { LastFactorShiftUp(zeta, h, (1.0 + xi), (1.0 + eta)); }
    assert a[7] == n[7] + h * g[7][c] by { LastFactorShiftUp(zeta, h, (1.0 - xi), (1.0 + eta)); }
    EightShifts(a, n, g, c, h);
  }

  // Moving one factor of a trilinear product moves the product linearly;
  // each helper keeps the factor order of the tables above.

  lemma {:induction false} FirstFactorShiftDown(x: real, h: real, q: real, r: real)
    ensures 0.125 * (1.0 - (x + h)) * q * r == 0.125 * (1.0 - x) * q * r + h * (-0.125 * q * r)
  {}

  lemma {:induction false} FirstFactorShiftUp(x: real, h: real, q: real, r: real)
    ensures 0.125 * (1.0 + (x + h)) * q * r == 0.125 * (1.0 + x) * q * r + h * (0.125 * q * r)
  {}

  lemma {:induction false} MiddleFactorShiftDown(y: real, h: real, p: real, r: real)
    ensures 0.125 * p * (1.0 - (y + h)) * r == 0.125 * p * (1.0 - y) * r + h * (-0.125 * p * r)
  {}

  lemma {:induction false} MiddleFactorShiftUp(y: real, h: real, p: real, r: real)
    ensures 0.125 * p * (1.0 + (y + h)) * r == 0.125 * p * (1.0 + y) * r + h * (0.125 * p * r)
  {}

  lemma {:induction false} LastFactorShiftDown(z: real, h: real, p: real, q: real)
    ensures 0.125 * p * q * (1.0 - (z + h)) == 0.125 * p * q * (1.0 - z) + h * (-0.125 * q * p)
  {}

  lemma {:induction false} LastFactorShiftUp(z: real, h: real, p: real, q: real)
    ensures 0.125 * p * q * (1.0 + (z + h)) == 0.125 * p * q * (1.0 + z) + h * (0.125 * q * p)
  {}

  // ---------------------------------------------------------------------------
  // Jacobians


  /** J(r, c) = sum over nodes of x_i[r] * dN_i/dxi_c. */
  function JacobianOf(dim: nat, coords: seq<Vec3>, dn: Mat): (j: Mat)
    requires dim <= 3 && IsMatrix(dn, |coords|, dim)
    ensures IsMatrix(j, dim, dim)
  {
    seq(dim, r requires 0 <= r < dim =>
      seq(dim, c requires 0 <= c < dim => Dot(Column(coords, r), Column(dn, c))))
  }

  /** Nodal coordinates moved by the first dim columns of delta. */
  function Displaced(dim: nat, coords: seq<Vec3>, delta: Mat): (moved: seq<Vec3>)
    requires dim <= 3 && IsMatrix(delta, |coords|, dim)
    ensures |moved| == |coords|
  {
    seq(|coords|, i requires 0 <= i < |coords| =>
      seq(3, k requires 0 <= k < 3 => if k < dim then coords[i][k] + delta[i][k] else coords[i][k]))
  }

  /** Nodal coordinates all shifted by t. */
  function Translated(coords: seq<Vec3>, t: Vec3): (moved: seq<Vec3>)
    ensures |moved| == |coords|
  {
    seq(|coords|, i requires 0 <= i < |coords| => VecAdd(coords[i], t))
  }

  /** The Jacobian summed over the first k nodes only. */
  function PartialJacobian(dim: nat, coords: seq<Vec3>, dn: Mat, k: nat): (j: Mat)
    requires dim <= 3 && IsMatrix(dn, |coords|, dim) && k <= |coords|
    ensures IsMatrix(j, dim, dim)
  {
    seq(dim, r requires 0 <= r < dim =>
      seq(dim, c requires 0 <= c < dim => Dot(Column(coords, r)[..k], Column(dn, c)[..k])))
  }

  /** Node k adds x_k[r] * dN_k/dxi_c to every entry. */
  lemma {:induction false} PartialJacobianStep(dim: nat, coords: seq<Vec3>, dn: Mat, k: nat)
    requires dim <= 3 && IsMatrix(dn, |coords|, dim) && k < |coords|
    ensures forall r, c :: 0 <= r < dim && 0 <= c < dim ==>
      PartialJacobian(dim, coords, dn, k + 1)[r][c]
        == PartialJacobian(dim, coords, dn, k)[r][c] + coords[k][r] * dn[k][c]
  {
    forall r, c | 0 <= r < dim && 0 <= c < dim
      ensures PartialJacobian(dim, coords, dn, k + 1)[r][c]
        == PartialJacobian(dim, coords, dn, k)[r][c] + coords[k][r] * dn[k][c]
    {
      DotPrefixStep(Column(coords, r), Column(dn, c), k);
    }
  }

  lemma {:induction false} PartialJacobianEnds(dim: nat, coords: seq<Vec3>, dn: Mat)
    requires dim <= 3 && IsMatrix(dn, |coords|, dim)
    ensures PartialJacobian(dim, coords, dn, 0) == ZeroMatrix(dim, dim)
    ensures PartialJacobian(dim, coords, dn, |coords|) == JacobianOf(dim, coords, dn)
  {
    MatrixEquality(PartialJacobian(dim, coords, dn, 0), ZeroMatrix(dim, dim), dim, dim);
    var n := |coords|;
    forall r, c | 0 <= r < dim && 0 <= c < dim
      ensures PartialJacobian(dim, coords, dn, n)[r][c] == JacobianOf(dim, coords, dn)[r][c]
    {
      assert Column(coords, r)[..n] == Column(coords, r);
      assert Column(dn, c)[..n] == Column(dn, c);
    }
    MatrixEquality(PartialJacobian(dim, coords, dn, n), JacobianOf(dim, coords, dn), dim, dim);
  }

  /** Accumulates the Jacobian node by node; other dimensions return the
      previous result. */
  method MPMJacobian(dim: nat, coords: seq<Vec3>, local: Vec3, previous: Mat) returns (j: Mat)
    requires dim == 2 || dim == 3 ==> |coords| == NodeCount(dim)
    ensures dim == 2 || dim == 3 ==>
      j == JacobianOf(dim, coords, ShapeFunctionLocalGradients(dim, local, ZeroMatrix(0, 0)))
    ensures dim != 2 && dim != 3 ==> j == previous
  {
    var dn := ShapeFunctionLocalGradients(dim, local, ZeroMatrix(0, 0));
    if dim == 2 || dim == 3 {
      j := AccumulateJacobian(dim, coords, ZeroMatrix(|coords|, dim), dn);
      DisplacedByZero(dim, coords);
    } else {
      j := previous;
    }
  }

  /** The Jacobian of the cell displaced by delta; other dimensions return
      the previous result. */
  method MPMJacobianDelta(dim: nat, coords: seq<Vec3>, local: Vec3, delta: Mat, previous: Mat) returns (j: Mat)
    requires dim == 2 || dim == 3 ==> |coords| == NodeCount(dim) && IsMatrix(delta, |coords|, dim)
    ensures dim == 2 || dim == 3 ==>
      j == JacobianOf(dim, Displaced(dim, coords, delta), ShapeFunctionLocalGradients(dim, local, ZeroMatrix(0, 0)))
    ensures dim != 2 && dim != 3 ==> j == previous
  {
    var dn := ShapeFunctionLocalGradients(dim, local, ZeroMatrix(0, 0));
    if dim == 2 || dim == 3 {
      j := AccumulateJacobian(dim, coords, delta, dn);
    } else {
      j := previous;
    }
  }

  /** The node loop shared by both Jacobians: entry (r, c) gathers
      (x_i[r] + delta(i, r)) * dN_i/dxi_c over the nodes. */
  method AccumulateJacobian(dim: nat, coords: seq<Vec3>, delta: Mat, dn: Mat) returns (j: Mat)
    requires dim <= 3 && IsMatrix(dn, |coords|, dim) && IsMatrix(delta, |coords|, dim)
    ensures j == JacobianOf(dim, Displaced(dim, coords, delta), dn)
  {
    ghost var moved := Displaced(dim, coords, delta);
    PartialJacobianEnds(dim, moved, dn);
    j := ZeroMatrix(dim, dim);
    var i := 0;
    while i < |coords|
      invariant 0 <= i <= |coords|
      invariant j == PartialJacobian(dim, moved, dn, i)
    {
      var next := seq(dim, r requires 0 <= r < dim =>
                    seq(dim, c requires 0 <= c < dim => j[r][c] + (coords[i][r] + delta[i][r]) * dn[i][c]));
      DisplacedJacobianStep(dim, coords, delta, dn, i, j, next);
      j := next;
      i := i + 1;
    }
  }

  /** One node's contribution to the Jacobian of the displaced cell. */
  lemma {:induction false} DisplacedJacobianStep(dim: nat, coords: seq<Vec3>, delta: Mat, dn: Mat, i: nat, j: Mat, next: Mat)
    requires dim <= 3 && IsMatrix(dn, |coords|, dim) && IsMatrix(delta, |coords|, dim) && i < |coords|
    requires j == PartialJacobian(dim, Displaced(dim, coords, delta), dn, i)
    requires IsMatrix(next, dim, dim)
    requires forall r, c :: 0 <= r < dim && 0 <= c < dim ==>
      next[r][c] == j[r][c] + (coords[i][r] + delta[i][r]) * dn[i][c]
    ensures next == PartialJacobian(dim, Displaced(dim, coords, delta), dn, i + 1)
  {
    var moved := Displaced(dim, coords, delta);
    PartialJacobianStep(dim, moved, dn, i);
    forall r, c | 0 <= r < dim && 0 <= c < dim
      ensures next[r][c] == PartialJacobian(dim, moved, dn, i + 1)[r][c]
    {
      assert moved[i][r] == coords[i][r] + delta[i][r];
      ProductOfEqual(moved[i][r], coords[i][r] + delta[i][r], dn[i][c]);
    }
    MatrixEquality(next, PartialJacobian(dim, moved, dn, i + 1), dim, dim);
  }

  lemma {:induction false} DisplacedByZero(dim: nat, coords: seq<Vec3>)
    requires dim <= 3
    ensures Displaced(dim, coords, ZeroMatrix(|coords|, dim)) == coords
  {
    var moved := Displaced(dim, coords, ZeroMatrix(|coords|, dim));
    forall i | 0 <= i < |coords|
      ensures moved[i] == coords[i]
    {
      assert forall k | 0 <= k < 3 :: moved[i][k] == coords[i][k];
    }
  }

  /** Rigidly translating the cell does not change its Jacobian, because
      the gradients of a partition of unity sum to zero. */
  lemma {:induction false} JacobianTranslationInvariant(dim: nat, coords: seq<Vec3>, t: Vec3, dn: Mat)
    requires dim <= 3 && IsMatrix(dn, |coords|, dim)
    requires forall c :: 0 <= c < dim ==> Sum(Column(dn, c)) == 0.0
    ensures JacobianOf(dim, Translated(coords, t), dn) == JacobianOf(dim, coords, dn)
  {
    var moved := Translated(coords, t);
    var ones := seq(|coords|, _ => 1.0);
    forall r, c | 0 <= r < dim && 0 <= c < dim
      ensures JacobianOf(dim, moved, dn)[r][c] == JacobianOf(dim, coords, dn)[r][c]
    {
      assert Column(moved, r) == VecAdd(Column(coords, r), VecScale(t[r], ones));
      DotLinearLeft(Column(coords, r), ones, t[r], Column(dn, c));
      DotOnes(ones, Column(dn, c));
    }
    assert forall r | 0 <= r < dim :: JacobianOf(dim, moved, dn)[r] == JacobianOf(dim, coords, dn)[r];
  }

  /** The Jacobian of the displaced cell is the Jacobian of the cell plus
      the gradient of the nodal displacement field. */
  lemma {:induction false} JacobianDeltaSplits(dim: nat, coords: seq<Vec3>, delta: Mat, dn: Mat)
    requires dim <= 3 && IsMatrix(dn, |coords|, dim) && IsMatrix(delta, |coords|, dim)
    ensures JacobianOf(dim, Displaced(dim, coords, delta), dn)
         == MatAdd(JacobianOf(dim, coords, dn),
                   MatMul(Transpose(delta, |coords|, dim), dn, dim, |coords|, dim), dim, dim)
  {
    var n := |coords|;
    var moved := Displaced(dim, coords, delta);
    var lhs := JacobianOf(dim, moved, dn);
    var rhs := MatAdd(JacobianOf(dim, coords, dn), MatMul(Transpose(delta, n, dim), dn, dim, n, dim), dim, dim);
    forall r, c | 0 <= r < dim && 0 <= c < dim
      ensures lhs[r][c] == rhs[r][c]
    {
      assert Column(moved, r) == VecAdd(Column(coords, r), VecScale(1.0, Column(delta, r)));
      DotLinearLeft(Column(coords, r), Column(delta, r), 1.0, Column(dn, c));
      assert Transpose(delta, n, dim)[r] == Column(delta, r);
    }
    assert forall r | 0 <= r < dim :: lhs[r] == rhs[r];
  }

  /** On the reference cell itself the Jacobian is the identity, wherever
      the material point lies. */
  lemma {:induction false} QuadReferenceJacobian(xi: real, eta: real)
    ensures JacobianOf(2, QuadNodes, QuadGradients(xi, eta)) == Identity(2)
  {
    var dn := QuadGradients(xi, eta);
    var j := JacobianOf(2, QuadNodes, dn);
    assert Column(QuadNodes, 0) == [-1.0, 1.0, 1.0, -1.0];
    assert Column(QuadNodes, 1) == [-1.0, -1.0, 1.0, 1.0];
    forall r, c | 0 <= r < 2 && 0 <= c < 2
      ensures j[r][c] == Identity(2)[r][c]
    {
      Dot4(Column(QuadNodes, r), Column(dn, c));
    }
    assert forall r | 0 <= r < 2 :: j[r] == Identity(2)[r];
  }

  /** Columns of the hexahedron's nodal coordinates. */
  lemma {:induction false} HexNodeColumns()
    ensures Column(HexNodes, 0) == [-1.0, 1.0, 1.0, -1.0, -1.0, 1.0, 1.0, -1.0]
    ensures Column(HexNodes, 1) == [-1.0, -1.0, 1.0, 1.0, -1.0, -1.0, 1.0, 1.0]
    ensures Column(HexNodes, 2) == [-1.0, -1.0, -1.0, -1.0, 1.0, 1.0, 1.0, 1.0]
  {
  }

  lemma {:induction false} HexReferenceJacobianColumn0(xi: real, eta: real, zeta: real)
    ensures forall r :: 0 <= r < 3 ==>
      Dot(Column(HexNodes, r), Column(HexGradients(xi, eta, zeta), 0)) == if r == 0 then 1.0 else 0.0
  {
    var g := Column(HexGradients(xi, eta, zeta), 0);
    HexNodeColumns();
    Dot8(Column(HexNodes, 0), g);
    Dot8(Column(HexNodes, 1), g);
    Dot8(Column(HexNodes, 2), g);
  }

  lemma {:induction false} HexReferenceJacobianColumn1(xi: real, eta: real, zeta: real)
    ensures forall r :: 0 <= r < 3 ==>
      Dot(Column(HexNodes, r), Column(HexGradients(xi, eta, zeta), 1)) == if r == 1 then 1.0 else 0.0
  {
    var g := Column(HexGradients(xi, eta, zeta), 1);
    HexNodeColumns();
    Dot8(Column(HexNodes, 0), g);
    Dot8(Column(HexNodes, 1), g);
    Dot8(Column(HexNodes, 2), g);
  }

  lemma {:induction false} HexReferenceJacobianColumn2(xi: real, eta: real, zeta: real)
    ensures forall r :: 0 <= r < 3 ==>
      Dot(Column(HexNodes, r), Column(HexGradients(xi, eta, zeta), 2)) == if r == 2 then 1.0 else 0.0
  {
    var g := Column(HexGradients(xi, eta, zeta), 2);
    HexNodeColumns();
    Dot8(Column(HexNodes, 0), g);
    Dot8(Column(HexNodes, 1), g);
    Dot8(Column(HexNodes, 2), g);
  }

  lemma {:induction false} HexReferenceJacobian(xi: real, eta: real, zeta: real)
    ensures JacobianOf(3, HexNodes, HexGradients(xi, eta, zeta)) == Identity(3)
  {
    var j := JacobianOf(3, HexNodes, HexGradients(xi, eta, zeta));
    HexReferenceJacobianColumn0(xi, eta, zeta);
    HexReferenceJacobianColumn1(xi, eta, zeta);
    HexReferenceJacobianColumn2(xi, eta, zeta);
    assert forall r | 0 <= r < 3 :: j[r] == Identity(3)[r];
  }
}
