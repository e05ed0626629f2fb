/** Kinematics of the material point inside its grid cell: spatial
    gradients, the incremental deformation gradient F = I + grad(u), the
    strain-displacement matrix B, and the total deformation handed to the
    constitutive law. */
module MpmKinematics {
  import opened Algebra
  import opened MpmErrors

  /** Number of independent strain components: 3 in 2-D, 6 in 3-D. */
  function VoigtSize(dim: nat): nat {
    if dim == 3 then 6 else 3
  }

  /** The tensor components (p, q) that Voigt row r holds: the normal
      components first, then xy (and in 3-D yz, xz). */
  function VoigtPair(dim: nat, r: nat): (pq: (nat, nat))
    requires (dim == 2 || dim == 3) && r < VoigtSize(dim)
    ensures pq.0 < dim && pq.1 < dim && pq.0 <= pq.1
  {
    if dim == 2 then [(0, 0), (1, 1), (0, 1)][r]
    else [(0, 0), (1, 1), (2, 2), (0, 1), (1, 2), (0, 2)][r]
  }

  /** Engineering strain of a displacement gradient g: normal rows hold
      g[p][p], shear rows hold g[p][q] + g[q][p]. */
  function VoigtStrain(dim: nat, g: Mat): (e: seq<real>)
    requires (dim == 2 || dim == 3) && IsMatrix(g, dim, dim)
    ensures |e| == VoigtSize(dim)
  {
    seq(VoigtSize(dim), r requires 0 <= r < VoigtSize(dim) =>
      var (p, q) := VoigtPair(dim, r);
      if p == q then g[p][p] else g[p][q] + g[q][p])
  }

  /** Entry of B in Voigt row r for node i and displacement component j. */
  function BEntry(dim: nat, dnDx: Mat, r: nat, i: nat, j: nat): real
    requires (dim == 2 || dim == 3) && r < VoigtSize(dim) && i < |dnDx| && |dnDx[i]| == dim && j < dim
  {
    var (p, q) := VoigtPair(dim, r);
    (if j == p then dnDx[i][q] else 0.0) + (if j == q && p != q then dnDx[i][p] else 0.0)
  }

  /** Row r of B over the first n nodes; column dim * i + j belongs to node i,
      component j. */
  function BRow(dim: nat, dnDx: Mat, r: nat, n: nat): (row: seq<real>)
    requires (dim == 2 || dim == 3) && r < VoigtSize(dim) && n <= |dnDx|
    requires forall i :: 0 <= i < |dnDx| ==> |dnDx[i]| == dim
    ensures |row| == dim * n
  {
    seq(dim * n, col requires 0 <= col < dim * n => DivModBlock(dim, col); BEntry(dim, dnDx, r, col / dim, col % dim))
  }

  /** The strain-displacement matrix B for n nodes: VoigtSize(dim) rows and
      dim * n columns. */
  function DeformationMatrix(dim: nat, dnDx: Mat, n: nat): (b: Mat)
    requires (dim == 2 || dim == 3) && IsMatrix(dnDx, n, dim)
    ensures IsMatrix(b, VoigtSize(dim), dim * n)
  {
    seq(VoigtSize(dim), r requires 0 <= r < VoigtSize(dim) => BRow(dim, dnDx, r, n))
  }

  lemma {:induction false} DivModBlock(dim: nat, col: nat)
    requires dim == 2 || dim == 3
    ensures col == dim * (col / dim) + col % dim && col % dim < dim
  {
  }

  lemma {:induction false} DivModOfBlock(dim: nat, i: nat, j: nat)
    requires (dim == 2 || dim == 3) && j < dim
    ensures (dim * i + j) / dim == i && (dim * i + j) % dim == j
  {
    if dim == 2 {
      assert (2 * i + j) / 2 == i;
    } else {
      assert (3 * i + j) / 3 == i;
    }
  }

  lemma {:induction false} BlockIndexBound(dim: nat, k: nat, j: nat, n: nat)
    requires (dim == 2 || dim == 3) && dim * k + j < dim * n
    ensures k < n
  {
    if k >= n {
      MulMonotone(dim, n, k);
    }
  }

  lemma {:induction false} MulMonotone(dim: nat, a: nat, b: nat)
    requires a <= b
    ensures dim * a <= dim * b
  {
  }

  /** Nodal values stored node after node: entry dim * i + j is u[i][j]. */
  function Flatten(dim: nat, u: Mat, n: nat): (v: seq<real>)
    requires (dim == 2 || dim == 3) && IsMatrix(u, n, dim)
    ensures |v| == dim * n
  {
    seq(dim * n, col requires 0 <= col < dim * n => DivModBlock(dim, col); u[col / dim][col % dim])
  }

  /** The same value at every node: row i of the result is t for every i. */
  function Uniform(t: seq<real>, n: nat): (u: Mat)
    ensures IsMatrix(u, n, |t|)
  {
    seq(n, _ => t)
  }

  /** DN_DX = DN_De * Invj, the gradients with respect to the current
      configuration. */
  function SpatialGradients(dnDe: Mat, invj: Mat, n: nat, dim: nat): (dnDx: Mat)
    requires IsMatrix(dnDe, n, dim) && IsMatrix(invj, dim, dim)
    ensures IsMatrix(dnDx, n, dim)
  {
    MatMul(dnDe, invj, n, dim, dim)
  }

  /** The displacement gradient u_i,j = sum over nodes of u_node[i] * dN/dx_j. */
  function DisplacementGradient(currentDisp: Mat, dnDx: Mat, n: nat, dim: nat): (g: Mat)
    requires IsMatrix(currentDisp, n, dim) && IsMatrix(dnDx, n, dim)
    ensures IsMatrix(g, dim, dim)
  {
    MatMul(Transpose(currentDisp, n, dim), dnDx, dim, n, dim)
  }

  /** F = I + grad(u), the incremental deformation gradient. */
  function DeformationGradient(currentDisp: Mat, dnDx: Mat, n: nat, dim: nat): (f: Mat)
    requires IsMatrix(currentDisp, n, dim) && IsMatrix(dnDx, n, dim)
    ensures IsMatrix(f, dim, dim)
  {
    MatAdd(Identity(dim), DisplacementGradient(currentDisp, dnDx, n, dim), dim, dim)
  }

  /** What CalculateKinematics leaves in the element variables. */
  datatype Kinematics = Kinematics(
    dnDx: Mat,          // spatial gradients, one row per node
    currentDisp: Mat,   // nodal displacement increment, one row per node
    f: Mat,             // incremental deformation gradient
    detF0: real,        // determinant of the stored total deformation gradient
    f0: Mat,            // stored total deformation gradient
    b: Mat)             // strain-displacement matrix

  /** What SetGeneralVariables hands to the constitutive law. */
  datatype LawParameters = LawParameters(detF: real, detFT: real, ft: Mat, dnDx: Mat, n: seq<real>)

  /** CalculateKinematics, given the inverse of the current Jacobian (the
      matrix inversion itself is not part of this model). */
  method CalculateKinematics(dim: nat, n: nat, dnDe: Mat, invj: Mat, currentDisp: Mat, f0: Mat, detF0: real)
    returns (r: Result<Kinematics, ElementError>)
    requires IsMatrix(dnDe, n, dim) && IsMatrix(invj, dim, dim) && IsMatrix(currentDisp, n, dim)
    ensures (dim == 2 || dim == 3) <==> r.Success?
    ensures r.Failure? ==> r.error == WrongDimension(dim)
    ensures r.Success? ==>
      var dnDx := SpatialGradients(dnDe, invj, n, dim);
      && r.value.dnDx == dnDx
      && r.value.currentDisp == currentDisp
      && r.value.f == DeformationGradient(currentDisp, dnDx, n, dim)
      && r.value.detF0 == detF0 && r.value.f0 == f0
      && r.value.b == DeformationMatrix(dim, dnDx, n)
  {
    var dnDx := SpatialGradients(dnDe, invj, n, dim);
    var f := DeformationGradient(currentDisp, dnDx, n, dim);
    var b := CalculateDeformationMatrix(dim, n, dnDx);
    match b {
      case Success(bm) => r := Success(Kinematics(dnDx, currentDisp, f, detF0, f0, bm));
      case Failure(e) => r := Failure(e);
    }
  }

  /** Fills B node by node from the spatial gradients; any dimension other
      than 2 or 3 is an error. */
  method CalculateDeformationMatrix(dim: nat, n: nat, dnDx: Mat) returns (r: Result<Mat, ElementError>)
    requires IsMatrix(dnDx, n, dim)
    ensures (dim == 2 || dim == 3) <==> r.Success?
    ensures r.Failure? ==> r.error == WrongDimension(dim)
    ensures r.Success? ==> r.value == DeformationMatrix(dim, dnDx, n)
  {
    if dim == 2 {
      var b := FillPlaneBlocks(n, dnDx);
      BFromBlocks(2, dnDx, n, b);
      r := Success(b);
    } else if dim == 3 {
      var b := FillSolidBlocks(n, dnDx);
      BFromBlocks(3, dnDx, n, b);
      r := Success(b);
    } else {
      r := Failure(WrongDimension(dim));
    }
  }

  /** The two-dimensional loop of CalculateDeformationMatrix: node i fills
      columns 2i and 2i+1 of the three strain rows. */
  method FillPlaneBlocks(n: nat, dnDx: Mat) returns (b: Mat)
    requires IsMatrix(dnDx, n, 2)
    ensures IsMatrix(b, 3, 2 * n)
    ensures forall row, k, j :: 0 <= row < 3 && 0 <= k < n && 0 <= j < 2 ==>
      b[row][2 * k + j] == BEntry(2, dnDx, row, k, j)
  {
    b := ZeroMatrix(3, 2 * n);
    var i := 0;
    while i < n
      invariant 0 <= i <= n
      invariant IsMatrix(b, 3, 2 * n)
      invariant forall row, k, j :: 0 <= row < 3 && 0 <= k < i && 0 <= j < 2 ==>
        b[row][2 * k + j] == BEntry(2, dnDx, row, k, j)
      invariant forall row, col :: 0 <= row < 3 && 2 * i <= col < 2 * n ==> b[row][col] == 0.0
    {
      var index := 2 * i;
      b := b[0 := b[0][index + 0 := dnDx[i][0]]];
      b := b[1 := b[1][index + 1 := dnDx[i][1]]];
      b := b[2 := b[2][index + 0 := dnDx[i][1]]];
      b := b[2 := b[2][index + 1 := dnDx[i][0]]];
      i := i + 1;
    }
  }

  /** The three-dimensional loop of CalculateDeformationMatrix: node i
      fills columns 3i to 3i+2 of the six strain rows. */
  method FillSolidBlocks(n: nat, dnDx: Mat) returns (b: Mat)
    requires IsMatrix(dnDx, n, 3)
    ensures IsMatrix(b, 6, 3 * n)
    ensures forall row, k, j :: 0 <= row < 6 && 0 <= k < n && 0 <= j < 3 ==>
      b[row][3 * k + j] == BEntry(3, dnDx, row, k, j)
  {
    b := ZeroMatrix(6, 3 * n);
    var i := 0;
    while i < n
      invariant 0 <= i <= n
      invariant IsMatrix(b, 6, 3 * n)
      invariant forall row, k, j :: 0 <= row < 6 && 0 <= k < i && 0 <= j < 3 ==>
        b[row][3 * k + j] == BEntry(3, dnDx, row, k, j)
      invariant forall row, col :: 0 <= row < 6 && 3 * i <= col < 3 * n ==> b[row][col] == 0.0
    {
      var index := 3 * i;
      b := b[0 := b[0][index + 0 := dnDx[i][0]]];
      b := b[1 := b[1][index + 1 := dnDx[i][1]]];
      b := b[2 := b[2][index + 2 := dnDx[i][2]]];
      b := b[3 := b[3][index + 0 := dnDx[i][1]]];
      b := b[3 := b[3][index + 1 := dnDx[i][0]]];
      b := b[4 := b[4][index + 1 := dnDx[i][2]]];
      b := b[4 := b[4][index + 2 := dnDx[i][1]]];
      b := b[5 := b[5][index + 0 := dnDx[i][2]]];
      b := b[5 := b[5][index + 2 := dnDx[i][0]]];
      i := i + 1;
    }
  }

  /** A matrix that agrees with B on every node block is B. */
  lemma {:induction false} BFromBlocks(dim: nat, dnDx: Mat, n: nat, b: Mat)
    requires (dim == 2 || dim == 3) && IsMatrix(dnDx, n, dim) && IsMatrix(b, VoigtSize(dim), dim * n)
    requires forall row, k, j :: 0 <= row < VoigtSize(dim) && 0 <= k < n && 0 <= j < dim ==>
      b[row][dim * k + j] == BEntry(dim, dnDx, row, k, j)
    ensures b == DeformationMatrix(dim, dnDx, n)
  {
    var spec := DeformationMatrix(dim, dnDx, n);
    forall row, col | 0 <= row < VoigtSize(dim) && 0 <= col < dim * n
      ensures b[row][col] == spec[row][col]
    {
      DivModBlock(dim, col);
      var k, j := col / dim, col % dim;
      BlockIndexBound(dim, k, j, n);
      assert b[row][dim * k + j] == BEntry(dim, dnDx, row, k, j);
    }
    MatrixEquality(b, spec, VoigtSize(dim), dim * n);
  }

  /** Ratio of reference to current volume, 1 / (detF * detF0); a zero
      product is reported instead of an infinite ratio. */
  function VolumeChange(detF: real, detF0: real): (r: Result<real, ElementError>)
    ensures r.Failure? <==> detF * detF0 == 0.0
    ensures r.Success? ==> r.value * (detF * detF0) == 1.0
  {
    if detF * detF0 == 0.0 then Failure(DivisionByZero) else Success(1.0 / (detF * detF0))
  }

  /** SetGeneralVariables: rejects an inverted element (detF < 0), otherwise
      composes the increment with the stored total deformation. */
  function SetGeneralVariables(dim: nat, k: Kinematics, n: seq<real>): (r: Result<LawParameters, ElementError>)
    requires (dim == 2 || dim == 3) && IsMatrix(k.f, dim, dim) && IsMatrix(k.f0, dim, dim)
    ensures r.Failure? <==> Det(k.f, dim) < 0.0
    ensures r.Failure? ==> r.error == InvertedElement(Det(k.f, dim))
    ensures r.Success? ==> r.value.dnDx == k.dnDx && r.value.n == n && r.value.detF == Det(k.f, dim)
    ensures r.Success? ==> IsMatrix(r.value.ft, dim, dim)
    ensures r.Success? ==> r.value.detFT == r.value.detF * k.detF0 && r.value.ft == MatMul(k.f, k.f0, dim, dim, dim)
  {
    var detF := Det(k.f, dim);
    if detF < 0.0 then
      Failure(InvertedElement(detF))
    else
      Success(LawParameters(detF, detF * k.detF0, MatMul(k.f, k.f0, dim, dim, dim), k.dnDx, n))
  }

  /** What the law receives, in terms of the increment f and the stored
      history (f0, detF0): it is refused exactly when det f < 0; otherwise
      the total determinant is det f times detF0 and the total gradient is
      f f0, the total determinant stays that of the total gradient when the
      stored one was, and stays non-negative when the stored one was. */
  lemma {:induction false} LawDeterminant(dim: nat, k: Kinematics, n: seq<real>, f: Mat, f0: Mat, detF0: real)
    requires (dim == 2 || dim == 3) && IsMatrix(f, dim, dim) && IsMatrix(f0, dim, dim)
    requires k.f == f && k.f0 == f0 && k.detF0 == detF0
    ensures var law := SetGeneralVariables(dim, k, n);
      && (law.Failure? <==> Det(f, dim) < 0.0)
      && (law.Failure? ==> law.error == InvertedElement(Det(f, dim)))
      && (law.Success? ==> law.value.detFT == Det(f, dim) * detF0 && law.value.ft == MatMul(f, f0, dim, dim, dim))
      && (law.Success? && detF0 == Det(f0, dim) ==> law.value.detFT == Det(law.value.ft, dim))
      && (law.Success? && detF0 >= 0.0 ==> law.value.detFT >= 0.0)
  {
    var law := SetGeneralVariables(dim, k, n);
    if law.Success? {
      DetOfComposition(f, f0, detF0, dim);
      ProductOfEqual(law.value.detF, Det(f, dim), detF0);
      NonNegativeProduct(law.value.detF, detF0);
    }
  }

  // ---------------------------------------------------------------------------
  // Properties of the kinematics

  /** The spatial gradients of a partition of unity also sum to zero. */
  lemma {:induction false} SpatialGradientColumnsSumToZero(dnDe: Mat, invj: Mat, n: nat, dim: nat)
    requires IsMatrix(dnDe, n, dim) && IsMatrix(invj, dim, dim)
    requires forall c :: 0 <= c < dim ==> Sum(Column(dnDe, c)) == 0.0
    ensures forall c :: 0 <= c < dim ==> Sum(Column(SpatialGradients(dnDe, invj, n, dim), c)) == 0.0
  {
    var ones := seq(n, _ => 1.0);
    var dnDx := SpatialGradients(dnDe, invj, n, dim);
    var sums := MatVec(Transpose(dnDe, n, dim), ones, dim, n);
    forall k | 0 <= k < dim
      ensures sums[k] == 0.0
    {
      DotSymmetric(Column(dnDe, k), ones);
      DotOnes(ones, Column(dnDe, k));
    }
    forall c | 0 <= c < dim
      ensures Sum(Column(dnDx, c)) == 0.0
    {
      ColumnOfProduct(dnDe, invj, n, dim, dim, c);
      DotOnes(ones, Column(dnDx, c));
      TransposeDot(dnDe, Column(invj, c), ones, n, dim);
      DotZeroLeft(sums, Column(invj, c));
    }
  }

  /** Equal displacements at every node have zero gradient whenever the
      gradient columns sum to zero. */
  lemma {:induction false} UniformDisplacementGradient(u: Mat, dnDx: Mat, t: seq<real>, n: nat, dim: nat)
    requires IsMatrix(u, n, dim) && IsMatrix(dnDx, n, dim) && |t| == dim
    requires forall c :: 0 <= c < dim ==> Sum(Column(dnDx, c)) == 0.0
    requires forall i :: 0 <= i < n ==> u[i] == t
    ensures DisplacementGradient(u, dnDx, n, dim) == ZeroMatrix(dim, dim)
  {
    var g := DisplacementGradient(u, dnDx, n, dim);
    var ut := Transpose(u, n, dim);
    var ones := seq(n, _ => 1.0);
    forall a, c | 0 <= a < dim && 0 <= c < dim
      ensures g[a][c] == 0.0
    {
      assert ut[a] == VecScale(t[a], ones);
      DotScaleLeft(t[a], ones, Column(dnDx, c));
      DotOnes(ones, Column(dnDx, c));
    }
    MatrixEquality(g, ZeroMatrix(dim, dim), dim, dim);
  }

  /** A rigid translation of the cell (every node moved by the same t)
      produces no deformation: F is the identity. */
  lemma {:induction false} RigidTranslationGivesIdentity(dnDe: Mat, invj: Mat, currentDisp: Mat, t: seq<real>, n: nat, dim: nat)
    requires IsMatrix(dnDe, n, dim) && IsMatrix(invj, dim, dim) && IsMatrix(currentDisp, n, dim) && |t| == dim
    requires forall c :: 0 <= c < dim ==> Sum(Column(dnDe, c)) == 0.0
    requires forall i :: 0 <= i < n ==> currentDisp[i] == t
    ensures DeformationGradient(currentDisp, SpatialGradients(dnDe, invj, n, dim), n, dim) == Identity(dim)
  {
    var dnDx := SpatialGradients(dnDe, invj, n, dim);
    SpatialGradientColumnsSumToZero(dnDe, invj, n, dim);
    UniformDisplacementGradient(currentDisp, dnDx, t, n, dim);
    var f := DeformationGradient(currentDisp, dnDx, n, dim);
    MatrixEquality(f, Identity(dim), dim, dim);
  }

  /** When Invj is the inverse of the current Jacobian, the spatial
      gradients interpolate the current coordinates exactly:
      sum over nodes of x_i[r] * dN_i/dx_c is the identity. */
  lemma {:induction false} SpatialGradientsReproduceCoordinates(dnDe: Mat, invj: Mat, x: Mat, n: nat, dim: nat)
    requires IsMatrix(dnDe, n, dim) && IsMatrix(invj, dim, dim) && IsMatrix(x, n, dim)
    requires MatMul(MatMul(Transpose(x, n, dim), dnDe, dim, n, dim), invj, dim, dim, dim) == Identity(dim)
    ensures MatMul(Transpose(x, n, dim), SpatialGradients(dnDe, invj, n, dim), dim, n, dim) == Identity(dim)
  {
    MatMulAssociative(Transpose(x, n, dim), dnDe, invj, dim, n, dim, dim);
  }

  /** B applied to the flattened nodal displacements is the engineering
      strain of the displacement gradient that enters F. */
  lemma {:induction false} StrainDisplacement(dim: nat, dnDx: Mat, u: Mat, n: nat)
    requires (dim == 2 || dim == 3) && IsMatrix(dnDx, n, dim) && IsMatrix(u, n, dim)
    ensures MatVec(DeformationMatrix(dim, dnDx, n), Flatten(dim, u, n), VoigtSize(dim), dim * n)
         == VoigtStrain(dim, DisplacementGradient(u, dnDx, n, dim))
  {
    var lhs := MatVec(DeformationMatrix(dim, dnDx, n), Flatten(dim, u, n), VoigtSize(dim), dim * n);
    var rhs := VoigtStrain(dim, DisplacementGradient(u, dnDx, n, dim));
    assert u[..n] == u;
    forall r | 0 <= r < VoigtSize(dim)
      ensures lhs[r] == rhs[r]
    {
      StrainRowFull(dim, dnDx, u, n, r);
    }
  }
  /** A rigid translation t of every node of a cell whose gradient columns
      sum to zero produces no strain. */
  lemma {:induction false} TranslationIsStrainFree(dim: nat, dnDx: Mat, n: nat, t: seq<real>)
    requires (dim == 2 || dim == 3) && IsMatrix(dnDx, n, dim) && |t| == dim
    requires forall c :: 0 <= c < dim ==> Sum(Column(dnDx, c)) == 0.0
    ensures MatVec(DeformationMatrix(dim, dnDx, n), Flatten(dim, Uniform(t, n), n), VoigtSize(dim), dim * n)
         == Zeros(VoigtSize(dim))
  {
    StrainDisplacement(dim, dnDx, Uniform(t, n), n);
    UniformDisplacementGradient(Uniform(t, n), dnDx, t, n, dim);
    assert VoigtStrain(dim, ZeroMatrix(dim, dim)) == Zeros(VoigtSize(dim));
  }


  lemma {:induction false} StrainRowFull(dim: nat, dnDx: Mat, u: Mat, n: nat, r: nat)
    requires (dim == 2 || dim == 3) && IsMatrix(dnDx, n, dim) && IsMatrix(u, n, dim) && r < VoigtSize(dim)
    ensures Dot(BRow(dim, dnDx, r, n), Flatten(dim, u, n)) == VoigtStrain(dim, DisplacementGradient(u, dnDx, n, dim))[r]
  {
    var (p, q) := VoigtPair(dim, r);
    StrainRow(dim, dnDx, u, n, r, n);
    assert u[..n] == u;
    assert Column(u, p)[..n] == Column(u, p) && Column(u, q)[..n] == Column(u, q);
    assert Column(dnDx, p)[..n] == Column(dnDx, p) && Column(dnDx, q)[..n] == Column(dnDx, q);
    assert Transpose(u, n, dim)[p] == Column(u, p) && Transpose(u, n, dim)[q] == Column(u, q);
  }

  /** Voigt row r of the displacement gradient summed over the first m nodes. */
  function RowStrain(dim: nat, dnDx: Mat, u: Mat, n: nat, r: nat, m: nat): real
    requires (dim == 2 || dim == 3) && IsMatrix(dnDx, n, dim) && IsMatrix(u, n, dim)
    requires r < VoigtSize(dim) && m <= n
  {
    var (p, q) := VoigtPair(dim, r);
    if p == q then Dot(Column(u, p)[..m], Column(dnDx, p)[..m])
    else Dot(Column(u, p)[..m], Column(dnDx, q)[..m]) + Dot(Column(u, q)[..m], Column(dnDx, p)[..m])
  }

  /** Node k's contribution to Voigt row r of the strain. */
  function NodeStrain(dim: nat, dnDx: Mat, u: Mat, n: nat, r: nat, k: nat): real
    requires (dim == 2 || dim == 3) && IsMatrix(dnDx, n, dim) && IsMatrix(u, n, dim)
    requires r < VoigtSize(dim) && k < n
  {
    var (p, q) := VoigtPair(dim, r);
    if p == q then u[k][p] * dnDx[k][p] else u[k][p] * dnDx[k][q] + u[k][q] * dnDx[k][p]
  }

  lemma {:induction false} RowStrainStep(dim: nat, dnDx: Mat, u: Mat, n: nat, r: nat, k: nat)
    requires (dim == 2 || dim == 3) && IsMatrix(dnDx, n, dim) && IsMatrix(u, n, dim)
    requires r < VoigtSize(dim) && k < n
    ensures RowStrain(dim, dnDx, u, n, r, k + 1) == RowStrain(dim, dnDx, u, n, r, k) + NodeStrain(dim, dnDx, u, n, r, k)
  {
    var (p, q) := VoigtPair(dim, r);
    DotPrefixStep(Column(u, p), Column(dnDx, q), k);
    DotPrefixStep(Column(u, q), Column(dnDx, p), k);
    DotPrefixStep(Column(u, p), Column(dnDx, p), k);
  }

  /** One row of B u over the first m nodes, by induction on m. */
  lemma {:induction false} StrainRow(dim: nat, dnDx: Mat, u: Mat, n: nat, r: nat, m: nat)
    requires (dim == 2 || dim == 3) && IsMatrix(dnDx, n, dim) && IsMatrix(u, n, dim)
    requires r < VoigtSize(dim) && m <= n
    ensures Dot(BRow(dim, dnDx, r, m), Flatten(dim, u[..m], m)) == RowStrain(dim, dnDx, u, n, r, m)
    decreases m
  {
    if m > 0 {
      var k := m - 1;
      var block := seq(dim, j requires 0 <= j < dim => BEntry(dim, dnDx, r, k, j));
      calc {
        Dot(BRow(dim, dnDx, r, m), Flatten(dim, u[..m], m));
        == { BRowSplit(dim, dnDx, r, m); FlattenSplit(dim, u, n, m); }
        Dot(BRow(dim, dnDx, r, k) + block, Flatten(dim, u[..k], k) + u[k]);
        == { DotConcat(BRow(dim, dnDx, r, k), block, Flatten(dim, u[..k], k), u[k]); }
        Dot(BRow(dim, dnDx, r, k), Flatten(dim, u[..k], k)) + Dot(block, u[k]);
        == { StrainRow(dim, dnDx, u, n, r, k); BlockDot(dim, dnDx, u, n, r, k); }
        RowStrain(dim, dnDx, u, n, r, k) + NodeStrain(dim, dnDx, u, n, r, k);
        == { RowStrainStep(dim, dnDx, u, n, r, k); }
        RowStrain(dim, dnDx, u, n, r, m);
      }
    }
  }

  lemma {:induction false} BRowSplit(dim: nat, dnDx: Mat, r: nat, m: nat)
    requires (dim == 2 || dim == 3) && r < VoigtSize(dim) && 0 < m <= |dnDx|
    requires forall i :: 0 <= i < |dnDx| ==> |dnDx[i]| == dim
    ensures BRow(dim, dnDx, r, m)
         == BRow(dim, dnDx, r, m - 1) + seq(dim, j requires 0 <= j < dim => BEntry(dim, dnDx, r, m - 1, j))
  {
    var k := m - 1;
    var block := seq(dim, j requires 0 <= j < dim => BEntry(dim, dnDx, r, k, j));
    forall col | 0 <= col < dim * m
      ensures BRow(dim, dnDx, r, m)[col] == (BRow(dim, dnDx, r, k) + block)[col]
    {
      if col >= dim * k {
        DivModOfBlock(dim, k, col - dim * k);
      }
    }
  }

  lemma {:induction false} FlattenSplit(dim: nat, u: Mat, n: nat, m: nat)
    requires (dim == 2 || dim == 3) && IsMatrix(u, n, dim) && 0 < m <= n
    ensures Flatten(dim, u[..m], m) == Flatten(dim, u[..m - 1], m - 1) + u[m - 1]
  {
    var k := m - 1;
    forall col | 0 <= col < dim * m
      ensures Flatten(dim, u[..m], m)[col] == (Flatten(dim, u[..k], k) + u[k])[col]
    {
      DivModBlock(dim, col);
      if col >= dim * k {
        DivModOfBlock(dim, k, col - dim * k);
      } else {
        BlockIndexBound(dim, col / dim, col % dim, k);
      }
    }
  }

  /** Node k's block of B dotted with node k's displacement. */
  lemma {:induction false} BlockDot(dim: nat, dnDx: Mat, u: Mat, n: nat, r: nat, k: nat)
    requires (dim == 2 || dim == 3) && IsMatrix(dnDx, n, dim) && IsMatrix(u, n, dim)
    requires r < VoigtSize(dim) && k < n
    ensures Dot(seq(dim, j requires 0 <= j < dim => BEntry(dim, dnDx, r, k, j)), u[k])
         == NodeStrain(dim, dnDx, u, n, r, k)
  {
    var block := seq(dim, j requires 0 <= j < dim => BEntry(dim, dnDx, r, k, j));
    if dim == 2 { Dot2(block, u[k]); } else { Dot3(block, u[k]); }
  }
}
