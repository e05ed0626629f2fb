/** Assembly of the element's local system: external and internal forces
    on the right-hand side, the material stiffness on the left-hand side,
    the named sub-contribution dispatch, the lumped mass and Rayleigh
    damping matrices, and the degree-of-freedom numbering. Vectors and
    matrices the element fills in place are arrays. */
module MpmAssembly {
  import opened Algebra
  import opened MpmErrors
  import opened MpmKinematics

  // ---------------------------------------------------------------------------
  // Node-block layout: degree of freedom j of node i sits at dim * i + j.

  function Slot(dim: nat, i: nat, j: nat): nat {
    dim * i + j
  }

  lemma {:induction false} SlotInRange(dim: nat, i: nat, j: nat, n: nat)
    requires (dim == 2 || dim == 3) && i < n && j < dim
    ensures Slot(dim, i, j) < dim * n
  {
    MulMonotone(dim, i + 1, n);
  }

  lemma {:induction false} SlotOfIndex(dim: nat, k: nat)
    requires dim == 2 || dim == 3
    ensures k == Slot(dim, k / dim, k % dim) && k % dim < dim
  {
    DivModBlock(dim, k);
  }

  /** Component j summed over the first m nodes of a nodal vector. */
  function ComponentSum(dim: nat, v: seq<real>, j: nat, m: nat): real
    requires (dim == 2 || dim == 3) && j < dim && dim * m <= |v|
  {
    if m == 0 then 0.0
    else
      SlotInRange(dim, m - 1, j, m);
      MulMonotone(dim, m - 1, m);
      ComponentSum(dim, v, j, m - 1) + v[Slot(dim, m - 1, j)]
  }


  /** Summing component j of a nodal vector is the work it does on a unit
      translation along axis j. */
  lemma {:induction false} ComponentSumIsWork(dim: nat, v: seq<real>, j: nat, m: nat)
    requires (dim == 2 || dim == 3) && j < dim && |v| == dim * m
    ensures ComponentSum(dim, v, j, m) == Dot(Flatten(dim, Uniform(UnitVector(dim, j), m), m), v)
    decreases m
  {
    var u := Uniform(UnitVector(dim, j), m);
    if m == 0 {
      assert Flatten(dim, u, m) == [];
    } else {
      var k := m - 1;
      MulMonotone(dim, k, m);
      var head := v[..dim * k];
      var tail := v[dim * k..];
      assert |tail| == dim by { assert dim * m == dim * k + dim; }
      var e := UnitVector(dim, j);
      var front := Flatten(dim, Uniform(e, k), k);
      SlotInRange(dim, k, j, m);
      calc {
        ComponentSum(dim, v, j, m);
        ComponentSum(dim, v, j, k) + v[Slot(dim, k, j)];
        == { ComponentSumPrefix(dim, v, j, k); }
        ComponentSum(dim, head, j, k) + v[Slot(dim, k, j)];
        == { ComponentSumIsWork(dim, head, j, k); }
        Dot(front, head) + v[Slot(dim, k, j)];
        == { assert tail[j] == v[Slot(dim, k, j)]; DotUnit(e, tail, j); }
        Dot(front, head) + Dot(e, tail);
        == { DotConcat(front, e, head, tail); }
        Dot(front + e, head + tail);
        == { assert u[..k] == Uniform(e, k) && u[..m] == u; FlattenSplit(dim, u, m, m); assert v == head + tail; }
        Dot(Flatten(dim, u, m), v);
      }
    }
  }

  /** A component sum over the first k nodes only reads the first dim * k entries. */
  lemma {:induction false} ComponentSumPrefix(dim: nat, v: seq<real>, j: nat, k: nat)
    requires (dim == 2 || dim == 3) && j < dim && dim * k <= |v|
    ensures ComponentSum(dim, v[..dim * k], j, k) == ComponentSum(dim, v, j, k)
    decreases k
  {
    if k > 0 {
      MulMonotone(dim, k - 1, k);
      var w := v[..dim * k];
      ComponentSumPrefix(dim, v, j, k - 1);
      ComponentSumPrefix(dim, w, j, k - 1);
      assert w[..dim * (k - 1)] == v[..dim * (k - 1)];
      SlotInRange(dim, k - 1, j, k);
    }
  }

  // ---------------------------------------------------------------------------
  // External forces

  /** The nodal share of the body force: entry dim * i + j is N[i] * f[j]. */
  function ExternalForce(dim: nat, n: seq<real>, volumeForce: seq<real>): (fe: seq<real>)
    requires (dim == 2 || dim == 3) && |volumeForce| >= dim
    ensures |fe| == dim * |n|
  {
    seq(dim * |n|, k requires 0 <= k < dim * |n| =>
      SlotOfIndex(dim, k);
      BlockIndexBound(dim, k / dim, k % dim, |n|);
      n[k / dim] * volumeForce[k % dim])
  }

  lemma {:induction false} ExternalForceEntry(dim: nat, n: seq<real>, volumeForce: seq<real>, i: nat, j: nat)
    requires (dim == 2 || dim == 3) && |volumeForce| >= dim && i < |n| && j < dim
    ensures Slot(dim, i, j) < dim * |n|
    ensures ExternalForce(dim, n, volumeForce)[Slot(dim, i, j)] == n[i] * volumeForce[j]
  {
    SlotInRange(dim, i, j, |n|);
    DivModOfBlock(dim, i, j);
  }

  /** CalculateAndAddExternalForces: rhs[dim * i + j] += N[i] * f[j], node
      after node. */
  method CalculateAndAddExternalForces(rhs: array<real>, dim: nat, n: seq<real>, volumeForce: seq<real>)
    requires (dim == 2 || dim == 3) && |volumeForce| >= dim && rhs.Length == dim * |n|
    modifies rhs
    ensures rhs[..] == VecAdd(old(rhs[..]), ExternalForce(dim, n, volumeForce))
  {
    ghost var fe := ExternalForce(dim, n, volumeForce);
    var i := 0;
    while i < |n|
      invariant 0 <= i <= |n|
      invariant forall k :: 0 <= k < dim * i ==> rhs[k] == old(rhs[k]) + fe[k]
      invariant forall k :: dim * i <= k < rhs.Length ==> rhs[k] == old(rhs[k])
    {
      var index := dim * i;
      var j := 0;
      while j < dim
        invariant 0 <= j <= dim
        invariant forall k :: 0 <= k < index + j ==> rhs[k] == old(rhs[k]) + fe[k]
        invariant forall k :: index + j <= k < rhs.Length ==> rhs[k] == old(rhs[k])
      {
        ExternalForceEntry(dim, n, volumeForce, i, j);
        rhs[index + j] := rhs[index + j] + n[i] * volumeForce[j];
        j := j + 1;
      }
      assert index + dim == dim * (i + 1);
      i := i + 1;
    }
  }

  /** A nodal vector whose component j at node i is N[i] * c adds up, over
      the first m nodes, to (sum of N) * c. */
  lemma {:induction false} ComponentSumOfShares(dim: nat, v: seq<real>, n: seq<real>, c: real, j: nat, m: nat)
    requires (dim == 2 || dim == 3) && j < dim && m <= |n| && dim * m <= |v|
    requires forall i :: 0 <= i < m ==> Slot(dim, i, j) < |v| && v[Slot(dim, i, j)] == n[i] * c
    ensures ComponentSum(dim, v, j, m) == Sum(n[..m]) * c
    decreases m
  {
    if m == 0 {
      assert Sum(n[..0]) == 0.0;
    } else {
      var k := m - 1;
      MulMonotone(dim, k, m);
      ComponentSumOfShares(dim, v, n, c, j, k);
      SumPrefixStep(n, k);
      RightDistributes(Sum(n[..k]), n[k], c);
    }
  }

  lemma {:induction false} RightDistributes(a: real, b: real, c: real)
    ensures (a + b) * c == a * c + b * c
  {
  }

  /** Component j of node i of v is the share N[i] * c. */
  predicate Shares(dim: nat, v: seq<real>, n: seq<real>, c: real, j: nat)
  {
    forall i :: 0 <= i < |n| ==> Slot(dim, i, j) < |v| && v[Slot(dim, i, j)] == n[i] * c
  }

  /** Shares N[i] * c of a total c, with N a partition of unity, add back
      up to c. */
  lemma {:induction false} SharesOfUnity(dim: nat, v: seq<real>, n: seq<real>, c: real, j: nat)
    requires (dim == 2 || dim == 3) && j < dim && dim * |n| <= |v| && Sum(n) == 1.0
    requires Shares(dim, v, n, c, j)
    ensures ComponentSum(dim, v, j, |n|) == c
  {
    ComponentSumOfShares(dim, v, n, c, j, |n|);
    assert n[..|n|] == n;
  }

  lemma {:induction false} ExternalForceShares(dim: nat, n: seq<real>, volumeForce: seq<real>, j: nat)
    requires (dim == 2 || dim == 3) && |volumeForce| >= dim && j < dim
    ensures Shares(dim, ExternalForce(dim, n, volumeForce), n, volumeForce[j], j)
  {
    forall i | 0 <= i < |n|
      ensures Slot(dim, i, j) < |ExternalForce(dim, n, volumeForce)|
      ensures ExternalForce(dim, n, volumeForce)[Slot(dim, i, j)] == n[i] * volumeForce[j]
    {
      ExternalForceEntry(dim, n, volumeForce, i, j);
    }
  }

  /** With a partition of unity the nodal external forces add up to the
      particle's body force: nothing is lost or created by the scatter. */
  lemma {:induction false} ExternalForceResultant(dim: nat, n: seq<real>, volumeForce: seq<real>, j: nat)
    requires (dim == 2 || dim == 3) && |volumeForce| >= dim && j < dim
    requires Sum(n) == 1.0
    ensures ComponentSum(dim, ExternalForce(dim, n, volumeForce), j, |n|) == volumeForce[j]
  {
    ExternalForceShares(dim, n, volumeForce, j);
    SharesOfUnity(dim, ExternalForce(dim, n, volumeForce), n, volumeForce[j], j);
  }

  // ---------------------------------------------------------------------------
  // Internal forces

  /** The internal force w * B^T sigma. */
  function InternalForce(b: Mat, stress: seq<real>, w: real, s: nat, m: nat): (fi: seq<real>)
    requires IsMatrix(b, s, m) && |stress| == s
    ensures |fi| == m
  {
    VecScale(w, MatVec(Transpose(b, s, m), stress, m, s))
  }

  /** CalculateAndAddInternalForces: rhs -= w * B^T sigma. */
  method CalculateAndAddInternalForces(rhs: array<real>, b: Mat, stress: seq<real>, w: real, s: nat, m: nat)
    requires IsMatrix(b, s, m) && |stress| == s && rhs.Length == m
    modifies rhs
    ensures rhs[..] == VecSub(old(rhs[..]), InternalForce(b, stress, w, s, m))
  {
    var internalForces := InternalForce(b, stress, w, s, m);
    forall k | 0 <= k < rhs.Length {
      rhs[k] := rhs[k] - internalForces[k];
    }
  }

  /** x . (w y) == w * v whenever y . x == v. */
  lemma {:induction false} DotScaleRight(x: seq<real>, y: seq<real>, w: real, v: real)
    requires |x| == |y| && Dot(y, x) == v
    ensures Dot(x, VecScale(w, y)) == w * v
  {
    DotSymmetric(x, VecScale(w, y));
    DotScaleLeft(w, y, x);
  }

  /** x . (w B^T sigma) == w * sigma . (B x). */
  lemma {:induction false} InternalForceWork(b: Mat, x: seq<real>, stress: seq<real>, w: real, s: nat, m: nat)
    requires IsMatrix(b, s, m) && |stress| == s && |x| == m
    ensures Dot(x, InternalForce(b, stress, w, s, m)) == w * Dot(stress, MatVec(b, x, s, m))
  {
    var btSigma := MatVec(Transpose(b, s, m), stress, m, s);
    var work := Dot(stress, MatVec(b, x, s, m));
    TransposeDot(b, x, stress, s, m);
    DotScaleRight(x, btSigma, w, work);
    assert Dot(x, InternalForce(b, stress, w, s, m)) == w * work;
  }

  /** The internal forces of a cell whose gradient columns sum to zero are
      self-equilibrated: in every direction they add up to zero. */
  lemma {:induction false} InternalForceEquilibrium(dim: nat, dnDx: Mat, stress: seq<real>, w: real, n: nat, j: nat)
    requires (dim == 2 || dim == 3) && IsMatrix(dnDx, n, dim) && |stress| == VoigtSize(dim) && j < dim
    requires forall c :: 0 <= c < dim ==> Sum(Column(dnDx, c)) == 0.0
    ensures ComponentSum(dim, InternalForce(DeformationMatrix(dim, dnDx, n), stress, w, VoigtSize(dim), dim * n), j, n) == 0.0
  {
    TranslationIsStrainFree(dim, dnDx, n, UnitVector(dim, j));
    EquilibriumOfTranslationKernel(dim, DeformationMatrix(dim, dnDx, n), stress, w, n, j);
  }

  /** Any B that maps a unit translation along axis j to zero strain yields
      internal forces whose component j sums to zero over the nodes. */
  lemma {:induction false} EquilibriumOfTranslationKernel(dim: nat, b: Mat, stress: seq<real>, w: real, n: nat, j: nat)
    requires (dim == 2 || dim == 3) && j < dim && IsMatrix(b, VoigtSize(dim), dim * n) && |stress| == VoigtSize(dim)
    requires MatVec(b, Flatten(dim, Uniform(UnitVector(dim, j), n), n), VoigtSize(dim), dim * n) == Zeros(VoigtSize(dim))
    ensures ComponentSum(dim, InternalForce(b, stress, w, VoigtSize(dim), dim * n), j, n) == 0.0
  {
    var s, m := VoigtSize(dim), dim * n;
    var x := Flatten(dim, Uniform(UnitVector(dim, j), n), n);
    ComponentSumIsWork(dim, InternalForce(b, stress, w, s, m), j, n);
    InternalForceWork(b, x, stress, w, s, m);
    DotSymmetric(stress, Zeros(s));
    DotZeroLeft(Zeros(s), stress);
  }


  // ---------------------------------------------------------------------------
  // Material stiffness

  /** The material stiffness B^T (w C B). */
  function MaterialStiffness(b: Mat, c: Mat, w: real, s: nat, m: nat): (k: Mat)
    requires IsMatrix(b, s, m) && IsMatrix(c, s, s)
    ensures IsMatrix(k, m, m)
  {
    MatMul(Transpose(b, s, m), MatScale(w, MatMul(c, b, s, s, m), s, m), m, s, m)
  }

  /** Adds k to the matrix held in lhs, entry by entry. */
  method AddToMatrix(lhs: array2<real>, k: Mat, m: nat)
    requires IsMatrix(k, m, m) && lhs.Length0 == m && lhs.Length1 == m
    modifies lhs
    ensures Entries(lhs) == MatAdd(old(Entries(lhs)), k, m, m)
  {
    ghost var before := Entries(lhs);
    forall r, q | 0 <= r < m && 0 <= q < m {
      lhs[r, q] := lhs[r, q] + k[r][q];
    }
    MatrixEquality(Entries(lhs), MatAdd(before, k, m, m), m, m);
  }

  /** CalculateAndAddKuum: the left-hand side gains B^T (w C B). */
  method CalculateAndAddKuum(lhs: array2<real>, b: Mat, c: Mat, w: real, s: nat, m: nat)
    requires IsMatrix(b, s, m) && IsMatrix(c, s, s) && lhs.Length0 == m && lhs.Length1 == m
    modifies lhs
    ensures Entries(lhs) == MatAdd(old(Entries(lhs)), MaterialStiffness(b, c, w, s, m), m, m)
  {
    AddToMatrix(lhs, MaterialStiffness(b, c, w, s, m), m);
  }

  /** K y == B^T (w C (B y)). */
  lemma {:induction false} MaterialStiffnessApply(b: Mat, c: Mat, w: real, s: nat, m: nat, y: seq<real>)
    requires IsMatrix(b, s, m) && IsMatrix(c, s, s) && |y| == m
    ensures MatVec(MaterialStiffness(b, c, w, s, m), y, m, m)
         == MatVec(Transpose(b, s, m), VecScale(w, MatVec(c, MatVec(b, y, s, m), s, s)), m, s)
  {
    var cb := MatMul(c, b, s, s, m);
    MatVecOfProduct(Transpose(b, s, m), MatScale(w, cb, s, m), y, m, s, m);
    MatVecScale(w, cb, y, s, m);
    MatVecOfProduct(c, b, y, s, s, m);
  }

  /** x . (B^T v) == (B x) . v */
  lemma {:induction false} TransposedWork(b: Mat, s: nat, m: nat, x: seq<real>, v: seq<real>)
    requires IsMatrix(b, s, m) && |x| == m && |v| == s
    ensures Dot(x, MatVec(Transpose(b, s, m), v, m, s)) == Dot(MatVec(b, x, s, m), v)
  {
    TransposeDot(Transpose(b, s, m), v, x, m, s);
    TransposeTwice(b, s, m);
  }

  /** The stiffness form: x . (K y) == (B x) . (w C (B y)), the virtual
      work of the stress increment w C B y on the strain B x. */
  lemma {:induction false} MaterialStiffnessForm(b: Mat, c: Mat, w: real, s: nat, m: nat, x: seq<real>, y: seq<real>)
    requires IsMatrix(b, s, m) && IsMatrix(c, s, s) && |x| == m && |y| == m
    ensures Dot(x, MatVec(MaterialStiffness(b, c, w, s, m), y, m, m))
         == Dot(MatVec(b, x, s, m), VecScale(w, MatVec(c, MatVec(b, y, s, m), s, s)))
  {
    MaterialStiffnessApply(b, c, w, s, m, y);
    TransposedWork(b, s, m, x, VecScale(w, MatVec(c, MatVec(b, y, s, m), s, s)));
  }

  /** u . (w C v) == v . (w C u) for a symmetric C. */
  lemma {:induction false} ScaledSymmetricForm(c: Mat, w: real, s: nat, u: seq<real>, v: seq<real>)
    requires IsMatrix(c, s, s) && Symmetric(c, s) && |u| == s && |v| == s
    ensures Dot(u, VecScale(w, MatVec(c, v, s, s))) == Dot(v, VecScale(w, MatVec(c, u, s, s)))
  {
    var wc := MatScale(w, c, s, s);
    MatVecScale(w, c, v, s, s);
    MatVecScale(w, c, u, s, s);
    assert Symmetric(wc, s);
    SymmetricForm(wc, s, u, v);
  }

  lemma {:induction false} MaterialStiffnessEntrySymmetric(b: Mat, c: Mat, w: real, s: nat, m: nat, i: nat, j: nat)
    requires IsMatrix(b, s, m) && IsMatrix(c, s, s) && Symmetric(c, s) && i < m && j < m
    ensures MaterialStiffness(b, c, w, s, m)[i][j] == MaterialStiffness(b, c, w, s, m)[j][i]
  {
    var k := MaterialStiffness(b, c, w, s, m);
    var ei, ej := UnitVector(m, i), UnitVector(m, j);
    EntryAsForm(k, m, i, j);
    EntryAsForm(k, m, j, i);
    MaterialStiffnessForm(b, c, w, s, m, ei, ej);
    MaterialStiffnessForm(b, c, w, s, m, ej, ei);
    ScaledSymmetricForm(c, w, s, MatVec(b, ei, s, m), MatVec(b, ej, s, m));
  }

  /** A symmetric constitutive matrix gives a symmetric material stiffness. */
  lemma {:induction false} MaterialStiffnessSymmetric(b: Mat, c: Mat, w: real, s: nat, m: nat)
    requires IsMatrix(b, s, m) && IsMatrix(c, s, s) && Symmetric(c, s)
    ensures Symmetric(MaterialStiffness(b, c, w, s, m), m)
  {
    forall i, j | 0 <= i < m && 0 <= j < m
      ensures MaterialStiffness(b, c, w, s, m)[i][j] == MaterialStiffness(b, c, w, s, m)[j][i]
    {
      MaterialStiffnessEntrySymmetric(b, c, w, s, m, i, j);
    }
  }

  /** A rigid translation of the nodes produces no elastic force: it lies
      in the kernel of the material stiffness. */
  lemma {:induction false} MaterialStiffnessRigidTranslation(dim: nat, dnDx: Mat, c: Mat, w: real, n: nat, t: seq<real>)
    requires (dim == 2 || dim == 3) && IsMatrix(dnDx, n, dim) && IsMatrix(c, VoigtSize(dim), VoigtSize(dim))
    requires forall col :: 0 <= col < dim ==> Sum(Column(dnDx, col)) == 0.0
    requires |t| == dim
    ensures MatVec(MaterialStiffness(DeformationMatrix(dim, dnDx, n), c, w, VoigtSize(dim), dim * n),
                   Flatten(dim, Uniform(t, n), n), dim * n, dim * n) == Zeros(dim * n)
  {
    var s, m := VoigtSize(dim), dim * n;
    var b := DeformationMatrix(dim, dnDx, n);
    var x := Flatten(dim, Uniform(t, n), n);
    var cb := MatMul(c, b, s, s, m);
    TranslationIsStrainFree(dim, dnDx, n, t);
    MatVecOfProduct(Transpose(b, s, m), MatScale(w, cb, s, m), x, m, s, m);
    MatVecScale(w, cb, x, s, m);
    MatVecOfProduct(c, b, x, s, s, m);
    MatVecZero(c, s, s);
    assert VecScale(w, Zeros(s)) == Zeros(s);
    MatVecZero(Transpose(b, s, m), m, s);
  }

  // ---------------------------------------------------------------------------
  // Right-hand side: the two force vectors, whole or by named component

  /** The variables a caller may ask for as right-hand-side components. */
  datatype RhsVariable = ExternalForcesVector | InternalForcesVector | OtherRhsVariable(name: string)

  /** What the right-hand side is built from at the material point: shape
      function values, body force, B, the stress and the integration weight. */
  datatype ForceInputs = ForceInputs(dim: nat, n: seq<real>, volumeForce: seq<real>, b: Mat, stress: seq<real>, w: real)

  predicate ValidForceInputs(f: ForceInputs) {
    && (f.dim == 2 || f.dim == 3)
    && |f.volumeForce| >= f.dim
    && IsMatrix(f.b, VoigtSize(f.dim), f.dim * |f.n|)
    && |f.stress| == VoigtSize(f.dim)
  }

  function SystemSize(f: ForceInputs): nat {
    f.dim * |f.n|
  }

  /** The index of the first variable the element cannot supply, or the
      number of variables when it supplies them all. */
  function FirstUnsuppliedRhs(vars: seq<RhsVariable>): (k: nat)
    ensures k <= |vars|
    ensures forall i :: 0 <= i < k ==> !vars[i].OtherRhsVariable?
    ensures k < |vars| ==> vars[k].OtherRhsVariable?
  {
    if |vars| == 0 || vars[0].OtherRhsVariable? then 0 else 1 + FirstUnsuppliedRhs(vars[1..])
  }

  /** What one requested variable adds to its vector. */
  function RhsContribution(v: RhsVariable, rhs: seq<real>, f: ForceInputs): (r: seq<real>)
    requires ValidForceInputs(f) && |rhs| == SystemSize(f)
  {
    match v
    case ExternalForcesVector => VecAdd(rhs, ExternalForce(f.dim, f.n, f.volumeForce))
    case InternalForcesVector => VecSub(rhs, InternalForce(f.b, f.stress, f.w, VoigtSize(f.dim), SystemSize(f)))
    case OtherRhsVariable(_) => rhs
  }

  /** CalculateAndAddRHS with components: each requested vector gains its
      force; the first variable the element cannot supply stops the
      computation with an error, leaving that vector and the later ones
      untouched. */
  method CalculateAndAddRhsComponents(vectors: seq<array<real>>, vars: seq<RhsVariable>, f: ForceInputs)
    returns (r: Outcome<ElementError>)
    requires ValidForceInputs(f) && |vectors| == |vars|
    requires forall i :: 0 <= i < |vectors| ==> vectors[i].Length == SystemSize(f)
    requires forall i, j :: 0 <= i < j < |vectors| ==> vectors[i] != vectors[j]
    modifies set i | 0 <= i < |vectors| :: vectors[i]
    ensures r.Pass? <==> FirstUnsuppliedRhs(vars) == |vars|
    ensures r.Fail? ==> r.error == UnexpectedRhsComponent
    ensures forall i :: 0 <= i < |vectors| ==>
      vectors[i][..] == if i < FirstUnsuppliedRhs(vars) then RhsContribution(vars[i], old(vectors[i][..]), f)
                        else old(vectors[i][..])
  {
    var i := 0;
    while i < |vars|
      invariant 0 <= i <= FirstUnsuppliedRhs(vars)
      invariant forall q :: 0 <= q < i ==> vectors[q][..] == RhsContribution(vars[q], old(vectors[q][..]), f)
      invariant forall q :: i <= q < |vectors| ==> vectors[q][..] == old(vectors[q][..])
    {
      if vars[i].ExternalForcesVector? {
        CalculateAndAddExternalForces(vectors[i], f.dim, f.n, f.volumeForce);
      } else if vars[i].InternalForcesVector? {
        CalculateAndAddInternalForces(vectors[i], f.b, f.stress, f.w, VoigtSize(f.dim), SystemSize(f));
      } else {
        return Fail(UnexpectedRhsComponent);
      }
      i := i + 1;
    }
    r := Pass;
  }

  /** CalculateAndAddRHS on the whole vector: external forces, then the
      internal forces, which an explicit analysis takes from the explicit
      stress update instead (given here as its contribution). */
  method CalculateAndAddRhs(rhs: array<real>, f: ForceInputs, isExplicit: bool, explicitInternalForce: seq<real>)
    requires ValidForceInputs(f) && rhs.Length == SystemSize(f) && |explicitInternalForce| == SystemSize(f)
    modifies rhs
    ensures isExplicit ==>
      rhs[..] == VecAdd(RhsContribution(ExternalForcesVector, old(rhs[..]), f), explicitInternalForce)
    ensures !isExplicit ==>
      rhs[..] == RhsContribution(InternalForcesVector, RhsContribution(ExternalForcesVector, old(rhs[..]), f), f)
  {
    CalculateAndAddExternalForces(rhs, f.dim, f.n, f.volumeForce);
    if isExplicit {
      forall k | 0 <= k < rhs.Length {
        rhs[k] := rhs[k] + explicitInternalForce[k];
      }
    } else {
      CalculateAndAddInternalForces(rhs, f.b, f.stress, f.w, VoigtSize(f.dim), SystemSize(f));
    }
  }

  /** The two components, each computed into a zeroed vector, add up to
      the whole right-hand side of an implicit step. */
  lemma {:induction false} RhsComponentsAddUp(f: ForceInputs)
    requires ValidForceInputs(f)
    ensures VecAdd(RhsContribution(ExternalForcesVector, Zeros(SystemSize(f)), f),
                   RhsContribution(InternalForcesVector, Zeros(SystemSize(f)), f))
         == RhsContribution(InternalForcesVector, RhsContribution(ExternalForcesVector, Zeros(SystemSize(f)), f), f)
  {
  }

  // ---------------------------------------------------------------------------
  // Left-hand side: material and geometric stiffness, whole or by component

  /** The variables a caller may ask for as left-hand-side components. */
  datatype LhsVariable = MaterialStiffnessMatrix | GeometricStiffnessMatrix | OtherLhsVariable(name: string)

  /** The material stiffness is built from B, the constitutive matrix C and
      the integration weight; the geometric stiffness kg is given. */
  datatype StiffnessInputs = StiffnessInputs(b: Mat, c: Mat, w: real, s: nat, m: nat, kg: Mat)

  predicate ValidStiffnessInputs(k: StiffnessInputs) {
    IsMatrix(k.b, k.s, k.m) && IsMatrix(k.c, k.s, k.s) && IsMatrix(k.kg, k.m, k.m)
  }

  /** A geometric stiffness request is served only while the process does
      not carry IGNORE_GEOMETRIC_STIFFNESS. */
  predicate LhsSupplied(v: LhsVariable, ignoreGeometric: bool) {
    v.MaterialStiffnessMatrix? || (v.GeometricStiffnessMatrix? && !ignoreGeometric)
  }

  function FirstUnsuppliedLhs(vars: seq<LhsVariable>, ignoreGeometric: bool): (k: nat)
    ensures k <= |vars|
    ensures forall i :: 0 <= i < k ==> LhsSupplied(vars[i], ignoreGeometric)
    ensures k < |vars| ==> !LhsSupplied(vars[k], ignoreGeometric)
  {
    if |vars| == 0 || !LhsSupplied(vars[0], ignoreGeometric) then 0
    else 1 + FirstUnsuppliedLhs(vars[1..], ignoreGeometric)
  }

  function LhsContribution(v: LhsVariable, lhs: Mat, k: StiffnessInputs): (r: Mat)
    requires ValidStiffnessInputs(k) && IsMatrix(lhs, k.m, k.m)
    ensures IsMatrix(r, k.m, k.m)
  {
    match v
    case MaterialStiffnessMatrix => MatAdd(lhs, MaterialStiffness(k.b, k.c, k.w, k.s, k.m), k.m, k.m)
    case GeometricStiffnessMatrix => MatAdd(lhs, k.kg, k.m, k.m)
    case OtherLhsVariable(_) => lhs
  }

  /** CalculateAndAddLHS with components, stopping with an error at the
      first matrix the element cannot supply. */
  method CalculateAndAddLhsComponents(matrices: seq<array2<real>>, vars: seq<LhsVariable>, k: StiffnessInputs,
                                      ignoreGeometric: bool)
    returns (r: Outcome<ElementError>)
    requires ValidStiffnessInputs(k) && |matrices| == |vars|
    requires forall i :: 0 <= i < |matrices| ==> matrices[i].Length0 == k.m && matrices[i].Length1 == k.m
    requires forall i, j :: 0 <= i < j < |matrices| ==> matrices[i] != matrices[j]
    modifies set i | 0 <= i < |matrices| :: matrices[i]
    ensures r.Pass? <==> FirstUnsuppliedLhs(vars, ignoreGeometric) == |vars|
    ensures r.Fail? ==> r.error == UnexpectedLhsComponent
    ensures forall i :: 0 <= i < |matrices| ==>
      Entries(matrices[i]) == if i < FirstUnsuppliedLhs(vars, ignoreGeometric)
                              then LhsContribution(vars[i], old(Entries(matrices[i])), k)
                              else old(Entries(matrices[i]))
  {
    ghost var first := FirstUnsuppliedLhs(vars, ignoreGeometric);
    var i := 0;
    while i < |vars|
      invariant 0 <= i <= first
      invariant forall q :: 0 <= q < i ==> Entries(matrices[q]) == LhsContribution(vars[q], old(Entries(matrices[q])), k)
      invariant forall q :: i <= q < |matrices| ==> Entries(matrices[q]) == old(Entries(matrices[q]))
    {
      label step:
      var supplied := AddLhsComponent(matrices[i], vars[i], k, ignoreGeometric);
      assert forall q :: 0 <= q < |matrices| && q != i ==>
        Entries(matrices[q]) == old@step(Entries(matrices[q]));
      if !supplied {
        return Fail(UnexpectedLhsComponent);
      }
      assert i < first;
      i := i + 1;
    }
    r := Pass;
  }

  /** One step of CalculateAndAddLhsComponents: adds the requested matrix
      when the element supplies it and reports whether it did. */
  method AddLhsComponent(m: array2<real>, v: LhsVariable, k: StiffnessInputs, ignoreGeometric: bool)
    returns (supplied: bool)
    requires ValidStiffnessInputs(k) && m.Length0 == k.m && m.Length1 == k.m
    modifies m
    ensures supplied == LhsSupplied(v, ignoreGeometric)
    ensures Entries(m) == if supplied then LhsContribution(v, old(Entries(m)), k) else old(Entries(m))
  {
    supplied := true;
    if v.MaterialStiffnessMatrix? {
      CalculateAndAddKuum(m, k.b, k.c, k.w, k.s, k.m);
    } else if v.GeometricStiffnessMatrix? && !ignoreGeometric {
      AddToMatrix(m, k.kg, k.m);
    } else {
      supplied := false;
    }
  }

  /** CalculateAndAddLHS on the whole matrix: the material stiffness, then
      the geometric stiffness unless the process ignores it. */
  method CalculateAndAddLhs(lhs: array2<real>, k: StiffnessInputs, ignoreGeometric: bool)
    requires ValidStiffnessInputs(k) && lhs.Length0 == k.m && lhs.Length1 == k.m
    modifies lhs
    ensures ignoreGeometric ==> Entries(lhs) == LhsContribution(MaterialStiffnessMatrix, old(Entries(lhs)), k)
    ensures !ignoreGeometric ==>
      Entries(lhs) == LhsContribution(GeometricStiffnessMatrix, LhsContribution(MaterialStiffnessMatrix, old(Entries(lhs)), k), k)
  {
    CalculateAndAddKuum(lhs, k.b, k.c, k.w, k.s, k.m);
    if !ignoreGeometric {
      AddToMatrix(lhs, k.kg, k.m);
    }
  }

  /** The material and geometric components, each computed into a zeroed
      matrix, add up to the whole left-hand side. */
  lemma {:induction false} LhsComponentsAddUp(k: StiffnessInputs)
    requires ValidStiffnessInputs(k)
    ensures MatAdd(LhsContribution(MaterialStiffnessMatrix, ZeroMatrix(k.m, k.m), k),
                   LhsContribution(GeometricStiffnessMatrix, ZeroMatrix(k.m, k.m), k), k.m, k.m)
         == LhsContribution(GeometricStiffnessMatrix, LhsContribution(MaterialStiffnessMatrix, ZeroMatrix(k.m, k.m), k), k)
  {
    var z := ZeroMatrix(k.m, k.m);
    MatrixEquality(MatAdd(LhsContribution(MaterialStiffnessMatrix, z, k), LhsContribution(GeometricStiffnessMatrix, z, k), k.m, k.m),
                   LhsContribution(GeometricStiffnessMatrix, LhsContribution(MaterialStiffnessMatrix, z, k), k), k.m, k.m);
  }

  /** The left-hand side an element system builds into a zeroed matrix:
      nothing in an explicit analysis, which clears the left-hand side
      request, and otherwise the material stiffness plus, unless ignored,
      the geometric one. */
  function BuiltStiffness(k: StiffnessInputs, isExplicit: bool, ignoreGeometric: bool): (lhs: Mat)
    requires ValidStiffnessInputs(k)
    ensures IsMatrix(lhs, k.m, k.m)
    ensures isExplicit ==> lhs == ZeroMatrix(k.m, k.m)
    ensures !isExplicit && ignoreGeometric ==> lhs == MaterialStiffness(k.b, k.c, k.w, k.s, k.m)
    ensures !isExplicit && !ignoreGeometric ==> lhs == MatAdd(MaterialStiffness(k.b, k.c, k.w, k.s, k.m), k.kg, k.m, k.m)
  {
    if isExplicit then ZeroMatrix(k.m, k.m)
    else
      var material := LhsContribution(MaterialStiffnessMatrix, ZeroMatrix(k.m, k.m), k);
      MatAddZeroLeft(MaterialStiffness(k.b, k.c, k.w, k.s, k.m), k.m, k.m);
      if ignoreGeometric then material else LhsContribution(GeometricStiffnessMatrix, material, k)
  }

  // ---------------------------------------------------------------------------
  // Lumped mass and Rayleigh damping

  /** The mass each degree of freedom receives: N[i] * mass for every
      direction of node i. */
  function NodalMasses(dim: nat, n: seq<real>, mass: real): (d: seq<real>)
    requires dim == 2 || dim == 3
    ensures |d| == dim * |n|
  {
    seq(dim * |n|, k requires 0 <= k < dim * |n| =>
      SlotOfIndex(dim, k);
      BlockIndexBound(dim, k / dim, k % dim, |n|);
      n[k / dim] * mass)
  }

  lemma {:induction false} NodalMassEntry(dim: nat, n: seq<real>, mass: real, i: nat, j: nat)
    requires (dim == 2 || dim == 3) && i < |n| && j < dim
    ensures Slot(dim, i, j) < dim * |n|
    ensures NodalMasses(dim, n, mass)[Slot(dim, i, j)] == n[i] * mass
  {
    SlotInRange(dim, i, j, |n|);
    DivModOfBlock(dim, i, j);
  }

  /** The lumped mass matrix: the nodal masses on the diagonal. */
  function LumpedMass(dim: nat, n: seq<real>, mass: real): (mm: Mat)
    requires dim == 2 || dim == 3
    ensures IsMatrix(mm, dim * |n|, dim * |n|)
  {
    DiagonalMatrix(NodalMasses(dim, n, mass))
  }

  /** CalculateMassMatrix: a zero matrix whose diagonal is filled node by
      node. */
  method CalculateMassMatrix(dim: nat, n: seq<real>, mass: real) returns (mm: array2<real>)
    requires dim == 2 || dim == 3
    ensures fresh(mm) && mm.Length0 == dim * |n| && mm.Length1 == dim * |n|
    ensures Entries(mm) == LumpedMass(dim, n, mass)
  {
    ghost var d := NodalMasses(dim, n, mass);
    var size := dim * |n|;
    mm := new real[size, size]((r, c) => 0.0);
    var i := 0;
    while i < |n|
      invariant 0 <= i <= |n| && dim * i <= size
      invariant forall r, c :: 0 <= r < size && 0 <= c < size && r != c ==> mm[r, c] == 0.0
      invariant forall r :: 0 <= r < dim * i ==> mm[r, r] == d[r]
      invariant forall r :: dim * i <= r < size ==> mm[r, r] == 0.0
    {
      var temp := n[i] * mass;
      var j := 0;
      while j < dim
        invariant 0 <= j <= dim
        invariant forall r, c :: 0 <= r < size && 0 <= c < size && r != c ==> mm[r, c] == 0.0
        invariant forall r :: 0 <= r < dim * i + j ==> mm[r, r] == d[r]
        invariant forall r :: dim * i + j <= r < size ==> mm[r, r] == 0.0
      {
        NodalMassEntry(dim, n, mass, i, j);
        var index := i * dim + j;
        mm[index, index] := temp;
        j := j + 1;
      }
      assert dim * i + dim == dim * (i + 1);
      MulMonotone(dim, i + 1, |n|);
      i := i + 1;
    }
    MatrixEquality(Entries(mm), DiagonalMatrix(d), size, size);
  }

  /** The lumped mass is diagonal and, with a partition of unity, its
      entries in each direction add up to the particle mass. */
  lemma {:induction false} LumpedMassConservesMass(dim: nat, n: seq<real>, mass: real, j: nat)
    requires (dim == 2 || dim == 3) && j < dim && Sum(n) == 1.0
    ensures forall r, c :: 0 <= r < dim * |n| && 0 <= c < dim * |n| && r != c ==> LumpedMass(dim, n, mass)[r][c] == 0.0
    ensures ComponentSum(dim, Diagonal(LumpedMass(dim, n, mass), dim * |n|), j, |n|) == mass
  {
    var d := NodalMasses(dim, n, mass);
    assert Diagonal(LumpedMass(dim, n, mass), dim * |n|) == d;
    forall i | 0 <= i < |n|
      ensures Slot(dim, i, j) < |d| && d[Slot(dim, i, j)] == n[i] * mass
    {
      NodalMassEntry(dim, n, mass, i, j);
    }
    assert Shares(dim, d, n, mass, j);
    SharesOfUnity(dim, d, n, mass, j);
  }

  /** A Rayleigh coefficient is read from the properties, else from the
      process information, else it is zero. */
  function RayleighCoefficient(fromProperties: Option<real>, fromProcess: Option<real>): (r: real)
    ensures fromProperties.Some? ==> r == fromProperties.value
    ensures fromProperties.None? && fromProcess.Some? ==> r == fromProcess.value
    ensures fromProperties.None? && fromProcess.None? ==> r == 0.0
  {
    match (fromProperties, fromProcess)
    case (Some(a), _) => a
    case (None, Some(a)) => a
    case (None, None) => 0.0
  }

  /** CalculateDampingMatrix: alpha M + beta K, with M the lumped mass and
      K the element's left-hand side. */
  function DampingMatrix(alpha: real, beta: real, mm: Mat, k: Mat, m: nat): (d: Mat)
    requires IsMatrix(mm, m, m) && IsMatrix(k, m, m)
    ensures IsMatrix(d, m, m)
  {
    MatAdd(MatScale(alpha, mm, m, m), MatScale(beta, k, m, m), m, m)
  }

  /** Rayleigh damping of a symmetric mass and a symmetric stiffness is
      symmetric. */
  lemma {:induction false} DampingMatrixSymmetric(alpha: real, beta: real, mm: Mat, k: Mat, m: nat)
    requires IsMatrix(mm, m, m) && IsMatrix(k, m, m) && Symmetric(mm, m) && Symmetric(k, m)
    ensures Symmetric(DampingMatrix(alpha, beta, mm, k, m), m)
  {
  }

  /** With no Rayleigh coefficient in the properties or the process
      information, there is no damping. */
  lemma {:induction false} NoDampingWithoutCoefficients(mm: Mat, k: Mat, m: nat)
    requires IsMatrix(mm, m, m) && IsMatrix(k, m, m)
    ensures DampingMatrix(RayleighCoefficient(None, None), RayleighCoefficient(None, None), mm, k, m) == ZeroMatrix(m, m)
  {
    MatrixEquality(DampingMatrix(0.0, 0.0, mm, k, m), ZeroMatrix(m, m), m, m);
  }

  /** Without a stiffness, as in an explicit analysis, the damping is
      proportional to the mass alone. */
  lemma {:induction false} ExplicitDampingIsMassProportional(alpha: real, beta: real, mm: Mat, m: nat)
    requires IsMatrix(mm, m, m)
    ensures DampingMatrix(alpha, beta, mm, ZeroMatrix(m, m), m) == MatScale(alpha, mm, m, m)
  {
    var d := DampingMatrix(alpha, beta, mm, ZeroMatrix(m, m), m);
    forall r, c | 0 <= r < m && 0 <= c < m
      ensures d[r][c] == MatScale(alpha, mm, m, m)[r][c]
    {
      assert d[r][c] == alpha * mm[r][c] + beta * 0.0;
    }
    MatrixEquality(d, MatScale(alpha, mm, m, m), m, m);
  }

  /** The damping force on a velocity v is alpha M v + beta K v. */
  lemma {:induction false} DampingForce(alpha: real, beta: real, mm: Mat, k: Mat, m: nat, v: seq<real>)
    requires IsMatrix(mm, m, m) && IsMatrix(k, m, m) && |v| == m
    ensures MatVec(DampingMatrix(alpha, beta, mm, k, m), v, m, m)
         == VecAdd(VecScale(alpha, MatVec(mm, v, m, m)), VecScale(beta, MatVec(k, v, m, m)))
  {
    var d := DampingMatrix(alpha, beta, mm, k, m);
    forall r | 0 <= r < m
      ensures MatVec(d, v, m, m)[r] == VecAdd(VecScale(alpha, MatVec(mm, v, m, m)), VecScale(beta, MatVec(k, v, m, m)))[r]
    {
      assert d[r] == VecAdd(VecScale(alpha, mm[r]), VecScale(beta, k[r]));
      DotSum(VecScale(alpha, mm[r]), VecScale(beta, k[r]), v);
      DotScaleLeft(alpha, mm[r], v);
      DotScaleLeft(beta, k[r], v);
    }
  }

  /** The lumped mass is symmetric, so the damping matrix is symmetric
      whenever the stiffness is. */
  lemma {:induction false} LumpedMassSymmetric(dim: nat, n: seq<real>, mass: real)
    requires dim == 2 || dim == 3
    ensures Symmetric(LumpedMass(dim, n, mass), dim * |n|)
  {
  }

  // ---------------------------------------------------------------------------
  // Integration weight and decimal correction

  /** CalculateIntegrationWeight: a plane element carries its thickness. */
  function IntegrationWeight(dim: nat, weight: real, thickness: real): (w: real)
    ensures dim == 2 ==> w == weight * thickness
    ensures dim != 2 ==> w == weight
  {
    if dim == 2 then weight * thickness else weight
  }

  /** A plane element's internal force is its per-unit-thickness internal
      force times the thickness; a solid one is unaffected. */
  lemma {:induction false} ThicknessScalesInternalForce(b: Mat, stress: seq<real>, w: real, t: real, s: nat, m: nat)
    requires IsMatrix(b, s, m) && |stress| == s
    ensures InternalForce(b, stress, IntegrationWeight(2, w, t), s, m) == VecScale(t, InternalForce(b, stress, w, s, m))
    ensures InternalForce(b, stress, IntegrationWeight(3, w, t), s, m) == InternalForce(b, stress, w, s, m)
  {
    var v := MatVec(Transpose(b, s, m), stress, m, s);
    forall i | 0 <= i < m
      ensures VecScale(w * t, v)[i] == VecScale(t, VecScale(w, v))[i]
    {
      assert (w * t) * v[i] == t * (w * v[i]);
    }
  }

  /** A plane element's material stiffness is its per-unit-thickness
      stiffness times the thickness; a solid one is unaffected. */
  lemma {:induction false} ThicknessScalesStiffness(b: Mat, c: Mat, w: real, t: real, s: nat, m: nat)
    requires IsMatrix(b, s, m) && IsMatrix(c, s, s)
    ensures MaterialStiffness(b, c, IntegrationWeight(2, w, t), s, m) == MatScale(t, MaterialStiffness(b, c, w, s, m), m, m)
    ensures MaterialStiffness(b, c, IntegrationWeight(3, w, t), s, m) == MaterialStiffness(b, c, w, s, m)
  {
    var bt, cb := Transpose(b, s, m), MatMul(c, b, s, s, m);
    var thick, thin := MaterialStiffness(b, c, w * t, s, m), MaterialStiffness(b, c, w, s, m);
    forall i, j | 0 <= i < m && 0 <= j < m
      ensures thick[i][j] == MatScale(t, thin, m, m)[i][j]
    {
      ScaledProductEntry(bt, cb, w, t, s, m, i, j);
    }
    MatrixEquality(thick, MatScale(t, thin, m, m), m, m);
  }

  lemma {:induction false} ScaledProductEntry(bt: Mat, cb: Mat, w: real, t: real, s: nat, m: nat, i: nat, j: nat)
    requires IsMatrix(bt, m, s) && IsMatrix(cb, s, m) && i < m && j < m
    ensures MatMul(bt, MatScale(w * t, cb, s, m), m, s, m)[i][j] == t * MatMul(bt, MatScale(w, cb, s, m), m, s, m)[i][j]
  {
    ColumnOfScaled(w * t, cb, s, m, j);
    ColumnOfScaled(w, cb, s, m, j);
    DotOfDoubleScale(bt[i], Column(cb, j), w, t);
  }

  lemma {:induction false} DotOfDoubleScale(a: seq<real>, x: seq<real>, w: real, t: real)
    requires |a| == |x|
    ensures Dot(a, VecScale(w * t, x)) == t * Dot(a, VecScale(w, x))
  {
    assert VecScale(w * t, x) == VecScale(t, VecScale(w, x)) by {
      forall r | 0 <= r < |x|
        ensures VecScale(w * t, x)[r] == VecScale(t, VecScale(w, x))[r]
      {
        assert (w * t) * x[r] == t * (w * x[r]);
      }
    }
    DotSymmetric(a, VecScale(t, VecScale(w, x)));
    DotScaleLeft(t, VecScale(w, x), a);
    DotSymmetric(VecScale(w, x), a);
  }

  lemma {:induction false} ColumnOfScaled(k: real, a: Mat, rows: nat, cols: nat, j: nat)
    requires IsMatrix(a, rows, cols) && j < cols
    ensures Column(MatScale(k, a, rows, cols), j) == VecScale(k, Column(a, j))
  {
    var lhs, rhs := Column(MatScale(k, a, rows, cols), j), VecScale(k, Column(a, j));
    assert forall r | 0 <= r < rows :: lhs[r] == rhs[r];
  }

  /** Components whose square is below this are rounding noise. */
  const DecimalTolerance: real := 0.000000000000000000000001

  function Corrected(x: real): real {
    if x * x < DecimalTolerance then 0.0 else x
  }

  function DecimalCorrected(v: seq<real>): (r: seq<real>)
    ensures |r| == |v|
  {
    seq(|v|, i requires 0 <= i < |v| => Corrected(v[i]))
  }

  /** DecimalCorrection: components of negligible size are set to zero. */
  method DecimalCorrection(v: array<real>)
    modifies v
    ensures v[..] == DecimalCorrected(old(v[..]))
  {
    for i := 0 to v.Length
      invariant forall k :: 0 <= k < i ==> v[k] == Corrected(old(v[k]))
      invariant forall k :: i <= k < v.Length ==> v[k] == old(v[k])
    {
      if v[i] * v[i] < DecimalTolerance {
        v[i] := 0.0;
      }
    }
  }

  /** The correction keeps every component that is not negligible, zeroes
      the others, and correcting twice changes nothing more. */
  lemma {:induction false} DecimalCorrectionProperties(v: seq<real>)
    ensures forall i :: 0 <= i < |v| ==>
      DecimalCorrected(v)[i] == (if v[i] * v[i] < DecimalTolerance then 0.0 else v[i])
    ensures DecimalCorrected(DecimalCorrected(v)) == DecimalCorrected(v)
  {
  }

  // ---------------------------------------------------------------------------
  // Degrees of freedom and equation ids

  datatype DisplacementComponent = DisplacementX | DisplacementY | DisplacementZ

  function ComponentOf(j: nat): DisplacementComponent {
    if j == 0 then DisplacementX else if j == 1 then DisplacementY else DisplacementZ
  }

  /** A displacement degree of freedom of one of the element's nodes. */
  datatype Dof = Dof(node: nat, component: DisplacementComponent)

  /** X and Y for every node, Z as well in three dimensions. */
  function DofsPerNode(dim: nat): nat {
    if dim == 3 then 3 else 2
  }

  function NodeDofs(i: nat, dim: nat): (ds: seq<Dof>)
    ensures |ds| == DofsPerNode(dim)
  {
    [Dof(i, DisplacementX), Dof(i, DisplacementY)] + (if dim == 3 then [Dof(i, DisplacementZ)] else [])
  }

  /** The elemental degrees of freedom, node by node. */
  function DofList(dim: nat, n: nat): (ds: seq<Dof>)
    ensures |ds| == DofsPerNode(dim) * n
  {
    if n == 0 then [] else DofList(dim, n - 1) + NodeDofs(n - 1, dim)
  }

  /** GetDofList: pushes the degrees of freedom of each node in turn. */
  method GetDofList(dim: nat, n: nat) returns (dofs: seq<Dof>)
    ensures dofs == DofList(dim, n)
  {
    dofs := [];
    for i := 0 to n
      invariant dofs == DofList(dim, i)
    {
      dofs := dofs + [Dof(i, DisplacementX)];
      dofs := dofs + [Dof(i, DisplacementY)];
      if dim == 3 {
        dofs := dofs + [Dof(i, DisplacementZ)];
      }
    }
  }

  /** Degree of freedom j of node i sits at the node-block slot. */
  lemma {:induction false} DofListEntry(dim: nat, n: nat, i: nat, j: nat)
    requires i < n && j < DofsPerNode(dim)
    ensures DofsPerNode(dim) * i + j < |DofList(dim, n)|
    ensures DofList(dim, n)[DofsPerNode(dim) * i + j] == Dof(i, ComponentOf(j))
  {
    var p := DofsPerNode(dim);
    MulMonotone(p, i + 1, n);
    if i < n - 1 {
      DofListEntry(dim, n - 1, i, j);
      MulMonotone(p, i + 1, n - 1);
    } else {
      assert p * i == |DofList(dim, n - 1)|;
    }
  }

  /** Every displacement degree of freedom of every node appears in the
      list, and no two positions hold the same one. */
  lemma {:induction false} DofListCompleteAndDistinct(dim: nat, n: nat)
    ensures forall i, j :: 0 <= i < n && 0 <= j < DofsPerNode(dim) ==> Dof(i, ComponentOf(j)) in DofList(dim, n)
    ensures forall k1, k2 :: 0 <= k1 < k2 < |DofList(dim, n)| ==> DofList(dim, n)[k1] != DofList(dim, n)[k2]
  {
    var p := DofsPerNode(dim);
    var ds := DofList(dim, n);
    forall i, j | 0 <= i < n && 0 <= j < p
      ensures Dof(i, ComponentOf(j)) in ds
    {
      DofListEntry(dim, n, i, j);
    }
    forall k1, k2 | 0 <= k1 < k2 < |ds|
      ensures ds[k1] != ds[k2]
    {
      DivModBlock(p, k1);
      DivModBlock(p, k2);
      BlockIndexBound(p, k1 / p, k1 % p, n);
      BlockIndexBound(p, k2 / p, k2 % p, n);
      DofListEntry(dim, n, k1 / p, k1 % p);
      DofListEntry(dim, n, k2 / p, k2 % p);
    }
  }

  /** The equation ids the nodes assign to their displacement dofs. */
  datatype NodeEquationIds = NodeEquationIds(x: nat, y: nat, z: nat)

  function EquationIdOf(nodes: seq<NodeEquationIds>, d: Dof): nat
    requires d.node < |nodes|
  {
    match d.component
    case DisplacementX => nodes[d.node].x
    case DisplacementY => nodes[d.node].y
    case DisplacementZ => nodes[d.node].z
  }

  /** EquationIdVector: the equation id of each elemental degree of
      freedom, in the order of the dof list. */
  method EquationIdVector(dim: nat, nodes: seq<NodeEquationIds>) returns (ids: array<nat>)
    requires dim == 2 || dim == 3
    ensures fresh(ids) && ids.Length == |DofList(dim, |nodes|)|
    ensures forall k :: 0 <= k < ids.Length ==>
      DofList(dim, |nodes|)[k].node < |nodes| && ids[k] == EquationIdOf(nodes, DofList(dim, |nodes|)[k])
  {
    var n := |nodes|;
    ghost var ds := DofList(dim, n);
    ids := new nat[dim * n];
    for i := 0 to n
      invariant forall k :: 0 <= k < dim * i ==> k < ids.Length && ds[k].node < n && ids[k] == EquationIdOf(nodes, ds[k])
    {
      var index := i * dim;
      DofListEntry(dim, n, i, 0);
      DofListEntry(dim, n, i, 1);
      ids[index] := nodes[i].x;
      ids[index + 1] := nodes[i].y;
      if dim == 3 {
        DofListEntry(dim, n, i, 2);
        ids[index + 2] := nodes[i].z;
      }
      forall k | dim * i <= k < dim * (i + 1)
        ensures k < ids.Length && ds[k].node < n && ids[k] == EquationIdOf(nodes, ds[k])
      {
        assert k == dim * i + (k - dim * i);
      }
    }
  }
}
