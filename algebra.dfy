/** Exact linear algebra over the reals: the vectors and dense matrices the
    element, the condition and the schemes fill, and the few identities
    (determinant of a product, transpose of a product) the model relies on.
    Matrices are sequences of rows. */
module Algebra {

  /** A fixed three-component vector, as `array_1d<double, 3>`. */
  type Vec3 = v: seq<real> | |v| == 3 witness [0.0, 0.0, 0.0]

  type Mat = seq<seq<real>>

  datatype Result<T, E> = Success(value: T) | Failure(error: E)

  datatype Outcome<E> = Pass | Fail(error: E)

  /** A value that may be absent, as a variable a container does not hold. */
  datatype Option<T> = None | Some(value: T)

  predicate IsMatrix(m: Mat, rows: nat, cols: nat) {
    |m| == rows && forall r :: 0 <= r < rows ==> |m[r]| == cols
  }

  const ZeroVec3: Vec3 := [0.0, 0.0, 0.0]

  /** The entries of a dense matrix held in an array, row by row. */
  function Entries(a: array2<real>): (m: Mat)
    reads a
    ensures IsMatrix(m, a.Length0, a.Length1)
    ensures forall r, c :: 0 <= r < a.Length0 && 0 <= c < a.Length1 ==> m[r][c] == a[r, c]
  {
    seq(a.Length0, r requires 0 <= r < a.Length0 reads a => seq(a.Length1, c requires 0 <= c < a.Length1 reads a => a[r, c]))
  }

  function Zeros(n: nat): (v: seq<real>)
    ensures |v| == n
  {
    seq(n, _ => 0.0)
  }

  /** The unit vector along axis j. */
  function UnitVector(n: nat, j: nat): (e: seq<real>)
    ensures |e| == n
  {
    seq(n, k => if k == j then 1.0 else 0.0)
  }

  function ZeroMatrix(rows: nat, cols: nat): (m: Mat)
    ensures IsMatrix(m, rows, cols)
  {
    seq(rows, _ => Zeros(cols))
  }

  /** The square matrix with d on its diagonal and zero elsewhere. */
  function DiagonalMatrix(d: seq<real>): (m: Mat)
    ensures IsMatrix(m, |d|, |d|)
  {
    seq(|d|, r requires 0 <= r < |d| => seq(|d|, c requires 0 <= c < |d| => if r == c then d[r] else 0.0))
  }

  /** The diagonal of a square matrix. */
  function Diagonal(a: Mat, m: nat): (d: seq<real>)
    requires IsMatrix(a, m, m)
    ensures |d| == m
  {
    seq(m, k requires 0 <= k < m => a[k][k])
  }

  function Identity(n: nat): (m: Mat)
    ensures IsMatrix(m, n, n)
  {
    seq(n, i => seq(n, j => if i == j then 1.0 else 0.0))
  }

  /** Sum of the entries, accumulated from the first to the last. */
  function Sum(v: seq<real>): real {
    if |v| == 0 then 0.0 else Sum(v[..|v| - 1]) + v[|v| - 1]
  }

  function Dot(a: seq<real>, b: seq<real>): real
    requires |a| == |b|
  {
    if |a| == 0 then 0.0 else Dot(a[..|a| - 1], b[..|b| - 1]) + a[|a| - 1] * b[|b| - 1]
  }

  function VecAdd(a: seq<real>, b: seq<real>): (c: seq<real>)
    requires |a| == |b|
    ensures |c| == |a|
  {
    seq(|a|, i requires 0 <= i < |a| => a[i] + b[i])
  }

  function VecSub(a: seq<real>, b: seq<real>): (c: seq<real>)
    requires |a| == |b|
    ensures |c| == |a|
  {
    seq(|a|, i requires 0 <= i < |a| => a[i] - b[i])
  }

  function VecScale(s: real, a: seq<real>): (c: seq<real>)
    ensures |c| == |a|
  {
    seq(|a|, i requires 0 <= i < |a| => s * a[i])
  }

  function Column(m: Mat, c: nat): (col: seq<real>)
    requires forall r :: 0 <= r < |m| ==> c < |m[r]|
    ensures |col| == |m|
  {
    seq(|m|, r requires 0 <= r < |m| => m[r][c])
  }

  function Transpose(m: Mat, rows: nat, cols: nat): (t: Mat)
    requires IsMatrix(m, rows, cols)
    ensures IsMatrix(t, cols, rows)
  {
    seq(cols, c requires 0 <= c < cols => Column(m, c))
  }

  function MatMul(a: Mat, b: Mat, n: nat, k: nat, m: nat): (c: Mat)
    requires IsMatrix(a, n, k) && IsMatrix(b, k, m)
    ensures IsMatrix(c, n, m)
  {
    seq(n, i requires 0 <= i < n => seq(m, j requires 0 <= j < m => Dot(a[i], Column(b, j))))
  }

  function MatVec(a: Mat, x: seq<real>, rows: nat, cols: nat): (y: seq<real>)
    requires IsMatrix(a, rows, cols) && |x| == cols
    ensures |y| == rows
  {
    seq(rows, r requires 0 <= r < rows => Dot(a[r], x))
  }

  function MatAdd(a: Mat, b: Mat, rows: nat, cols: nat): (c: Mat)
    requires IsMatrix(a, rows, cols) && IsMatrix(b, rows, cols)
    ensures IsMatrix(c, rows, cols)
  {
    seq(rows, i requires 0 <= i < rows => VecAdd(a[i], b[i]))
  }

  function MatScale(s: real, a: Mat, rows: nat, cols: nat): (c: Mat)
    requires IsMatrix(a, rows, cols)
    ensures IsMatrix(c, rows, cols)
  {
    seq(rows, i requires 0 <= i < rows => VecScale(s, a[i]))
  }

  predicate Symmetric(a: Mat, n: nat)
    requires IsMatrix(a, n, n)
  {
    forall i, j :: 0 <= i < n && 0 <= j < n ==> a[i][j] == a[j][i]
  }

  function Det2(m: Mat): real
    requires IsMatrix(m, 2, 2)
  {
    m[0][0] * m[1][1] - m[0][1] * m[1][0]
  }

  function Det3(m: Mat): real
    requires IsMatrix(m, 3, 3)
  {
    m[0][0] * (m[1][1] * m[2][2] - m[1][2] * m[2][1])
    - m[0][1] * (m[1][0] * m[2][2] - m[1][2] * m[2][0])
    + m[0][2] * (m[1][0] * m[2][1] - m[1][1] * m[2][0])
  }

  /** Determinant of a 2x2 or 3x3 matrix, by cofactor expansion. */
  function Det(m: Mat, d: nat): real
    requires d == 2 || d == 3
    requires IsMatrix(m, d, d)
  {
    if d == 2 then Det2(m) else Det3(m)
  }

  /** Matrices of the same shape with the same entries are equal. */
  lemma {:induction false} MatrixEquality(a: Mat, b: Mat, rows: nat, cols: nat)
    requires IsMatrix(a, rows, cols) && IsMatrix(b, rows, cols)
    requires forall r, c :: 0 <= r < rows && 0 <= c < cols ==> a[r][c] == b[r][c]
    ensures a == b
  {
    assert forall r | 0 <= r < rows :: a[r] == b[r];
  }

  lemma {:induction false} MatAddZeroLeft(a: Mat, rows: nat, cols: nat)
    requires IsMatrix(a, rows, cols)
    ensures MatAdd(ZeroMatrix(rows, cols), a, rows, cols) == a
  {
    MatrixEquality(MatAdd(ZeroMatrix(rows, cols), a, rows, cols), a, rows, cols);
  }

  // ---------------------------------------------------------------------------
  // Unfolding helpers for short sums

  lemma {:induction false} Dot2(a: seq<real>, b: seq<real>)
    requires |a| == 2 && |b| == 2
    ensures Dot(a, b) == a[0] * b[0] + a[1] * b[1]
  {
    assert Dot(a, b) == Dot(a[..1], b[..1]) + a[1] * b[1];
    assert Dot(a[..1], b[..1]) == Dot(a[..1][..0], b[..1][..0]) + a[0] * b[0];
    assert Dot(a[..1][..0], b[..1][..0]) == 0.0;
  }

  lemma {:induction false} Dot3(a: seq<real>, b: seq<real>)
    requires |a| == 3 && |b| == 3
    ensures Dot(a, b) == a[0] * b[0] + a[1] * b[1] + a[2] * b[2]
  {
    assert a[..2][..1] == a[..1] && b[..2][..1] == b[..1];
    Dot2(a[..2], b[..2]);
  }

  lemma {:induction false} DotPrefixStep(a: seq<real>, b: seq<real>, k: nat)
    requires |a| == |b| && k < |a|
    ensures Dot(a[..k + 1], b[..k + 1]) == Dot(a[..k], b[..k]) + a[k] * b[k]
  {
    assert a[..k + 1][..k] == a[..k] && b[..k + 1][..k] == b[..k];
  }

  lemma {:induction false} SumPrefixStep(v: seq<real>, k: nat)
    requires k < |v|
    ensures Sum(v[..k + 1]) == Sum(v[..k]) + v[k]
  {
    assert v[..k + 1][..k] == v[..k];
  }

  /** Adding N[i] * c to every entry adds (sum of N) * c to the total. */
  lemma {:induction false} SharesAdd(a: seq<real>, b: seq<real>, n: seq<real>, c: real)
    requires |a| == |b| == |n|
    requires forall i :: 0 <= i < |a| ==> b[i] == a[i] + n[i] * c
    ensures Sum(b) == Sum(a) + Sum(n) * c
    decreases |a|
  {
    if |a| > 0 {
      var k := |a| - 1;
      SharesAdd(a[..k], b[..k], n[..k], c);
      assert (Sum(n[..k]) + n[k]) * c == Sum(n[..k]) * c + n[k] * c;
    }
  }

  /** With weights that sum to one the total grows by exactly c. */
  lemma {:induction false} SharesAddUnity(a: seq<real>, b: seq<real>, n: seq<real>, c: real)
    requires |a| == |b| == |n| && Sum(n) == 1.0
    requires forall i :: 0 <= i < |a| ==> b[i] == a[i] + n[i] * c
    ensures Sum(b) == Sum(a) + c
  {
    SharesAdd(a, b, n, c);
  }

  lemma {:induction false} Sum4(v: seq<real>)
    requires |v| == 4
    ensures Sum(v) == v[0] + v[1] + v[2] + v[3]
  {
    SumPrefixStep(v, 0); SumPrefixStep(v, 1); SumPrefixStep(v, 2); SumPrefixStep(v, 3);
    assert v[..4] == v;
  }

  lemma {:induction false} Sum8(v: seq<real>)
    requires |v| == 8
    ensures Sum(v) == v[0] + v[1] + v[2] + v[3] + v[4] + v[5] + v[6] + v[7]
  {
    SumPrefixStep(v, 0); SumPrefixStep(v, 1); SumPrefixStep(v, 2); SumPrefixStep(v, 3);
    SumPrefixStep(v, 4); SumPrefixStep(v, 5); SumPrefixStep(v, 6); SumPrefixStep(v, 7);
    assert v[..8] == v;
  }

  lemma {:induction false} Dot4(a: seq<real>, b: seq<real>)
    requires |a| == 4 && |b| == 4
    ensures Dot(a, b) == a[0] * b[0] + a[1] * b[1] + a[2] * b[2] + a[3] * b[3]
  {
    DotPrefixStep(a, b, 0); DotPrefixStep(a, b, 1); DotPrefixStep(a, b, 2); DotPrefixStep(a, b, 3);
    assert a[..4] == a && b[..4] == b;
  }

  lemma {:induction false} Dot8(a: seq<real>, b: seq<real>)
    requires |a| == 8 && |b| == 8
    ensures Dot(a, b) == a[0] * b[0] + a[1] * b[1] + a[2] * b[2] + a[3] * b[3]
                       + a[4] * b[4] + a[5] * b[5] + a[6] * b[6] + a[7] * b[7]
  {
    DotPrefixStep(a, b, 0); DotPrefixStep(a, b, 1); DotPrefixStep(a, b, 2); DotPrefixStep(a, b, 3);
    DotPrefixStep(a, b, 4); DotPrefixStep(a, b, 5); DotPrefixStep(a, b, 6); DotPrefixStep(a, b, 7);
    assert a[..8] == a && b[..8] == b;
  }

  /** Dotting with a vector of ones sums the other vector. */
  lemma {:induction false} DotOnes(ones: seq<real>, x: seq<real>)
    requires |ones| == |x|
    requires forall i :: 0 <= i < |ones| ==> ones[i] == 1.0
    ensures Dot(ones, x) == Sum(x)
    decreases |x|
  {
    if |x| > 0 {
      DotOnes(ones[..|ones| - 1], x[..|x| - 1]);
    }
  }

  /** The sum of a sequence with one element appended. */
  lemma {:induction false} SumAppend(v: seq<real>, x: real)
    ensures Sum(v + [x]) == Sum(v) + x
  {
    assert (v + [x])[..|v|] == v;
  }

  lemma {:induction false} SumConcat(a: seq<real>, b: seq<real>)
    ensures Sum(a + b) == Sum(a) + Sum(b)
    decreases |b|
  {
    if |b| == 0 {
      assert a + b == a;
    } else {
      var b' := b[..|b| - 1];
      assert a + b == (a + b') + [b[|b| - 1]];
      SumAppend(a + b', b[|b| - 1]);
      SumConcat(a, b');
      assert b == b' + [b[|b| - 1]];
      SumAppend(b', b[|b| - 1]);
    }
  }

  lemma {:induction false} DotConcat(a: seq<real>, b: seq<real>, c: seq<real>, d: seq<real>)
    requires |a| == |c| && |b| == |d|
    ensures Dot(a + b, c + d) == Dot(a, c) + Dot(b, d)
    decreases |b|
  {
    if |b| == 0 {
      assert a + b == a && c + d == c;
    } else {
      var b', d' := b[..|b| - 1], d[..|d| - 1];
      assert (a + b)[..|a + b| - 1] == a + b';
      assert (c + d)[..|c + d| - 1] == c + d';
      DotConcat(a, b', c, d');
    }
  }

  /** Dot is linear in its left argument. */
  lemma {:induction false} DotLinearLeft(a: seq<real>, b: seq<real>, s: real, x: seq<real>)
    requires |a| == |b| == |x|
    ensures Dot(VecAdd(a, VecScale(s, b)), x) == Dot(a, x) + s * Dot(b, x)
    decreases |a|
  {
    if |a| > 0 {
      var n := |a| - 1;
      var lhs, rhs := VecAdd(a, VecScale(s, b))[..n], VecAdd(a[..n], VecScale(s, b[..n]));
      assert |lhs| == |rhs| == n;
      forall i | 0 <= i < n ensures lhs[i] == rhs[i] { }
      assert lhs == rhs;
      DotLinearLeft(a[..n], b[..n], s, x[..n]);
    }
  }

  /** Dot distributes over a sum in its left argument. */
  lemma {:induction false} DotSum(a: seq<real>, b: seq<real>, x: seq<real>)
    requires |a| == |b| == |x|
    ensures Dot(VecAdd(a, b), x) == Dot(a, x) + Dot(b, x)
    decreases |a|
  {
    if |a| > 0 {
      var n := |a| - 1;
      assert VecAdd(a, b)[..n] == VecAdd(a[..n], b[..n]);
      DotSum(a[..n], b[..n], x[..n]);
    }
  }

  lemma {:induction false} DotSymmetric(a: seq<real>, b: seq<real>)
    requires |a| == |b|
    ensures Dot(a, b) == Dot(b, a)
    decreases |a|
  {
    if |a| > 0 {
      DotSymmetric(a[..|a| - 1], b[..|b| - 1]);
    }
  }

  lemma {:induction false} DotZeroLeft(a: seq<real>, x: seq<real>)
    requires |a| == |x|
    requires forall i :: 0 <= i < |a| ==> a[i] == 0.0
    ensures Dot(a, x) == 0.0
    decreases |a|
  {
    if |a| > 0 {
      DotZeroLeft(a[..|a| - 1], x[..|x| - 1]);
    }
  }

  /** Dotting with the k-th unit vector picks out the k-th entry. */
  lemma {:induction false} DotUnit(e: seq<real>, x: seq<real>, k: nat)
    requires |e| == |x| && k < |e|
    requires forall i :: 0 <= i < |e| ==> e[i] == (if i == k then 1.0 else 0.0)
    ensures Dot(e, x) == x[k]
    decreases |e|
  {
    var n := |e| - 1;
    if k == n {
      DotZeroLeft(e[..n], x[..n]);
    } else {
      DotUnit(e[..n], x[..n], k);
    }
  }

  // ---------------------------------------------------------------------------
  // Matrix identities

  /** Multiplying by the identity on the left leaves a matrix unchanged. */
  lemma {:induction false} IdentityLeft(a: Mat, n: nat, m: nat)
    requires IsMatrix(a, n, m)
    ensures MatMul(Identity(n), a, n, n, m) == a
  {
    var p := MatMul(Identity(n), a, n, n, m);
    forall i, j | 0 <= i < n && 0 <= j < m
      ensures p[i][j] == a[i][j]
    {
      DotUnit(Identity(n)[i], Column(a, j), i);
    }
    assert forall i | 0 <= i < n :: p[i] == a[i];
  }

  /** Multiplying by the identity on the right leaves a matrix unchanged. */
  lemma {:induction false} IdentityRight(a: Mat, n: nat, m: nat)
    requires IsMatrix(a, n, m)
    ensures MatMul(a, Identity(m), n, m, m) == a
  {
    var p := MatMul(a, Identity(m), n, m, m);
    forall i, j | 0 <= i < n && 0 <= j < m
      ensures p[i][j] == a[i][j]
    {
      DotSymmetric(a[i], Column(Identity(m), j));
      DotUnit(Column(Identity(m), j), a[i], j);
    }
    assert forall i | 0 <= i < n :: p[i] == a[i];
  }

  lemma {:induction false} MatMul2Entries(a: Mat, b: Mat)
    requires IsMatrix(a, 2, 2) && IsMatrix(b, 2, 2)
    ensures var p := MatMul(a, b, 2, 2, 2);
      && p[0][0] == a[0][0] * b[0][0] + a[0][1] * b[1][0]
      && p[0][1] == a[0][0] * b[0][1] + a[0][1] * b[1][1]
      && p[1][0] == a[1][0] * b[0][0] + a[1][1] * b[1][0]
      && p[1][1] == a[1][0] * b[0][1] + a[1][1] * b[1][1]
  {
    forall i, j | 0 <= i < 2 && 0 <= j < 2 {
      Dot2(a[i], Column(b, j));
    }
  }

  lemma {:induction false} Det2OfProduct(a: Mat, b: Mat)
    requires IsMatrix(a, 2, 2) && IsMatrix(b, 2, 2)
    ensures Det2(MatMul(a, b, 2, 2, 2)) == Det2(a) * Det2(b)
  {
    MatMul2Entries(a, b);
  }

  /** The 3x3 determinant as a function of its three rows. */
  function Det3Rows(u: seq<real>, v: seq<real>, w: seq<real>): real
    requires |u| == 3 && |v| == 3 && |w| == 3
  {
    u[0] * (v[1] * w[2] - v[2] * w[1]) - u[1] * (v[0] * w[2] - v[2] * w[0]) + u[2] * (v[0] * w[1] - v[1] * w[0])
  }

  /** c0 * b0 + c1 * b1 + c2 * b2 for rows b0, b1, b2. */
  function Combine(c0: real, c1: real, c2: real, b0: seq<real>, b1: seq<real>, b2: seq<real>): (r: seq<real>)
    requires |b0| == 3 && |b1| == 3 && |b2| == 3
    ensures |r| == 3
  {
    seq(3, j requires 0 <= j < 3 => c0 * b0[j] + c1 * b1[j] + c2 * b2[j])
  }

  lemma {:induction false} Det3RowsLinearFirst(c0: real, c1: real, c2: real, b0: seq<real>, b1: seq<real>, b2: seq<real>, v: seq<real>, w: seq<real>)
    requires |b0| == 3 && |b1| == 3 && |b2| == 3 && |v| == 3 && |w| == 3
    ensures Det3Rows(Combine(c0, c1, c2, b0, b1, b2), v, w)
         == c0 * Det3Rows(b0, v, w) + c1 * Det3Rows(b1, v, w) + c2 * Det3Rows(b2, v, w)
  {
  }

  lemma {:induction false} Det3RowsLinearSecond(c0: real, c1: real, c2: real, b0: seq<real>, b1: seq<real>, b2: seq<real>, u: seq<real>, w: seq<real>)
    requires |b0| == 3 && |b1| == 3 && |b2| == 3 && |u| == 3 && |w| == 3
    ensures Det3Rows(u, Combine(c0, c1, c2, b0, b1, b2), w)
         == c0 * Det3Rows(u, b0, w) + c1 * Det3Rows(u, b1, w) + c2 * Det3Rows(u, b2, w)
  {
  }

  lemma {:induction false} Det3RowsLinearThird(c0: real, c1: real, c2: real, b0: seq<real>, b1: seq<real>, b2: seq<real>, u: seq<real>, v: seq<real>)
    requires |b0| == 3 && |b1| == 3 && |b2| == 3 && |u| == 3 && |v| == 3
    ensures Det3Rows(u, v, Combine(c0, c1, c2, b0, b1, b2))
         == c0 * Det3Rows(u, v, b0) + c1 * Det3Rows(u, v, b1) + c2 * Det3Rows(u, v, b2)
  {
  }

  /** Expanding a combined third row against every pair of rows of b. */
  lemma {:induction false} ExpandThirdRow(c0: real, c1: real, c2: real, b0: seq<real>, b1: seq<real>, b2: seq<real>)
    requires |b0| == 3 && |b1| == 3 && |b2| == 3
    ensures var w, d := Combine(c0, c1, c2, b0, b1, b2), Det3Rows(b0, b1, b2);
      && Det3Rows(b0, b1, w) == c2 * d && Det3Rows(b0, b2, w) == -c1 * d
      && Det3Rows(b1, b0, w) == -c2 * d && Det3Rows(b1, b2, w) == c0 * d
      && Det3Rows(b2, b0, w) == c1 * d && Det3Rows(b2, b1, w) == -c0 * d
      && Det3Rows(b0, b0, w) == 0.0 && Det3Rows(b1, b1, w) == 0.0 && Det3Rows(b2, b2, w) == 0.0
  {
    Det3RowsLinearThird(c0, c1, c2, b0, b1, b2, b0, b1);
    Det3RowsLinearThird(c0, c1, c2, b0, b1, b2, b0, b2);
    Det3RowsLinearThird(c0, c1, c2, b0, b1, b2, b1, b0);
    Det3RowsLinearThird(c0, c1, c2, b0, b1, b2, b1, b2);
    Det3RowsLinearThird(c0, c1, c2, b0, b1, b2, b2, b0);
    Det3RowsLinearThird(c0, c1, c2, b0, b1, b2, b2, b1);
    Det3RowsLinearThird(c0, c1, c2, b0, b1, b2, b0, b0);
    Det3RowsLinearThird(c0, c1, c2, b0, b1, b2, b1, b1);
    Det3RowsLinearThird(c0, c1, c2, b0, b1, b2, b2, b2);
  }

  /** Expanding combined second and third rows against each row of b. */
  lemma {:induction false} ExpandLastTwoRows(e0: real, e1: real, e2: real, c0: real, c1: real, c2: real,
                          b0: seq<real>, b1: seq<real>, b2: seq<real>, v: seq<real>, w: seq<real>)
    requires |b0| == 3 && |b1| == 3 && |b2| == 3
    requires v == Combine(e0, e1, e2, b0, b1, b2) && w == Combine(c0, c1, c2, b0, b1, b2)
    ensures Det3Rows(b0, v, w) == (e1 * c2 - e2 * c1) * Det3Rows(b0, b1, b2)
    ensures Det3Rows(b1, v, w) == (e2 * c0 - e0 * c2) * Det3Rows(b0, b1, b2)
    ensures Det3Rows(b2, v, w) == (e0 * c1 - e1 * c0) * Det3Rows(b0, b1, b2)
  {
    ExpandThirdRow(c0, c1, c2, b0, b1, b2);
    Det3RowsLinearSecond(e0, e1, e2, b0, b1, b2, b0, w);
    Det3RowsLinearSecond(e0, e1, e2, b0, b1, b2, b1, w);
    Det3RowsLinearSecond(e0, e1, e2, b0, b1, b2, b2, w);
  }

  /** The determinant of three combined rows is the determinant of the
      coefficients times the determinant of the rows combined. */
  lemma {:induction false} Det3RowsOfCombined(a00: real, a01: real, a02: real, a10: real, a11: real, a12: real,
                           a20: real, a21: real, a22: real, b0: seq<real>, b1: seq<real>, b2: seq<real>)
    requires |b0| == 3 && |b1| == 3 && |b2| == 3
    ensures Det3Rows(Combine(a00, a01, a02, b0, b1, b2), Combine(a10, a11, a12, b0, b1, b2),
                     Combine(a20, a21, a22, b0, b1, b2))
         == Det3Rows([a00, a01, a02], [a10, a11, a12], [a20, a21, a22]) * Det3Rows(b0, b1, b2)
  {
    var v, w := Combine(a10, a11, a12, b0, b1, b2), Combine(a20, a21, a22, b0, b1, b2);
    Det3RowsLinearFirst(a00, a01, a02, b0, b1, b2, v, w);
    WeightedLastTwoRows(a00, a01, a02, a10, a11, a12, a20, a21, a22, b0, b1, b2, v, w);
  }

  /** The first-row weights applied to the expansions of the last two
      combined rows. */
  lemma {:induction false} WeightedLastTwoRows(a00: real, a01: real, a02: real, a10: real, a11: real, a12: real,
                           a20: real, a21: real, a22: real, b0: seq<real>, b1: seq<real>, b2: seq<real>,
                           v: seq<real>, w: seq<real>)
    requires |b0| == 3 && |b1| == 3 && |b2| == 3
    requires v == Combine(a10, a11, a12, b0, b1, b2) && w == Combine(a20, a21, a22, b0, b1, b2)
    ensures a00 * Det3Rows(b0, v, w) + a01 * Det3Rows(b1, v, w) + a02 * Det3Rows(b2, v, w)
         == Det3Rows([a00, a01, a02], [a10, a11, a12], [a20, a21, a22]) * Det3Rows(b0, b1, b2)
  {
    ExpandLastTwoRows(a10, a11, a12, a20, a21, a22, b0, b1, b2, v, w);
    CofactorSum(a00, a01, a02, a10, a11, a12, a20, a21, a22, Det3Rows(b0, b1, b2),
                Det3Rows(b0, v, w), Det3Rows(b1, v, w), Det3Rows(b2, v, w));
  }

  /** Weighting the three cofactor multiples of d by the first row gives
      the determinant of the coefficients times d. */
  lemma {:induction false} CofactorSum(c0: real, c1: real, c2: real, e0: real, e1: real, e2: real,
                                       f0: real, f1: real, f2: real, d: real, t0: real, t1: real, t2: real)
    requires t0 == (e1 * f2 - e2 * f1) * d
    requires t1 == (e2 * f0 - e0 * f2) * d
    requires t2 == (e0 * f1 - e1 * f0) * d
    ensures c0 * t0 + c1 * t1 + c2 * t2 == Det3Rows([c0, c1, c2], [e0, e1, e2], [f0, f1, f2]) * d
  {
  }

  /** Equal factors give equal products; stated apart so that callers need
      no nonlinear rewriting. */
  lemma {:induction false} ProductOfEqual(x: real, y: real, z: real)
    requires x == y
    ensures x * z == y * z
  {
  }


  /** A product of two non-negative factors is non-negative. */
  lemma {:induction false} NonNegativeProduct(x: real, y: real)
    ensures x >= 0.0 && y >= 0.0 ==> x * y >= 0.0
  {
  }

  /** Row i of A B combines the rows of B with the entries of row i of A. */
  lemma {:induction false} ProductRow(a: Mat, b: Mat, i: nat)
    requires IsMatrix(a, 3, 3) && IsMatrix(b, 3, 3) && i < 3
    ensures MatMul(a, b, 3, 3, 3)[i] == Combine(a[i][0], a[i][1], a[i][2], b[0], b[1], b[2])
  {
    var p, c := MatMul(a, b, 3, 3, 3), Combine(a[i][0], a[i][1], a[i][2], b[0], b[1], b[2]);
    forall j | 0 <= j < 3
      ensures p[i][j] == c[j]
    {
      Dot3(a[i], Column(b, j));
    }
  }

  lemma {:induction false} Det3ByRows(m: Mat)
    requires IsMatrix(m, 3, 3)
    ensures Det3(m) == Det3Rows(m[0], m[1], m[2])
    ensures Det3(m) == Det3Rows([m[0][0], m[0][1], m[0][2]], [m[1][0], m[1][1], m[1][2]], [m[2][0], m[2][1], m[2][2]])
  {
  }

  lemma {:induction false} Det3OfProduct(a: Mat, b: Mat)
    requires IsMatrix(a, 3, 3) && IsMatrix(b, 3, 3)
    ensures Det3(MatMul(a, b, 3, 3, 3)) == Det3(a) * Det3(b)
  {
    var p := MatMul(a, b, 3, 3, 3);
    ProductRow(a, b, 0);
    ProductRow(a, b, 1);
    ProductRow(a, b, 2);
    Det3RowsOfCombined(a[0][0], a[0][1], a[0][2], a[1][0], a[1][1], a[1][2], a[2][0], a[2][1], a[2][2],
                       b[0], b[1], b[2]);
    Det3ByRows(p);
    Det3ByRows(a);
    Det3ByRows(b);
  }

  /** det(A B) = det(A) det(B): the identity behind detFT = detF * detF0. */
  lemma {:induction false} DetOfProduct(a: Mat, b: Mat, d: nat)
    requires d == 2 || d == 3
    requires IsMatrix(a, d, d) && IsMatrix(b, d, d)
    ensures Det(MatMul(a, b, d, d, d), d) == Det(a, d) * Det(b, d)
  {
    if d == 2 { Det2OfProduct(a, b); } else { Det3OfProduct(a, b); }
  }

  /** A determinant d0 recorded for B gives det(A B) = det(A) d0. */
  lemma {:induction false} DetOfComposition(a: Mat, b: Mat, d0: real, d: nat)
    requires d == 2 || d == 3
    requires IsMatrix(a, d, d) && IsMatrix(b, d, d)
    ensures d0 == Det(b, d) ==> Det(a, d) * d0 == Det(MatMul(a, b, d, d, d), d)
  {
    DetOfProduct(a, b, d);
    if d0 == Det(b, d) {
      ProductOfEqual(d0, Det(b, d), Det(a, d));
    }
  }

  lemma {:induction false} DetIdentity(d: nat)
    requires d == 2 || d == 3
    ensures Det(Identity(d), d) == 1.0
  {
  }

  lemma {:induction false} MatVecPrefix(a: Mat, x: seq<real>, rows: nat, cols: nat, r: nat)
    requires IsMatrix(a, rows, cols) && |x| == cols && r <= rows
    ensures MatVec(a, x, rows, cols)[..r] == MatVec(a[..r], x, r, cols)
  {
  }

  /** Adding a row to A adds y[r] times that row to A^T y. */
  lemma {:induction false} TransposeMatVecStep(a: Mat, y: seq<real>, rows: nat, cols: nat)
    requires rows > 0 && IsMatrix(a, rows, cols) && |y| == rows
    ensures var r := rows - 1;
      MatVec(Transpose(a, rows, cols), y, cols, rows)
      == VecAdd(MatVec(Transpose(a[..r], r, cols), y[..r], cols, r), VecScale(y[r], a[r]))
  {
    var r := rows - 1;
    var w := MatVec(Transpose(a, rows, cols), y, cols, rows);
    var u := MatVec(Transpose(a[..r], r, cols), y[..r], cols, r);
    var z := VecAdd(u, VecScale(y[r], a[r]));
    forall c | 0 <= c < cols
      ensures w[c] == z[c]
    {
      var col := Column(a, c);
      assert col[..r] == Column(a[..r], c);
      assert w[c] == Dot(col, y) == Dot(col[..r], y[..r]) + col[r] * y[r];
    }
  }

  /** y . (A x) == (A^T y) . x, the exchange of a double sum. */
  lemma {:induction false} TransposeDot(a: Mat, x: seq<real>, y: seq<real>, rows: nat, cols: nat)
    requires IsMatrix(a, rows, cols) && |x| == cols && |y| == rows
    ensures Dot(y, MatVec(a, x, rows, cols)) == Dot(MatVec(Transpose(a, rows, cols), y, cols, rows), x)
    decreases rows
  {
    if rows == 0 {
      DotZeroLeft(MatVec(Transpose(a, rows, cols), y, cols, rows), x);
    } else {
      var r := rows - 1;
      TransposeDot(a[..r], x, y[..r], r, cols);
      MatVecPrefix(a, x, rows, cols, r);
      TransposeMatVecStep(a, y, rows, cols);
      DotLinearLeft(MatVec(Transpose(a[..r], r, cols), y[..r], cols, r), a[r], y[r], x);
    }
  }

  /** Scaling the left argument scales the dot product. */
  lemma {:induction false} DotScaleLeft(s: real, a: seq<real>, x: seq<real>)
    requires |a| == |x|
    ensures Dot(VecScale(s, a), x) == s * Dot(a, x)
  {
    assert VecAdd(Zeros(|a|), VecScale(s, a)) == VecScale(s, a);
    DotLinearLeft(Zeros(|a|), a, s, x);
    DotZeroLeft(Zeros(|a|), x);
  }

  /** (A B) x == A (B x). */
  lemma {:induction false} MatVecOfProduct(a: Mat, b: Mat, x: seq<real>, n: nat, k: nat, m: nat)
    requires IsMatrix(a, n, k) && IsMatrix(b, k, m) && |x| == m
    ensures MatVec(MatMul(a, b, n, k, m), x, n, m) == MatVec(a, MatVec(b, x, k, m), n, k)
  {
    var ab := MatMul(a, b, n, k, m);
    var bt := Transpose(b, k, m);
    var lhs := MatVec(ab, x, n, m);
    var rhs := MatVec(a, MatVec(b, x, k, m), n, k);
    forall i | 0 <= i < n
      ensures lhs[i] == rhs[i]
    {
      forall q | 0 <= q < m
        ensures ab[i][q] == MatVec(bt, a[i], m, k)[q]
      {
        DotSymmetric(a[i], Column(b, q));
      }
      assert ab[i] == MatVec(bt, a[i], m, k);
      TransposeDot(b, x, a[i], k, m);
    }
  }

  /** (s A) x == s (A x). */
  lemma {:induction false} MatVecScale(s: real, a: Mat, x: seq<real>, rows: nat, cols: nat)
    requires IsMatrix(a, rows, cols) && |x| == cols
    ensures MatVec(MatScale(s, a, rows, cols), x, rows, cols) == VecScale(s, MatVec(a, x, rows, cols))
  {
    forall r | 0 <= r < rows
      ensures MatVec(MatScale(s, a, rows, cols), x, rows, cols)[r] == VecScale(s, MatVec(a, x, rows, cols))[r]
    {
      DotScaleLeft(s, a[r], x);
    }
  }

  /** A matrix applied to the zero vector gives the zero vector. */
  lemma {:induction false} MatVecZero(a: Mat, rows: nat, cols: nat)
    requires IsMatrix(a, rows, cols)
    ensures MatVec(a, Zeros(cols), rows, cols) == Zeros(rows)
  {
    forall r | 0 <= r < rows
      ensures MatVec(a, Zeros(cols), rows, cols)[r] == 0.0
    {
      DotSymmetric(a[r], Zeros(cols));
      DotZeroLeft(Zeros(cols), a[r]);
    }
  }

  lemma {:induction false} TransposeTwice(a: Mat, rows: nat, cols: nat)
    requires IsMatrix(a, rows, cols)
    ensures Transpose(Transpose(a, rows, cols), cols, rows) == a
  {
    MatrixEquality(Transpose(Transpose(a, rows, cols), cols, rows), a, rows, cols);
  }

  /** An entry of a square matrix is the form e_i . (A e_j). */
  lemma {:induction false} EntryAsForm(a: Mat, n: nat, i: nat, j: nat)
    requires IsMatrix(a, n, n) && i < n && j < n
    ensures a[i][j] == Dot(UnitVector(n, i), MatVec(a, UnitVector(n, j), n, n))
  {
    DotUnit(UnitVector(n, i), MatVec(a, UnitVector(n, j), n, n), i);
    DotSymmetric(a[i], UnitVector(n, j));
    DotUnit(UnitVector(n, j), a[i], j);
  }

  /** A symmetric matrix gives a symmetric bilinear form. */
  lemma {:induction false} SymmetricForm(a: Mat, n: nat, x: seq<real>, y: seq<real>)
    requires IsMatrix(a, n, n) && Symmetric(a, n) && |x| == n && |y| == n
    ensures Dot(x, MatVec(a, y, n, n)) == Dot(y, MatVec(a, x, n, n))
  {
    TransposeDot(a, y, x, n, n);
    MatrixEquality(Transpose(a, n, n), a, n, n);
    DotSymmetric(MatVec(a, x, n, n), y);
  }

  lemma {:induction false} ColumnOfProduct(a: Mat, b: Mat, n: nat, k: nat, m: nat, c: nat)
    requires IsMatrix(a, n, k) && IsMatrix(b, k, m) && c < m
    ensures Column(MatMul(a, b, n, k, m), c) == MatVec(a, Column(b, c), n, k)
  {
  }

  /** (A B) C == A (B C). */
  lemma {:induction false} MatMulAssociative(a: Mat, b: Mat, c: Mat, n: nat, k: nat, l: nat, m: nat)
    requires IsMatrix(a, n, k) && IsMatrix(b, k, l) && IsMatrix(c, l, m)
    ensures MatMul(MatMul(a, b, n, k, l), c, n, l, m) == MatMul(a, MatMul(b, c, k, l, m), n, k, m)
  {
    var ab := MatMul(a, b, n, k, l);
    var bc := MatMul(b, c, k, l, m);
    var lhs := MatMul(ab, c, n, l, m);
    var rhs := MatMul(a, bc, n, k, m);
    var bt := Transpose(b, k, l);
    forall i, j | 0 <= i < n && 0 <= j < m
      ensures lhs[i][j] == rhs[i][j]
    {
      // Row i of A B is B^T applied to row i of A.
      forall q | 0 <= q < l
        ensures ab[i][q] == MatVec(bt, a[i], l, k)[q]
      {
        DotSymmetric(a[i], Column(b, q));
      }
      assert ab[i] == MatVec(bt, a[i], l, k);
      ColumnOfProduct(b, c, k, l, m, j);
      TransposeDot(b, Column(c, j), a[i], k, l);
    }
    MatrixEquality(lhs, rhs, n, m);
  }
}
