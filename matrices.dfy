/**
 * Real-number matrix and vector algebra used by the kinematics model:
 * matrices are sequences of rows, vectors are sequences of reals.
 * Homogeneous transforms are the 4x4 matrices whose bottom row is [0, 0, 0, 1].
 */
module Matrices {

  type Vec = seq<real>
  type Mat = seq<seq<real>>

  /** `m` has `rows` rows of `cols` entries each. */
  predicate IsMatrix(m: Mat, rows: nat, cols: nat) {
    |m| == rows && forall i :: 0 <= i < rows ==> |m[i]| == cols
  }

  predicate IsMat4(m: Mat) {
    IsMatrix(m, 4, 4)
  }

  /** A 4x4 homogeneous transform: bottom row [0, 0, 0, 1]. */
  predicate IsHomogeneous(m: Mat) {
    IsMat4(m) && m[3] == [0.0, 0.0, 0.0, 1.0]
  }

  predicate AllMat4(ms: seq<Mat>) {
    forall k :: 0 <= k < |ms| ==> IsMat4(ms[k])
  }

  predicate AllHomogeneous(ms: seq<Mat>)
    ensures AllHomogeneous(ms) ==> AllMat4(ms)
  {
    forall k :: 0 <= k < |ms| ==> IsHomogeneous(ms[k])
  }

  /** The n x n identity matrix. */
  function Identity(n: nat): (m: Mat)
    ensures IsMatrix(m, n, n)
    ensures forall i, j :: 0 <= i < n && 0 <= j < n ==> m[i][j] == if i == j then 1.0 else 0.0
  {
    seq(n, i => seq(n, j => if i == j then 1.0 else 0.0))
  }

  function Dot(u: Vec, v: Vec): real
    requires |u| == |v|
  {
    if |u| == 0 then 0.0 else u[0] * v[0] + Dot(u[1..], v[1..])
  }

  /** Column `j` of `m`. */
  function Column(m: Mat, j: nat): (c: Vec)
    requires forall k :: 0 <= k < |m| ==> j < |m[k]|
    ensures |c| == |m|
  {
    seq(|m|, k requires 0 <= k < |m| => m[k][j])
  }

  /** Matrix product of an n x m matrix `a` and an m x p matrix `b`. */
  function MatMul(a: Mat, b: Mat): (c: Mat)
    requires |b| > 0 && IsMatrix(b, |b|, |b[0]|)
    requires forall i :: 0 <= i < |a| ==> |a[i]| == |b|
    ensures IsMatrix(c, |a|, |b[0]|)
  {
    seq(|a|, i requires 0 <= i < |a| => seq(|b[0]|, j requires 0 <= j < |b[0]| => Dot(a[i], Column(b, j))))
  }

  /** Matrix times vector. */
  function MatVec(m: Mat, v: Vec): (r: Vec)
    requires forall i :: 0 <= i < |m| ==> |m[i]| == |v|
    ensures |r| == |m|
  {
    seq(|m|, i requires 0 <= i < |m| => Dot(m[i], v))
  }

  function Zeros(n: nat): (z: Vec)
    ensures |z| == n && forall i :: 0 <= i < n ==> z[i] == 0.0
  {
    seq(n, _ => 0.0)
  }

  /** Unit vector with a one in position `i`. */
  function Unit(n: nat, i: nat): (e: Vec)
    requires i < n
    ensures |e| == n && e[i] == 1.0
    ensures forall k :: 0 <= k < n && k != i ==> e[k] == 0.0
  {
    seq(n, k => if k == i then 1.0 else 0.0)
  }

  /** Element-wise difference. */
  function Sub(u: Vec, v: Vec): (r: Vec)
    requires |u| == |v|
    ensures |r| == |u| && forall i :: 0 <= i < |u| ==> r[i] + v[i] == u[i]
  {
    seq(|u|, i requires 0 <= i < |u| => u[i] - v[i])
  }

  /** Element-wise sum. */
  function Add(u: Vec, v: Vec): (r: Vec)
    requires |u| == |v|
    ensures |r| == |u| && forall i :: 0 <= i < |u| ==> r[i] == u[i] + v[i]
  {
    seq(|u|, i requires 0 <= i < |u| => u[i] + v[i])
  }

  /** Every entry multiplied by the scalar `k`. */
  function Scale(u: Vec, k: real): (r: Vec)
    ensures |r| == |u| && forall i :: 0 <= i < |u| ==> r[i] == u[i] * k
  {
    seq(|u|, i requires 0 <= i < |u| => u[i] * k)
  }

  /** Cross product of two 3-vectors. */
  function Cross(u: Vec, v: Vec): (w: Vec)
    requires |u| == 3 && |v| == 3
    ensures |w| == 3
  {
    [u[1] * v[2] - u[2] * v[1], u[2] * v[0] - u[0] * v[2], u[0] * v[1] - u[1] * v[0]]
  }

  /** The translation column (the first three entries of column 3) of a homogeneous transform. */
  function Origin(m: Mat): (o: Vec)
    requires IsMat4(m)
    ensures |o| == 3
  {
    [m[0][3], m[1][3], m[2][3]]
  }

  /** The third column of the rotation block: the frame's z axis. */
  function ZAxis(m: Mat): (z: Vec)
    requires IsMat4(m)
    ensures |z| == 3
  {
    [m[0][2], m[1][2], m[2][2]]
  }

  /** The 3x3 rotation block of a 4x4 matrix. */
  function RotationBlock(m: Mat): (r: Mat)
    requires IsMat4(m)
    ensures IsMatrix(r, 3, 3)
  {
    [m[0][..3], m[1][..3], m[2][..3]]
  }

  /** The homogeneous transform whose rotation block is `r` and whose translation is `p`. */
  function HomogeneousOf(r: Mat, p: Vec): (m: Mat)
    requires IsMatrix(r, 3, 3) && |p| == 3
    ensures IsHomogeneous(m)
    ensures RotationBlock(m) == r && Origin(m) == p
  {
    var m := [[r[0][0], r[0][1], r[0][2], p[0]],
              [r[1][0], r[1][1], r[1][2], p[1]],
              [r[2][0], r[2][1], r[2][2], p[2]],
              [0.0, 0.0, 0.0, 1.0]];
    assert m[0][..3] == r[0] && m[1][..3] == r[1] && m[2][..3] == r[2];
    m
  }

  /** One step of unfolding `Dot` on suffixes. */
  lemma DotStep(u: Vec, v: Vec, i: nat)
    requires |u| == |v| && i < |u|
    ensures Dot(u[i..], v[i..]) == u[i] * v[i] + Dot(u[i + 1..], v[i + 1..])
  {
    assert u[i..][1..] == u[i + 1..];
    assert v[i..][1..] == v[i + 1..];
  }

  lemma Dot4(u: Vec, v: Vec)
    requires |u| == 4 && |v| == 4
    ensures Dot(u, v) == u[0] * v[0] + u[1] * v[1] + u[2] * v[2] + u[3] * v[3]
  {
    assert u[0..] == u && v[0..] == v;
    DotStep(u, v, 0);
    DotStep(u, v, 1);
    DotStep(u, v, 2);
    DotStep(u, v, 3);
  }

  /** Two 4x4 matrices are equal when all sixteen entries are. */
  lemma Mat4Ext(m: Mat, n: Mat)
    requires IsMat4(m) && IsMat4(n)
    requires forall i, j :: 0 <= i < 4 && 0 <= j < 4 ==> m[i][j] == n[i][j]
    ensures m == n
  {
    forall i | 0 <= i < 4 ensures m[i] == n[i] { }
  }

  /** One entry of a 4x4 product, written out. */
  lemma MatMulAt(a: Mat, b: Mat, i: nat, j: nat)
    requires IsMat4(a) && IsMat4(b) && i < 4 && j < 4
    ensures MatMul(a, b)[i][j] == a[i][0] * b[0][j] + a[i][1] * b[1][j] + a[i][2] * b[2][j] + a[i][3] * b[3][j]
  {
    Dot4(a[i], Column(b, j));
  }

  /** A 4x4 product equals `e` when each of the sixteen entries of `e` is the written-out sum. */
  lemma MatMulEquals(a: Mat, b: Mat, e: Mat)
    requires IsMat4(a) && IsMat4(b) && IsMat4(e)
    requires e[0][0] == a[0][0] * b[0][0] + a[0][1] * b[1][0] + a[0][2] * b[2][0] + a[0][3] * b[3][0]
    requires e[0][1] == a[0][0] * b[0][1] + a[0][1] * b[1][1] + a[0][2] * b[2][1] + a[0][3] * b[3][1]
    requires e[0][2] == a[0][0] * b[0][2] + a[0][1] * b[1][2] + a[0][2] * b[2][2] + a[0][3] * b[3][2]
    requires e[0][3] == a[0][0] * b[0][3] + a[0][1] * b[1][3] + a[0][2] * b[2][3] + a[0][3] * b[3][3]
    requires e[1][0] == a[1][0] * b[0][0] + a[1][1] * b[1][0] + a[1][2] * b[2][0] + a[1][3] * b[3][0]
    requires e[1][1] == a[1][0] * b[0][1] + a[1][1] * b[1][1] + a[1][2] * b[2][1] + a[1][3] * b[3][1]
    requires e[1][2] == a[1][0] * b[0][2] + a[1][1] * b[1][2] + a[1][2] * b[2][2] + a[1][3] * b[3][2]
    requires e[1][3] == a[1][0] * b[0][3] + a[1][1] * b[1][3] + a[1][2] * b[2][3] + a[1][3] * b[3][3]
    requires e[2][0] == a[2][0] * b[0][0] + a[2][1] * b[1][0] + a[2][2] * b[2][0] + a[2][3] * b[3][0]
    requires e[2][1] == a[2][0] * b[0][1] + a[2][1] * b[1][1] + a[2][2] * b[2][1] + a[2][3] * b[3][1]
    requires e[2][2] == a[2][0] * b[0][2] + a[2][1] * b[1][2] + a[2][2] * b[2][2] + a[2][3] * b[3][2]
    requires e[2][3] == a[2][0] * b[0][3] + a[2][1] * b[1][3] + a[2][2] * b[2][3] + a[2][3] * b[3][3]
    requires e[3][0] == a[3][0] * b[0][0] + a[3][1] * b[1][0] + a[3][2] * b[2][0] + a[3][3] * b[3][0]
    requires e[3][1] == a[3][0] * b[0][1] + a[3][1] * b[1][1] + a[3][2] * b[2][1] + a[3][3] * b[3][1]
    requires e[3][2] == a[3][0] * b[0][2] + a[3][1] * b[1][2] + a[3][2] * b[2][2] + a[3][3] * b[3][2]
    requires e[3][3] == a[3][0] * b[0][3] + a[3][1] * b[1][3] + a[3][2] * b[2][3] + a[3][3] * b[3][3]
    ensures MatMul(a, b) == e
  {
    forall i, j | 0 <= i < 4 && 0 <= j < 4 ensures MatMul(a, b)[i][j] == e[i][j] {
      MatMulAt(a, b, i, j);
    }
    Mat4Ext(MatMul(a, b), e);
  }

  /** A product of homogeneous transforms is a homogeneous transform. */
  lemma MatMulHomogeneous(a: Mat, b: Mat)
    requires IsHomogeneous(a) && IsHomogeneous(b)
    ensures IsHomogeneous(MatMul(a, b))
  {
    var c := MatMul(a, b);
    forall j | 0 <= j < 4 ensures c[3][j] == b[3][j] {
      MatMulAt(a, b, 3, j);
    }
    assert c[3] == b[3];
  }

  /** The dot product of the first three entries of `u` and `v`. */
  function Dot3(u: Vec, v: Vec): real
    requires |u| >= 3 && |v| >= 3
  {
    u[0] * v[0] + u[1] * v[1] + u[2] * v[2]
  }

  /** Column `j` of the top-left 3x3 block of `m`. */
  function BlockColumn(m: Mat, j: nat): (col: Vec)
    requires |m| >= 3 && (forall r :: 0 <= r < 3 ==> |m[r]| >= 3) && j < 3
    ensures |col| == 3 && forall r :: 0 <= r < 3 ==> col[r] == m[r][j]
  {
    [m[0][j], m[1][j], m[2][j]]
  }

  /** The columns of the top-left 3x3 block of `m` are orthonormal. */
  predicate OrthonormalBlock(m: Mat)
    requires |m| >= 3 && forall r :: 0 <= r < 3 ==> |m[r]| >= 3
  {
    && Dot3(BlockColumn(m, 0), BlockColumn(m, 0)) == 1.0
    && Dot3(BlockColumn(m, 1), BlockColumn(m, 1)) == 1.0
    && Dot3(BlockColumn(m, 2), BlockColumn(m, 2)) == 1.0
    && Dot3(BlockColumn(m, 0), BlockColumn(m, 1)) == 0.0
    && Dot3(BlockColumn(m, 0), BlockColumn(m, 2)) == 0.0
    && Dot3(BlockColumn(m, 1), BlockColumn(m, 2)) == 0.0
  }

  /** One row of a 3x3 block times two vectors, expanded into the nine products of its entries. */
  lemma RowProductExpansion(x0: real, x1: real, x2: real, u0: real, u1: real, u2: real, v0: real, v1: real, v2: real)
    ensures (x0 * u0 + x1 * u1 + x2 * u2) * (x0 * v0 + x1 * v1 + x2 * v2)
         == (x0 * x0) * (u0 * v0) + (x0 * x1) * (u0 * v1) + (x0 * x2) * (u0 * v2)
          + (x1 * x0) * (u1 * v0) + (x1 * x1) * (u1 * v1) + (x1 * x2) * (u1 * v2)
          + (x2 * x0) * (u2 * v0) + (x2 * x1) * (u2 * v1) + (x2 * x2) * (u2 * v2)
  {
  }

  /** Equal factors give equal products. */
  lemma MulCongruence(x: real, y: real, x': real, y': real)
    requires x == x' && y == y'
    ensures x * y == x' * y'
  {
  }

  /**
   * The block with rows `x`, `y`, `z` and orthonormal columns preserves dot products:
   * its images `p` of `u` and `r` of `v` have p . r = u . v.
   */
  lemma ImageDot(x: Vec, y: Vec, z: Vec, u: Vec, v: Vec, p: Vec, r: Vec)
    requires |x| >= 3 && |y| >= 3 && |z| >= 3 && |u| == 3 && |v| == 3 && |p| == 3 && |r| == 3
    requires x[0] * x[0] + y[0] * y[0] + z[0] * z[0] == 1.0 && x[1] * x[1] + y[1] * y[1] + z[1] * z[1] == 1.0
    requires x[2] * x[2] + y[2] * y[2] + z[2] * z[2] == 1.0
    requires x[0] * x[1] + y[0] * y[1] + z[0] * z[1] == 0.0 && x[0] * x[2] + y[0] * y[2] + z[0] * z[2] == 0.0
    requires x[1] * x[2] + y[1] * y[2] + z[1] * z[2] == 0.0
    requires p[0] == Dot3(x, u) && p[1] == Dot3(y, u) && p[2] == Dot3(z, u)
    requires r[0] == Dot3(x, v) && r[1] == Dot3(y, v) && r[2] == Dot3(z, v)
    ensures Dot3(p, r) == Dot3(u, v)
  {
    RowProductExpansion(x[0], x[1], x[2], u[0], u[1], u[2], v[0], v[1], v[2]);
    RowProductExpansion(y[0], y[1], y[2], u[0], u[1], u[2], v[0], v[1], v[2]);
    RowProductExpansion(z[0], z[1], z[2], u[0], u[1], u[2], v[0], v[1], v[2]);
    MulCongruence(p[0], r[0], x[0] * u[0] + x[1] * u[1] + x[2] * u[2], x[0] * v[0] + x[1] * v[1] + x[2] * v[2]);
    MulCongruence(p[1], r[1], y[0] * u[0] + y[1] * u[1] + y[2] * u[2], y[0] * v[0] + y[1] * v[1] + y[2] * v[2]);
    MulCongruence(p[2], r[2], z[0] * u[0] + z[1] * u[1] + z[2] * u[2], z[0] * v[0] + z[1] * v[1] + z[2] * v[2]);
  }

  /** The block of `c` is the block of `a` times the block of `b`. */
  predicate IsBlockProduct(a: Mat, b: Mat, c: Mat)
    requires IsMat4(a) && IsMat4(b) && IsMat4(c)
  {
    forall r, j :: 0 <= r < 3 && 0 <= j < 3 ==> c[r][j] == Dot3(a[r], BlockColumn(b, j))
  }

  /** The rotation block of a product with a homogeneous transform is the product of the blocks. */
  lemma MatMulBlock(a: Mat, b: Mat)
    requires IsMat4(a) && IsHomogeneous(b)
    ensures IsBlockProduct(a, b, MatMul(a, b))
  {
    forall r, j | 0 <= r < 3 && 0 <= j < 3
      ensures MatMul(a, b)[r][j] == Dot3(a[r], BlockColumn(b, j))
    {
      MatMulAt(a, b, r, j);
      assert b[3][j] == 0.0;
    }
  }

  /** Multiplying by a block with orthonormal columns keeps the dot products of columns. */
  lemma BlockProductColumnsDot(a: Mat, b: Mat, c: Mat, i: nat, j: nat)
    requires IsMat4(a) && IsMat4(b) && IsMat4(c) && OrthonormalBlock(a) && IsBlockProduct(a, b, c) && i < 3 && j < 3
    ensures Dot3(BlockColumn(c, i), BlockColumn(c, j)) == Dot3(BlockColumn(b, i), BlockColumn(b, j))
  {
    assert BlockColumn(c, i)[0] == Dot3(a[0], BlockColumn(b, i));
    assert BlockColumn(c, i)[1] == Dot3(a[1], BlockColumn(b, i));
    assert BlockColumn(c, i)[2] == Dot3(a[2], BlockColumn(b, i));
    assert BlockColumn(c, j)[0] == Dot3(a[0], BlockColumn(b, j));
    assert BlockColumn(c, j)[1] == Dot3(a[1], BlockColumn(b, j));
    assert BlockColumn(c, j)[2] == Dot3(a[2], BlockColumn(b, j));
    ImageDot(a[0], a[1], a[2], BlockColumn(b, i), BlockColumn(b, j), BlockColumn(c, i), BlockColumn(c, j));
  }

  /** The product of two homogeneous transforms with orthonormal blocks has an orthonormal block. */
  lemma MatMulOrthonormal(a: Mat, b: Mat)
    requires IsHomogeneous(a) && IsHomogeneous(b) && OrthonormalBlock(a) && OrthonormalBlock(b)
    ensures OrthonormalBlock(MatMul(a, b))
  {
    var c := MatMul(a, b);
    MatMulBlock(a, b);
    BlockProductColumnsDot(a, b, c, 0, 0);
    BlockProductColumnsDot(a, b, c, 1, 1);
    BlockProductColumnsDot(a, b, c, 2, 2);
    BlockProductColumnsDot(a, b, c, 0, 1);
    BlockProductColumnsDot(a, b, c, 0, 2);
    BlockProductColumnsDot(a, b, c, 1, 2);
  }

  /** A cross product is orthogonal to its first factor. */
  lemma CrossOrthogonal(u: Vec, v: Vec)
    requires |u| == 3 && |v| == 3
    ensures Cross(u, v)[0] * u[0] + Cross(u, v)[1] * u[1] + Cross(u, v)[2] * u[2] == 0.0
  {
    TripleProductZero(u[0], u[1], u[2], v[0], v[1], v[2]);
  }

  /** The scalar triple product (a, b, c) . ((a, b, c) x (x, y, z)) vanishes. */
  lemma TripleProductZero(a: real, b: real, c: real, x: real, y: real, z: real)
    ensures (b * z - c * y) * a + (c * x - a * z) * b + (a * y - b * x) * c == 0.0
  {
    assert (b * z - c * y) * a == a * b * z - a * c * y;
    assert (c * x - a * z) * b == b * c * x - a * b * z;
    assert (a * y - b * x) * c == a * c * y - b * c * x;
  }

  lemma {:induction false} DotZeros(u: Vec)
    ensures Dot(u, Zeros(|u|)) == 0.0
  {
    if |u| > 0 {
      assert Zeros(|u|)[1..] == Zeros(|u| - 1);
      DotZeros(u[1..]);
    }
  }

  /** Dotting with the i-th unit vector picks entry i. */
  lemma {:induction false} DotUnit(u: Vec, i: nat)
    requires i < |u|
    ensures Dot(u, Unit(|u|, i)) == u[i]
  {
    var e := Unit(|u|, i);
    if i == 0 {
      DotZerosTail(u[1..], e[1..]);
    } else {
      assert e[1..] == Unit(|u| - 1, i - 1);
      DotUnit(u[1..], i - 1);
    }
  }

  lemma {:induction false} DotZerosTail(u: Vec, z: Vec)
    requires |u| == |z| && forall k :: 0 <= k < |z| ==> z[k] == 0.0
    ensures Dot(u, z) == 0.0
  {
    if |u| > 0 {
      DotZerosTail(u[1..], z[1..]);
    }
  }

  lemma {:induction false} DotScale(u: Vec, v: Vec, k: real)
    requires |u| == |v|
    ensures Dot(u, Scale(v, k)) == Dot(u, v) * k
  {
    if |u| > 0 {
      assert forall i :: 0 <= i < |v| - 1 ==> Scale(v, k)[1..][i] == Scale(v[1..], k)[i];
      assert Scale(v, k)[1..] == Scale(v[1..], k);
      DotScale(u[1..], v[1..], k);
    }
  }

  /** The zero vector is mapped to the zero vector. */
  lemma MatVecZeros(m: Mat, n: nat)
    requires forall i :: 0 <= i < |m| ==> |m[i]| == n
    ensures MatVec(m, Zeros(n)) == Zeros(|m|)
  {
    forall i | 0 <= i < |m| ensures MatVec(m, Zeros(n))[i] == 0.0 {
      DotZeros(m[i]);
    }
  }

  /** Multiplying by the i-th unit vector selects column i. */
  lemma MatVecUnit(m: Mat, n: nat, i: nat)
    requires i < n && forall r :: 0 <= r < |m| ==> |m[r]| == n
    ensures MatVec(m, Unit(n, i)) == Column(m, i)
  {
    forall r | 0 <= r < |m| ensures MatVec(m, Unit(n, i))[r] == m[r][i] {
      DotUnit(m[r], i);
    }
  }

  /** Matrix-vector product commutes with scaling the vector. */
  lemma MatVecScale(m: Mat, v: Vec, k: real)
    requires forall i :: 0 <= i < |m| ==> |m[i]| == |v|
    ensures MatVec(m, Scale(v, k)) == Scale(MatVec(m, v), k)
  {
    forall i | 0 <= i < |m| ensures MatVec(m, Scale(v, k))[i] == MatVec(m, v)[i] * k {
      DotScale(m[i], v, k);
    }
  }
}
