/**
 * Elementary homogeneous transforms (a rotation about, or a translation along,
 * one coordinate axis), their composition as a left-to-right product, and the
 * in-place running-product loop shared by composition and forward kinematics.
 *
 * A symbolic angle q is represented by the pair (cos q, sin q); a matrix that
 * depends on q is a matrix whose entries are built from that pair.
 */
module Transforms {
  import opened Matrices

  datatype Axis = X | Y | Z

  /** An angle given by its cosine `c` and its sine `s`. */
  datatype Angle = Angle(c: real, s: real)

  const ZeroAngle: Angle := Angle(1.0, 0.0)
  const HalfPi: Angle := Angle(0.0, 1.0)
  const MinusHalfPi: Angle := Angle(0.0, -1.0)

  /** The angle q + o, by the angle-addition formulas for cosine and sine. */
  function AddAngle(q: Angle, o: Angle): (r: Angle)
    ensures o == ZeroAngle ==> r == q
    ensures o == MinusHalfPi ==> r == Angle(q.s, -q.c)
  {
    Angle(q.c * o.c - q.s * o.s, q.s * o.c + q.c * o.s)
  }

  /** The pair lies on the unit circle, as (cos q, sin q) does for every real angle q. */
  predicate IsUnit(q: Angle)
  {
    q.c * q.c + q.s * q.s == 1.0
  }

  /** The sum of two angles on the unit circle is on the unit circle. */
  lemma AddAngleUnit(q: Angle, o: Angle)
    requires IsUnit(q) && IsUnit(o)
    ensures IsUnit(AddAngle(q, o))
  {
    var r := AddAngle(q, o);
    calc {
      r.c * r.c + r.s * r.s;
    ==
      (q.c * q.c + q.s * q.s) * (o.c * o.c + o.s * o.s);
    ==
      1.0;
    }
  }

  /** Index of an axis in a 3-vector. */
  function AxisIndex(axis: Axis): (k: nat)
    ensures k < 3
  {
    match axis
    case X => 0
    case Y => 1
    case Z => 2
  }

  /** One entry of the argument lists given to `compose_T_symb`. */
  datatype Elementary =
    | Rot(axis: Axis, angle: Angle)
    | Trans(axis: Axis, distance: real)

  /** The 3x3 rotation about `axis` by `q`. */
  function Rot33(axis: Axis, q: Angle): (r: Mat)
    ensures IsMatrix(r, 3, 3)
  {
    var c, s := q.c, q.s;
    match axis
    case Z => [[c, -s, 0.0], [s, c, 0.0], [0.0, 0.0, 1.0]]
    case Y => [[c, 0.0, s], [0.0, 1.0, 0.0], [-s, 0.0, c]]
    case X => [[1.0, 0.0, 0.0], [0.0, c, -s], [0.0, s, c]]
  }

  /** The 3x1 translation by `d` along `axis`. */
  function Trans31(axis: Axis, d: real): (t: Mat)
    ensures IsMatrix(t, 3, 1)
  {
    match axis
    case Z => [[0.0], [0.0], [d]]
    case Y => [[0.0], [d], [0.0]]
    case X => [[d], [0.0], [0.0]]
  }

  /** Homogeneous rotation: `Rot33` in the upper-left block of the 4x4 identity. */
  function RotH(axis: Axis, q: Angle): (m: Mat)
    ensures IsHomogeneous(m)
    ensures RotationBlock(m) == Rot33(axis, q) && Origin(m) == [0.0, 0.0, 0.0]
  {
    HomogeneousOf(Rot33(axis, q), [0.0, 0.0, 0.0])
  }

  /** Homogeneous translation: `Trans31` in the last column of the 4x4 identity. */
  function TransH(axis: Axis, d: real): (m: Mat)
    ensures IsHomogeneous(m)
    ensures RotationBlock(m) == Identity(3) && Origin(m) == Column(Trans31(axis, d), 0)
  {
    HomogeneousOf(Identity(3), Column(Trans31(axis, d), 0))
  }

  /** The matrix `get_T` returns for one argument entry. */
  function ElemH(e: Elementary): (m: Mat)
    ensures IsHomogeneous(m)
  {
    match e
    case Rot(axis, q) => RotH(axis, q)
    case Trans(axis, d) => TransH(axis, d)
  }

  function ElemMatrices(args: seq<Elementary>): (ms: seq<Mat>)
    ensures |ms| == |args| && AllHomogeneous(ms)
    ensures forall k :: 0 <= k < |args| ==> ms[k] == ElemH(args[k]) && IsHomogeneous(ms[k])
  {
    seq(|args|, k requires 0 <= k < |args| => ElemH(args[k]))
  }

  /** A rotation leaves its own axis fixed. */
  lemma RotationFixesAxis(axis: Axis, q: Angle)
    ensures Column(Rot33(axis, q), AxisIndex(axis)) == Unit(3, AxisIndex(axis))
    ensures Column(RotH(axis, q), AxisIndex(axis)) == Unit(4, AxisIndex(axis))
  {
  }

  /** A translation moves by exactly `d` along the named axis and not at all along the others. */
  lemma TranslationOnNamedAxis(axis: Axis, d: real)
    ensures Origin(TransH(axis, d)) == Scale(Unit(3, AxisIndex(axis)), d)
  {
    var o := Origin(TransH(axis, d));
    var e := Scale(Unit(3, AxisIndex(axis)), d);
    assert o == Column(Trans31(axis, d), 0);
    assert o[0] == e[0] && o[1] == e[1] && o[2] == e[2];
  }

  /** With cos^2 + sin^2 = 1, every elementary rotation block has orthonormal columns. */
  lemma RotationOrthonormal(axis: Axis, q: Angle)
    requires q.c * q.c + q.s * q.s == 1.0
    ensures forall i, j :: 0 <= i < 3 && 0 <= j < 3 ==>
      Rot33(axis, q)[0][i] * Rot33(axis, q)[0][j] + Rot33(axis, q)[1][i] * Rot33(axis, q)[1][j]
        + Rot33(axis, q)[2][i] * Rot33(axis, q)[2][j] == if i == j then 1.0 else 0.0
  {
  }

  /** Left-to-right product ms[0] * ms[1] * ... * ms[|ms| - 1]. */
  function Product(ms: seq<Mat>): (p: Mat)
    requires |ms| > 0 && AllMat4(ms)
    ensures IsMat4(p)
    decreases |ms|
  {
    if |ms| == 1 then ms[0] else MatMul(Product(ms[..|ms| - 1]), ms[|ms| - 1])
  }

  /** The running products: entry i is the product of entries 0..i. */
  function PrefixProducts(ms: seq<Mat>): (ps: seq<Mat>)
    requires AllMat4(ms)
    ensures |ps| == |ms| && AllMat4(ps)
  {
    seq(|ms|, i requires 0 <= i < |ms| => Product(ms[..i + 1]))
  }

  /** A product of homogeneous transforms keeps the bottom row [0, 0, 0, 1]. */
  lemma {:induction false} ProductHomogeneous(ms: seq<Mat>)
    requires |ms| > 0 && AllHomogeneous(ms)
    ensures IsHomogeneous(Product(ms))
    decreases |ms|
  {
    if |ms| > 1 {
      ProductHomogeneous(ms[..|ms| - 1]);
      MatMulHomogeneous(Product(ms[..|ms| - 1]), ms[|ms| - 1]);
    }
  }

  /** The running products satisfy p[0] = m[0] and p[i] = p[i - 1] * m[i]. */
  lemma PrefixProductsStep(ms: seq<Mat>, i: nat)
    requires AllMat4(ms) && 0 < i < |ms|
    ensures PrefixProducts(ms)[0] == ms[0]
    ensures PrefixProducts(ms)[i] == MatMul(PrefixProducts(ms)[i - 1], ms[i])
  {
    assert ms[..i + 1][..i] == ms[..i];
  }

  /** Every running product of homogeneous transforms is homogeneous. */
  lemma PrefixProductsHomogeneous(ms: seq<Mat>)
    requires AllHomogeneous(ms)
    ensures AllHomogeneous(PrefixProducts(ms))
  {
    forall i | 0 <= i < |ms| ensures IsHomogeneous(PrefixProducts(ms)[i]) {
      ProductHomogeneous(ms[..i + 1]);
    }
  }

  /** The last running product is the product of the whole list. */
  lemma PrefixProductsLast(ms: seq<Mat>)
    requires AllMat4(ms) && |ms| > 0
    ensures PrefixProducts(ms)[|ms| - 1] == Product(ms)
  {
    assert ms[..|ms|] == ms;
  }

  /**
   * The loop `t[i] = t[i-1] * t[i]` for i = 1 .. len - 1, run in place:
   * afterwards every entry holds the product of the original entries up to it.
   */
  method PrefixProductsInPlace(ts: array<Mat>)
    requires AllMat4(ts[..])
    modifies ts
    ensures ts[..] == PrefixProducts(old(ts[..]))
  {
    ghost var orig := ts[..];
    if ts.Length == 0 {
      return;
    }
    assert orig[..1] == [orig[0]];
    for i := 1 to ts.Length
      invariant forall k :: 0 <= k < i ==> ts[k] == Product(orig[..k + 1])
      invariant forall k :: i <= k < ts.Length ==> ts[k] == orig[k]
    {
      assert orig[..i + 1][..i] == orig[..i];
      ts[i] := MatMul(ts[i - 1], ts[i]);
    }
    assert ts[..] == PrefixProducts(orig);
  }

  /** Writes the block `b` into `t` with its top-left corner at (row0, col0): `t[r.., c..] = b`. */
  method AssignBlock(t: array2<real>, row0: nat, col0: nat, b: Mat)
    requires |b| > 0 && IsMatrix(b, |b|, |b[0]|)
    requires row0 + |b| <= t.Length0 && col0 + |b[0]| <= t.Length1
    modifies t
    ensures forall i, j :: 0 <= i < t.Length0 && 0 <= j < t.Length1 ==>
      t[i, j] == if row0 <= i < row0 + |b| && col0 <= j < col0 + |b[0]| then b[i - row0][j - col0] else old(t[i, j])
  {
    for r := 0 to |b|
      invariant forall i, j :: 0 <= i < t.Length0 && 0 <= j < t.Length1 ==>
        t[i, j] == if row0 <= i < row0 + r && col0 <= j < col0 + |b[0]| then b[i - row0][j - col0] else old(t[i, j])
    {
      for c := 0 to |b[0]|
        invariant forall i, j :: 0 <= i < t.Length0 && 0 <= j < t.Length1 ==>
          t[i, j] == if (row0 <= i < row0 + r && col0 <= j < col0 + |b[0]|) || (i == row0 + r && col0 <= j < col0 + c)
                     then b[i - row0][j - col0] else old(t[i, j])
      {
        t[row0 + r, col0 + c] := b[r][c];
      }
    }
  }

  /** The contents of a two-dimensional array as a matrix. */
  function Rows(t: array2<real>): (m: Mat)
    reads t
    ensures IsMatrix(m, t.Length0, t.Length1)
    ensures forall i, j :: 0 <= i < t.Length0 && 0 <= j < t.Length1 ==> m[i][j] == t[i, j]
  {
    seq(t.Length0, i requires 0 <= i < t.Length0 reads t =>
      seq(t.Length1, j requires 0 <= j < t.Length1 reads t => t[i, j]))
  }

  /** Starts from the 4x4 identity and overwrites the block at column `col0` with `b`. */
  method EmbedInIdentity(b: Mat, col0: nat) returns (m: Mat)
    requires |b| == 3 && IsMatrix(b, 3, |b[0]|) && col0 + |b[0]| <= 4
    ensures IsMat4(m)
    ensures forall i, j :: 0 <= i < 4 && 0 <= j < 4 ==>
      m[i][j] == if i < 3 && col0 <= j < col0 + |b[0]| then b[i][j - col0] else if i == j then 1.0 else 0.0
  {
    var t := new real[4, 4]((i, j) => if i == j then 1.0 else 0.0);
    AssignBlock(t, 0, col0, b);
    m := Rows(t);
  }

  /** The table of homogeneous rotations about z, y and x by `q`. */
  method RotSymb(q: Angle) returns (rh: map<Axis, Mat>)
    ensures rh.Keys == {X, Y, Z}
    ensures forall axis :: axis in rh ==> rh[axis] == RotH(axis, q)
  {
    var axes := [Z, Y, X];
    rh := map[];
    for k := 0 to 3
      invariant rh.Keys == set i | 0 <= i < k :: axes[i]
      invariant forall axis :: axis in rh ==> rh[axis] == RotH(axis, q)
    {
      var m := EmbedInIdentity(Rot33(axes[k], q), 0);
      Mat4Ext(m, RotH(axes[k], q));
      rh := rh[axes[k] := m];
    }
    assert rh.Keys == {axes[0], axes[1], axes[2]};
  }

  /** The table of homogeneous translations along z, y and x by `d`. */
  method TransSymb(d: real) returns (th: map<Axis, Mat>)
    ensures th.Keys == {X, Y, Z}
    ensures forall axis :: axis in th ==> th[axis] == TransH(axis, d)
  {
    var axes := [Z, Y, X];
    th := map[];
    for k := 0 to 3
      invariant th.Keys == set i | 0 <= i < k :: axes[i]
      invariant forall axis :: axis in th ==> th[axis] == TransH(axis, d)
    {
      var m := EmbedInIdentity(Trans31(axes[k], d), 3);
      Mat4Ext(m, TransH(axes[k], d));
      th := th[axes[k] := m];
    }
    assert th.Keys == {axes[0], axes[1], axes[2]};
  }

  /** The matrix of one elementary transform, looked up in the rotation or translation table. */
  method GetT(e: Elementary) returns (m: Mat)
    ensures m == ElemH(e)
  {
    match e
    case Rot(axis, q) =>
      var rh := RotSymb(q);
      assert axis.X? || axis.Y? || axis.Z?;
      m := rh[axis];
    case Trans(axis, d) =>
      var th := TransSymb(d);
      assert axis.X? || axis.Y? || axis.Z?;
      m := th[axis];
  }

  /** Composes a non-empty list of elementary transforms left to right. */
  method ComposeT(args: seq<Elementary>) returns (m: Mat)
    requires |args| > 0
    ensures m == Product(ElemMatrices(args))
    ensures IsHomogeneous(m)
  {
    var t := new Mat[|args|];
    for k := 0 to |args|
      invariant forall i :: 0 <= i < k ==> t[i] == ElemH(args[i])
    {
      t[k] := GetT(args[k]);
    }
    assert t[..] == ElemMatrices(args);
    PrefixProductsInPlace(t);
    m := t[|args| - 1];
    PrefixProductsLast(ElemMatrices(args));
    ProductHomogeneous(ElemMatrices(args));
  }
}
