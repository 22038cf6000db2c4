/**
 * The Denavit-Hartenberg table of the 6-joint arm, the closed form of each
 * joint's transform, and forward kinematics as the running product of the
 * six joint transforms.
 */
module Kinematics {
  import opened Matrices
  import opened Transforms

  /** Number of joints. */
  const N: nat := 6

  /** Link lengths l1 .. l6. */
  const L1: real := 1.0
  const L2: real := 1.0
  const L3: real := 1.0
  const L4: real := 1.0
  const L5: real := 1.0
  const L6: real := 1.0

  /**
   * One row of the DH table: a fixed offset added to the joint angle, the
   * offset `d` along the new z axis, the length `a` along the new x axis and
   * the twist `alpha` about the new x axis.
   */
  datatype DhRow = DhRow(offset: Angle, d: real, a: real, alpha: Angle)

  const DhTable: seq<DhRow> := [
    DhRow(ZeroAngle, L1, 0.0, HalfPi),
    DhRow(ZeroAngle, 0.0, L2, ZeroAngle),
    DhRow(ZeroAngle, 0.0, L3, MinusHalfPi),
    DhRow(ZeroAngle, L4, 0.0, MinusHalfPi),
    DhRow(MinusHalfPi, 0.0, 0.0, MinusHalfPi),
    DhRow(ZeroAngle, L5 + L6, 0.0, ZeroAngle)
  ]

  /** The composition order of every joint: Rz(q + offset), Tz(d), Tx(a), Rx(alpha). */
  function DhChain(row: DhRow, q: Angle): (args: seq<Elementary>)
    ensures |args| == 4
  {
    [Rot(Z, AddAngle(q, row.offset)), Trans(Z, row.d), Trans(X, row.a), Rot(X, row.alpha)]
  }

  /** The standard DH matrix for joint angle (c, s), twist (ca, sa), length a and offset d. */
  function DhForm(c: real, s: real, ca: real, sa: real, a: real, d: real): (m: Mat)
    ensures IsHomogeneous(m)
  {
    [[c, -s * ca, s * sa, a * c],
     [s, c * ca, -c * sa, a * s],
     [0.0, sa, ca, d],
     [0.0, 0.0, 0.0, 1.0]]
  }

  /** Closed form of the transform of a joint with DH row `row` at angle `q`. */
  function DhMatrix(row: DhRow, q: Angle): (m: Mat)
    ensures IsHomogeneous(m)
  {
    var t := AddAngle(q, row.offset);
    DhForm(t.c, t.s, row.alpha.c, row.alpha.s, row.a, row.d)
  }

  lemma ElementaryLiterals(q: Angle, d: real)
    ensures RotH(Z, q) == [[q.c, -q.s, 0.0, 0.0], [q.s, q.c, 0.0, 0.0], [0.0, 0.0, 1.0, 0.0], [0.0, 0.0, 0.0, 1.0]]
    ensures RotH(X, q) == [[1.0, 0.0, 0.0, 0.0], [0.0, q.c, -q.s, 0.0], [0.0, q.s, q.c, 0.0], [0.0, 0.0, 0.0, 1.0]]
    ensures TransH(Z, d) == [[1.0, 0.0, 0.0, 0.0], [0.0, 1.0, 0.0, 0.0], [0.0, 0.0, 1.0, d], [0.0, 0.0, 0.0, 1.0]]
    ensures TransH(X, d) == [[1.0, 0.0, 0.0, d], [0.0, 1.0, 0.0, 0.0], [0.0, 0.0, 1.0, 0.0], [0.0, 0.0, 0.0, 1.0]]
  {
    var i3 := Identity(3);
    assert i3 == [[1.0, 0.0, 0.0], [0.0, 1.0, 0.0], [0.0, 0.0, 1.0]] by {
      assert i3[0] == [1.0, 0.0, 0.0];
      assert i3[1] == [0.0, 1.0, 0.0];
      assert i3[2] == [0.0, 0.0, 1.0];
    }
  }

  /** First step of the DH product: Rz(theta) Tz(d). */
  lemma RzTz(c: real, s: real, d: real)
    ensures MatMul([[c, -s, 0.0, 0.0], [s, c, 0.0, 0.0], [0.0, 0.0, 1.0, 0.0], [0.0, 0.0, 0.0, 1.0]],
                   [[1.0, 0.0, 0.0, 0.0], [0.0, 1.0, 0.0, 0.0], [0.0, 0.0, 1.0, d], [0.0, 0.0, 0.0, 1.0]])
         == [[c, -s, 0.0, 0.0], [s, c, 0.0, 0.0], [0.0, 0.0, 1.0, d], [0.0, 0.0, 0.0, 1.0]]
  {
    MatMulEquals([[c, -s, 0.0, 0.0], [s, c, 0.0, 0.0], [0.0, 0.0, 1.0, 0.0], [0.0, 0.0, 0.0, 1.0]],
                 [[1.0, 0.0, 0.0, 0.0], [0.0, 1.0, 0.0, 0.0], [0.0, 0.0, 1.0, d], [0.0, 0.0, 0.0, 1.0]],
                 [[c, -s, 0.0, 0.0], [s, c, 0.0, 0.0], [0.0, 0.0, 1.0, d], [0.0, 0.0, 0.0, 1.0]]);
  }

  /** Second step of the DH product: (Rz(theta) Tz(d)) Tx(a). */
  lemma RzTzTx(c: real, s: real, d: real, a: real)
    ensures MatMul([[c, -s, 0.0, 0.0], [s, c, 0.0, 0.0], [0.0, 0.0, 1.0, d], [0.0, 0.0, 0.0, 1.0]],
                   [[1.0, 0.0, 0.0, a], [0.0, 1.0, 0.0, 0.0], [0.0, 0.0, 1.0, 0.0], [0.0, 0.0, 0.0, 1.0]])
         == [[c, -s, 0.0, a * c], [s, c, 0.0, a * s], [0.0, 0.0, 1.0, d], [0.0, 0.0, 0.0, 1.0]]
  {
    MatMulEquals([[c, -s, 0.0, 0.0], [s, c, 0.0, 0.0], [0.0, 0.0, 1.0, d], [0.0, 0.0, 0.0, 1.0]],
                 [[1.0, 0.0, 0.0, a], [0.0, 1.0, 0.0, 0.0], [0.0, 0.0, 1.0, 0.0], [0.0, 0.0, 0.0, 1.0]],
                 [[c, -s, 0.0, a * c], [s, c, 0.0, a * s], [0.0, 0.0, 1.0, d], [0.0, 0.0, 0.0, 1.0]]);
  }

  /** Last step of the DH product: (Rz(theta) Tz(d) Tx(a)) Rx(alpha). */
  lemma RzTzTxRx(c: real, s: real, d: real, a: real, ca: real, sa: real)
    ensures MatMul([[c, -s, 0.0, a * c], [s, c, 0.0, a * s], [0.0, 0.0, 1.0, d], [0.0, 0.0, 0.0, 1.0]],
                   [[1.0, 0.0, 0.0, 0.0], [0.0, ca, -sa, 0.0], [0.0, sa, ca, 0.0], [0.0, 0.0, 0.0, 1.0]])
         == DhForm(c, s, ca, sa, a, d)
  {
    MatMulEquals([[c, -s, 0.0, a * c], [s, c, 0.0, a * s], [0.0, 0.0, 1.0, d], [0.0, 0.0, 0.0, 1.0]],
                 [[1.0, 0.0, 0.0, 0.0], [0.0, ca, -sa, 0.0], [0.0, sa, ca, 0.0], [0.0, 0.0, 0.0, 1.0]],
                 DhForm(c, s, ca, sa, a, d));
  }

  /**
   * Multiplying out Rz(theta) Tz(d) Tx(a) Rx(alpha) gives the standard DH matrix:
   * the composition order is the one the closed form depends on.
   */
  lemma DhClosedForm(row: DhRow, q: Angle)
    ensures Product(ElemMatrices(DhChain(row, q))) == DhMatrix(row, q)
  {
    var t := AddAngle(q, row.offset);
    var c, s, d, a := t.c, t.s, row.d, row.a;
    var ca, sa := row.alpha.c, row.alpha.s;
    ElementaryLiterals(t, d);
    ElementaryLiterals(row.alpha, a);
    var ms := ElemMatrices(DhChain(row, q));
    assert ms == [RotH(Z, t), TransH(Z, d), TransH(X, a), RotH(X, row.alpha)];
    assert ms[..1] == [ms[0]];
    assert ms[..2] == [ms[0], ms[1]] && ms[..2][..1] == [ms[0]];
    assert ms[..3] == [ms[0], ms[1], ms[2]] && ms[..3][..2] == [ms[0], ms[1]];
    assert Product(ms[..1]) == ms[0];
    RzTz(c, s, d);
    var m1 := Product(ms[..2]);
    assert m1 == [[c, -s, 0.0, 0.0], [s, c, 0.0, 0.0], [0.0, 0.0, 1.0, d], [0.0, 0.0, 0.0, 1.0]];
    RzTzTx(c, s, d, a);
    var m2 := Product(ms[..3]);
    assert m2 == [[c, -s, 0.0, a * c], [s, c, 0.0, a * s], [0.0, 0.0, 1.0, d], [0.0, 0.0, 0.0, 1.0]];
    RzTzTxRx(c, s, d, a, ca, sa);
    assert ms[3] == [[1.0, 0.0, 0.0, 0.0], [0.0, ca, -sa, 0.0], [0.0, sa, ca, 0.0], [0.0, 0.0, 0.0, 1.0]];
    assert Product(ms) == MatMul(m2, ms[3]);
  }

  /** The columns (c, s, 0), (-s ca, c ca, sa), (s sa, -c sa, ca) of the DH rotation block are orthonormal. */
  lemma DhColumnsGram(c: real, s: real, ca: real, sa: real)
    requires c * c + s * s == 1.0 && ca * ca + sa * sa == 1.0
    ensures Dot3([c, s, 0.0], [c, s, 0.0]) == 1.0
    ensures Dot3([-s * ca, c * ca, sa], [-s * ca, c * ca, sa]) == 1.0
    ensures Dot3([s * sa, -c * sa, ca], [s * sa, -c * sa, ca]) == 1.0
    ensures Dot3([c, s, 0.0], [-s * ca, c * ca, sa]) == 0.0
    ensures Dot3([c, s, 0.0], [s * sa, -c * sa, ca]) == 0.0
    ensures Dot3([-s * ca, c * ca, sa], [s * sa, -c * sa, ca]) == 0.0
  {
    assert (-s * ca) * (-s * ca) + (c * ca) * (c * ca) == ca * ca * (c * c + s * s);
    assert (s * sa) * (s * sa) + (-c * sa) * (-c * sa) == sa * sa * (c * c + s * s);
    assert (-s * ca) * (s * sa) + (c * ca) * (-c * sa) == -(ca * sa) * (c * c + s * s);
  }

  /** For unit (c, s) and (ca, sa) the rotation block of the DH matrix has orthonormal columns. */
  lemma DhBlockOrthonormal(c: real, s: real, ca: real, sa: real, a: real, d: real)
    requires c * c + s * s == 1.0 && ca * ca + sa * sa == 1.0
    ensures OrthonormalBlock(DhForm(c, s, ca, sa, a, d))
  {
    var m := DhForm(c, s, ca, sa, a, d);
    assert BlockColumn(m, 0) == [c, s, 0.0];
    assert BlockColumn(m, 1) == [-s * ca, c * ca, sa];
    assert BlockColumn(m, 2) == [s * sa, -c * sa, ca];
    DhColumnsGram(c, s, ca, sa);
  }

  /** The same for a joint angle `t` and a twist `alpha` on the unit circle. */
  lemma DhFormOrthonormal(t: Angle, alpha: Angle, a: real, d: real)
    requires IsUnit(t) && IsUnit(alpha)
    ensures OrthonormalBlock(DhForm(t.c, t.s, alpha.c, alpha.s, a, d))
  {
    DhBlockOrthonormal(t.c, t.s, alpha.c, alpha.s, a, d);
  }

  /** Every offset and twist in the DH table lies on the unit circle. */
  lemma DhTableUnit(k: nat)
    requires k < N
    ensures IsUnit(DhTable[k].offset) && IsUnit(DhTable[k].alpha)
  {
  }

  /** Every joint transform at an angle on the unit circle has an orthonormal rotation block. */
  lemma DhMatrixOrthonormal(k: nat, q: Angle)
    requires k < N && IsUnit(q)
    ensures OrthonormalBlock(DhMatrix(DhTable[k], q))
  {
    var row := DhTable[k];
    DhTableUnit(k);
    AddAngleUnit(q, row.offset);
    DhFormOrthonormal(AddAngle(q, row.offset), row.alpha, row.a, row.d);
  }

  /** The joint transforms `ts_num[j](q_j)`, j = 0 .. 5. */
  function JointTransforms(qs: seq<Angle>): (ts: seq<Mat>)
    requires |qs| >= N
    ensures |ts| == N && AllHomogeneous(ts)
  {
    seq(N, j requires 0 <= j < N => DhMatrix(DhTable[j], qs[j]))
  }

  /** The six link frames in base coordinates: frame i is the product of joint transforms 0 .. i. */
  function Frames(qs: seq<Angle>): (fs: seq<Mat>)
    requires |qs| >= N
    ensures |fs| == N && AllHomogeneous(fs)
  {
    PrefixProductsHomogeneous(JointTransforms(qs));
    PrefixProducts(JointTransforms(qs))
  }

  /** Frame 0 is joint 0's transform and frame i is frame i - 1 times joint i's transform. */
  lemma FramesRecurrence(qs: seq<Angle>, i: nat)
    requires |qs| >= N && 0 < i < N
    ensures Frames(qs)[0] == DhMatrix(DhTable[0], qs[0])
    ensures Frames(qs)[i] == MatMul(Frames(qs)[i - 1], DhMatrix(DhTable[i], qs[i]))
  {
    PrefixProductsStep(JointTransforms(qs), i);
  }

  /** For joint angles on the unit circle every link frame has an orthonormal rotation block. */
  lemma {:induction false} FramesOrthonormal(qs: seq<Angle>, i: nat)
    requires |qs| >= N && (forall j :: 0 <= j < N ==> IsUnit(qs[j])) && i < N
    ensures OrthonormalBlock(Frames(qs)[i])
  {
    DhMatrixOrthonormal(i, qs[i]);
    if i == 0 {
      FramesRecurrence(qs, 1);
    } else {
      FramesRecurrence(qs, i);
      FramesOrthonormal(qs, i - 1);
      MatMulOrthonormal(Frames(qs)[i - 1], DhMatrix(DhTable[i], qs[i]));
    }
  }

  /** Each joint transform is the composition of its four elementary transforms. */
  method GetDh(qs: seq<Angle>) returns (ts: seq<Mat>)
    requires |qs| == N
    ensures ts == JointTransforms(qs)
    ensures forall j :: 0 <= j < N ==> ts[j] == Product(ElemMatrices(DhChain(DhTable[j], qs[j])))
  {
    ts := [];
    for j := 0 to N
      invariant |ts| == j
      invariant forall k :: 0 <= k < j ==> ts[k] == DhMatrix(DhTable[k], qs[k])
      invariant forall k :: 0 <= k < j ==> ts[k] == Product(ElemMatrices(DhChain(DhTable[k], qs[k])))
    {
      var m := ComposeT(DhChain(DhTable[j], qs[j]));
      DhClosedForm(DhTable[j], qs[j]);
      ts := ts + [m];
    }
  }

  /** What `get_fk_solution` returns for a flag: the end-effector frame, all frames, or nothing. */
  datatype FkOutput = EndEffector(pose: Mat) | AllFrames(frames: seq<Mat>) | NoOutput

  /** Forward kinematics: joint transforms multiplied in place into the running products. */
  method FkSolution(qs: seq<Angle>, flag: string) returns (r: FkOutput)
    requires |qs| >= N
    ensures flag == "ee" ==> r == EndEffector(Frames(qs)[N - 1])
    ensures flag == "full" ==> r == AllFrames(Frames(qs)) && |r.frames| == N
    ensures flag != "ee" && flag != "full" ==> r == NoOutput
  {
    var ts := new Mat[N];
    for j := 0 to N
      invariant forall k :: 0 <= k < j ==> ts[k] == DhMatrix(DhTable[k], qs[k])
    {
      ts[j] := DhMatrix(DhTable[j], qs[j]);
    }
    assert ts[..] == JointTransforms(qs);
    PrefixProductsInPlace(ts);
    if flag == "ee" {
      r := EndEffector(ts[N - 1]);
    } else if flag == "full" {
      r := AllFrames(ts[..]);
    } else {
      r := NoOutput;
    }
  }

  /** The origin of `f * t` is `f` applied to the origin of `t`. */
  lemma OriginOfProduct(f: Mat, t: Mat)
    requires IsHomogeneous(f) && IsHomogeneous(t)
    ensures Origin(MatMul(f, t)) == [
      f[0][0] * t[0][3] + f[0][1] * t[1][3] + f[0][2] * t[2][3] + f[0][3],
      f[1][0] * t[0][3] + f[1][1] * t[1][3] + f[1][2] * t[2][3] + f[1][3],
      f[2][0] * t[0][3] + f[2][1] * t[1][3] + f[2][2] * t[2][3] + f[2][3]]
  {
    assert t[3][3] == 1.0;
    var p := MatMul(f, t);
    MatMulAt(f, t, 0, 3);
    MatMulAt(f, t, 1, 3);
    MatMulAt(f, t, 2, 3);
    assert p[0][3] == f[0][0] * t[0][3] + f[0][1] * t[1][3] + f[0][2] * t[2][3] + f[0][3];
    assert p[1][3] == f[1][0] * t[0][3] + f[1][1] * t[1][3] + f[1][2] * t[2][3] + f[1][3];
    assert p[2][3] == f[2][0] * t[0][3] + f[2][1] * t[1][3] + f[2][2] * t[2][3] + f[2][3];
    assert Origin(p) == [p[0][3], p[1][3], p[2][3]];
  }

  /** Frames 3 and 4 share their origin (the wrist centre): joint 4's transform is a pure rotation. */
  lemma WristCentre(qs: seq<Angle>)
    requires |qs| >= N
    ensures Origin(Frames(qs)[4]) == Origin(Frames(qs)[3])
  {
    FramesRecurrence(qs, 4);
    var f, t := Frames(qs)[3], DhMatrix(DhTable[4], qs[4]);
    assert t[0][3] == 0.0 && t[1][3] == 0.0 && t[2][3] == 0.0;
    OriginOfProduct(f, t);
  }

  /** Post-multiplying by a transform that only moves `d` along z moves the origin `d` along the z axis. */
  lemma OriginAlongZ(f: Mat, t: Mat, d: real)
    requires IsHomogeneous(f) && IsHomogeneous(t)
    requires t[0][3] == 0.0 && t[1][3] == 0.0 && t[2][3] == d
    ensures Origin(MatMul(f, t)) == Add(Origin(f), Scale(ZAxis(f), d))
  {
    OriginOfProduct(f, t);
    var o, e := Origin(MatMul(f, t)), Add(Origin(f), Scale(ZAxis(f), d));
    assert o[0] == e[0] && o[1] == e[1] && o[2] == e[2];
  }

  /** The end effector sits l5 + l6 along the z axis of frame 4. */
  lemma EndEffectorOnLastAxis(qs: seq<Angle>)
    requires |qs| >= N
    ensures Origin(Frames(qs)[5]) == Add(Origin(Frames(qs)[4]), Scale(ZAxis(Frames(qs)[4]), L5 + L6))
  {
    FramesRecurrence(qs, 5);
    var t := DhMatrix(DhTable[5], qs[5]);
    assert t[0][3] == 0.0 && t[1][3] == 0.0 && t[2][3] == L5 + L6;
    OriginAlongZ(Frames(qs)[4], t, L5 + L6);
  }


}
