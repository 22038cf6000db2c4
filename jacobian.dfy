/**
 * The geometric Jacobian of the arm, the approximate comparison with the
 * tolerance `eps`, the singularity test on the Jacobian's determinant and the
 * Cartesian velocity the Jacobian maps joint velocities to.
 */
module Jacobians {
  import opened Matrices
  import opened Transforms
  import opened Kinematics

  /** The tolerance `eps` = 1e-9 of every approximate comparison. */
  const Eps: real := 0.000000001

  function Abs(x: real): real {
    if x < 0.0 then -x else x
  }

  /** `eq`: `a` and `b` are closer than `Eps`. */
  function Eq(a: real, b: real): (r: bool)
    ensures r <==> b - Eps < a < b + Eps
  {
    Abs(a - b) < Eps
  }

  /** The frames with the base frame (the 4x4 identity) put in front: entry i is the frame of joint i's axis. */
  function AxisFrames(frames: seq<Mat>): (fks: seq<Mat>)
    requires AllMat4(frames)
    ensures |fks| == |frames| + 1 && AllMat4(fks)
    ensures fks[0] == Identity(4) && fks[1..] == frames
  {
    [Identity(4)] + frames
  }

  /** Column `i` of the Jacobian: z_i x (o_ee - o_i) above z_i, with the end effector the last frame. */
  function JacobianColumn(frames: seq<Mat>, i: nat): (col: Vec)
    requires |frames| >= 5 && AllMat4(frames) && i < 6
    ensures |col| == 6
  {
    var fks := AxisFrames(frames);
    var ee := fks[|fks| - 1];
    var z := ZAxis(fks[i]);
    Cross(z, Sub(Origin(ee), Origin(fks[i]))) + z
  }

  /** The 6x6 Jacobian whose columns are the `JacobianColumn`s. */
  function JacobianOf(frames: seq<Mat>): (j: Mat)
    requires |frames| >= 5 && AllMat4(frames)
    ensures IsMatrix(j, 6, 6)
  {
    seq(6, r requires 0 <= r < 6 => seq(6, c requires 0 <= c < 6 => JacobianColumn(frames, c)[r]))
  }

  /** `jacobian`: fills a zero 6x6 array column by column. */
  method Jacobian(frames: seq<Mat>) returns (J: array2<real>)
    requires |frames| >= 5 && AllMat4(frames)
    ensures fresh(J) && J.Length0 == 6 && J.Length1 == 6
    ensures forall r, c :: 0 <= r < 6 && 0 <= c < 6 ==> J[r, c] == JacobianOf(frames)[r][c]
  {
    var fks := [Identity(4)] + frames;
    var ee := fks[|fks| - 1];
    J := new real[6, 6]((r, c) => 0.0);
    for i := 0 to 6
      invariant forall r, c :: 0 <= r < 6 && 0 <= c < i ==> J[r, c] == JacobianColumn(frames, c)[r]
    {
      var z := ZAxis(fks[i]);
      var oDiff := Sub(Origin(ee), Origin(fks[i]));
      var col := Cross(z, oDiff) + z;
      assert col == JacobianColumn(frames, i);
      for r := 0 to 6
        invariant forall r', c :: 0 <= r' < 6 && 0 <= c < i ==> J[r', c] == JacobianColumn(frames, c)[r']
        invariant forall r' :: 0 <= r' < r ==> J[r', i] == col[r']
      {
        J[r, i] := col[r];
      }
    }
  }

  /** Rows 3..5 of column i are the z axis of frame i; for the base frame that is (0, 0, 1). */
  lemma JacobianAngular(frames: seq<Mat>, i: nat)
    requires |frames| >= 5 && AllMat4(frames) && i < 6
    ensures [JacobianOf(frames)[3][i], JacobianOf(frames)[4][i], JacobianOf(frames)[5][i]]
      == ZAxis(AxisFrames(frames)[i])
    ensures i == 0 ==>
      [JacobianOf(frames)[3][0], JacobianOf(frames)[4][0], JacobianOf(frames)[5][0]] == [0.0, 0.0, 1.0]
  {
    var j, z := JacobianOf(frames), ZAxis(AxisFrames(frames)[i]);
    assert j[3][i] == z[0] && j[4][i] == z[1] && j[5][i] == z[2];
  }

  /** The linear part of every column is orthogonal to its angular part. */
  lemma JacobianColumnOrthogonal(frames: seq<Mat>, i: nat)
    requires |frames| >= 5 && AllMat4(frames) && i < 6
    ensures var j := JacobianOf(frames);
      j[0][i] * j[3][i] + j[1][i] * j[4][i] + j[2][i] * j[5][i] == 0.0
  {
    var fks := AxisFrames(frames);
    var z := ZAxis(fks[i]);
    var d := Sub(Origin(fks[|fks| - 1]), Origin(fks[i]));
    CrossOrthogonal(z, d);
    var j := JacobianOf(frames);
    assert j[0][i] == Cross(z, d)[0] && j[1][i] == Cross(z, d)[1] && j[2][i] == Cross(z, d)[2];
    assert j[3][i] == z[0] && j[4][i] == z[1] && j[5][i] == z[2];
  }

  /** The base column: z0 = (0, 0, 1) and o0 = 0, so its linear part is (-y_ee, x_ee, 0). */
  lemma JacobianBaseColumn(frames: seq<Mat>)
    requires |frames| >= 5 && AllMat4(frames)
    ensures var j, ee := JacobianOf(frames), frames[|frames| - 1];
      j[0][0] == -ee[1][3] && j[1][0] == ee[0][3] && j[2][0] == 0.0
  {
    var fks := AxisFrames(frames);
    var ee := frames[|frames| - 1];
    assert fks[|fks| - 1] == ee;
    var z := ZAxis(fks[0]);
    assert z == [0.0, 0.0, 1.0];
    var d := Sub(Origin(ee), Origin(fks[0]));
    assert Origin(fks[0]) == [0.0, 0.0, 0.0];
    assert d[0] == ee[0][3] && d[1] == ee[1][3];
    var j := JacobianOf(frames);
    assert j[0][0] == Cross(z, d)[0] && j[1][0] == Cross(z, d)[1] && j[2][0] == Cross(z, d)[2];
  }

  /** A vector crossed with a multiple of itself is zero. */
  lemma CrossParallel(u: Vec, k: real)
    requires |u| == 3
    ensures Cross(u, Scale(u, k)) == [0.0, 0.0, 0.0]
  {
    var v := Scale(u, k);
    assert v[0] == u[0] * k && v[1] == u[1] * k && v[2] == u[2] * k;
    assert u[1] * (u[2] * k) - u[2] * (u[1] * k) == 0.0;
    assert u[2] * (u[0] * k) - u[0] * (u[2] * k) == 0.0;
    assert u[0] * (u[1] * k) - u[1] * (u[0] * k) == 0.0;
    var c := Cross(u, v);
    assert c[0] == 0.0 && c[1] == 0.0 && c[2] == 0.0;
  }

  /**
   * For the arm's own frames the last joint axis passes through the end effector,
   * so the linear part of the last column is zero.
   */
  lemma JacobianLastColumnLinearZero(qs: seq<Angle>)
    requires |qs| >= N
    ensures var j := JacobianOf(Frames(qs));
      j[0][5] == 0.0 && j[1][5] == 0.0 && j[2][5] == 0.0
  {
    var frames := Frames(qs);
    var fks := AxisFrames(frames);
    assert fks[5] == frames[4] && fks[6] == frames[5];
    EndEffectorOnLastAxis(qs);
    var z := ZAxis(frames[4]);
    var d := Sub(Origin(frames[5]), Origin(frames[4]));
    assert d == Scale(z, L5 + L6) by {
      var o4 := Origin(frames[4]);
      assert Origin(frames[5]) == Add(o4, Scale(z, L5 + L6));
      forall r | 0 <= r < 3 ensures d[r] == Scale(z, L5 + L6)[r] {
        assert d[r] + o4[r] == Origin(frames[5])[r];
      }
    }
    CrossParallel(z, L5 + L6);
    var j := JacobianOf(frames);
    assert j[0][5] == Cross(z, d)[0] && j[1][5] == Cross(z, d)[1] && j[2][5] == Cross(z, d)[2];
  }

  /** `check_singular`: the determinant is within `Eps` of zero. */
  function CheckSingular(det: Mat -> real, j: Mat): (singular: bool)
    ensures singular <==> -Eps < det(j) < Eps
  {
    Eq(det(j), 0.0)
  }

  /** `cartesian_velocity`: the Jacobian applied to the joint velocities. */
  function CartesianVelocity(j: Mat, qDot: Vec): (v: Vec)
    requires forall r :: 0 <= r < |j| ==> |j[r]| == |qDot|
    ensures |v| == |j|
  {
    MatVec(j, qDot)
  }

  /** Moving joint i alone at unit speed gives column i of the Jacobian. */
  lemma CartesianVelocitySingleJoint(j: Mat, i: nat)
    requires IsMatrix(j, 6, 6) && i < 6
    ensures CartesianVelocity(j, Unit(6, i)) == Column(j, i)
  {
    MatVecUnit(j, 6, i);
  }

  /** Joints at rest give no Cartesian velocity. */
  lemma CartesianVelocityAtRest(j: Mat)
    requires IsMatrix(j, 6, 6)
    ensures CartesianVelocity(j, Zeros(6)) == Zeros(6)
  {
    MatVecZeros(j, 6);
  }

  /** Scaling the joint velocities scales the Cartesian velocity. */
  lemma CartesianVelocityScale(j: Mat, qDot: Vec, k: real)
    requires forall r :: 0 <= r < |j| ==> |j[r]| == |qDot|
    ensures CartesianVelocity(j, Scale(qDot, k)) == Scale(CartesianVelocity(j, qDot), k)
  {
    MatVecScale(j, qDot, k);
  }
}
