/**
 * Decomposition of an end-effector transform into a pose: the translation
 * followed by three joint-like angles, computed for both signs of the
 * branch parameter `m2`.
 */
module PoseDecomposition {
  import opened Matrices
  import opened Jacobians

  /**
   * The floating-point library functions the decomposition calls, as values:
   * `cos`, `sin` and `atan2(y, x)`, and `divByZero(a)`, the value of `a / 0`
   * (an infinity or NaN in floating point, never an exception).
   */
  datatype Numerics = Numerics(
    cos: real -> real,
    sin: real -> real,
    atan2: (real, real) -> real,
    divByZero: real -> real)

  /** Floating-point division: `a / b`, or the library's value for `a / 0`. */
  function FDiv(env: Numerics, a: real, b: real): (q: real)
    ensures b != 0.0 ==> q * b == a
  {
    if b == 0.0 then env.divByZero(a) else a / b
  }

  /** The rotation is degenerate for the decomposition: W[0][2] is zero up to `Eps`. */
  predicate Degenerate(w: Mat)
    requires IsMat4(w)
  {
    Eq(Abs(w[0][2]), 0.0)
  }

  /**
   * The inner `go(m2)`: no angles when the pose is degenerate, otherwise
   * [q1, q2, q3], taking q2 from cos q3 when it is not zero and from sin q3 when it is.
   */
  function Go(env: Numerics, w: Mat, m2: real): (qs: seq<Vec>)
    requires IsMat4(w)
    ensures |qs| == 1
    ensures Degenerate(w) ==> qs[0] == []
    ensures !Degenerate(w) ==> |qs[0]| == 3 && qs[0][2] == env.atan2(-w[0][1] * m2, w[0][0] * m2)
  {
    if Degenerate(w) then [[]]
    else
      var q3 := env.atan2(-w[0][1] * m2, w[0][0] * m2);
      var c3 := env.cos(q3);
      if !Eq(c3, 0.0) then
        var q2 := env.atan2(w[0][2], w[0][0] / c3);
        var c2 := env.cos(q2);
        var q1 := env.atan2(FDiv(env, -w[1][2], c2), FDiv(env, w[2][2], c2));
        [[q1, q2, q3]]
      else
        var s3 := env.sin(q3);
        var q2 := env.atan2(w[0][2], FDiv(env, w[0][1], -s3));
        var c2 := env.cos(q2);
        var q1 := env.atan2(FDiv(env, -w[1][2], c2), FDiv(env, w[2][2], c2));
        [[q1, q2, q3]]
  }

  /** `decompose_transformation`: the translation of `w` followed by the angles of `go(-1)`, then of `go(1)`. */
  function Decompose(env: Numerics, w: Mat): (poses: seq<Vec>)
    requires IsMat4(w)
    ensures |poses| == 2
    ensures forall k :: 0 <= k < 2 ==> |poses[k]| >= 3 && poses[k][..3] == Origin(w)
    ensures forall k :: 0 <= k < 2 ==> |poses[k]| == if Degenerate(w) then 3 else 6
  {
    var q123 := Go(env, w, -1.0) + Go(env, w, 1.0);
    assert (Origin(w) + q123[0])[..3] == Origin(w) && (Origin(w) + q123[1])[..3] == Origin(w);
    [Origin(w) + q123[0], Origin(w) + q123[1]]
  }

  /**
   * Outside the degenerate case the first pose is the `m2 = -1` branch, whose last
   * angle is atan2(W01, -W00), and the second is the `m2 = 1` branch, atan2(-W01, W00).
   */
  lemma DecomposeBranchAngles(env: Numerics, w: Mat)
    requires IsMat4(w) && !Degenerate(w)
    ensures Decompose(env, w)[0][5] == env.atan2(w[0][1], -w[0][0])
    ensures Decompose(env, w)[1][5] == env.atan2(-w[0][1], w[0][0])
  {
    var g0, g1 := Go(env, w, -1.0), Go(env, w, 1.0);
    assert -w[0][1] * -1.0 == w[0][1] && w[0][0] * -1.0 == -w[0][0];
    assert -w[0][1] * 1.0 == -w[0][1] && w[0][0] * 1.0 == w[0][0];
    assert Decompose(env, w)[0] == Origin(w) + g0[0];
    assert Decompose(env, w)[1] == Origin(w) + g1[0];
  }
}
