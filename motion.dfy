/**
 * The differential inverse-kinematics vector field integrated by `solve_motion`:
 * joint velocities J (x1 - xi) k that drive the current pose xi toward the target x1.
 */
module Motion {
  import opened Matrices
  import opened Transforms
  import opened Kinematics
  import opened Jacobians
  import opened PoseDecomposition

  /** Integration interval [T0, Tf] split into NSteps samples. */
  const T0: real := 0.0
  const Tf: real := 10.0
  const NSteps: nat := 10000

  /** The gain k = (tf - t0) / n_steps. */
  const K: real := (Tf - T0) / NSteps as real

  /** The outcome of an evaluation that can raise a shape error. */
  datatype Result<T> = Success(value: T) | Failure

  /**
   * Element-wise `a - b` with numpy broadcasting: equal lengths, or either side of
   * length one; any other pair of lengths is a shape error.
   */
  function BroadcastSub(a: Vec, b: Vec): (r: Result<Vec>)
    ensures |a| == |b| ==> r == Success(Sub(a, b))
    ensures r.Success? <==> |a| == |b| || |a| == 1 || |b| == 1
    ensures r.Success? ==> |r.value| == if |a| == 1 then |b| else |a|
  {
    if |a| == |b| then Success(Sub(a, b))
    else if |a| == 1 then Success(seq(|b|, j requires 0 <= j < |b| => a[0] - b[j]))
    else if |b| == 1 then Success(seq(|a|, j requires 0 <= j < |a| => a[j] - b[0]))
    else Failure
  }

  /** The joint angles `y` as (cos, sin) pairs. */
  function JointAngles(env: Numerics, y: Vec): (qs: seq<Angle>)
    requires |y| >= N
    ensures |qs| == N
  {
    seq(N, i requires 0 <= i < N => Angle(env.cos(y[i]), env.sin(y[i])))
  }

  /** The current pose xi: the first decomposition of the end-effector frame. */
  function CurrentPose(env: Numerics, y: Vec): (xi: Vec)
    requires |y| >= N
    ensures |xi| == 3 || |xi| == 6
  {
    Decompose(env, Frames(JointAngles(env, y))[N - 1])[0]
  }

  /**
   * `state_space(y, t)`: the joint velocities J((x1 - xi) k) at joint angles `y`;
   * a shape error when x1 - xi does not broadcast or does not have six entries.
   */
  function StateSpace(env: Numerics, x1: Vec, y: Vec): (dy: Result<Vec>)
    requires |y| >= N
    ensures dy.Success? ==> |dy.value| == 6
  {
    var fk := Frames(JointAngles(env, y));
    var j := JacobianOf(fk);
    var xi := Decompose(env, fk[N - 1])[0];
    match BroadcastSub(x1, xi)
    case Failure => Failure
    case Success(d) =>
      if |d| != 6 then Failure else Success(MatVec(j, Scale(d, K)))
  }

  /** The gain is 0.001. */
  lemma GainValue()
    ensures K == 0.001
  {
  }

  /** The vector field is defined exactly when the current pose has six entries and x1 has six or one. */
  lemma StateSpaceDefined(env: Numerics, x1: Vec, y: Vec)
    requires |y| >= N
    ensures StateSpace(env, x1, y).Success? <==> |CurrentPose(env, y)| == 6 && (|x1| == 6 || |x1| == 1)
  {
  }

  /** The vector field is the Cartesian velocity of the pose error (x1 - xi), scaled by the gain. */
  lemma StateSpaceIsScaledVelocity(env: Numerics, x1: Vec, y: Vec)
    requires |y| >= N && |x1| == 6 && |CurrentPose(env, y)| == 6
    ensures StateSpace(env, x1, y) ==
      Success(Scale(CartesianVelocity(JacobianOf(Frames(JointAngles(env, y))), Sub(x1, CurrentPose(env, y))), K))
  {
    var j := JacobianOf(Frames(JointAngles(env, y)));
    CartesianVelocityScale(j, Sub(x1, CurrentPose(env, y)), K);
  }

  /** A zero pose error gives zero joint velocities, whatever the Jacobian. */
  lemma ZeroErrorZeroVelocity(j: Mat, xi: Vec)
    requires IsMatrix(j, 6, 6) && |xi| == 6
    ensures MatVec(j, Scale(Sub(xi, xi), K)) == Zeros(6)
  {
    var d := Sub(xi, xi);
    assert Scale(d, K) == Zeros(6) by {
      forall r | 0 <= r < 6 ensures Scale(d, K)[r] == 0.0 {
        assert d[r] + xi[r] == xi[r];
      }
    }
    MatVecZeros(j, 6);
  }

  /** At the target the vector field is zero: the motion stops once xi equals x1. */
  lemma StateSpaceZeroAtTarget(env: Numerics, y: Vec)
    requires |y| >= N && |CurrentPose(env, y)| == 6
    ensures StateSpace(env, CurrentPose(env, y), y) == Success(Zeros(6))
  {
    ZeroErrorZeroVelocity(JacobianOf(Frames(JointAngles(env, y))), CurrentPose(env, y));
  }
}
