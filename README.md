# Kinematics of a six-joint revolute arm

This project models, over exact reals, the kinematics script of a six-joint
robot arm (`Assignment2/Danko_Danila_HA2.py`):

- **Elementary transforms.** The tables of homogeneous rotations and translations about/along
  x, y and z are built by writing a 3x3 rotation block or a 3x1 translation
  column into a 4x4 identity (`get_rot_symb`, `get_trans_symb`). `get_T` picks one
  entry from those tables.
- **Composition.** `compose_T_symb` overwrites each entry of a list with the product
  of the entries up to it, left to right, and returns the last one. `get_dh`
  builds each joint's transform from the fixed Denavit-Hartenberg order Rz(q + offset), Tz(d),
  Tx(a), Rx(alpha).
- **Forward kinematics.** `get_fk_solution` runs the same in-place running product over the six
  joint transforms. It returns the end-effector frame or all six frames, depending on its flag.
- **Jacobian.** `jacobian` builds the 6x6 geometric Jacobian column by column, putting the
  identity base frame in front of the link frames. `check_singular` tests the
  determinant against `eps = 1e-9`. `cartesian_velocity` multiplies the Jacobian
  by the joint velocities.
- **Pose decomposition.** `decompose_transformation` turns the end-effector frame into two
  poses: the translation followed by three angles, one pose for each branch sign.
- **Vector field.** The `state_space` closure of `solve_motion` returns the joint velocities
  J ((x1 - xi) k) that drive the current pose xi toward a target x1.

An angle is modelled as its (cos, sin) pair (`Transforms.Angle`). The fixed DH
offsets 0, pi/2 and -pi/2 are therefore exact, and joint 5's `q5 - pi/2` is exact angle
addition. Where the script calls a numeric library, the model takes the library's functions as
function-valued parameters (`PoseDecomposition.Numerics`):
- `cos` and `sin` turn the numeric joint angles y into (cos, sin) pairs (`Motion.JointAngles`);
- `arctan2` gives the decomposer's angles;
- a value stands in for `a / 0`.
The determinant in `check_singular` is a parameter as well.

Modules:
- `Matrices` (`matrices.dfy`): matrices as sequences of rows, with products, cross products, origins and axes.
- `Transforms` (`transforms.dfy`): elementary transforms, the running-product loop, and the `get_rot_symb`, `get_trans_symb`, `get_T` and `compose_T_symb` procedures.
- `Kinematics` (`kinematics.dfy`): the DH table, the closed form of each joint transform, link frames and forward kinematics.
- `Jacobians` (`jacobian.dfy`): `eq`, the Jacobian, the singularity test and the Cartesian velocity.
- `PoseDecomposition` (`decompose.dfy`): the branch structure of `decompose_transformation`.
- `Motion` (`motion.dfy`): the time grid constants, the gain `k` and the `state_space` vector field, including numpy's broadcasting of `x1 - xi`.

In the degenerate case `go` returns `[[]]`, and line 235 still puts that empty angle list
after the translation. So `decompose_transformation` always returns two poses, each of
three entries in the degenerate case (`PoseDecomposition.Decompose`).

## Model

| member | source | states |
|---|---|---|
| Transforms.AddAngle | Assignment2/Danko_Danila_HA2.py:140 | adding the offset 0 leaves the angle unchanged; adding -pi/2 maps (cos q, sin q) to (sin q, -cos q) |
| Transforms.RotH | Assignment2/Danko_Danila_HA2.py:24-48 | an elementary rotation is homogeneous, its 3x3 block is the rotation about the named axis and its translation column is zero |
| Transforms.TransH | Assignment2/Danko_Danila_HA2.py:60-83 | an elementary translation is homogeneous, its 3x3 block is the identity and its translation column is the 3x1 column of the named axis |
| Transforms.RotationFixesAxis | Assignment2/Danko_Danila_HA2.py:24-48 | a rotation leaves its own axis fixed, both as a 3x3 block and embedded in the 4x4 identity |
| Transforms.TranslationOnNamedAxis | Assignment2/Danko_Danila_HA2.py:60-83 | a translation by d moves along exactly the named axis: its origin is d times that axis' unit vector |
| Transforms.RotationOrthonormal | Assignment2/Danko_Danila_HA2.py:24-39 | every elementary rotation block has orthonormal columns when cos^2 + sin^2 = 1 |
| Transforms.ElemMatrices | Assignment2/Danko_Danila_HA2.py:106 | the list of matrices of a list of elementary transforms has the same length, each entry homogeneous |
| Transforms.ProductHomogeneous | Assignment2/Danko_Danila_HA2.py:107-109 | a left-to-right product of homogeneous matrices keeps the bottom row [0, 0, 0, 1] |
| Transforms.PrefixProductsStep | Assignment2/Danko_Danila_HA2.py:107-108 | running product 0 is the first matrix and running product i is running product i - 1 times matrix i |
| Transforms.PrefixProductsHomogeneous | Assignment2/Danko_Danila_HA2.py:107-108 | every running product of homogeneous matrices is homogeneous |
| Transforms.PrefixProductsLast | Assignment2/Danko_Danila_HA2.py:107-109 | the last running product is the product of the whole list |
| Transforms.AddAngleUnit | Assignment2/Danko_Danila_HA2.py:140 | adding two angles on the unit circle gives an angle on the unit circle |
| Matrices.MatMulOrthonormal | Assignment2/Danko_Danila_HA2.py:107-108 | the product of two homogeneous transforms with orthonormal rotation blocks has an orthonormal rotation block |
| Transforms.PrefixProductsInPlace | Assignment2/Danko_Danila_HA2.py:107-108 | the in-place loop leaves in each array slot the product of the original entries up to that slot |
| Transforms.AssignBlock | Assignment2/Danko_Danila_HA2.py:47 | slice assignment writes the block at the given corner and leaves every other entry unchanged |
| Transforms.EmbedInIdentity | Assignment2/Danko_Danila_HA2.py:46-47 | the result is the 4x4 identity with the block written at the given column |
| Transforms.RotSymb | Assignment2/Danko_Danila_HA2.py:18-50 | the rotation table has exactly the keys x, y, z and maps each axis to the homogeneous rotation about it |
| Transforms.TransSymb | Assignment2/Danko_Danila_HA2.py:56-85 | the translation table has exactly the keys x, y, z and maps each axis to the homogeneous translation along it |
| Transforms.GetT | Assignment2/Danko_Danila_HA2.py:93-100 | the matrix looked up for a rotation or translation is that elementary transform |
| Transforms.ComposeT | Assignment2/Danko_Danila_HA2.py:102-109 | the result is the left-to-right product of the inputs' matrices in list order, and it is homogeneous |
| Kinematics.DhForm | Assignment2/Danko_Danila_HA2.py:115-150 | the standard DH matrix for a joint angle, twist, length and offset is homogeneous |
| Kinematics.DhMatrix | Assignment2/Danko_Danila_HA2.py:115-150 | every joint transform is homogeneous |
| Kinematics.DhBlockOrthonormal | Assignment2/Danko_Danila_HA2.py:115-150 | the rotation block of the standard DH matrix has orthonormal columns when the joint angle's and the twist's (cos, sin) pairs are on the unit circle |
| Kinematics.DhMatrixOrthonormal | Assignment2/Danko_Danila_HA2.py:115-150 | every one of the six joint transforms has an orthonormal rotation block at a joint angle on the unit circle, including joint 5 with its -pi/2 offset |
| Kinematics.DhClosedForm | Assignment2/Danko_Danila_HA2.py:115-150 | composing Rz(q + offset), Tz(d), Tx(a), Rx(alpha) gives the standard DH matrix of that joint |
| Kinematics.GetDh | Assignment2/Danko_Danila_HA2.py:111-151 | the six joint transforms are the compositions of each joint's four elementary transforms and equal their closed forms |
| Kinematics.JointTransforms | Assignment2/Danko_Danila_HA2.py:176 | there are six joint transforms, each homogeneous; joint angle i enters as its (cos, sin) pair |
| Kinematics.Frames | Assignment2/Danko_Danila_HA2.py:176-178 | there are six link frames, each homogeneous |
| Kinematics.FramesRecurrence | Assignment2/Danko_Danila_HA2.py:177-178 | frame 0 is joint 0's transform and frame i is frame i - 1 times joint i's transform |
| Kinematics.FramesOrthonormal | Assignment2/Danko_Danila_HA2.py:176-178 | for joint angles on the unit circle every link frame has an orthonormal rotation block |
| Kinematics.FkSolution | Assignment2/Danko_Danila_HA2.py:172-183 | flag "ee" gives the last running product, flag "full" gives all six running products, and any other flag gives nothing |
| Kinematics.WristCentre | Assignment2/Danko_Danila_HA2.py:139-144 | joint 5 (T56) has zero offset and zero length, so the fourth and fifth frames (indices 3 and 4) share their origin |
| Kinematics.EndEffectorOnLastAxis | Assignment2/Danko_Danila_HA2.py:145-150 | the end effector sits l5 + l6 along the z axis of the fifth frame (index 4) from that frame's origin |
| Jacobians.Eq | Assignment2/Danko_Danila_HA2.py:185-188 | `eq(a, b)` holds exactly when a lies strictly within 1e-9 of b |
| Jacobians.AxisFrames | Assignment2/Danko_Danila_HA2.py:196 | the frame list with the identity base frame in front: entry 0 is the identity and the rest are the link frames |
| Jacobians.JacobianOf | Assignment2/Danko_Danila_HA2.py:195-207 | the Jacobian is a 6x6 matrix |
| Jacobians.Jacobian | Assignment2/Danko_Danila_HA2.py:195-207 | the array filled column by column is a fresh 6x6 array whose entries are the Jacobian's |
| Jacobians.JacobianAngular | Assignment2/Danko_Danila_HA2.py:202-205 | rows 3..5 of column i are the z axis of frame i, and for the base column they are (0, 0, 1) |
| Jacobians.JacobianColumnOrthogonal | Assignment2/Danko_Danila_HA2.py:202-205 | the linear part of every column is orthogonal to its angular part |
| Jacobians.JacobianBaseColumn | Assignment2/Danko_Danila_HA2.py:196-204 | the linear part of the base column is (-y_ee, x_ee, 0) |
| Jacobians.JacobianLastColumnLinearZero | Assignment2/Danko_Danila_HA2.py:201-204 | for the arm's own frames the linear part of the last column is zero, because the end effector lies on the last joint axis |
| Jacobians.CheckSingular | Assignment2/Danko_Danila_HA2.py:209-210 | the Jacobian is reported singular exactly when its determinant lies strictly within 1e-9 of zero |
| Jacobians.CartesianVelocity | Assignment2/Danko_Danila_HA2.py:212-213 | the Cartesian velocity has one entry per Jacobian row |
| Jacobians.CartesianVelocitySingleJoint | Assignment2/Danko_Danila_HA2.py:212-213 | moving joint i alone at unit speed gives column i of the Jacobian |
| Jacobians.CartesianVelocityAtRest | Assignment2/Danko_Danila_HA2.py:212-213 | joints at rest give zero Cartesian velocity |
| Jacobians.CartesianVelocityScale | Assignment2/Danko_Danila_HA2.py:212-213 | scaling the joint velocities scales the Cartesian velocity by the same factor |
| PoseDecomposition.FDiv | Assignment2/Danko_Danila_HA2.py:224 | a division by a non-zero divisor is exact: the quotient times the divisor is the dividend |
| PoseDecomposition.Go | Assignment2/Danko_Danila_HA2.py:216-231 | one candidate per branch: empty when abs(W[0,2]) is within eps of 0, otherwise three angles whose third is atan2(-W[0,1] m2, W[0,0] m2) |
| PoseDecomposition.Decompose | Assignment2/Danko_Danila_HA2.py:215-235 | always exactly two poses, each starting with W[0,3], W[1,3], W[2,3]; both have 3 entries in the degenerate case and 6 otherwise |
| PoseDecomposition.DecomposeBranchAngles | Assignment2/Danko_Danila_HA2.py:216-235 | outside the degenerate case the first pose comes from m2 = -1, with last angle atan2(W01, -W00), and the second from m2 = 1, with last angle atan2(-W01, W00) |
| Motion.BroadcastSub | Assignment2/Danko_Danila_HA2.py:251 | `x1 - xi` succeeds exactly when the lengths are equal or one of them is 1; with equal lengths it is the element-wise difference |
| Motion.CurrentPose | Assignment2/Danko_Danila_HA2.py:250 | the current pose has 3 or 6 entries |
| Motion.StateSpace | Assignment2/Danko_Danila_HA2.py:247-252 | when it is defined, the vector field has six entries; each numeric joint angle y_i enters forward kinematics as the pair (cos y_i, sin y_i) |
| Motion.StateSpaceDefined | Assignment2/Danko_Danila_HA2.py:250-252 | the vector field is defined exactly when the current pose has six entries and the target has six entries or one |
| Motion.StateSpaceIsScaledVelocity | Assignment2/Danko_Danila_HA2.py:248-252 | for a six-entry target and pose, the vector field is the Cartesian velocity of the Jacobian applied to (x1 - xi), scaled by k |
| Motion.ZeroErrorZeroVelocity | Assignment2/Danko_Danila_HA2.py:251-252 | a zero pose error gives zero joint velocities, whatever the Jacobian |
| Motion.StateSpaceZeroAtTarget | Assignment2/Danko_Danila_HA2.py:247-252 | when the target equals the current pose, the vector field is the zero vector |

## Left out

- Symbolic algebra: `sp.simplify` (line 109), `.subs` (lines 98, 100, 153) and `lambdify` (line 158) are not modelled. Each joint transform is its closed form in the (cos, sin) pair of its angle. `Kinematics.DhClosedForm` proves that closed form equals the composed product.
- `get_fk_symb` (lines 160-168) is the symbolic twin of the numeric forward kinematics, and is not modelled on its own.
- The values of `cos`, `sin`, `arctan2` and `np.linalg.det` are parameters. No property of the trigonometric functions is used, so the pose decomposition is not proved to invert forward kinematics.
- All arithmetic is exact real arithmetic. Floating-point rounding is not modelled. The only floating-point exception value modelled is division by zero, as a parameter value (`PoseDecomposition.FDiv`); the sign of a zero divisor is not distinguished.
- `odeint` (line 253) and the integration loop of `solve_motion` are not modelled. Only the vector field it integrates is. The unused time argument of `state_space` is dropped.
- The module-level demonstrations (lines 190-193, 241-242, 255) and the plotting through `utils.plot_sol` (lines 257-266) are I/O. `utils` is not part of this model.
- `get_T` returns `None` for a transform type other than "R" or "T", and raises `KeyError` for an unknown axis. The model's `Transforms.Elementary` holds only rotations and translations about x, y or z, so neither case can arise.
- Inputs on which the script raises an error are excluded by preconditions:
  - an `IndexError`: an empty list in `compose_T_symb`; fewer than six joint angles in `get_fk_solution` and `state_space`; fewer than five frames in `jacobian` (`Jacobians.JacobianOf`, `Jacobians.Jacobian`, which require `|frames| >= 5`);
  - numpy's `ValueError`: a Jacobian row whose length differs from the number of joint velocities in `cartesian_velocity` (`Jacobians.CartesianVelocity`).
- The default arguments of `get_fk_solution` (line 172), `jacobian` (line 195) and `solve_motion` (line 246) are dropped. Every model operation takes all of its inputs explicitly.
- Kinematics.GetDh: models `get_dh` with `use_different_qs=True` (one angle per joint). The substitution of a single symbol for every joint angle (lines 152-153) is done through `ts_num` and `JointTransforms`.
- Kinematics.FkSolution: the joint transforms are closed forms in the (cos, sin) pairs of the angles. The evaluation of `lambdify`'s numpy functions is not modelled.
- The module-level reference values are not computed in the model. These are the frames at the all-zero configuration (line 190, with `input_initial` of line 14) and the default target of line 242, which is the first decomposition of the end-effector frame at joint angles 0.1 (`input`, line 13).
- The orthonormality lemmas (`Transforms.RotationOrthonormal`, `Kinematics.DhMatrixOrthonormal`, `Kinematics.FramesOrthonormal`) assume (cos, sin) pairs exactly on the unit circle. Floating-point `cos` and `sin` satisfy that only approximately, so nothing is claimed about rounding.
