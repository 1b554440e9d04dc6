/**
 * The camera (camera.cpp): yaw and pitch angles in degrees, a position, and
 * cached forward/right/up vectors and rotation matrices.
 *
 * Floats are modelled as reals. The rotation matrices are kept symbolically
 * (which rotation was last built); the product of a direction with the
 * combined rotation is floating-point linear algebra and is passed to the
 * camera as the function `rotate`, so that the model states which vectors are
 * recomputed from which matrices without computing them.
 */
module Cameras {

  datatype Vec3 = Vec3(x: real, y: real, z: real)

  /** A QMatrix4x4 built by setToIdentity() then rotate(angle, axis), or left as the identity. */
  datatype RotationMatrix = Identity | Rotation(angle: real, axis: Vec3)

  /** `(QVector4D(v, 0) * (pitchMatrix * yawMatrix)).toVector3D()`. */
  type Rotator = (Vec3, RotationMatrix, RotationMatrix) -> Vec3

  const YAW_AXIS := Vec3(0.0, 1.0, 0.0)
  const PITCH_AXIS := Vec3(1.0, 0.0, 0.0)
  const FORWARD := Vec3(0.0, 0.0, -1.0)
  const RIGHT := Vec3(1.0, 0.0, 0.0)
  const UP := Vec3(0.0, 1.0, 0.0)

  /**
   * camera.cpp `clamp360`: at most one correction of 360 degrees, downwards
   * above 360 and upwards below -360.
   */
  function Clamp360(v: real): (r: real)
    ensures r == v <==> -360.0 <= v <= 360.0
    ensures r == v || r == v - 360.0 || r == v + 360.0
    ensures r < v <==> v > 360.0
    ensures -720.0 <= v <= 720.0 ==> -360.0 <= r <= 360.0
  {
    var w := if v > 360.0 then v - 360.0 else v;
    if w < -360.0 then w + 360.0 else w
  }

  // Worked example: concrete values for Clamp360 above.

  /** One correction does not bring every angle back into [-360, 360]. */
  lemma Clamp360SingleCorrection()
    ensures Clamp360(800.0) == 440.0
    ensures Clamp360(360.0) == 360.0 && Clamp360(-360.0) == -360.0
  {
  }

  /** The yaw (or pitch) angle after applying each delta in turn. */
  function AngleAfter(start: real, deltas: seq<real>): real
    decreases |deltas|
  {
    if deltas == [] then start else AngleAfter(Clamp360(start + deltas[0]), deltas[1..])
  }

  /** Deltas of at most 360 degrees keep an angle that starts in [-360, 360] there, however many are applied. */
  lemma {:induction false} AngleAfterStaysInRange(start: real, deltas: seq<real>)
    requires -360.0 <= start <= 360.0
    requires forall i :: 0 <= i < |deltas| ==> -360.0 <= deltas[i] <= 360.0
    ensures -360.0 <= AngleAfter(start, deltas) <= 360.0
    decreases |deltas|
  {
    if deltas != [] {
      AngleAfterStaysInRange(Clamp360(start + deltas[0]), deltas[1..]);
    }
  }

  class Camera {
    var forward: Vec3
    var right: Vec3
    var up: Vec3
    var pos: Vec3
    var yaw: real
    var pitch: real
    var yawMatrix: RotationMatrix
    var pitchMatrix: RotationMatrix

    /** The camera's angles are within [-360, 360]; they start at 0 and the GUI sends small deltas. */
    predicate AnglesInRange()
      reads this
    {
      -360.0 <= yaw <= 360.0 && -360.0 <= pitch <= 360.0
    }

    /** camera.cpp constructor: looking down -Z with +X to the right, both angles 0, identity matrices. */
    constructor (p: Vec3)
      ensures pos == p && forward == FORWARD && right == RIGHT && up == UP
      ensures yaw == 0.0 && pitch == 0.0
      ensures yawMatrix == Identity && pitchMatrix == Identity
      ensures AnglesInRange()
    {
      forward := FORWARD;
      right := RIGHT;
      up := UP;
      pos := p;
      yaw := 0.0;
      pitch := 0.0;
      yawMatrix := Identity;
      pitchMatrix := Identity;
    }

    /** camera.cpp `yaw`: updates the yaw angle and matrix, then forward and right; pitch, up and position stay. */
    method Yaw(degrees: real, rotate: Rotator)
      modifies this`yaw, this`yawMatrix, this`forward, this`right
      ensures yaw == Clamp360(old(yaw) + degrees)
      ensures yawMatrix == Rotation(yaw, YAW_AXIS)
      ensures forward == rotate(FORWARD, pitchMatrix, yawMatrix)
      ensures right == rotate(RIGHT, pitchMatrix, yawMatrix)
      ensures old(AnglesInRange()) && -360.0 <= degrees <= 360.0 ==> AnglesInRange()
    {
      yaw := Clamp360(yaw + degrees);
      yawMatrix := Rotation(yaw, YAW_AXIS);
      forward := rotate(FORWARD, pitchMatrix, yawMatrix);
      right := rotate(RIGHT, pitchMatrix, yawMatrix);
    }

    /** camera.cpp `pitch`: updates the pitch angle and matrix, then forward and up; yaw, right and position stay. */
    method Pitch(degrees: real, rotate: Rotator)
      modifies this`pitch, this`pitchMatrix, this`forward, this`up
      ensures pitch == Clamp360(old(pitch) + degrees)
      ensures pitchMatrix == Rotation(pitch, PITCH_AXIS)
      ensures forward == rotate(FORWARD, pitchMatrix, yawMatrix)
      ensures up == rotate(UP, pitchMatrix, yawMatrix)
      ensures old(AnglesInRange()) && -360.0 <= degrees <= 360.0 ==> AnglesInRange()
    {
      pitch := Clamp360(pitch + degrees);
      pitchMatrix := Rotation(pitch, PITCH_AXIS);
      forward := rotate(FORWARD, pitchMatrix, yawMatrix);
      up := rotate(UP, pitchMatrix, yawMatrix);
    }

    /** camera.cpp `walk`: moves along forward's X and Z only; the height never changes. */
    method Walk(amount: real)
      modifies this`pos
      ensures pos == Vec3(old(pos).x + amount * forward.x, old(pos).y, old(pos).z + amount * forward.z)
    {
      pos := pos.(x := pos.x + amount * forward.x);
      pos := pos.(z := pos.z + amount * forward.z);
    }

    /** camera.cpp `strafe`: moves along right's X and Z only; the height never changes. */
    method Strafe(amount: real)
      modifies this`pos
      ensures pos == Vec3(old(pos).x + amount * right.x, old(pos).y, old(pos).z + amount * right.z)
    {
      pos := pos.(x := pos.x + amount * right.x);
      pos := pos.(z := pos.z + amount * right.z);
    }
  }

  // Worked example: concrete values for the Camera class above.

  /** From the renderer's start position (0, 0, 20), walk(1) then strafe(1) ends at (1, 0, 19). */
  method WalkThenStrafeFromStart() returns (p: Vec3)
    ensures p == Vec3(1.0, 0.0, 19.0)
  {
    var cam := new Camera(Vec3(0.0, 0.0, 20.0));
    cam.Walk(1.0);
    cam.Strafe(1.0);
    p := cam.pos;
  }
}
