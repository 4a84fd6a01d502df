/** `PlayerController`: the simple character-controller path. Each frame it
    updates a vertical speed from gravity, then asks the character
    controller to move by a motion vector and turns towards the input
    direction. `isGrounded`, `Time.deltaTime` and the character controller
    itself belong to the engine: the first two are parameters, and the
    motion and the turn target are returned instead of applied. */
module Controller {
  import opened UnityMath
  import opened Wrappers

  /** The serialized fields of `PlayerController`. */
  datatype ControllerConfig = ControllerConfig(moveSpeed: real, gravity: real, groundedGravity: real,
                                               turnSpeed: real)

  const DefaultConfig: ControllerConfig := ControllerConfig(5.0, -9.8, -2.0, 20.0)

  /** Smallest horizontal input that turns the character. */
  const FacingThreshold: real := 0.01

  /** `ApplyGravity` for one frame of length `dt`. */
  function GravityStep(v: real, isGrounded: bool, c: ControllerConfig, dt: real): (r: real)
    ensures isGrounded && v < 0.0 ==> r == c.groundedGravity
    ensures !(isGrounded && v < 0.0) ==> r - v == c.gravity * dt
  {
    if isGrounded && v < 0.0 then c.groundedGravity else v + c.gravity * dt
  }

  /** The vertical speed after a run of frames, given whether the controller
      was grounded in each. */
  function AfterFrames(v: real, grounded: seq<bool>, c: ControllerConfig, dt: real): real
    decreases |grounded|
  {
    if grounded == [] then v else AfterFrames(GravityStep(v, grounded[0], c, dt), grounded[1..], c, dt)
  }

  /** `MoveCharacter`'s motion vector: `(input.x * moveSpeed, v, 0) * dt`. */
  function Motion(input: Vec2, v: real, c: ControllerConfig, dt: real): (m: Vec3)
    ensures m.z == 0.0 && m.y == v * dt
    ensures input.x == 0.0 ==> m.x == 0.0
  {
    Vec3(input.x * c.moveSpeed * dt, v * dt, 0.0)
  }

  /** The direction `MoveCharacter` turns towards: `Some(true)` for right,
      `Some(false)` for left, `None` when the input is too small to turn. */
  function FacingTarget(inputX: real): (r: Option<bool>)
    ensures r.Some? <==> Abs(inputX) > FacingThreshold
    ensures r.Some? ==> (r.value <==> inputX > 0.0)
  {
    if Abs(inputX) > FacingThreshold then Some(inputX > 0.0) else None
  }

  // ---------------------------------------------------------------------
  // Properties

  /** On the ground a falling speed is replaced by `groundedGravity`; a zero
      or rising speed is integrated as in the air, since the clamp is strict. */
  lemma GroundedClamp(v: real, c: ControllerConfig, dt: real)
    ensures v < 0.0 ==> GravityStep(v, true, c, dt) == c.groundedGravity
    ensures v >= 0.0 ==> GravityStep(v, true, c, dt) == GravityStep(v, false, c, dt)
  {
  }

  /** With a negative `groundedGravity`, a controller that stays grounded
      with a falling speed keeps exactly `groundedGravity`, frame after frame. */
  lemma {:induction false} StaysAtGroundedGravity(v: real, grounded: seq<bool>, c: ControllerConfig, dt: real)
    requires c.groundedGravity < 0.0 && v < 0.0
    requires forall i :: 0 <= i < |grounded| ==> grounded[i]
    ensures grounded != [] ==> AfterFrames(v, grounded, c, dt) == c.groundedGravity
    decreases |grounded|
  {
    if grounded != [] {
      StaysAtGroundedGravity(c.groundedGravity, grounded[1..], c, dt);
    }
  }

  /** In free fall the speed changes by `gravity * dt` per frame. */
  lemma {:induction false} FreeFall(v: real, grounded: seq<bool>, c: ControllerConfig, dt: real)
    requires forall i :: 0 <= i < |grounded| ==> !grounded[i]
    ensures AfterFrames(v, grounded, c, dt) == v + (|grounded| as real) * (c.gravity * dt)
    decreases |grounded|
  {
    if grounded != [] {
      var a := c.gravity * dt;
      assert !grounded[0] && GravityStep(v, grounded[0], c, dt) == v + a;
      FreeFall(v + a, grounded[1..], c, dt);
      var n := |grounded[1..]| as real;
      assert |grounded| as real == n + 1.0;
      assert v + a + n * a == v + (n + 1.0) * a;
    }
  }

  /** With gravity pointing down, an airborne speed never increases. */
  lemma AirborneNeverRises(v: real, c: ControllerConfig, dt: real)
    requires c.gravity <= 0.0 && dt >= 0.0
    ensures GravityStep(v, false, c, dt) <= v
  {
    NonNegativeProduct(-c.gravity, dt, true);
  }

  /** The motion never leaves the plane; horizontally it follows the input's
      sign and, for a normalised input, covers at most `moveSpeed * dt`. */
  lemma MotionBounds(input: Vec2, v: real, c: ControllerConfig, dt: real)
    requires -1.0 <= input.x <= 1.0 && c.moveSpeed >= 0.0 && dt >= 0.0
    ensures var m := Motion(input, v, c, dt);
      && m.z == 0.0 && m.y == v * dt
      && Abs(m.x) <= c.moveSpeed * dt
      && (input.x > 0.0 ==> m.x >= 0.0) && (input.x < 0.0 ==> m.x <= 0.0)
  {
    var s := c.moveSpeed * dt;
    NonNegativeProduct(c.moveSpeed, dt, true);
    assert input.x * c.moveSpeed * dt == input.x * s;
    if input.x >= 0.0 {
      NonNegativeProduct(input.x, s, true);
      NonNegativeProduct(1.0 - input.x, s, true);
    } else {
      NonNegativeProduct(-input.x, s, true);
      NonNegativeProduct(1.0 + input.x, s, true);
    }
  }

  // ---------------------------------------------------------------------
  // The component

  class PlayerController {
    const config: ControllerConfig
    /** `_moveInput`. */
    var moveInput: Vec2
    /** `_verticalVelocity`. */
    var verticalVelocity: real

    constructor (config: ControllerConfig)
      ensures this.config == config
      ensures moveInput == Vec2(0.0, 0.0) && verticalVelocity == 0.0
    {
      this.config := config;
      moveInput := Vec2(0.0, 0.0);
      verticalVelocity := 0.0;
    }

    /** `HandleMoveInput`: keep the latest input. */
    method HandleMoveInput(input: Vec2)
      modifies this`moveInput
      ensures moveInput == input
    {
      moveInput := input;
    }

    /** `ApplyGravity`. */
    method ApplyGravity(isGrounded: bool, dt: real)
      modifies this`verticalVelocity
      ensures verticalVelocity == GravityStep(old(verticalVelocity), isGrounded, config, dt)
    {
      if isGrounded && verticalVelocity < 0.0 {
        verticalVelocity := config.groundedGravity;
      } else {
        verticalVelocity := verticalVelocity + config.gravity * dt;
      }
    }

    /** `MoveCharacter`: the displacement handed to `CharacterController.Move`
        and the direction the character turns towards, if any. */
    method MoveCharacter(dt: real) returns (motion: Vec3, turnTowards: Option<bool>)
      ensures motion == Motion(moveInput, verticalVelocity, config, dt)
      ensures motion.z == 0.0
      ensures turnTowards == FacingTarget(moveInput.x)
    {
      var horizontalVelocity := moveInput.x * config.moveSpeed;
      var velocity := Vec3(horizontalVelocity, verticalVelocity, 0.0);
      motion := Vec3(velocity.x * dt, velocity.y * dt, velocity.z * dt);
      if Abs(moveInput.x) > FacingThreshold {
        turnTowards := Some(moveInput.x > 0.0);
      } else {
        turnTowards := None;
      }
    }

    /** `Update`: gravity first, then the move. */
    method Update(isGrounded: bool, dt: real) returns (motion: Vec3, turnTowards: Option<bool>)
      modifies this`verticalVelocity
      ensures verticalVelocity == GravityStep(old(verticalVelocity), isGrounded, config, dt)
      ensures motion == Motion(moveInput, verticalVelocity, config, dt)
      ensures turnTowards == FacingTarget(moveInput.x)
    {
      ApplyGravity(isGrounded, dt);
      motion, turnTowards := MoveCharacter(dt);
    }
  }
}
