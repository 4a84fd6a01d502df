/** `PlayerMotor` as a class whose methods update its fields in place, in the
    order the script does. Each method is proved to produce exactly the state
    that the corresponding function of module `Locomotion` describes. */
module Motor {
  import opened UnityMath
  import Locomotion

  class PlayerMotor {
    const config: Locomotion.MotorConfig

    var moveInput: Vec2
    var frameVelocity: Vec3
    var grounded: bool
    var frameLeftGrounded: real
    var jumpToConsume: bool
    var bufferedJumpUsable: bool
    var endedJumpEarly: bool
    var coyoteUsable: bool
    var timeJumpWasPressed: real
    var facingRight: bool
    /** The velocity last assigned to the rigid body. */
    var bodyVelocity: Vec3
    /** `GroundedChanged` and `Jumped` invocations, oldest first. */
    var events: seq<Locomotion.MotorEvent>

    function State(): Locomotion.MotorState
      reads this
    {
      Locomotion.MotorState(moveInput, frameVelocity, grounded, frameLeftGrounded,
                            jumpToConsume, bufferedJumpUsable, endedJumpEarly, coyoteUsable,
                            timeJumpWasPressed, facingRight, bodyVelocity, events)
    }

    constructor (config: Locomotion.MotorConfig)
      ensures this.config == config
      ensures State() == Locomotion.Initial
    {
      this.config := config;
      moveInput := Vec2(0.0, 0.0);
      frameVelocity := Zero3;
      grounded := false;
      frameLeftGrounded := Locomotion.FloatMinValue;
      jumpToConsume := false;
      bufferedJumpUsable := false;
      endedJumpEarly := false;
      coyoteUsable := false;
      timeJumpWasPressed := 0.0;
      facingRight := true;
      bodyVelocity := Zero3;
      events := [];
    }

    method SetMoveInput(input: Vec2)
      modifies this
      ensures moveInput == input
      ensures State() == Locomotion.SetMoveInput(old(State()), input)
    {
      moveInput := input;
    }

    method OnJumpPressed(now: real)
      modifies this
      ensures jumpToConsume && timeJumpWasPressed == now
      ensures State() == Locomotion.OnJumpPressed(old(State()), now)
    {
      jumpToConsume := true;
      timeJumpWasPressed := now;
    }

    /** `bodyVy` is the rigid body's vertical velocity at the time of the call. */
    method OnJumpReleased(bodyVy: real)
      modifies this
      ensures endedJumpEarly == (old(endedJumpEarly) || (!grounded && bodyVy > 0.0))
      ensures State() == Locomotion.OnJumpReleased(old(State()), bodyVy)
    {
      if !grounded && bodyVy > 0.0 {
        endedJumpEarly := true;
      }
    }

    method CheckCollisions(groundHit: bool, ceilingHit: bool, now: real)
      modifies this
      ensures grounded == groundHit
      ensures State() == Locomotion.CheckCollisions(old(State()), groundHit, ceilingHit, now)
    {
      if ceilingHit {
        frameVelocity := frameVelocity.(y := Min(0.0, frameVelocity.y));
      }
      if !grounded && groundHit {
        grounded := true;
        coyoteUsable := true;
        bufferedJumpUsable := true;
        endedJumpEarly := false;
        events := events + [Locomotion.GroundedChanged(true, Abs(frameVelocity.y))];
      } else if grounded && !groundHit {
        grounded := false;
        frameLeftGrounded := now;
        events := events + [Locomotion.GroundedChanged(false, 0.0)];
      }
    }

    method ExecuteJump()
      modifies this
      ensures frameVelocity.y == config.jumpPower && !coyoteUsable && !bufferedJumpUsable
      ensures State() == Locomotion.ExecuteJump(old(State()), config)
    {
      endedJumpEarly := false;
      timeJumpWasPressed := 0.0;
      bufferedJumpUsable := false;
      coyoteUsable := false;
      frameVelocity := frameVelocity.(y := config.jumpPower);
      events := events + [Locomotion.Jumped];
    }

    method HandleJump(now: real)
      modifies this
      ensures State() == Locomotion.HandleJump(old(State()), now, config)
    {
      if !jumpToConsume && !Locomotion.HasBufferedJump(State(), now, config) {
        return;
      }
      if grounded || Locomotion.CanUseCoyote(State(), now, config) {
        ExecuteJump();
      }
      jumpToConsume := false;
    }

    /** Only the frame velocity changes. */
    method HandleHorizontalMovement(dt: real)
      modifies this`frameVelocity
      ensures frameVelocity.z == 0.0
      ensures frameVelocity == Locomotion.HandleHorizontalMovement(old(State()), config, dt).frameVelocity
    {
      ghost var s0 := State();
      var inputX := moveInput.x;
      if ApproximatelyZero(inputX) {
        var deceleration := if grounded then config.groundDeceleration else config.airDeceleration;
        assert Locomotion.HorizontalTarget(s0, config) == 0.0 && Locomotion.HorizontalRate(s0, config) == deceleration;
        var step := deceleration * dt;
        frameVelocity := frameVelocity.(x := MoveTowards(frameVelocity.x, 0.0, step));
      } else {
        var targetSpeed := inputX * config.maxSpeed;
        assert Locomotion.HorizontalTarget(s0, config) == targetSpeed;
        assert Locomotion.HorizontalRate(s0, config) == config.acceleration;
        var step := config.acceleration * dt;
        frameVelocity := frameVelocity.(x := MoveTowards(frameVelocity.x, targetSpeed, step));
      }
      frameVelocity := frameVelocity.(z := 0.0);
    }

    /** Only the frame velocity changes. */
    method HandleGravity(dt: real)
      modifies this`frameVelocity
      ensures frameVelocity == Locomotion.HandleGravity(old(State()), config, dt).frameVelocity
    {
      if grounded && frameVelocity.y <= 0.0 {
        frameVelocity := frameVelocity.(y := config.groundingForce);
      } else {
        var gravity := config.fallAcceleration;
        if endedJumpEarly && frameVelocity.y > 0.0 {
          gravity := gravity * config.jumpEndEarlyGravityModifier;
        }
        frameVelocity := frameVelocity.(y := MoveTowards(frameVelocity.y, -config.maxFallSpeed, gravity * dt));
      }
    }

    method HandleFacing()
      modifies this
      ensures State() == Locomotion.HandleFacing(old(State()))
    {
      if ApproximatelyZero(moveInput.x) {
        return;
      }
      var shouldFaceRight := moveInput.x > 0.0;
      if shouldFaceRight == facingRight {
        return;
      }
      facingRight := shouldFaceRight;
    }

    method ApplyMovement()
      modifies this
      ensures bodyVelocity == frameVelocity
      ensures State() == Locomotion.ApplyMovement(old(State()))
    {
      bodyVelocity := frameVelocity;
    }

    /** `FixedUpdate`, with the sphere-cast results, the clock and
        `Time.fixedDeltaTime` supplied by the engine. */
    method FixedUpdate(groundHit: bool, ceilingHit: bool, now: real, dt: real)
      modifies this
      ensures State() == Locomotion.FixedStep(old(State()), groundHit, ceilingHit, now, config, dt)
    {
      CheckCollisions(groundHit, ceilingHit, now);
      HandleJump(now);
      HandleHorizontalMovement(dt);
      HandleGravity(dt);
      HandleFacing();
      ApplyMovement();
    }
  }
}
