/** The per-fixed-step locomotion logic of `PlayerMotor` as functions on an
    immutable snapshot of its fields. Each function here specifies one
    `PlayerMotor` method; the class in module `Motor` implements them by
    updating its fields in place. The sphere casts, the clock and the rigid
    body's own velocity are parameters. */
module Locomotion {
  import opened UnityMath

  /** The serialized tuning fields of `PlayerMotor`. */
  datatype MotorConfig = MotorConfig(
    maxSpeed: real,
    acceleration: real,
    groundDeceleration: real,
    airDeceleration: real,
    jumpPower: real,
    maxFallSpeed: real,
    fallAcceleration: real,
    jumpEndEarlyGravityModifier: real,
    coyoteTime: real,
    jumpBuffer: real,
    groundingForce: real)

  /** The defaults declared in the script. */
  const DefaultConfig: MotorConfig :=
    MotorConfig(14.0, 120.0, 60.0, 30.0, 12.0, 20.0, 50.0, 3.0, 0.15, 0.2, -1.5)

  /** Tuning values whose signs make the rate limits meaningful: rates,
      speeds and the jump impulse are non-negative, and the grounding force
      is a small downward speed no faster than terminal velocity. */
  predicate WellFormed(c: MotorConfig) {
    && c.maxSpeed >= 0.0
    && c.acceleration >= 0.0
    && c.groundDeceleration >= 0.0
    && c.airDeceleration >= 0.0
    && c.jumpPower >= 0.0
    && c.maxFallSpeed >= 0.0
    && c.fallAcceleration >= 0.0
    && c.jumpEndEarlyGravityModifier >= 0.0
    && -c.maxFallSpeed <= c.groundingForce <= 0.0
  }

  /** `float.MinValue`, the initial value of `_frameLeftGrounded`. */
  const FloatMinValue: real := -340282346638528859811704183484516925440.0

  /** The two events of `PlayerMotor`; invocations are appended to a log. */
  datatype MotorEvent = GroundedChanged(isGrounded: bool, impactSpeed: real) | Jumped

  /** The private fields of `PlayerMotor`; `bodyVelocity` is the velocity last
      committed to the rigid body. */
  datatype MotorState = MotorState(
    moveInput: Vec2,
    frameVelocity: Vec3,
    grounded: bool,
    frameLeftGrounded: real,
    jumpToConsume: bool,
    bufferedJumpUsable: bool,
    endedJumpEarly: bool,
    coyoteUsable: bool,
    timeJumpWasPressed: real,
    facingRight: bool,
    bodyVelocity: Vec3,
    events: seq<MotorEvent>)

  /** Field initialisers of `PlayerMotor` (a new rigid body is at rest). */
  const Initial: MotorState :=
    MotorState(Vec2(0.0, 0.0), Zero3, false, FloatMinValue, false, false, false, false,
               0.0, true, Zero3, [])

  /** `Initial` with `_timeJumpWasPressed` starting, like `_frameLeftGrounded`,
      at `float.MinValue`, so that no press is on record before the first one. */
  const InitialUnpressed: MotorState := Initial.(timeJumpWasPressed := FloatMinValue)

  /** Both one-shot jump permissions have been used up. */
  predicate JumpSpent(s: MotorState) {
    !s.coyoteUsable && !s.bufferedJumpUsable
  }

  /** `HasBufferedJump`: the landing permission is unused and the last press
      was less than `jumpBuffer` ago. */
  predicate HasBufferedJump(s: MotorState, now: real, c: MotorConfig)
    ensures HasBufferedJump(s, now, c) <==> s.bufferedJumpUsable && now - s.timeJumpWasPressed < c.jumpBuffer
  {
    s.bufferedJumpUsable && now < s.timeJumpWasPressed + c.jumpBuffer
  }

  /** `CanUseCoyote`: airborne with the take-off permission unused, less than
      `coyoteTime` after leaving the ground. */
  predicate CanUseCoyote(s: MotorState, now: real, c: MotorConfig)
    ensures CanUseCoyote(s, now, c) <==>
      s.coyoteUsable && !s.grounded && now - s.frameLeftGrounded < c.coyoteTime
  {
    s.coyoteUsable && !s.grounded && now < s.frameLeftGrounded + c.coyoteTime
  }

  // ---------------------------------------------------------------------
  // Input callbacks

  /** `SetMoveInput`. */
  function SetMoveInput(s: MotorState, input: Vec2): (r: MotorState)
    ensures r.moveInput == input
    ensures r.(moveInput := s.moveInput) == s
  {
    s.(moveInput := input)
  }

  /** `OnJumpPressed`: latch a pending press stamped with the current time. */
  function OnJumpPressed(s: MotorState, now: real): (r: MotorState)
    ensures r.jumpToConsume && r.timeJumpWasPressed == now
    ensures r.(jumpToConsume := s.jumpToConsume, timeJumpWasPressed := s.timeJumpWasPressed) == s
  {
    s.(jumpToConsume := true, timeJumpWasPressed := now)
  }

  /** `OnJumpReleased`, given the rigid body's current vertical velocity. */
  function OnJumpReleased(s: MotorState, bodyVy: real): (r: MotorState)
    ensures r.endedJumpEarly <==> s.endedJumpEarly || (!s.grounded && bodyVy > 0.0)
    ensures !s.grounded && bodyVy > 0.0 ==> r.endedJumpEarly
    ensures s.grounded || bodyVy <= 0.0 ==> r == s
    ensures r.(endedJumpEarly := s.endedJumpEarly) == s
  {
    if !s.grounded && bodyVy > 0.0 then s.(endedJumpEarly := true) else s
  }

  // ---------------------------------------------------------------------
  // The six stages of `FixedUpdate`

  /** `CheckCollisions`, with the results of the two sphere casts as inputs. */
  function CheckCollisions(s: MotorState, groundHit: bool, ceilingHit: bool, now: real): (r: MotorState)
    ensures r.grounded == groundHit
    ensures r.frameVelocity.x == s.frameVelocity.x && r.frameVelocity.z == s.frameVelocity.z
    ensures ceilingHit ==> r.frameVelocity.y == Min(0.0, s.frameVelocity.y) && r.frameVelocity.y <= 0.0
    ensures !ceilingHit ==> r.frameVelocity.y == s.frameVelocity.y
    // landing
    ensures !s.grounded && groundHit ==>
      && r.coyoteUsable && r.bufferedJumpUsable && !r.endedJumpEarly
      && r.events == s.events + [GroundedChanged(true, Abs(r.frameVelocity.y))]
      && r.(grounded := s.grounded, coyoteUsable := s.coyoteUsable,
            bufferedJumpUsable := s.bufferedJumpUsable, endedJumpEarly := s.endedJumpEarly,
            events := s.events, frameVelocity := s.frameVelocity) == s
    // take-off
    ensures s.grounded && !groundHit ==>
      && r.frameLeftGrounded == now
      && r.events == s.events + [GroundedChanged(false, 0.0)]
      && r.(grounded := s.grounded, frameLeftGrounded := s.frameLeftGrounded,
            events := s.events, frameVelocity := s.frameVelocity) == s
    // no change of contact: no event and no flag changes
    ensures s.grounded == groundHit ==> r == s.(frameVelocity := r.frameVelocity)
  {
    var vy := if ceilingHit then Min(0.0, s.frameVelocity.y) else s.frameVelocity.y;
    var s1 := s.(frameVelocity := s.frameVelocity.(y := vy));
    if !s1.grounded && groundHit then
      s1.(grounded := true, coyoteUsable := true, bufferedJumpUsable := true,
          endedJumpEarly := false, events := s1.events + [GroundedChanged(true, Abs(vy))])
    else if s1.grounded && !groundHit then
      s1.(grounded := false, frameLeftGrounded := now,
          events := s1.events + [GroundedChanged(false, 0.0)])
    else
      s1
  }

  /** `ExecuteJump`. */
  function ExecuteJump(s: MotorState, c: MotorConfig): (r: MotorState)
    ensures r.frameVelocity.y == c.jumpPower
    ensures JumpSpent(r) && !r.endedJumpEarly && r.timeJumpWasPressed == 0.0
    ensures r.events == s.events + [Jumped]
    ensures r.frameVelocity.x == s.frameVelocity.x && r.frameVelocity.z == s.frameVelocity.z
    ensures r.(endedJumpEarly := s.endedJumpEarly, timeJumpWasPressed := s.timeJumpWasPressed,
               bufferedJumpUsable := s.bufferedJumpUsable, coyoteUsable := s.coyoteUsable,
               frameVelocity := s.frameVelocity, events := s.events) == s
  {
    s.(endedJumpEarly := false, timeJumpWasPressed := 0.0, bufferedJumpUsable := false,
       coyoteUsable := false, frameVelocity := s.frameVelocity.(y := c.jumpPower),
       events := s.events + [Jumped])
  }

  /** There is a press to consume or a buffered jump: `HandleJump` passes its guard. */
  predicate JumpPending(s: MotorState, now: real, c: MotorConfig) {
    s.jumpToConsume || HasBufferedJump(s, now, c)
  }

  /** `HandleJump`. */
  function HandleJump(s: MotorState, now: real, c: MotorConfig): (r: MotorState)
    ensures !JumpPending(s, now, c) ==> r == s
    ensures JumpPending(s, now, c) ==> !r.jumpToConsume
    ensures r.grounded == s.grounded && r.moveInput == s.moveInput && r.facingRight == s.facingRight
    ensures r.frameVelocity.x == s.frameVelocity.x && r.frameVelocity.z == s.frameVelocity.z
    // a jump executes exactly when the guard passes and the body is grounded or in coyote time
    ensures JumpPending(s, now, c) && (s.grounded || CanUseCoyote(s, now, c)) ==>
      && r.events == s.events + [Jumped]
      && r.frameVelocity.y == c.jumpPower && JumpSpent(r) && !r.endedJumpEarly
    ensures !(JumpPending(s, now, c) && (s.grounded || CanUseCoyote(s, now, c))) ==>
      r == s.(jumpToConsume := r.jumpToConsume)
  {
    if !s.jumpToConsume && !HasBufferedJump(s, now, c) then s
    else
      var s1 := if s.grounded || CanUseCoyote(s, now, c) then ExecuteJump(s, c) else s;
      s1.(jumpToConsume := false)
  }

  /** The speed `HandleHorizontalMovement` steers towards: zero for an input
      inside the `Approximately` dead zone, and for a normalised input never
      faster than `maxSpeed`. */
  function HorizontalTarget(s: MotorState, c: MotorConfig): (r: real)
    ensures ApproximatelyZero(s.moveInput.x) ==> r == 0.0
    ensures WellFormed(c) && -1.0 <= s.moveInput.x <= 1.0 ==> Abs(r) <= c.maxSpeed
  {
    if ApproximatelyZero(s.moveInput.x) then 0.0
    else
      assert WellFormed(c) && -1.0 <= s.moveInput.x <= 1.0 ==> Abs(s.moveInput.x * c.maxSpeed) <= c.maxSpeed by {
        if WellFormed(c) && -1.0 <= s.moveInput.x <= 1.0 {
          ScaledInputBounded(s.moveInput.x, c.maxSpeed);
        }
      }
      s.moveInput.x * c.maxSpeed
  }

  /** The acceleration or deceleration `HandleHorizontalMovement` uses. */
  function HorizontalRate(s: MotorState, c: MotorConfig): (rate: real)
    ensures WellFormed(c) ==> rate >= 0.0
  {
    if !ApproximatelyZero(s.moveInput.x) then c.acceleration
    else if s.grounded then c.groundDeceleration
    else c.airDeceleration
  }

  /** `HandleHorizontalMovement`, over one fixed step of length `dt`; the
      rate limit it keeps is `LocomotionProperties.HorizontalStepSpec`. */
  function HandleHorizontalMovement(s: MotorState, c: MotorConfig, dt: real): (r: MotorState)
    ensures r.frameVelocity.z == 0.0 && r.frameVelocity.y == s.frameVelocity.y
    ensures r.(frameVelocity := s.frameVelocity) == s
  {
    var vx := MoveTowards(s.frameVelocity.x, HorizontalTarget(s, c), HorizontalRate(s, c) * dt);
    s.(frameVelocity := Vec3(vx, s.frameVelocity.y, 0.0))
  }

  /** The downward acceleration `HandleGravity` applies while not grounded. */
  function FallAcceleration(s: MotorState, c: MotorConfig): (g: real)
    ensures WellFormed(c) ==> g >= 0.0
  {
    if s.endedJumpEarly && s.frameVelocity.y > 0.0 then
      NonNegativeProduct(c.fallAcceleration, c.jumpEndEarlyGravityModifier, WellFormed(c));
      c.fallAcceleration * c.jumpEndEarlyGravityModifier
    else c.fallAcceleration
  }

  /** `HandleGravity`, over one fixed step of length `dt`; the limits it
      keeps are `LocomotionProperties.GravityStepSpec`. */
  function HandleGravity(s: MotorState, c: MotorConfig, dt: real): (r: MotorState)
    ensures s.grounded && s.frameVelocity.y <= 0.0 ==> r.frameVelocity.y == c.groundingForce
    ensures r.frameVelocity.x == s.frameVelocity.x && r.frameVelocity.z == s.frameVelocity.z
    ensures r.(frameVelocity := s.frameVelocity) == s
  {
    if s.grounded && s.frameVelocity.y <= 0.0 then
      s.(frameVelocity := s.frameVelocity.(y := c.groundingForce))
    else
      s.(frameVelocity := s.frameVelocity.(y := MoveTowards(s.frameVelocity.y, -c.maxFallSpeed, FallAcceleration(s, c) * dt)))
  }

  /** `HandleFacing`: only the facing flag is modelled, not the rotation. */
  function HandleFacing(s: MotorState): (r: MotorState)
    ensures ApproximatelyZero(s.moveInput.x) ==> r == s
    ensures !ApproximatelyZero(s.moveInput.x) ==> (r.facingRight <==> s.moveInput.x > 0.0)
    ensures r.(facingRight := s.facingRight) == s
  {
    if ApproximatelyZero(s.moveInput.x) then s
    else
      var shouldFaceRight := s.moveInput.x > 0.0;
      if shouldFaceRight == s.facingRight then s else s.(facingRight := shouldFaceRight)
  }

  /** `ApplyMovement`: commit the frame velocity to the rigid body. */
  function ApplyMovement(s: MotorState): (r: MotorState)
    ensures r.bodyVelocity == s.frameVelocity
    ensures r.(bodyVelocity := s.bodyVelocity) == s
  {
    s.(bodyVelocity := s.frameVelocity)
  }

  /** `FixedUpdate`: the six stages in their fixed order. */
  function FixedStep(s: MotorState, groundHit: bool, ceilingHit: bool, now: real,
                     c: MotorConfig, dt: real): (r: MotorState)
    ensures r.grounded == groundHit && r.moveInput == s.moveInput
    ensures !r.jumpToConsume
    ensures r.bodyVelocity == r.frameVelocity && r.frameVelocity.z == 0.0
    ensures |s.events| <= |r.events| <= |s.events| + 2 && r.events[..|s.events|] == s.events
  {
    var s1 := CheckCollisions(s, groundHit, ceilingHit, now);
    var s2 := HandleJump(s1, now, c);
    var s3 := HandleHorizontalMovement(s2, c, dt);
    var s4 := HandleGravity(s3, c, dt);
    var s5 := HandleFacing(s4);
    ApplyMovement(s5)
  }

  // ---------------------------------------------------------------------
  // Runs: callbacks delivered between fixed steps

  /** A callback from the input glue. */
  datatype InputEvent =
    | MoveInput(value: Vec2)
    | JumpPressed(at: real)
    | JumpReleased(bodyVy: real)

  function ApplyInput(s: MotorState, e: InputEvent): MotorState {
    match e
    case MoveInput(v) => SetMoveInput(s, v)
    case JumpPressed(t) => OnJumpPressed(s, t)
    case JumpReleased(vy) => OnJumpReleased(s, vy)
  }

  function ApplyInputs(s: MotorState, es: seq<InputEvent>): MotorState
    decreases |es|
  {
    if es == [] then s else ApplyInputs(ApplyInput(s, es[0]), es[1..])
  }

  /** The callbacks that arrive before one fixed step, and what the engine
      reports for that step. */
  datatype Tick = Tick(inputs: seq<InputEvent>, groundHit: bool, ceilingHit: bool, now: real, dt: real)

  function Run(s: MotorState, ticks: seq<Tick>, c: MotorConfig): MotorState
    decreases |ticks|
  {
    if ticks == [] then s
    else
      var t := ticks[0];
      Run(FixedStep(ApplyInputs(s, t.inputs), t.groundHit, t.ceilingHit, t.now, c, t.dt), ticks[1..], c)
  }

  function CountJumps(events: seq<MotorEvent>): nat
    decreases |events|
  {
    if events == [] then 0
    else (if events[0] == Jumped then 1 else 0) + CountJumps(events[1..])
  }
}
