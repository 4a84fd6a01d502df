/** What the locomotion step guarantees across calls: jump permissions are
    spent by a jump and restored only by a landing (so no double jump), and
    the committed velocity stays within the configured speed limits. */
module LocomotionProperties {
  import opened UnityMath
  import opened Locomotion

  lemma {:induction false} CountJumpsAppend(a: seq<MotorEvent>, b: seq<MotorEvent>)
    ensures CountJumps(a + b) == CountJumps(a) + CountJumps(b)
    decreases |a|
  {
    if a == [] {
      assert a + b == b;
    } else {
      assert (a + b)[1..] == a[1..] + b;
      CountJumpsAppend(a[1..], b);
    }
  }

  /** The input callbacks touch only the input latch, the press time and the
      early-release flag: contact, permissions, velocity and events are as
      before. */
  lemma {:induction false} InputsKeepMotion(s: MotorState, es: seq<InputEvent>)
    ensures var r := ApplyInputs(s, es);
      && r.grounded == s.grounded && r.frameLeftGrounded == s.frameLeftGrounded
      && r.coyoteUsable == s.coyoteUsable && r.bufferedJumpUsable == s.bufferedJumpUsable
      && r.frameVelocity == s.frameVelocity && r.events == s.events
    ensures InputBounded(s.moveInput) && InputsBounded(es) ==> InputBounded(ApplyInputs(s, es).moveInput)
    decreases |es|
  {
    if es != [] {
      InputsKeepMotion(ApplyInput(s, es[0]), es[1..]);
    }
  }

  /** The horizontal input axis is normalised, as the input system delivers it. */
  predicate InputBounded(v: Vec2) {
    -1.0 <= v.x <= 1.0
  }

  predicate InputsBounded(es: seq<InputEvent>) {
    forall i :: 0 <= i < |es| && es[i].MoveInput? ==> InputBounded(es[i].value)
  }

  /** Whether the jump stage of a step starting in `s` executes a jump. */
  predicate StepJumps(s: MotorState, groundHit: bool, ceilingHit: bool, now: real, c: MotorConfig) {
    var s1 := CheckCollisions(s, groundHit, ceilingHit, now);
    JumpPending(s1, now, c) && (s1.grounded || CanUseCoyote(s1, now, c))
  }

  /** One fixed step emits at most one `Jumped`; a jump leaves both
      permissions spent, and without ground contact no permission comes back. */
  lemma StepJumpAccounting(s: MotorState, groundHit: bool, ceilingHit: bool, now: real,
                           c: MotorConfig, dt: real)
    ensures var r := FixedStep(s, groundHit, ceilingHit, now, c, dt);
      CountJumps(r.events) == CountJumps(s.events) + (if StepJumps(s, groundHit, ceilingHit, now, c) then 1 else 0)
    ensures StepJumps(s, groundHit, ceilingHit, now, c) ==> JumpSpent(FixedStep(s, groundHit, ceilingHit, now, c, dt))
    ensures !groundHit && JumpSpent(s) ==> JumpSpent(FixedStep(s, groundHit, ceilingHit, now, c, dt))
    ensures !groundHit && JumpSpent(s) ==> !StepJumps(s, groundHit, ceilingHit, now, c)
  {
    var s1 := CheckCollisions(s, groundHit, ceilingHit, now);
    var s2 := HandleJump(s1, now, c);
    CountJumpsAppend(s.events, [GroundedChanged(true, Abs(s1.frameVelocity.y))]);
    CountJumpsAppend(s.events, [GroundedChanged(false, 0.0)]);
    CountJumpsAppend(s1.events, [Jumped]);
    assert CountJumps(s1.events) == CountJumps(s.events);
  }

  /** While the body stays airborne, at most one jump executes (a coyote jump
      or, on the take-off step, a buffered one); once both permissions are
      spent, none does: there is no double jump until the next landing. */
  lemma {:induction false} AirborneJumpsAtMostOnce(s: MotorState, ticks: seq<Tick>, c: MotorConfig)
    requires forall i :: 0 <= i < |ticks| ==> !ticks[i].groundHit
    ensures CountJumps(Run(s, ticks, c).events) <= CountJumps(s.events) + 1
    ensures JumpSpent(s) ==> CountJumps(Run(s, ticks, c).events) == CountJumps(s.events)
    decreases |ticks|
  {
    if ticks != [] {
      var t := ticks[0];
      var s0 := ApplyInputs(s, t.inputs);
      InputsKeepMotion(s, t.inputs);
      var s1 := FixedStep(s0, t.groundHit, t.ceilingHit, t.now, c, t.dt);
      StepJumpAccounting(s0, t.groundHit, t.ceilingHit, t.now, c, t.dt);
      AirborneJumpsAtMostOnce(s1, ticks[1..], c);
    }
  }

  /** The speed limits the step keeps: horizontal speed at most `maxSpeed`,
      vertical speed between terminal velocity and the jump impulse, and the
      depth axis locked. */
  predicate VelocityBounded(v: Vec3, c: MotorConfig) {
    Abs(v.x) <= c.maxSpeed && -c.maxFallSpeed <= v.y <= c.jumpPower && v.z == 0.0
  }

  /** The horizontal stage moves the speed towards its target, by at most
      `rate * dt`, and reaches the target exactly when it is within that reach. */
  lemma HorizontalStepSpec(s: MotorState, c: MotorConfig, dt: real)
    requires WellFormed(c) && dt >= 0.0
    ensures var r := HandleHorizontalMovement(s, c, dt);
      && Between(r.frameVelocity.x, s.frameVelocity.x, HorizontalTarget(s, c))
      && Abs(r.frameVelocity.x - s.frameVelocity.x) <= HorizontalRate(s, c) * dt
      && (r.frameVelocity.x == HorizontalTarget(s, c) <==>
          Abs(HorizontalTarget(s, c) - s.frameVelocity.x) <= HorizontalRate(s, c) * dt)
  {
    var d := HorizontalRate(s, c) * dt;
    NonNegativeProduct(HorizontalRate(s, c), dt, true);
    MoveTowardsSpec(s.frameVelocity.x, HorizontalTarget(s, c), d);
    assert HandleHorizontalMovement(s, c, dt).frameVelocity.x == MoveTowards(s.frameVelocity.x, HorizontalTarget(s, c), d);
  }

  /** Off the ground (or while rising) gravity pulls the vertical speed
      towards terminal velocity by at most `FallAcceleration * dt`, so a speed
      no faster than terminal velocity stays so. */
  lemma GravityStepSpec(s: MotorState, c: MotorConfig, dt: real)
    requires WellFormed(c) && dt >= 0.0
    ensures var r := HandleGravity(s, c, dt);
      !(s.grounded && s.frameVelocity.y <= 0.0) ==>
        && Between(r.frameVelocity.y, s.frameVelocity.y, -c.maxFallSpeed)
        && Abs(r.frameVelocity.y - s.frameVelocity.y) <= FallAcceleration(s, c) * dt
    ensures var r := HandleGravity(s, c, dt);
      s.frameVelocity.y >= -c.maxFallSpeed ==> r.frameVelocity.y >= -c.maxFallSpeed
  {
    if !(s.grounded && s.frameVelocity.y <= 0.0) {
      var d := FallAcceleration(s, c) * dt;
      NonNegativeProduct(FallAcceleration(s, c), dt, true);
      MoveTowardsSpec(s.frameVelocity.y, -c.maxFallSpeed, d);
      assert HandleGravity(s, c, dt).frameVelocity.y == MoveTowards(s.frameVelocity.y, -c.maxFallSpeed, d);
    }
  }

  lemma StepKeepsVelocityBounded(s: MotorState, groundHit: bool, ceilingHit: bool, now: real,
                                 c: MotorConfig, dt: real)
    requires WellFormed(c) && dt >= 0.0
    requires InputBounded(s.moveInput) && VelocityBounded(s.frameVelocity, c)
    ensures var r := FixedStep(s, groundHit, ceilingHit, now, c, dt);
      VelocityBounded(r.frameVelocity, c) && r.bodyVelocity == r.frameVelocity
  {
    var s1 := CheckCollisions(s, groundHit, ceilingHit, now);
    assert s1.moveInput == s.moveInput;
    var s2 := HandleJump(s1, now, c);
    assert -c.maxFallSpeed <= s2.frameVelocity.y <= c.jumpPower;
    HorizontalStepSpec(s2, c, dt);
    var s3 := HandleHorizontalMovement(s2, c, dt);
    assert Abs(s3.frameVelocity.x) <= c.maxSpeed;
    GravityStepSpec(s3, c, dt);
    var s4 := HandleGravity(s3, c, dt);
    assert -c.maxFallSpeed <= s4.frameVelocity.y <= c.jumpPower;
  }

  /** From the initial state, every run whose inputs are normalised keeps the
      velocity within the limits. */
  lemma {:induction false} RunKeepsVelocityBounded(s: MotorState, ticks: seq<Tick>, c: MotorConfig)
    requires WellFormed(c)
    requires InputBounded(s.moveInput) && VelocityBounded(s.frameVelocity, c)
    requires forall i :: 0 <= i < |ticks| ==> ticks[i].dt >= 0.0 && InputsBounded(ticks[i].inputs)
    ensures VelocityBounded(Run(s, ticks, c).frameVelocity, c)
    ensures InputBounded(Run(s, ticks, c).moveInput)
    decreases |ticks|
  {
    if ticks != [] {
      var t := ticks[0];
      var s0 := ApplyInputs(s, t.inputs);
      InputsKeepMotion(s, t.inputs);
      StepKeepsVelocityBounded(s0, t.groundHit, t.ceilingHit, t.now, c, t.dt);
      var s1 := FixedStep(s0, t.groundHit, t.ceilingHit, t.now, c, t.dt);
      assert s1.moveInput == s0.moveInput;
      RunKeepsVelocityBounded(s1, ticks[1..], c);
    }
  }

  lemma InitialVelocityBounded(c: MotorConfig)
    requires WellFormed(c)
    ensures VelocityBounded(Initial.frameVelocity, c) && InputBounded(Initial.moveInput)
  {
  }

  /** A press while grounded jumps on the very next step: at once if the
      ground is still there, and on the take-off step through the coyote
      window, which is open at the instant of leaving while the take-off
      permission is unused and `coyoteTime` is positive. */
  lemma GroundedPressJumps(s: MotorState, at: real, groundHit: bool, ceilingHit: bool, now: real,
                           c: MotorConfig, dt: real)
    requires s.grounded && (groundHit || (s.coyoteUsable && c.coyoteTime > 0.0))
    ensures StepJumps(OnJumpPressed(s, at), groundHit, ceilingHit, now, c)
    ensures JumpSpent(FixedStep(OnJumpPressed(s, at), groundHit, ceilingHit, now, c, dt))
  {
    StepJumpAccounting(OnJumpPressed(s, at), groundHit, ceilingHit, now, c, dt);
  }

  /** A press made in the air, at most `jumpBuffer` before touching down, is
      honoured on the landing step although its latch was already consumed. */
  lemma BufferedJumpOnLanding(s: MotorState, ceilingHit: bool, now: real, c: MotorConfig, dt: real)
    requires !s.grounded && now < s.timeJumpWasPressed + c.jumpBuffer
    ensures StepJumps(s, true, ceilingHit, now, c)
    ensures CountJumps(FixedStep(s, true, ceilingHit, now, c, dt).events) == CountJumps(s.events) + 1
  {
    StepJumpAccounting(s, true, ceilingHit, now, c, dt);
  }

  /** A press while airborne after the coyote window has closed executes no
      jump and spends no permission; only the latch is cleared. */
  lemma LateAirPressSpendsNothing(s: MotorState, ceilingHit: bool, now: real, c: MotorConfig, dt: real)
    requires !s.grounded && now >= s.frameLeftGrounded + c.coyoteTime
    ensures !StepJumps(s, false, ceilingHit, now, c)
    ensures var r := HandleJump(CheckCollisions(s, false, ceilingHit, now), now, c);
      r.coyoteUsable == s.coyoteUsable && r.bufferedJumpUsable == s.bufferedJumpUsable && !r.jumpToConsume
  {
  }

  /** Right after an early release while ascending, gravity is multiplied by
      `jumpEndEarlyGravityModifier`; `EarlyReleaseLastsUntilLandingOrJump`
      shows that this lasts, while ascending, until a landing or a jump. */
  lemma EarlyReleaseStrengthensGravity(s: MotorState, bodyVy: real, c: MotorConfig)
    requires !s.grounded && bodyVy > 0.0 && s.frameVelocity.y > 0.0
    ensures FallAcceleration(OnJumpReleased(s, bodyVy), c) == c.fallAcceleration * c.jumpEndEarlyGravityModifier
  {
  }

  /** Input callbacks never clear the early-release flag. */
  lemma {:induction false} InputsKeepEarlyRelease(s: MotorState, es: seq<InputEvent>)
    requires s.endedJumpEarly
    ensures ApplyInputs(s, es).endedJumpEarly
    decreases |es|
  {
    if es != [] {
      InputsKeepEarlyRelease(ApplyInput(s, es[0]), es[1..]);
    }
  }

  /** A fixed step only appends to the log, so no logged jump is lost. */
  lemma StepKeepsJumps(s: MotorState, groundHit: bool, ceilingHit: bool, now: real,
                       c: MotorConfig, dt: real)
    ensures CountJumps(FixedStep(s, groundHit, ceilingHit, now, c, dt).events) >= CountJumps(s.events)
  {
    var r := FixedStep(s, groundHit, ceilingHit, now, c, dt);
    assert r.events == s.events + r.events[|s.events|..];
    CountJumpsAppend(s.events, r.events[|s.events|..]);
  }

  /** The number of logged jumps never decreases over a run. */
  lemma {:induction false} RunKeepsJumps(s: MotorState, ticks: seq<Tick>, c: MotorConfig)
    ensures CountJumps(Run(s, ticks, c).events) >= CountJumps(s.events)
    decreases |ticks|
  {
    if ticks != [] {
      var t := ticks[0];
      var s0 := ApplyInputs(s, t.inputs);
      InputsKeepMotion(s, t.inputs);
      StepKeepsJumps(s0, t.groundHit, t.ceilingHit, t.now, c, t.dt);
      RunKeepsJumps(FixedStep(s0, t.groundHit, t.ceilingHit, t.now, c, t.dt), ticks[1..], c);
    }
  }

  /** Once released early, the flag survives every airborne step that does
      not jump: over a run without ground contact, either a jump is logged
      or the flag is still set, so for as long as the body rises gravity
      stays multiplied by `jumpEndEarlyGravityModifier`. */
  lemma {:induction false} EarlyReleaseLastsUntilLandingOrJump(s: MotorState, ticks: seq<Tick>, c: MotorConfig)
    requires s.endedJumpEarly
    requires forall i :: 0 <= i < |ticks| ==> !ticks[i].groundHit
    ensures var r := Run(s, ticks, c);
      r.endedJumpEarly || CountJumps(r.events) > CountJumps(s.events)
    ensures var r := Run(s, ticks, c);
      CountJumps(r.events) == CountJumps(s.events) && r.frameVelocity.y > 0.0 ==>
        FallAcceleration(r, c) == c.fallAcceleration * c.jumpEndEarlyGravityModifier
    decreases |ticks|
  {
    if ticks != [] {
      var t := ticks[0];
      var s0 := ApplyInputs(s, t.inputs);
      InputsKeepMotion(s, t.inputs);
      InputsKeepEarlyRelease(s, t.inputs);
      var s1 := FixedStep(s0, false, t.ceilingHit, t.now, c, t.dt);
      StepJumpAccounting(s0, false, t.ceilingHit, t.now, c, t.dt);
      forall i | 0 <= i < |ticks[1..]|
        ensures !ticks[1..][i].groundHit
      {
        assert ticks[1..][i] == ticks[i + 1];
      }
      assert Run(s, ticks, c) == Run(s1, ticks[1..], c);
      if StepJumps(s0, false, t.ceilingHit, t.now, c) {
        RunKeepsJumps(s1, ticks[1..], c);
      } else {
        var s2 := HandleJump(CheckCollisions(s0, false, t.ceilingHit, t.now), t.now, c);
        assert s2.endedJumpEarly;
        EarlyReleaseLastsUntilLandingOrJump(s1, ticks[1..], c);
      }
    }
  }

  // ---------------------------------------------------------------------
  // The press time's initial value

  /** As written, `_timeJumpWasPressed` starts at 0 while the landing
      permission is granted by every landing, so the first landing within
      `jumpBuffer` seconds of the start executes a jump no press asked for. */
  lemma SpawnLandingJumpsUnpressed(ceilingHit: bool, now: real, c: MotorConfig, dt: real)
    requires 0.0 <= now < c.jumpBuffer
    ensures CountJumps(FixedStep(Initial, true, ceilingHit, now, c, dt).events) == 1
  {
    BufferedJumpOnLanding(Initial, ceilingHit, now, c, dt);
  }

  /** The callbacks of a tick contain no jump press. */
  predicate NoPress(es: seq<InputEvent>) {
    forall i :: 0 <= i < |es| ==> !es[i].JumpPressed?
  }

  /** Callbacks without a press leave the latch and the press time alone. */
  lemma {:induction false} InputsWithoutPress(s: MotorState, es: seq<InputEvent>)
    requires NoPress(es)
    ensures ApplyInputs(s, es).jumpToConsume == s.jumpToConsume
    ensures ApplyInputs(s, es).timeJumpWasPressed == s.timeJumpWasPressed
    decreases |es|
  {
    if es != [] {
      assert NoPress(es[1..]) by {
        forall i | 0 <= i < |es[1..]|
          ensures !es[1..][i].JumpPressed?
        {
          assert es[1..][i] == es[i + 1];
        }
      }
      InputsWithoutPress(ApplyInput(s, es[0]), es[1..]);
    }
  }

  /** With no press on record (press time `float.MinValue`, latch clear), a
      run whose callbacks never press jump executes no jump at all. */
  lemma {:induction false} NoPressNoJump(s: MotorState, ticks: seq<Tick>, c: MotorConfig)
    requires s.timeJumpWasPressed == FloatMinValue && !s.jumpToConsume
    requires c.jumpBuffer <= -FloatMinValue
    requires forall i :: 0 <= i < |ticks| ==> ticks[i].now >= 0.0 && NoPress(ticks[i].inputs)
    ensures CountJumps(Run(s, ticks, c).events) == CountJumps(s.events)
    decreases |ticks|
  {
    if ticks != [] {
      var t := ticks[0];
      var s0 := ApplyInputs(s, t.inputs);
      InputsWithoutPress(s, t.inputs);
      InputsKeepMotion(s, t.inputs);
      var s1 := CheckCollisions(s0, t.groundHit, t.ceilingHit, t.now);
      assert !JumpPending(s1, t.now, c);
      assert !StepJumps(s0, t.groundHit, t.ceilingHit, t.now, c);
      StepJumpAccounting(s0, t.groundHit, t.ceilingHit, t.now, c, t.dt);
      var r := FixedStep(s0, t.groundHit, t.ceilingHit, t.now, c, t.dt);
      assert r.timeJumpWasPressed == FloatMinValue;
      forall i | 0 <= i < |ticks[1..]|
        ensures ticks[1..][i].now >= 0.0 && NoPress(ticks[1..][i].inputs)
      {
        assert ticks[1..][i] == ticks[i + 1];
      }
      NoPressNoJump(r, ticks[1..], c);
      assert Run(s, ticks, c) == Run(r, ticks[1..], c);
    }
  }

  /** The corrected start, `InitialUnpressed`: a run without presses from it
      never jumps, whatever the contacts and however soon it lands. */
  lemma UnpressedStartNeverJumps(ticks: seq<Tick>, c: MotorConfig)
    requires c.jumpBuffer <= -FloatMinValue
    requires forall i :: 0 <= i < |ticks| ==> ticks[i].now >= 0.0 && NoPress(ticks[i].inputs)
    ensures CountJumps(Run(InitialUnpressed, ticks, c).events) == 0
  {
    NoPressNoJump(InitialUnpressed, ticks, c);
  }
}
