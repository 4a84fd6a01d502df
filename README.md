# Silent Planet movement and tools core, in Dafny

This project models the gameplay core of the Unity game *Silent Planet*. It covers four components:

- **`PlayerMotor`**: the rigid-body motor of the side-scrolling player. Every fixed step it runs six stages in order: it senses ground and ceiling contact, consumes a jump request, shapes the horizontal speed, applies gravity, updates the facing, and commits the velocity to the body. Jumps are forgiving in two ways: *coyote time* allows a jump shortly after walking off a ledge, and *jump buffering* honours a press made just before landing.
- **`RopeSystem`**: a rope of spring-jointed nodes that the player deploys at their anchor point and retracts. The nodes are built on the first deploy and reused on every later one.
- **`BlockEditorWindow`**: an editor tool. A mouse drag in the scene view selects a rectangle of grid cells. Releasing the left button fills the empty cells with columns of blocks; releasing the right button clears the cells.
- **`PlayerController`**: the simpler character-controller path. It integrates gravity, builds a motion vector and picks a turn direction.

Each component the script updates in place is a `class` with the script's fields.

- **`Motor.PlayerMotor`**: every method is proved to produce exactly the state given by a function of module `Locomotion`. `Locomotion` holds one pure function per method, on an immutable copy of the fields (`MotorState`).
- **`LocomotionProperties`**: proves what holds across calls about those functions:
  - there is no double jump between landings;
  - buffered jumps and coyote jumps behave as described above;
  - the velocity stays within `maxSpeed`, terminal velocity and the jump impulse.
- **`Rope.RopeSystem`**: keeps an invariant `Valid()`. It says:
  - there are `nodeCount` nodes once the rope has been built;
  - each node after the first is jointed to its predecessor;
  - the player joint exists exactly while the rope is deployed.

  The methods are loops over the node list, proved against the functions `NewNode`, `Reactivated` and `RenderSequence`.
- **`BlockEditor.BlockEditorWindow`**: places and deletes blocks with nested loops over the rectangle. The loops are proved equal to the map functions `Placed` and `Deleted`, and lemmas give their algebra:
  - placing twice is placing once;
  - deleting what was just placed restores everything outside the rectangle;
  - the result does not depend on which corner the drag started from.
- **`Controller.PlayerController`**: its methods are tied to `GravityStep`, `Motion` and `FacingTarget`. Lemmas cover the behaviour on the ground and in free fall over many frames.

Engine facts are parameters:

- the two sphere-cast results `groundHit` and `ceilingHit`;
- the script clock `now`, which is `_time`;
- `Time.fixedDeltaTime` and `Time.deltaTime`, both written `dt`;
- the rigid body's vertical speed `bodyVy`, read by `OnJumpReleased`;
- the player's `transform.position`;
- `isGrounded` of the character controller;
- the mouse event and its grid cell.

The `GroundedChanged` and `Jumped` events are appended to a log, `events`.

Unity helpers are written out exactly, in `UnityMath`:

- `Mathf.MoveTowards(c, t, d)` reaches `t` when `|t - c| <= d`. Otherwise it steps by `d`, upwards when `t - c` is zero or more and downwards otherwise.
- `Mathf.Approximately(x, 0)` is written as Unity computes it: `|0 - x| < max(1e-6 * max(|x|, |0|), 8 * float.Epsilon)`. Here `float.Epsilon` is the exact value 2^-149, so the bound is 2^-146 (about 1.1210388e-44). For any `x` other than 0 the relative term `1e-6 * |x|` is smaller than `|x|` itself, so it can never make the test succeed. The contract of `ApproximatelyZero` proves that the test is exactly `|x| < 8 * float.Epsilon`.

Points where the code does less than its settings or names suggest; the model follows the code:

- No code implements a jetpack or crouching: the jetpack and crouch values in `PlayerMotorSettings.cs` are never read, so neither is modelled.
- No code rejects a `nodeCount` of zero or less. The model takes `nodeCount` as a `nat` and allows 0: the player joint is then connected to no node (`LastNode` is `None`).
- There is no input dead-zone beyond `Mathf.Approximately(x, 0)`, which only ignores inputs within a few subnormals of zero. The model uses exactly that test.

## Model

| member | source | states |
|---|---|---|
| UnityMath.ApproximatelyZero | Assets/_Scripts/PlayerMotor.cs:292 | Unity's relative-or-absolute test against 0 holds exactly when `Abs(x) < 8 * float.Epsilon`, that is for `x` strictly inside `(-2^-146, 2^-146)`, and in particular for 0. |
| UnityMath.MoveTowards | Assets/_Scripts/PlayerMotor.cs:296-302 | A target within `maxDelta` of the start is reached exactly; the rest of its contract is `MoveTowardsSpec`. |
| UnityMath.MoveTowardsSpec | Assets/_Scripts/PlayerMotor.cs:298-304 | With a non-negative step `d`, the result lies between start and target and moves by at most `d`. It equals the target exactly when the target is within `d`; otherwise it moves by exactly `d`. |
| Locomotion.HasBufferedJump | Assets/_Scripts/PlayerMotor.cs:114 | A buffered jump is available iff the landing permission is unused and less than `jumpBuffer` has passed since the last press. |
| Locomotion.CanUseCoyote | Assets/_Scripts/PlayerMotor.cs:119 | A coyote jump is available iff the take-off permission is unused, the body is airborne and less than `coyoteTime` has passed since it left the ground. |
| Locomotion.SetMoveInput | Assets/_Scripts/PlayerMotor.cs:159-162 | The input is stored and nothing else changes. |
| Locomotion.OnJumpPressed | Assets/_Scripts/PlayerMotor.cs:167-171 | The press is latched and stamped with the current time; nothing else changes. |
| Locomotion.OnJumpReleased | Assets/_Scripts/PlayerMotor.cs:176-183 | `endedJumpEarly` becomes set iff it was set or the body is airborne and rising; otherwise the state is unchanged. |
| Locomotion.CheckCollisions | Assets/_Scripts/PlayerMotor.cs:217-239 | A ceiling hit clamps the vertical speed to at most 0. Landing sets grounded, restores both jump permissions, clears the early-release flag and logs `GroundedChanged(true, Abs(vy))`. Taking off records the time and logs `GroundedChanged(false, 0)`. No contact change: only the ceiling clamp applies. |
| Locomotion.ExecuteJump | Assets/_Scripts/PlayerMotor.cs:273-281 | Vertical speed becomes `jumpPower`, both permissions are spent, the press time is reset to 0 and `Jumped` is logged; nothing else changes. |
| Locomotion.HandleJump | Assets/_Scripts/PlayerMotor.cs:258-271 | Without a pending press or buffered jump nothing changes. Otherwise the latch is consumed, and a jump executes exactly when the body is grounded or within coyote time. |
| Locomotion.HorizontalTarget | Assets/_Scripts/PlayerMotor.cs:292-301 | The target speed is 0 for an input in the `Approximately` dead zone; for a normalised input and a well-formed configuration it is within `maxSpeed`. |
| Locomotion.HorizontalRate | Assets/_Scripts/PlayerMotor.cs:292-305 | The acceleration or deceleration used is non-negative under a well-formed configuration. |
| Locomotion.HandleHorizontalMovement | Assets/_Scripts/PlayerMotor.cs:287-307 | The depth axis is locked to 0, vertical speed is untouched, and only the frame velocity changes. |
| Locomotion.FallAcceleration | Assets/_Scripts/PlayerMotor.cs:323-328 | The gravity used is non-negative under a well-formed configuration. |
| Locomotion.HandleGravity | Assets/_Scripts/PlayerMotor.cs:313-338 | Grounded and not rising: vertical speed becomes `groundingForce`. Horizontal and depth speed are untouched, and only the frame velocity changes. |
| Locomotion.HandleFacing | Assets/_Scripts/PlayerMotor.cs:344-359 | With zero input nothing changes; otherwise the character faces right iff the input is positive. |
| Locomotion.FixedStep | Assets/_Scripts/PlayerMotor.cs:142-150 | After a fixed step contact equals the ground probe, the input is kept, the press latch is always clear, the depth speed is 0 and the body carries the frame velocity. The old log is kept as a prefix and at most two events (a contact change and a jump) are added. |
| Locomotion.ApplyMovement | Assets/_Scripts/PlayerMotor.cs:365-368 | The body velocity becomes the frame velocity; nothing else changes. |
| LocomotionProperties.CountJumpsAppend | Assets/_Scripts/PlayerMotor.cs:280 | The number of `Jumped` events in a concatenated log is the sum of the two parts. |
| LocomotionProperties.InputsKeepMotion | Assets/_Scripts/PlayerMotor.cs:159-183 | Input callbacks leave contact, permissions, velocity and the event log unchanged, and keep a normalised input normalised. |
| LocomotionProperties.StepJumpAccounting | Assets/_Scripts/PlayerMotor.cs:142-150 | One fixed step logs exactly one `Jumped` when its jump stage fires and none otherwise. A jump spends both permissions. Without ground contact spent permissions stay spent and no jump fires. |
| LocomotionProperties.AirborneJumpsAtMostOnce | Assets/_Scripts/PlayerMotor.cs:224-281 | Over any run of airborne steps at most one jump executes, and none once both permissions are spent: no double jump. |
| LocomotionProperties.HorizontalStepSpec | Assets/_Scripts/PlayerMotor.cs:287-307 | The horizontal speed moves towards its target without overshooting, by at most `rate * dt`. It reaches the target exactly when the target is within that reach. |
| LocomotionProperties.GravityStepSpec | Assets/_Scripts/PlayerMotor.cs:313-338 | In the air (or rising) vertical speed moves towards `-maxFallSpeed` by at most `FallAcceleration * dt`, so it never falls faster than terminal velocity. |
| LocomotionProperties.StepKeepsVelocityBounded | Assets/_Scripts/PlayerMotor.cs:142-150 | A fixed step keeps `Abs(vx) <= maxSpeed`, `-maxFallSpeed <= vy <= jumpPower` and `vz == 0`, and commits that velocity to the body. |
| LocomotionProperties.RunKeepsVelocityBounded | Assets/_Scripts/PlayerMotor.cs:142-183 | Any run of callbacks and fixed steps with normalised inputs keeps those bounds. |
| LocomotionProperties.InitialVelocityBounded | Assets/_Scripts/PlayerMotor.cs:75-105 | The initial state satisfies the velocity bounds. |
| LocomotionProperties.GroundedPressJumps | Assets/_Scripts/PlayerMotor.cs:224-271 | A press while grounded jumps on the next step and spends both permissions: always when the ground is still there, and on the take-off step when the take-off permission is unused and `coyoteTime` is positive. |
| LocomotionProperties.BufferedJumpOnLanding | Assets/_Scripts/PlayerMotor.cs:114 | A press made within `jumpBuffer` before touching down jumps on the landing step. |
| LocomotionProperties.LateAirPressSpendsNothing | Assets/_Scripts/PlayerMotor.cs:119 | An airborne press after the coyote window executes nothing and spends no permission; the latch is cleared. |
| LocomotionProperties.SpawnLandingJumpsUnpressed | Assets/_Scripts/PlayerMotor.cs:99-114 | As written, landing on the first step at a time below `jumpBuffer` logs one `Jumped` though nothing was pressed. |
| LocomotionProperties.InputsWithoutPress | Assets/_Scripts/PlayerMotor.cs:159-183 | Callbacks without a jump press leave the press latch and the press time unchanged. |
| LocomotionProperties.NoPressNoJump | Assets/_Scripts/PlayerMotor.cs:114-281 | With a press time of `float.MinValue` and a clear latch, a run at non-negative times whose callbacks never press jump logs no `Jumped`. |
| LocomotionProperties.UnpressedStartNeverJumps | Assets/_Scripts/PlayerMotor.cs:99-114 | From the corrected start `InitialUnpressed`, a run without presses never jumps. |
| LocomotionProperties.EarlyReleaseStrengthensGravity | Assets/_Scripts/PlayerMotor.cs:176-183 | Right after releasing jump while rising, gravity is `fallAcceleration * jumpEndEarlyGravityModifier`. |
| LocomotionProperties.InputsKeepEarlyRelease | Assets/_Scripts/PlayerMotor.cs:159-183 | No input callback clears the early-release flag. |
| LocomotionProperties.StepKeepsJumps | Assets/_Scripts/PlayerMotor.cs:142-150 | A fixed step never loses a logged `Jumped`. |
| LocomotionProperties.RunKeepsJumps | Assets/_Scripts/PlayerMotor.cs:142-183 | Over any run the number of logged jumps never decreases. |
| LocomotionProperties.EarlyReleaseLastsUntilLandingOrJump | Assets/_Scripts/PlayerMotor.cs:224-328 | Over a run without ground contact, the early-release flag stays set unless a jump is logged. So while no jump happens and the body rises, gravity stays `fallAcceleration * jumpEndEarlyGravityModifier`: only a landing (line 230) or a jump (line 275) ends it. |
| Motor.PlayerMotor.constructor | Assets/_Scripts/PlayerMotor.cs:75-105 | The fields start at their initialisers: facing right, `_frameLeftGrounded = float.MinValue`. |
| Motor.PlayerMotor.SetMoveInput | Assets/_Scripts/PlayerMotor.cs:159-162 | The new state is `Locomotion.SetMoveInput` of the old one. |
| Motor.PlayerMotor.OnJumpPressed | Assets/_Scripts/PlayerMotor.cs:167-171 | The new state is `Locomotion.OnJumpPressed` of the old one. |
| Motor.PlayerMotor.OnJumpReleased | Assets/_Scripts/PlayerMotor.cs:176-183 | The new state is `Locomotion.OnJumpReleased` of the old one. |
| Motor.PlayerMotor.CheckCollisions | Assets/_Scripts/PlayerMotor.cs:189-240 | The new state is `Locomotion.CheckCollisions` of the old one. |
| Motor.PlayerMotor.ExecuteJump | Assets/_Scripts/PlayerMotor.cs:273-281 | The new state is `Locomotion.ExecuteJump` of the old one. |
| Motor.PlayerMotor.HandleJump | Assets/_Scripts/PlayerMotor.cs:258-271 | The new state is `Locomotion.HandleJump` of the old one. |
| Motor.PlayerMotor.HandleHorizontalMovement | Assets/_Scripts/PlayerMotor.cs:287-307 | Only the frame velocity may change, and it becomes that of `Locomotion.HandleHorizontalMovement`. |
| Motor.PlayerMotor.HandleGravity | Assets/_Scripts/PlayerMotor.cs:313-338 | Only the frame velocity may change, and it becomes that of `Locomotion.HandleGravity`. |
| Motor.PlayerMotor.HandleFacing | Assets/_Scripts/PlayerMotor.cs:344-359 | The new state is `Locomotion.HandleFacing` of the old one. |
| Motor.PlayerMotor.ApplyMovement | Assets/_Scripts/PlayerMotor.cs:365-368 | The new state is `Locomotion.ApplyMovement` of the old one. |
| Motor.PlayerMotor.FixedUpdate | Assets/_Scripts/PlayerMotor.cs:142-150 | The new state is `Locomotion.FixedStep`, the six stages in source order. |
| Rope.HighestBitBounds | Assets/_Scripts/RopeSystem.cs:325-336 | For `m >= 1`, `2^HighestBit(m) <= m < 2^(HighestBit(m)+1)`. |
| Rope.GetLayerFromMask | Assets/_Scripts/RopeSystem.cs:325-336 | Returns the index of the highest set bit for masks `>= 1`, and 0 for masks `<= 1`, including negative masks. |
| Rope.NewNode | Assets/_Scripts/RopeSystem.cs:200-224 | A new node is at the given position, at rest, on the rope layer, and kinematic iff it is node 0. |
| Rope.NodeJointTo | Assets/_Scripts/RopeSystem.cs:229-240 | A node joint connects to the given node with `minDistance 0` and `maxDistance nodeSpacing`. |
| Rope.LastNode | Assets/_Scripts/RopeSystem.cs:166-169 | The last index of a non-empty list; `None` exactly for an empty list. |
| Rope.PlayerJointFor | Assets/_Scripts/RopeSystem.cs:245-259 | The player joint connects the anchor offset to the last node with min and max distance 0 and the configured spring and mass scales. |
| Rope.Reset | Assets/_Scripts/RopeSystem.cs:271-275 | One reused node is at the anchor; a dynamic node is at rest and a kinematic node keeps its velocity; nothing else changes. |
| Rope.Reactivated | Assets/_Scripts/RopeSystem.cs:264-277 | Reactivation keeps the node count and resets each node in place. |
| Rope.ReactivatedForgetsAnchor | Assets/_Scripts/RopeSystem.cs:264-277 | Reusing nodes at anchor `b` gives the same nodes whatever anchor they had been reset to before. |
| Rope.ReactivatedIsFresh | Assets/_Scripts/RopeSystem.cs:123-131 | Reusing nodes gives exactly the nodes a first deploy at the current anchor would build. |
| Rope.RenderSequence | Assets/_Scripts/RopeSystem.cs:312-319 | The rendered line has one point more than there are nodes: the node positions in order, then the player's anchor. |
| Rope.RopeSystem.constructor | Assets/_Scripts/RopeSystem.cs:73-76 | A new component is retracted, has built nothing and satisfies `Valid()`. |
| Rope.RopeSystem.ToggleRope | Assets/_Scripts/RopeSystem.cs:104-108 | `IsDeployed` flips. Retracting keeps the nodes and joints. The rope stays built after every toggle, and only the first deploy touches the line renderer, which it enables. Deploying leaves `nodeCount` nodes at the current anchor, at rest and chained, with the player joint on the last node. |
| Rope.RopeSystem.DeployRope | Assets/_Scripts/RopeSystem.cs:117-135 | A no-op while deployed. Otherwise the rope is deployed at the current anchor. When the nodes already exist they are reactivated, not recreated, and the node joints and the line renderer are unchanged; the first deploy enables the renderer. |
| Rope.RopeSystem.RetractRope | Assets/_Scripts/RopeSystem.cs:140-153 | A no-op while retracted. Otherwise the player joint is destroyed and the container deactivated, while the nodes, node joints and line renderer are kept; nothing else changes. |
| Rope.RopeSystem.GetLastNode | Assets/_Scripts/RopeSystem.cs:166-169 | The index of the last node, or `None` without nodes. |
| Rope.RopeSystem.CreateRopeNodes | Assets/_Scripts/RopeSystem.cs:174-195 | Creates the container and an enabled line renderer, with `nodeCount + 1` positions. Then it creates exactly `nodeCount` nodes at the anchor, each after the first jointed to its predecessor. |
| Rope.RopeSystem.CreateNode | Assets/_Scripts/RopeSystem.cs:200-224 | Creates the node `NewNode` describes, on the layer `GetLayerFromMask` computes. |
| Rope.RopeSystem.ConfigureNodeSpringJoint | Assets/_Scripts/RopeSystem.cs:229-240 | Adds exactly the joint `NodeJointTo` describes on the given node. |
| Rope.RopeSystem.ConfigurePlayerSpringJoint | Assets/_Scripts/RopeSystem.cs:245-259 | The player joint becomes the one `PlayerJointFor` describes for the current nodes. |
| Rope.RopeSystem.ReactivateRope | Assets/_Scripts/RopeSystem.cs:264-277 | Activates the container; the nodes become `Reactivated(old nodes, anchor)`. |
| Rope.RopeSystem.ConfigureLineRenderer | Assets/_Scripts/RopeSystem.cs:282-293 | The renderer gets `nodeCount + 1` positions. |
| Rope.RopeSystem.UpdateLineRenderer | Assets/_Scripts/RopeSystem.cs:298-320 | While deployed the renderer is enabled and shows `RenderSequence` of the nodes and the player's anchor. While retracted it is disabled and its points are untouched. |
| BlockEditor.SelectionRect | Assets/_Scripts/Editor/BlockEditorWindow.cs:277-278 | The min/max corners give an ordered rectangle holding both drag corners, whose cells are exactly those between the two corners on each axis. |
| BlockEditor.SelectionRectSymmetric | Assets/_Scripts/Editor/BlockEditorWindow.cs:277-278 | Swapping the drag corners gives the same rectangle. |
| BlockEditor.FeedbackRect | Assets/_Scripts/Editor/BlockEditorWindow.cs:290-311 | Not dragging: the single hovered cell, in the place colour. Dragging: the selection rectangle, in the delete colour iff it is a right drag. |
| BlockEditor.Column | Assets/_Scripts/Editor/BlockEditorWindow.cs:351-380 | A new group holds `2 * depth - 1` blocks of the prefab at z from `-(depth-1)` to `depth-1`, consecutive and ascending, and none for depth below 1. |
| BlockEditor.Placed | Assets/_Scripts/Editor/BlockEditorWindow.cs:358-382 | Every cell of the rectangle then holds a group. Existing groups are untouched, new groups are the column, and no other cell is added. |
| BlockEditor.Deleted | Assets/_Scripts/Editor/BlockEditorWindow.cs:395-407 | Exactly the groups of the rectangle are removed and the others are untouched. |
| BlockEditor.GridOrEmpty | Assets/_Scripts/Editor/BlockEditorWindow.cs:412-422 | The existing grid, or a new empty one. |
| BlockEditor.ActionResult | Assets/_Scripts/Editor/BlockEditorWindow.cs:275-288 | A right drag keeps a missing grid missing and removes from an existing one exactly the cells of the selected rectangle. A left drag without a valid selection changes nothing; with one, the grid exists afterwards and covers every cell of the rectangle. |
| BlockEditor.PlaceResult | Assets/_Scripts/Editor/BlockEditorWindow.cs:335-385 | The grid is unchanged when the selection is out of range or the prefab is null; otherwise the created-if-missing grid is filled. |
| BlockEditor.DeleteResult | Assets/_Scripts/Editor/BlockEditorWindow.cs:387-410 | Nothing happens without a grid; otherwise the rectangle is cleared. |
| BlockEditor.PlaceIdempotent | Assets/_Scripts/Editor/BlockEditorWindow.cs:363-365 | Placing twice over the same rectangle equals placing once. |
| BlockEditor.DeleteUndoesPlace | Assets/_Scripts/Editor/BlockEditorWindow.cs:387-410 | Deleting what was just placed leaves the rectangle empty and the rest as before the placement. |
| BlockEditor.OutsideUnchanged | Assets/_Scripts/Editor/BlockEditorWindow.cs:358-360 | Cells outside the rectangle are unchanged by placing and by deleting. |
| BlockEditor.ActionDirectionIndependent | Assets/_Scripts/Editor/BlockEditorWindow.cs:275-288 | The action gives the same grid whichever corner the drag started from. |
| BlockEditor.LeftDragFillsRect | Assets/_Scripts/Editor/BlockEditorWindow.cs:350-381 | With a valid selection and depth at least 1, a left drag leaves every cell of the rectangle occupied. New groups hold exactly `2 * depth - 1` blocks and occupied cells are kept. |
| BlockEditor.RightDragClearsRect | Assets/_Scripts/Editor/BlockEditorWindow.cs:387-410 | A right drag removes exactly the rectangle's groups, and nothing happens without a grid. |
| BlockEditor.ClampSelection | Assets/_Scripts/Editor/BlockEditorWindow.cs:142-146 | After a deletion the selection is below the new size. A selection past the end moves to the last entry, or to -1 when the list is empty; other selections are kept. |
| BlockEditor.ClampKeepsSelectionInRange | Assets/_Scripts/Editor/BlockEditorWindow.cs:140-147 | A selection that was -1 or a valid index stays so. |
| BlockEditor.BlockEditorWindow.constructor | Assets/_Scripts/Editor/BlockEditorWindow.cs:19-27 | Nothing is selected (-1) and no drag is in progress. |
| BlockEditor.BlockEditorWindow.SelectPaletteEntry | Assets/_Scripts/Editor/BlockEditorWindow.cs:129-136 | Turning an entry's toggle on selects that entry. |
| BlockEditor.BlockEditorWindow.DeletePaletteEntry | Assets/_Scripts/Editor/BlockEditorWindow.cs:140-147 | The entry is removed, the selection is clamped by `ClampSelection`, and an in-range selection stays in range. |
| BlockEditor.BlockEditorWindow.HandleMouseEvents | Assets/_Scripts/Editor/BlockEditorWindow.cs:236-273 | Down with button 0/1 starts a drag at the cell (right iff button 1). Drag moves the end only while dragging. Up with button 0/1 while dragging sets the end, executes once on the kept start and button, and stops. Every other event changes nothing. |
| BlockEditor.BlockEditorWindow.ExecuteAction | Assets/_Scripts/Editor/BlockEditorWindow.cs:275-288 | The grid becomes the delete result on a right drag and the place result otherwise, over the min/max rectangle. |
| BlockEditor.BlockEditorWindow.DrawVisualFeedback | Assets/_Scripts/Editor/BlockEditorWindow.cs:290-311 | The outlined rectangle is `FeedbackRect`. It holds the hovered cell when not dragging and is red only on a right drag. |
| BlockEditor.BlockEditorWindow.GetOrCreateGrid | Assets/_Scripts/Editor/BlockEditorWindow.cs:412-422 | A grid exists afterwards: the old one, or a new empty one. |
| BlockEditor.BlockEditorWindow.PlaceBlocks | Assets/_Scripts/Editor/BlockEditorWindow.cs:335-385 | The nested loops leave the grid equal to `PlaceResult`. |
| BlockEditor.BlockEditorWindow.DeleteBlocks | Assets/_Scripts/Editor/BlockEditorWindow.cs:387-410 | The nested loops leave the grid equal to `DeleteResult`. |
| Controller.FacingTarget | Assets/_Scripts/PlayerController.cs:78-82 | A turn happens iff `Abs(x) > 0.01`, towards the right iff `x > 0`. |
| Controller.GravityStep | Assets/_Scripts/PlayerController.cs:60-70 | Grounded and falling: the speed becomes `groundedGravity`. Otherwise it changes by exactly `gravity * dt`. |
| Controller.Motion | Assets/_Scripts/PlayerController.cs:74-76 | The motion has z = 0 and y = `v * dt`, and no input means no horizontal motion. |
| Controller.GroundedClamp | Assets/_Scripts/PlayerController.cs:60-70 | Grounded and falling: the speed becomes `groundedGravity`. Grounded with speed 0 or more: gravity is integrated as in the air (the clamp is strict). |
| Controller.StaysAtGroundedGravity | Assets/_Scripts/PlayerController.cs:62-65 | While grounded and falling, the speed stays at a negative `groundedGravity` frame after frame. |
| Controller.FreeFall | Assets/_Scripts/PlayerController.cs:68 | After `n` airborne frames the speed is `v + n * gravity * dt`. |
| Controller.AirborneNeverRises | Assets/_Scripts/PlayerController.cs:68 | With downward gravity an airborne speed never increases. |
| Controller.MotionBounds | Assets/_Scripts/PlayerController.cs:74-76 | The motion has z = 0 and y = `v * dt`. For a normalised input its x has the input's sign and magnitude at most `moveSpeed * dt`. |
| Controller.PlayerController.constructor | Assets/_Scripts/PlayerController.cs:17-18 | Input and vertical speed start at zero. |
| Controller.PlayerController.HandleMoveInput | Assets/_Scripts/PlayerController.cs:55-58 | The last input received is stored. |
| Controller.PlayerController.ApplyGravity | Assets/_Scripts/PlayerController.cs:60-70 | The vertical speed becomes `GravityStep` of the old one. |
| Controller.PlayerController.MoveCharacter | Assets/_Scripts/PlayerController.cs:72-83 | Returns the motion `Motion` (z = 0) and the turn target `FacingTarget`. |
| Controller.PlayerController.Update | Assets/_Scripts/PlayerController.cs:45-49 | Applies gravity first, then moves with the updated speed. |

## Findings

| source | as written | input that shows it | evidently intended | confidence | as-written member | corrected member |
|---|---|---|---|---|---|---|
| Assets/_Scripts/PlayerMotor.cs:99-114 | `_timeJumpWasPressed` starts at 0, and every landing makes a buffered jump usable. | The default configuration, landing on the first fixed step at `_time = 0.02`, with no press: the step jumps. | No press is on record before the first one: the press time starts at `float.MinValue`, like `_frameLeftGrounded`. | not executed | LocomotionProperties.SpawnLandingJumpsUnpressed | LocomotionProperties.UnpressedStartNeverJumps |

`Motor.PlayerMotor`'s constructor keeps the script's own initialiser (`Locomotion.Initial`), since the class models the code as written. `Locomotion.InitialUnpressed` is the corrected start, and `LocomotionProperties.NoPressNoJump` proves no unrequested jump from any state with no press on record.

## Left out

- Physics is not modelled: rigid-body integration, spring-joint forces, collisions, and `CharacterController.Move` collision response. In the rope, node positions change only where the script sets them.
- Sphere casts are replaced by the `groundHit` and `ceilingHit` parameters: their origins, radius, probe distance and layer mask, and `GetGroundCheckOrigin`/`GetCeilingCheckOrigin`.
- Floating point is not modelled: all quantities are exact reals. The facing threshold `0.01f` is written as `0.01`; no single-precision value lies strictly between the two.
- Clocks are parameters. The accumulation `_time += Time.deltaTime` in `Update` becomes `now`, and `fixedDeltaTime`/`deltaTime` become `dt`.
- Rotation is not modelled: the `Quaternion.Euler` rotation in `HandleFacing`, and the `Vector3.Slerp` with `turnSpeed` in `PlayerController`. Only the facing flag and the turn target are modelled.
- `PlayerMotor.Awake` is left out: it configures the rigid body (no gravity, frozen rotation, interpolation).
- Gizmo drawing is left out: `OnDrawGizmos`, `OnDrawGizmosSelected` and `DrawSelectionRect`'s colours and corners.
- Event subscribers are not modelled: `GroundedChanged` and `Jumped` are appended to a log.
- Rope: the line renderer's width, material and world-space flag are left out.
- Rope: the rigid bodies' `FreezeRotation` constraint is left out.
- Rope: the joints' `autoConfigureConnectedAnchor` flag, their zero anchors and their connected anchors are left out.
- Rope: game-object names and parents are left out.
- Rope: `GetAnchorNode` is left out; nothing calls it.
- Rope: `nodeCount` is a `nat`. A negative count would make `positionCount` invalid in Unity, and the model does not represent it.
- Rope: a `LayerMask` is 32 bits wide. The model accepts any integer, and `>>= 1` on the positive values the loop sees is division by 2.
- Block editor: GUI drawing is left out, and so are entering and leaving edit mode, the camera mode and the visible layers.
- Block editor: loading and creating the settings asset is left out.
- Block editor: Undo groups, `Debug.LogWarning` messages, `Event.Use` and `SceneView.RepaintAll` are left out.
- Block editor: the mouse ray and `Mathf.RoundToInt` are left out; the cell is a parameter. So is `OnSceneGUI`'s filtering of Repaint and Layout events.
- Block editor: the "add block" button and editing a palette slot through the property field are left out. Deleting a palette entry is modelled, but not the GUI loop going on past the deleted index in the same pass.
- Block editor: the grid is found by the name "Grid", and a group by its name "(x,y)". The model assumes one grid object and identifies groups by their cell.
- Block editor: the world and local positions of groups and blocks follow from their cell and z and are not stored.
- Block editor: the model does not enforce `[Min(1)]` on `depth`. A depth below 1 yields empty groups, as in the code.
- The input glue (`InputManager.cs`, `PlayerInputHandler.cs`, `PlayerGlue.cs`) is not part of this model. Its callbacks arrive as the methods' calls and as the `InputEvent` values of `Locomotion.ApplyInputs`.
- `PlayerMotorSettings.cs` and `RopeSystemSettings.cs` are never read by the modelled scripts. The `DefaultConfig` records of `Locomotion`, `Rope` and `Controller` hold the scripts' own serialized field defaults (`PlayerMotor.cs:19-48`, `RopeSystem.cs:14-43`, `PlayerController.cs:10-13`).
- `BlockEditorSettings.cs` is read by the editor window: its `blockPrefabs` list and its `depth` (default 2, `BlockEditor.DefaultDepth`) reach the model as the `palette` and `depth` of `BlockEditorWindow`'s constructor. Its colours and `visibleLayers` are left out with the GUI.
