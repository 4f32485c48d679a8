# Spline movement component — a Dafny model

This project models the core of the spline movement of the `MyGameLib` game library.
`USplineMovementComponentImpl` drives a pawn along a spline that a provider actor owns.
The pawn is in one of three attach states:

- **Detached:** free movement.
- **Attaching:** a timed blend from where the pawn was towards the spline.
- **Attached:** the pawn is constrained to the spline.

Every change of state broadcasts a Before event and then an After event.
Each tick does the following:

- advances the attach timer;
- picks per-state control, sweep and detach-on-hit flags;
- recomputes the move space, which is the frame the movement is integrated in;
- computes a per-axis acceleration from the input and the velocity;
- ramps the tracking speed, the extra forward speed along the spline, towards its target;
- integrates with a Verlet step;
- folds the forward part of the move into the distance along the spline, wrapping it with `fmod`;
- requests the move from the engine and reacts to a blocking hit.

The project has these files:

- `wrappers.dfy`: `Option`.
- `engine_types.dfy`: the engine's vectors, transforms, splines and actors, as plain data.
  - `Geometry` holds the engine's transform math as a record of functions the model never looks inside. These are spline sampling, closest distance, composition, blending, and vector and rotation transforms.
- `game_math.dfy`: `UGameMath::GetFloatUpdatedToTarget`, the asymmetric ramp towards a target, and its Blueprint wrapper.
- `spline_movement_types.dfy`: the attach-state enum and the contract of the six broadcasts.
  - The broadcasts are modelled as an event log.
  - `Replay` decides whether a log is a well-formed history, and if so which state it ends in.
- `spline_movement_config.dfy`: the attach rules and the physics configuration.
- `spline_movement_math.dfy`: the side-effect-free parts of the component:
  - the state queries and the flag table;
  - the attach timer;
  - the acceleration rule;
  - the Verlet step;
  - the tracking-speed corrections;
  - the location wrap;
  - the offset fold;
  - the move-space recalculation.
- `spline_movement_impl.dfy`: the component as a class.
  - It has the fields the source updates in place: the attach state, location along the spline, local-to-move-space transform, move space, move-space velocity, tracking speed and target, input vector and world velocity.
  - Its methods change those fields the way the source does.
  - The event log (`log`) and the moves sent to the engine (`moveRequests`) are append-only fields.
  - The class invariant `Valid()` ties them together:
    - `attachingTime` is zero outside Attaching;
    - replaying the log from Detached gives the current state.
- `spline_movement_scenarios.dfy`: whole runs, each stated as a method contract:
  - post-init;
  - auto-attach, instant and blended;
  - a blocking hit while attaching;
  - losing the provider.

Floats are modelled as `real`. `SMALL_NUMBER` is `1e-8`. `FMath::Fmod` is `x - L * trunc(x / L)`, which keeps the sign of `x`. `GetSignVector` gives +1 for a component ≥ 0 and −1 otherwise.

The engine's answer to a move request is an input of `MoveTick`, of type `MoveOutcome`: whether the move hit something blocking, and the component's transform afterwards.

The header `Movement/Spline/Impl/SplineMovementComponentImpl.h` is an older revision than the `.cpp`. The fields and signatures follow their use in the `.cpp`.

Three default arguments are invisible in the source. The model passes all three explicitly, as `true`:

- the `bInAddTrackSpeed` argument of `GetMoveSpaceVelocity`;
- the signal-before argument of `GotoState_Attached` called at `:137`;
- the `bTrackingAccountedInVelocity` argument of `SetOnlyMoveSpaceVelocity_InWorldSpace` (defined at `:463`), called with one argument at `:414`. The world velocity it reads there was built with the tracking speed added (`:218`), so the tracking speed is taken out again.

The model follows the code as written in these places:

- `OnComponentTeleported` converts the velocity with `InverseTransformVector` (`:547`), where `TransformVector` would be expected. It is modelled as written.
- During a blend, the forward part of the move delta is dropped. The source marks this as a TODO at `:190-192`.
- The two tests for a zero blend time stay distinct:
  - `GotoState_Attaching` compares with `== 0` (`:873`);
  - `RecalculateMoveSpace` uses `IsNearlyZero` (`:366`).

## Model

| member | source | states |
|---|---|---|
| GameMath.GetFloatUpdatedToTarget | Source/MyGameLib/Private/GameUtil/Math/GameMath.cpp:8-30 | Within the tolerance the result is exactly the target. Otherwise, for a target below curr, it is exactly curr − dt·decel when that does not pass the target, and the target when it would. For a target at or above curr, it is exactly curr + dt·accel when that does not pass the target, and the target when it would. With non-negative dt and rates it lies between curr and target and is never farther from the target than curr. |
| GameMath.K2_GetFloatUpdatedToTarget | Source/MyGameLib/Private/GameUtil/Math/GameMath.cpp:3-6 | Equals the ramp with the default tolerance `SMALL_NUMBER`. |
| GameMath.RampHoldsAtTarget | Source/MyGameLib/Private/GameUtil/Math/GameMath.cpp:11-14 | The target is a fixed point: any number of ramp steps from the target stay at the target. |
| GameMath.Repeated | Source/MyGameLib/Movement/Spline/Impl/SplineMovementComponentImpl.cpp:134 | n equal steps summed one at a time, as the attach timer sums its ticks. The sum of non-negative steps is non-negative. |
| GameMath.RepeatedIsProduct | Source/MyGameLib/Movement/Spline/Impl/SplineMovementComponentImpl.cpp:134 | The sum of n equal steps is n times the step. |
| GameMath.RampDescendsAtRate | Source/MyGameLib/Private/GameUtil/Math/GameMath.cpp:17-22 | While every step but the last stays above the target by more than the tolerance and the last does not pass it, n ramp steps fall by exactly n·dt·decel. |
| GameMath.RampAscendsAtRate | Source/MyGameLib/Private/GameUtil/Math/GameMath.cpp:23-27 | While every step but the last stays below the target by more than the tolerance and the last does not pass it, n ramp steps rise by exactly n·dt·accel. |
| GameMath.RampReachesTarget | Source/MyGameLib/Private/GameUtil/Math/GameMath.cpp:17-27 | If n steps at the applicable rate cover the distance, repeated ramping reaches the target exactly after n steps, with no overshoot. |
| GameMath.TrackingRampExample | Source/MyGameLib/Private/GameUtil/Math/GameMath.cpp:8-30 | A concrete ramp: 0 towards 100 at 50 per second is 50 after one second and 100 after two, then stays there. |
| SplineMovementTypes.AttachStateValue | Source/MyGameLib/Private/Movement/Spline/SplineMovementTypes.h:10-29 | The three states have the values 0, 1 and 2. |
| SplineMovementTypes.AttachStateFromValue | Source/MyGameLib/Private/Movement/Spline/SplineMovementTypes.h:10-29 | A value decodes to a state exactly when it is at most 2. |
| SplineMovementTypes.AttachStateValueRoundTrip | Source/MyGameLib/Private/Movement/Spline/SplineMovementTypes.h:10-29 | Encoding then decoding gives the state back, and decoding then encoding gives the value back: there are exactly three states. |
| SplineMovementTypes.TargetState | Source/MyGameLib/Private/Movement/Spline/SplineMovementTypes.h:62-84 | The three transitions, one pair of delegates each, end in three distinct states: BeginAttaching in Attaching, Detached in Detached, Attached in Attached. |
| SplineMovementTypes.ReplayAppend | Source/MyGameLib/Private/Movement/Spline/SplineMovementTypes.h:32-59 | Appending a transition's Before event, stamped with the current state, and its After event to a valid history gives a valid history ending in the transition's target state. |
| SplineMovementTypes.ReplayObeysFiringRules | Source/MyGameLib/Private/Movement/Spline/SplineMovementTypes.h:32-84 | In every valid history, Before and After events alternate. Every Before is immediately followed by the After of the same transition. Every Before carries the state from just before the change. |
| SplineMovementMath.ShouldMoveFromOrToSpline | Source/MyGameLib/Movement/Spline/Impl/SplineMovementComponentImpl.cpp:302-320 | The movement is relative to the spline exactly when the state is not Detached. |
| SplineMovementMath.ShouldBlendToSplineWhenMoving | Source/MyGameLib/Movement/Spline/Impl/SplineMovementComponentImpl.cpp:279-300 | The move space is blended exactly while Attaching, which implies moving on or to the spline. |
| SplineMovementMath.GravityOnlyOffSpline | Source/MyGameLib/Movement/Spline/Impl/SplineMovementComponentImpl.cpp:254-262 | Gravity applies only to Detached movement and is zero on or towards the spline. |
| SplineMovementMath.StateFlags | Source/MyGameLib/Movement/Spline/Impl/SplineMovementComponentImpl.cpp:141-169 | The flag table. Detached: free control, sweep, no detach. Attaching: control and sweep from the rules, always detach on a hit. Attached: control and sweep, detach from the rules. Only spline-relative states ever detach on a hit. |
| SplineMovementMath.AttachingTimerStep | Source/MyGameLib/Movement/Spline/Impl/SplineMovementComponentImpl.cpp:132-139 | Only Attaching advances the timer. It becomes Attached exactly when the new time reaches the blend time, and then the timer is zero. A zero timer outside Attaching stays zero. |
| SplineMovementMath.AttachedStaysAttached | Source/MyGameLib/Movement/Spline/Impl/SplineMovementComponentImpl.cpp:132-139 | Any number of ticks leave Attached, with its zero timer, as they are. |
| SplineMovementMath.AttachingCompletes | Source/MyGameLib/Movement/Spline/Impl/SplineMovementComponentImpl.cpp:132-139 | Consider n ticks while Attaching. If the accumulated time reaches the blend time, the movement ends Attached with a zero timer. |
| SplineMovementMath.AttachingHolds | Source/MyGameLib/Movement/Spline/Impl/SplineMovementComponentImpl.cpp:132-139 | If the accumulated time stays below the blend time, the movement is still Attaching, with the start time plus the elapsed time on the timer. |
| SplineMovementMath.SignOf | Source/MyGameLib/Movement/Spline/Impl/SplineMovementComponentImpl.cpp:643 | The sign is ±1, and +1 exactly for values ≥ 0. |
| SplineMovementMath.AsWrittenNoAccelerationAtMaxSpeed | Source/MyGameLib/Movement/Spline/Impl/SplineMovementComponentImpl.cpp:652-668 | As written: with velocity and input agreeing at exactly the maximal speed, the acceleration is 0. |
| SplineMovementMath.AsWrittenOpposingInputSpeedsUp | Source/MyGameLib/Movement/Spline/Impl/SplineMovementComponentImpl.cpp:643-678 | As written: velocity 5 against input −1 gets acceleration +3, so the axis speeds up instead of braking. |
| SplineMovementMath.AsWrittenAcceleratesWithoutInput | Source/MyGameLib/Movement/Spline/Impl/SplineMovementComponentImpl.cpp:643-678 | As written: an axis at rest with no input gets the full acceleration. |
| SplineMovementMath.AsWrittenAgreeingInput | Source/MyGameLib/Movement/Spline/Impl/SplineMovementComponentImpl.cpp:643-668 | As written, within the maximal speed: when velocity and input agree in sign (their product is ≥ 0), the acceleration is min(accel, maxSpeed − |vel|). |
| SplineMovementMath.AsWrittenOpposingInput | Source/MyGameLib/Movement/Spline/Impl/SplineMovementComponentImpl.cpp:643-678 | As written, within the maximal speed: when velocity and input disagree in sign, the acceleration is +min(decel, |vel|), whatever the velocity's direction. |
| SplineMovementMath.AsWrittenOverMaxSpeed | Source/MyGameLib/Movement/Spline/Impl/SplineMovementComponentImpl.cpp:655-678 | As written, above the maximal speed: the acceleration is −min(decel, |vel| − maxSpeed) when velocity and input agree in sign, and +min(decel, |vel| − maxSpeed) when they disagree. |
| SplineMovementMath.AsWrittenBackwardInputSpeedsUp | Source/MyGameLib/Movement/Spline/Impl/SplineMovementComponentImpl.cpp:643-678 | As written: for every positive velocity within the maximal speed and every negative input, the acceleration is min(decel, vel) ≥ 0, so braking input speeds the axis up. |
| SplineMovementMath.AsWrittenAtRestWithoutInput | Source/MyGameLib/Movement/Spline/Impl/SplineMovementComponentImpl.cpp:643-678 | As written: for every non-negative maximal speed, an axis at rest with zero input gets acceleration min(accel, maxSpeed). |
| SplineMovementMath.AsWrittenAgreesForPositiveInput | Source/MyGameLib/Movement/Spline/Impl/SplineMovementComponentImpl.cpp:637-680 | For positive input, the rule as written and the corrected rule give the same acceleration. |
| SplineMovementMath.AxisVelocityRises | Source/MyGameLib/Movement/Spline/Impl/SplineMovementComponentImpl.cpp:599 | A velocity step of at most a second under a non-negative acceleration a ends between v and v + a. |
| SplineMovementMath.AxisVelocityFalls | Source/MyGameLib/Movement/Spline/Impl/SplineMovementComponentImpl.cpp:599 | A velocity step of at most a second under a non-positive acceleration a ends between v + a and v. |
| SplineMovementMath.DrivingStepIsSafe | Source/MyGameLib/Movement/Spline/Impl/SplineMovementComponentImpl.cpp:652-668 | Under the corrected rule, input that pushes the axis, within the maximal speed, accelerates it in the input's direction and never beyond the maximal speed. |
| SplineMovementMath.BrakingStepIsSafe | Source/MyGameLib/Movement/Spline/Impl/SplineMovementComponentImpl.cpp:655-662 | Under the corrected rule, otherwise the step brakes. It never reverses the velocity and never increases the speed. Above the maximal speed it never brakes below that speed. |
| SplineMovementMath.AccelerationStepIsSafe | Source/MyGameLib/Movement/Spline/Impl/SplineMovementComponentImpl.cpp:645-671 | For one axis of the corrected rule, with non-negative limits: no acceleration at rest without input, plus the driving and braking guarantees above. |
| SplineMovementMath.MoveSpaceAccelerationAgreesForPositiveInput | Source/MyGameLib/Movement/Spline/Impl/SplineMovementComponentImpl.cpp:637-680 | For input positive on every axis, `CalculateMoveSpaceAcceleration` (the rule as written on each axis) equals `CorrectedMoveSpaceAcceleration`. |
| SplineMovementMath.MoveSpaceAccelerationIsSafe | Source/MyGameLib/Movement/Spline/Impl/SplineMovementComponentImpl.cpp:637-680 | The per-axis guarantee holds on X, Y and Z of `CorrectedMoveSpaceAcceleration`, the intended rule of the finding below, each axis with its own limits. The source's rule does not meet it. |
| SplineMovementMath.VerletSplitAxis | Source/MyGameLib/Movement/Spline/Impl/SplineMovementComponentImpl.cpp:598 | On one axis, the displacement over dt1 followed by the displacement over dt2 equals the displacement over dt1 + dt2. |
| SplineMovementMath.VerletMoveDeltaAxes | Source/MyGameLib/Movement/Spline/Impl/SplineMovementComponentImpl.cpp:598 | The vector displacement dt·v + ½dt²·a is the per-axis displacement on each component. |
| SplineMovementMath.VerletStepsCompose | Source/MyGameLib/Movement/Spline/Impl/SplineMovementComponentImpl.cpp:595-601 | Under a constant acceleration, two steps of dt1 and dt2 equal one step of dt1 + dt2, in both the new velocity and the total displacement. |
| SplineMovementMath.VerletMeanVelocity | Source/MyGameLib/Movement/Spline/Impl/SplineMovementComponentImpl.cpp:595-601 | The displacement of a step is dt times the mean of the old and new velocities. |
| SplineMovementMath.ClampTrackingSpeed | Source/MyGameLib/Movement/Spline/Impl/SplineMovementComponentImpl.cpp:620-623 | The result lies in [0, 50000]. A value already in the range is kept, a negative one becomes 0, and one above 50000 becomes 50000. |
| SplineMovementMath.WithTrackingSpeed | Source/MyGameLib/Movement/Spline/Impl/SplineMovementComponentImpl.cpp:603-613 | With the flag set, X becomes v.X + tracking speed; without it, X stays. Y and Z never change. |
| SplineMovementMath.WithoutTrackingSpeed | Source/MyGameLib/Movement/Spline/Impl/SplineMovementComponentImpl.cpp:475-482 | With the flag set, X becomes v.X − tracking speed; without it, X stays. Y and Z never change. |
| SplineMovementMath.TrackingRoundTrip | Source/MyGameLib/Movement/Spline/Impl/SplineMovementComponentImpl.cpp:475-482 | Removing then adding the tracking speed, under the same flag, gives the velocity back, in either order. |
| SplineMovementMath.WorldVelocityRoundTrip | Source/MyGameLib/Movement/Spline/Impl/SplineMovementComponentImpl.cpp:463-466 | When the move space's vector transform inverts its inverse, a world velocity stored without the tracking speed reads back as the same world velocity. |
| SplineMovementMath.TruncBounds | Source/MyGameLib/Movement/Spline/Impl/SplineMovementComponentImpl.cpp:848-850 | x − L·trunc(x/L) lies strictly within (−L, L) and has the sign of x. |
| SplineMovementMath.FmodBounds | Source/MyGameLib/Movement/Spline/Impl/SplineMovementComponentImpl.cpp:848-850 | For a positive length L, fmod lies in (−L, L), has the sign of x and leaves a value already in (−L, L) alone. It removes a whole number of laps. |
| SplineMovementMath.FixedLocationAlongSpline | Source/MyGameLib/Movement/Spline/Impl/SplineMovementComponentImpl.cpp:844-852 | With no spline the location stays. With a length of 0 or less it becomes 0. Otherwise it is the fmod by the length, non-negative and below the length for a non-negative location. |
| SplineMovementMath.FixedLocationIsWrapped | Source/MyGameLib/Movement/Spline/Impl/SplineMovementComponentImpl.cpp:844-852 | The fixed location is always wrapped. A wrapped location is left alone. Fixing is idempotent. |
| SplineMovementMath.WithoutForwardOffset | Source/MyGameLib/Movement/Spline/Impl/SplineMovementComponentImpl.cpp:839-842 | The X offset becomes 0, and Y, Z, the rotation and the scale stay. |
| SplineMovementMath.FoldMoveDelta | Source/MyGameLib/Movement/Spline/Impl/SplineMovementComponentImpl.cpp:180-196 | The offset's Y and Z grow by the move delta and X ends at 0. If not blending, the location grows by the offset's X plus the delta's X and is re-wrapped, keeping its sign, and on a spline of length 0 or less it becomes 0. While blending, the location stays. |
| SplineMovementMath.RecalculatedMoveSpace | Source/MyGameLib/Movement/Spline/Impl/SplineMovementComponentImpl.cpp:349-382 | Free movement uses the component's transform without rotation. On the spline it uses the spline's transform at the location. While blending with a blend time that is not nearly zero, the transform is the blend of the pre-attach space and the spline's transform at the location by timer/blend time, with the matching blend velocity. A nearly zero blend time keeps the cached space. |
| SplineMovementMath.BlendStartsAtPreAttach | Source/MyGameLib/Movement/Spline/Impl/SplineMovementComponentImpl.cpp:366-377 | At timer 0, the blended move space is the pre-attach space. |
| SplineMovementMath.BlendEndsAtSpline | Source/MyGameLib/Movement/Spline/Impl/SplineMovementComponentImpl.cpp:366-377 | At the blend time, the blended move space is the spline's transform. |
| SplineMovementImpl.AttachmentState.constructor | Source/MyGameLib/Movement/Spline/Impl/SplineMovementComponentImpl.cpp:29 | A new attachment state is Detached with a zero timer. |
| SplineMovementImpl.AttachmentState.SetAttached | Source/MyGameLib/Movement/Spline/Impl/SplineMovementComponentImpl.cpp:956-960 | Attached, with the timer zeroed. |
| SplineMovementImpl.AttachmentState.SetAttaching | Source/MyGameLib/Movement/Spline/Impl/SplineMovementComponentImpl.cpp:962-967 | Attaching, with the timer zeroed and the pre-attach move space captured. |
| SplineMovementImpl.AttachmentState.SetDetached | Source/MyGameLib/Movement/Spline/Impl/SplineMovementComponentImpl.cpp:969-973 | Detached, with the timer zeroed. |
| SplineMovementImpl.SplineMovementComponentImpl.constructor | Source/MyGameLib/Movement/Spline/Impl/SplineMovementComponentImpl.cpp:24-41 | A new component is Detached and unlinked, with zero motion state and an empty log. |
| SplineMovementImpl.SplineMovementComponentImpl.GotoState_Detached | Source/MyGameLib/Movement/Spline/Impl/SplineMovementComponentImpl.cpp:928-935 | Ends Detached with a zero timer, after logging Before(Detached, previous state) then After(Detached). It keeps the history valid. |
| SplineMovementImpl.SplineMovementComponentImpl.GotoState_Attached | Source/MyGameLib/Movement/Spline/Impl/SplineMovementComponentImpl.cpp:942-953 | Ends Attached with a zero timer. It logs the Before event only when asked and always logs After(Attached). Without the Before event, the history stays valid only when the Before was already logged. |
| SplineMovementImpl.SplineMovementComponentImpl.FixLocationAlongSpline | Source/MyGameLib/Movement/Spline/Impl/SplineMovementComponentImpl.cpp:844-852 | The location becomes its wrapped value on the linked spline. |
| SplineMovementImpl.SplineMovementComponentImpl.SetLocationAlongSpline | Source/MyGameLib/Movement/Spline/Impl/SplineMovementComponentImpl.cpp:565-569 | The location becomes the wrapped new value. |
| SplineMovementImpl.SplineMovementComponentImpl.FixLocalToMoveSpace | Source/MyGameLib/Movement/Spline/Impl/SplineMovementComponentImpl.cpp:839-842 | The local offset loses its X and keeps everything else. |
| SplineMovementImpl.SplineMovementComponentImpl.ResetToInitialTransformAndLocation | Source/MyGameLib/Movement/Spline/Impl/SplineMovementComponentImpl.cpp:831-837 | The location becomes the wrapped X of the initial local transform. The local transform becomes the initial one without its X. |
| SplineMovementImpl.SplineMovementComponentImpl.FixLocationFromWorldSpace | Source/MyGameLib/Movement/Spline/Impl/SplineMovementComponentImpl.cpp:424-434 | The local offset becomes the component's translation relative to the move space, without X. |
| SplineMovementImpl.SplineMovementComponentImpl.FixRotationFromWorldSpace | Source/MyGameLib/Movement/Spline/Impl/SplineMovementComponentImpl.cpp:441-446 | The local rotation becomes the component's rotation relative to the move space. Nothing else changes. |
| SplineMovementImpl.SplineMovementComponentImpl.FixLocationAlongSplineFromWorldSpace | Source/MyGameLib/Movement/Spline/Impl/SplineMovementComponentImpl.cpp:448-455 | The location becomes the wrapped spline distance closest to the component. |
| SplineMovementImpl.SplineMovementComponentImpl.SetOnlyMoveSpaceVelocity | Source/MyGameLib/Movement/Spline/Impl/SplineMovementComponentImpl.cpp:475-482 | The stored velocity is v without the tracking speed, and `GetMoveSpaceVelocity` with the same flag reads v back. |
| SplineMovementImpl.SplineMovementComponentImpl.SetOnlyMoveSpaceVelocity_InWorldSpace | Source/MyGameLib/Movement/Spline/Impl/SplineMovementComponentImpl.cpp:463-466 | The world velocity is converted into the move space and stored the same way, and reads back as that converted velocity. |
| SplineMovementImpl.SplineMovementComponentImpl.SetVelocityInWorldSpace | Source/MyGameLib/Movement/Spline/Impl/SplineMovementComponentImpl.cpp:502-507 | Stores the converted move-space velocity and sets the component velocity to v. Where the transforms invert, the two agree. |
| SplineMovementImpl.SplineMovementComponentImpl.RecalculateTrackingSpeed | Source/MyGameLib/Movement/Spline/Impl/SplineMovementComponentImpl.cpp:581-585 | The tracking speed is ramped towards its target with the tracking rates and the default tolerance. |
| SplineMovementImpl.SplineMovementComponentImpl.SetTrackingSpeed | Source/MyGameLib/Movement/Spline/Impl/SplineMovementComponentImpl.cpp:620-623 | The target tracking speed is the clamped value, always within [0, 50000]. |
| SplineMovementImpl.SplineMovementComponentImpl.UpdateMoveSpaceVelocity_AndReturnMoveDelta | Source/MyGameLib/Movement/Spline/Impl/SplineMovementComponentImpl.cpp:595-601 | Returns dt·v + ½dt²·a, with v including the tracking speed. The stored velocity becomes v + dt·a, without tracking. |
| SplineMovementImpl.SplineMovementComponentImpl.SetPendingInputVector | Source/MyGameLib/Movement/Spline/Impl/SplineMovementComponentImpl.cpp:682-685 | The input vector is the given one clamped to size 1. |
| SplineMovementImpl.SplineMovementComponentImpl.StopMovementImmediately | Source/MyGameLib/Movement/Spline/Impl/SplineMovementComponentImpl.cpp:552-563 | The tracking speed, its target and the velocity become zero. Attaching is abandoned for Detached, with its events logged. Other states stay. |
| SplineMovementImpl.SplineMovementComponentImpl.RecalculateMoveSpace | Source/MyGameLib/Movement/Spline/Impl/SplineMovementComponentImpl.cpp:338-382 | The move space becomes the recalculated one for the current location, rotation, captured pre-attach space and timer. |
| SplineMovementImpl.SplineMovementComponentImpl.GetMoveSpaceToWorld | Source/MyGameLib/Movement/Spline/Impl/SplineMovementComponentImpl.cpp:517-530 | When the move space can be computed for the current state, it is recalculated and its transform returned. Otherwise the cache is untouched and the identity is returned. |
| SplineMovementImpl.SplineMovementComponentImpl.SetVelocityInMoveSpace | Source/MyGameLib/Movement/Spline/Impl/SplineMovementComponentImpl.cpp:484-499 | Stores v without the tracking speed. When the move space can be computed, it is recalculated and the component velocity becomes v carried into the world by it. Otherwise the world velocity and the move space stay. |
| SplineMovementImpl.SplineMovementComponentImpl.ResetSplineMoveSpaceAndParamsFromWorldSpace | Source/MyGameLib/Movement/Spline/Impl/SplineMovementComponentImpl.cpp:389-417 | According to the flags, the location, offset, rotation and velocity are taken from the world. The move space is the spline's at the new location. Wrapping and a zero X offset are preserved. |
| SplineMovementImpl.SplineMovementComponentImpl.GotoState_Attaching | Source/MyGameLib/Movement/Spline/Impl/SplineMovementComponentImpl.cpp:858-927 | KeepWorld or a blend time of exactly 0: ends Attached, logs Before(Attached) then After(Attached) with no BeginAttaching events, and requests one unswept move onto the spline. Otherwise: ends Attaching with timer 0 and the free move space captured, logging Before(BeginAttaching) then After(BeginAttaching). Both first reset from the world as the mode says: the location, the move space at it, the offset and the rotation. The scale and the move-space velocity stay, and an instant attach leaves the captured pre-attach space alone. All of this is the predicate `AttachingOutcome`. |
| SplineMovementImpl.SplineMovementComponentImpl.AttachToSpline | Source/MyGameLib/Movement/Spline/Impl/SplineMovementComponentImpl.cpp:745-763 | Already Attached or Attaching: true, nothing changed. No updated component or no spline: false, nothing changed. Otherwise true, with the whole outcome of `GotoState_Attaching` (`AttachingOutcome`): the reset location, offset, move space and velocity, the transition, its events and the move request. |
| SplineMovementImpl.SplineMovementComponentImpl.DetachFromSpline | Source/MyGameLib/Movement/Spline/Impl/SplineMovementComponentImpl.cpp:765-773 | Always true and Detached afterwards. The Detached events are logged only if the movement was not Detached. |
| SplineMovementImpl.SplineMovementComponentImpl.ToggleAttachToSpline | Source/MyGameLib/Movement/Spline/Impl/SplineMovementComponentImpl.cpp:745-785 | From an attached or attaching state it detaches and returns true. From Detached it has the outcome of `AttachToSpline`. Without an updated component or a spline it returns false and changes nothing. Otherwise it returns true with the whole outcome of `GotoState_Attaching` (`AttachingOutcome`), including the reset location, offset, move space and velocity. |
| SplineMovementImpl.SplineMovementComponentImpl.ReLinkToSpline | Source/MyGameLib/Movement/Spline/Impl/SplineMovementComponentImpl.cpp:787-809 | Called while Detached. It links the configured provider and that provider's spline and re-wraps the location on it. |
| SplineMovementImpl.SplineMovementComponentImpl.UpdateSplineProvider | Source/MyGameLib/Movement/Spline/Impl/SplineMovementComponentImpl.cpp:694-720 | A provider that is another actor (compared by identity, as the pointer comparison does) or a missing spline detaches, logging the events if attached or attaching, and relinks. Otherwise nothing changes. |
| SplineMovementImpl.SplineMovementComponentImpl.UpdateFromConfig | Source/MyGameLib/Movement/Spline/Impl/SplineMovementComponentImpl.cpp:687-692 | Same as `UpdateSplineProvider`. |
| SplineMovementImpl.SplineMovementComponentImpl.MovementComponentPostInitProperties | Source/MyGameLib/Movement/Spline/Impl/SplineMovementComponentImpl.cpp:43-50 | The tracking speed and its target become the initial speed. The offset and location are reset. The provider is then updated, comparing actors by identity. |
| SplineMovementImpl.SplineMovementComponentImpl.MyBeginPlay | Source/MyGameLib/Movement/Spline/Impl/SplineMovementComponentImpl.cpp:52-59 | Without auto-attach nothing changes. With it, a Detached component with an updated component and a spline attaches, with the whole outcome of `GotoState_Attaching` (`AttachingOutcome`). With it but not Detached, or without a component or a spline, nothing changes. |
| SplineMovementImpl.SplineMovementComponentImpl.TickBeforeSuper_ReturnShouldSkipUpdate | Source/MyGameLib/Movement/Spline/Impl/SplineMovementComponentImpl.cpp:61-121 | An unset or dead provider unlinks the spline. No spline, no updated component or a primitive that simulates physics forces Detached, with its events, and a skip. The result is skip exactly under those conditions, or when inactive, not in a game world, or the base movement component skips. |
| SplineMovementImpl.SplineMovementComponentImpl.FinalizeTick | Source/MyGameLib/Movement/Spline/Impl/SplineMovementComponentImpl.cpp:124-128 | The pending input is consumed: it becomes zero. |
| SplineMovementImpl.SplineMovementComponentImpl.AdvanceAttachingTime | Source/MyGameLib/Movement/Spline/Impl/SplineMovementComponentImpl.cpp:132-139 | The state and timer follow `AttachingTimerStep`. The Attached events are logged exactly when Attaching completes. |
| SplineMovementImpl.SplineMovementComponentImpl.ApplyMoveDeltaAlongSpline | Source/MyGameLib/Movement/Spline/Impl/SplineMovementComponentImpl.cpp:180-196 | The location and offset become `FoldMoveDelta` of the old ones. The wrap is preserved and X ends at 0. |
| SplineMovementImpl.SplineMovementComponentImpl.HandleBlockingHit | Source/MyGameLib/Movement/Spline/Impl/SplineMovementComponentImpl.cpp:232-249 | Detaches, with its events, exactly when the state's flag says so and the movement is not free. If still Attached, location and velocity are taken from the world again. Otherwise the motion state is unchanged. |
| SplineMovementImpl.SplineMovementComponentImpl.IntegrateVelocity | Source/MyGameLib/Movement/Spline/Impl/SplineMovementComponentImpl.cpp:171-178 | The move space is recalculated for the state. The acceleration is `CalculateMoveSpaceAcceleration`, the source's rule as written, on the input, which is carried into the move space only when control is allowed. The tracking speed is ramped. Delta and velocity are the Verlet step. |
| SplineMovementImpl.SplineMovementComponentImpl.PlaceMove | Source/MyGameLib/Movement/Spline/Impl/SplineMovementComponentImpl.cpp:180-224 | The delta is folded into the location and offset. The world velocity is the move-space velocity, with tracking, carried into the world plus the blend velocity times dt. One move request is appended, built from the new local transform or the move delta. |
| SplineMovementImpl.SplineMovementComponentImpl.MoveTick | Source/MyGameLib/Movement/Spline/Impl/SplineMovementComponentImpl.cpp:130-252 | The timer resolves the state first. The flags of the resulting state decide control, sweep and whether a blocking hit detaches. The log gains at most the Attached pair, then at most the Detached pair. The acceleration is the source's rule as written. Tracking speed, move delta, world velocity and one move request follow the integration in the recalculated move space. When spline-relative, the location and offset are the fold of the move delta. The request carries the new local transform or the move delta, the recalculated rotation and the state's sweep flag. Without a re-seat after a hit, the new move space and velocity are the integration's. After a hit that leaves it Attached, the location is the wrapped closest distance to where the move ended, the move space is the spline's transform there, the offset is the end point relative to it without X, and the velocity is re-read from the world without the tracking speed. |
| SplineMovementImpl.SplineMovementComponentImpl.OnComponentTeleported | Source/MyGameLib/Movement/Spline/Impl/SplineMovementComponentImpl.cpp:532-550 | Attaching is abandoned for Detached, with its events. When Attached, location and rotation are re-derived from the world and the velocity is recomputed as the source writes it. Otherwise the motion state is unchanged. |
| SplineMovementScenarios.NewInitialised | Source/MyGameLib/Movement/Spline/Impl/SplineMovementComponentImpl.cpp:24-50 | A created and initialised component is Detached and linked to the provider's spline, with nothing broadcast and nothing moved. |
| SplineMovementScenarios.AutoAttachInstantly | Source/MyGameLib/Movement/Spline/Impl/SplineMovementComponentImpl.cpp:52-59 | With auto-attach and a zero blend time, begin play ends Attached with exactly Before(Attached, Detached), After(Attached) and one unswept move. |
| SplineMovementScenarios.BlendedAttach | Source/MyGameLib/Movement/Spline/Impl/SplineMovementComponentImpl.cpp:130-139 | A one-second blend and two half-second ticks: Attaching after begin play, then Attached with a zero timer. Each transition's pair is logged once, in order. |
| SplineMovementScenarios.HitWhileAttachingDetaches | Source/MyGameLib/Movement/Spline/Impl/SplineMovementComponentImpl.cpp:154-158 | A blocking hit while Attaching always detaches, whatever the rule for Attached says. |
| SplineMovementScenarios.ProviderLostDetaches | Source/MyGameLib/Movement/Spline/Impl/SplineMovementComponentImpl.cpp:61-121 | Losing the provider while Attached unlinks the spline, detaches with the Detached pair logged, and skips the tick. |

## Left out

- The engine's transform, quaternion and spline math: blending, transform composition, vector and rotation transforms, `SubtractTranslations`, `GetTransformAtDistanceAlongSpline` and `GetDistanceAlongSplineClosestToPoint`. These are engine code. They are fields of `Geometry`, and their results are never computed.
- Collision: `SafeMoveUpdatedComponent`, `HandleImpact`, `SlideAlongSurface` and `UpdateComponentVelocity`. These are engine code. A move becomes a `MoveRequest` appended to `moveRequests`. Its outcome, a blocking hit and the transform afterwards, is an input of `MoveTick`.
- `GetMaxSpeed` (`:264-277`) is not modelled. It needs a vector length and a square root.
  - `GetClampedToMaxSize` is the uninterpreted `clampedToMaxSize`.
- IEEE float quirks are not modelled: −0.0 in the sign test, the epsilon handling inside engine `Fmod`, and rounding. All arithmetic is exact over the reals.
- Logging and `checkf` are left out.
  - The inverted check at `:861` (`! IsGameWorld()`) is not a precondition; a `checkf` only fires in checked builds.
  - Likewise the check at `:730`, which expects a valid provider while a state is attached. The model proceeds as a build without checks.
- `TickBeforeSuper_ReturnShouldSkipUpdate`: whether the component is active, whether the world is a game world, the provider's liveness and the base class's `ShouldSkipUpdate` are inputs (`TickEnvironment`). The engine computes them.
- The `Is*` queries (`:722-743`) are read as `State()` comparisons, and the getters as field reads. Neither has a member of its own.
- `CreateSplineMovementComponentImpl`, `GetOwner`, `GetUpdatedComponent`, `GetConfig` and the movement-component back-pointer are left out. The configuration is the field `config`, and the updated component is a parameter.
- `GetMoveSpaceToWorld_ForFreeMovement` is the uninterpreted `withoutRotation` of the component's transform.
- MoveTick: while blending, the forward part of the move delta is dropped. Its effect on the blend is an open TODO in the source (`:190-192`).
- MoveSpaceAccelerationIsSafe: the safety guarantees are stated for the corrected rule, `CorrectedMoveSpaceAcceleration`; the source's rule, which the component integrates, does not meet them (see Findings). They also assume non-negative limits and steps of at most one second. Longer steps can overshoot with any rule that is constant over the step.
- The wrapper `SplinePawnMovement` classes, the duplicate public `SplineMovementTypes.h`, `SplineMovementConfig.h` (only a provider pointer), the track mesh generator, and the demo and build files are not part of this model.
- Actor pointers are modelled by the actor's `id`. A provider keeps the spline it was linked with until it is relinked; a later change of what the same actor holds is seen only at the next relink.
- No delegate subscribers are modelled. A broadcast is an entry in `log`.

## Findings

| source | as written | input that shows it | evidently intended | confidence | as-written member | corrected member |
|---|---|---|---|---|---|---|
| Source/MyGameLib/Movement/Spline/Impl/SplineMovementComponentImpl.cpp:643-678 | The braking value −min(decel, cap) is multiplied by the sign of vel·input. Input opposite to the velocity then gives a positive product with the velocity's sign, so the axis speeds up. A zero input has sign +1, so it counts as "control" and accelerates. | vel 5, input −1, max 10, accel 2, decel 3 gives +3 (speed rises from 5 to 8 in one second). vel 0, input 0 gives +2. | Accelerate in the input's direction, by at most what is left to the maximal speed, only when the input pushes the axis within that speed. Otherwise brake against the velocity, never reversing it and never below the maximal speed when over it, with nothing at rest. | not executed | SplineMovementMath.AccelerationComponentAsWritten | SplineMovementMath.AccelerationComponent |

The corrected rule is written with comparisons on velocity and input instead of a sign product.
The component itself (`IntegrateVelocity`, `MoveTick`) integrates the rule as written, through `CalculateMoveSpaceAcceleration`.
`CorrectedMoveSpaceAcceleration` applies the corrected rule on each axis.
`AsWrittenAgreesForPositiveInput` and `MoveSpaceAccelerationAgreesForPositiveInput` show that the two rules agree for every positive input.
`AccelerationStepIsSafe` and `MoveSpaceAccelerationIsSafe` prove the intended guarantees for the corrected rule.
