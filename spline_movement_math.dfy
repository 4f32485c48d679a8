/**
 * The parts of USplineMovementComponentImpl that compute values from their inputs
 * only: the per-axis acceleration rule, the Verlet step, the tracking-speed layer on
 * the forward axis, wrapping the location along the spline, the attaching timer,
 * the per-state movement flags and the move-space computation.
 */
module SplineMovementMath {
  import opened Wrappers
  import opened EngineTypes
  import opened GameMath
  import opened SplineMovementTypes
  import opened SplineMovementConfig

  // ---------------------------------------------------------------- state queries

  /** The movement is integrated on the spline, or toward it. */
  function ShouldMoveFromOrToSpline(s: AttachState): (r: bool)
    ensures r <==> s != Detached
  {
    match s
    case Detached => false
    case Attaching => true
    case Attached => true
  }

  /** The move space is a blend of the pre-attach transform and the spline's. */
  function ShouldBlendToSplineWhenMoving(s: AttachState): (r: bool)
    ensures r <==> s == Attaching
    ensures r ==> ShouldMoveFromOrToSpline(s)
  {
    match s
    case Detached => false
    case Attaching => true
    case Attached => false
  }

  /** The move space of the given kind can be computed: on the spline it needs the spline, off it the updated component. */
  function CanCalculateMoveSpace(onOrToSpline: bool, spline: Option<Spline>, updated: Option<SceneComponent>): bool
  {
    if onOrToSpline then spline.Some? else updated.Some?
  }

  /** Gravity passes through only in free movement. */
  function ComponentGravityZ(s: AttachState, gravityZ: real): (r: real)
  {
    if s == Detached then gravityZ else 0.0
  }

  /** Gravity is cancelled exactly when the movement is on or toward the spline. */
  lemma GravityOnlyOffSpline(s: AttachState, gravityZ: real)
    ensures ComponentGravityZ(s, gravityZ) == (if ShouldMoveFromOrToSpline(s) then 0.0 else gravityZ)
  {
  }

  /** What a MoveTick may do in a state: apply input, sweep the move, detach on a blocking hit. */
  datatype MoveFlags = MoveFlags(allowMoveControl: bool, sweep: bool, detachOnBlockingHit: bool)

  /** The flags of free movement, which are also the initial values of the table. */
  const FreeMoveFlags: MoveFlags := MoveFlags(true, true, false)

  /** The per-state flag table of MoveTick. */
  function StateFlags(s: AttachState, rules: AttachRules): (f: MoveFlags)
    // off the spline every flag keeps its free-movement value
    ensures !ShouldMoveFromOrToSpline(s) ==> f == FreeMoveFlags
    // only Attaching can withhold control or the sweep, as configured
    ensures s != Attaching ==> f.allowMoveControl && f.sweep
    ensures s == Attaching ==> f.allowMoveControl == rules.allowAttachingControl && f.sweep == rules.attachSweep
    // detaching on a hit is only ever asked for on or toward the spline, always while blending
    ensures f.detachOnBlockingHit ==> ShouldMoveFromOrToSpline(s)
    ensures ShouldBlendToSplineWhenMoving(s) ==> f.detachOnBlockingHit
    ensures s == Attached ==> f.detachOnBlockingHit == rules.detachOnBlockingHit
  {
    match s
    case Detached => FreeMoveFlags
    case Attaching => MoveFlags(rules.allowAttachingControl, rules.attachSweep, true)
    case Attached => MoveFlags(true, true, rules.detachOnBlockingHit)
  }

  /** Attaching skips the blend when the world transform is kept or the blend time is exactly zero. */
  predicate AttachesInstantly(rules: AttachRules)
  {
    rules.attachTransformMode == KeepWorld || rules.attachBlendTime == 0.0
  }

  // ---------------------------------------------------------------- attaching timer

  /** The start of MoveTick: while Attaching the timer grows by dt; at the blend time the state becomes Attached. */
  function AttachingTimerStep(s: AttachState, time: real, dt: real, blendTime: real): (r: (AttachState, real))
    ensures s != Attaching ==> r == (s, time)
    ensures s == Attaching ==> (r.0 == Attached <==> time + dt >= blendTime)
    ensures s == Attaching ==> r.0 == Attached || r.0 == Attaching
    // the timer runs only while Attaching, and is zero once the blend is over
    ensures r.0 == Attaching ==> r.1 == time + dt
    ensures (s != Attaching ==> time == 0.0) ==> (r.0 != Attaching ==> r.1 == 0.0)
  {
    if s == Attaching then
      var t := time + dt;
      if t >= blendTime then (Attached, 0.0) else (Attaching, t)
    else (s, time)
  }

  /** `n` ticks of the attaching timer with the same dt and blend time. */
  function AttachingTimerRun(n: nat, s: AttachState, time: real, dt: real, blendTime: real): (AttachState, real)
    decreases n
  {
    if n == 0 then (s, time)
    else
      var r := AttachingTimerStep(s, time, dt, blendTime);
      AttachingTimerRun(n - 1, r.0, r.1, dt, blendTime)
  }

  lemma {:induction false} AttachedStaysAttached(n: nat, dt: real, blendTime: real)
    ensures AttachingTimerRun(n, Attached, 0.0, dt, blendTime) == (Attached, 0.0)
    decreases n
  {
    if n > 0 { AttachedStaysAttached(n - 1, dt, blendTime); }
  }

  /** Attaching ends, with the timer reset, after the first tick at which the timer reaches the blend time. */
  lemma {:induction false} AttachingCompletes(n: nat, time: real, dt: real, blendTime: real)
    requires n >= 1
    requires time + Repeated(n, dt) >= blendTime
    ensures AttachingTimerRun(n, Attaching, time, dt, blendTime) == (Attached, 0.0)
    decreases n
  {
    if time + dt >= blendTime {
      AttachedStaysAttached(n - 1, dt, blendTime);
    } else if n == 1 {
      assert false;
    } else {
      AttachingCompletes(n - 1, time + dt, dt, blendTime);
    }
  }

  /** Before the blend time is reached the state stays Attaching and the timer has summed every dt. */
  lemma {:induction false} AttachingHolds(n: nat, time: real, dt: real, blendTime: real)
    requires dt >= 0.0
    requires time + Repeated(n, dt) < blendTime
    ensures AttachingTimerRun(n, Attaching, time, dt, blendTime) == (Attaching, time + Repeated(n, dt))
    decreases n
  {
    if n > 0 {
      assert time + dt < blendTime;
      AttachingHolds(n - 1, time + dt, dt, blendTime);
    }
  }

  // ---------------------------------------------------------------- acceleration rule

  /** FVector::GetSignVector, one component: +1 for a value >= 0, -1 otherwise. */
  function SignOf(x: real): (r: real)
    ensures r == 1.0 || r == -1.0
    ensures r > 0.0 <==> x >= 0.0
  {
    if x >= 0.0 then 1.0 else -1.0
  }

  /**
   * One axis of CalculateMoveSpaceAcceleration as the source computes it: the
   * inner lambda's value times that axis of the sign vector of vel * input.
   */
  function AccelerationComponentAsWritten(vel: real, input: real, maxSpeed: real, accel: real, decel: real): real
  {
    var accelSign := SignOf(vel * input);
    var speed := Abs(vel);
    var deltaToMaxSpeed := maxSpeed - speed;
    var controlAccel := !IsNearlyZero(accelSign, SmallNumber) && accelSign > 0.0;
    var maxSpeedExceeded := deltaToMaxSpeed < 0.0;
    var component :=
      if !controlAccel || maxSpeedExceeded then
        -Min(decel, if maxSpeedExceeded then -deltaToMaxSpeed else speed)
      else Min(accel, deltaToMaxSpeed);
    accelSign * component
  }

  /** As written: driving at exactly the maximal speed gives no acceleration. */
  lemma AsWrittenNoAccelerationAtMaxSpeed(vel: real, input: real, maxSpeed: real, accel: real, decel: real)
    requires vel * input >= 0.0 && Abs(vel) == maxSpeed && accel >= 0.0
    ensures AccelerationComponentAsWritten(vel, input, maxSpeed, accel, decel) == 0.0
  {
  }

  /** As written: speed 5 against input -1 is accelerated to 8 in one second instead of braked. */
  lemma AsWrittenOpposingInputSpeedsUp()
    ensures AccelerationComponentAsWritten(5.0, -1.0, 10.0, 2.0, 3.0) == 3.0
    ensures Abs(5.0 + 1.0 * AccelerationComponentAsWritten(5.0, -1.0, 10.0, 2.0, 3.0)) > Abs(5.0)
  {
  }

  /** As written: at rest with no input the axis accelerates. */
  lemma AsWrittenAcceleratesWithoutInput()
    ensures AccelerationComponentAsWritten(0.0, 0.0, 10.0, 2.0, 3.0) == 2.0
  {
  }

  /** As written, within the maximal speed and with velocity and input agreeing (or either zero): the acceleration up to the maximal speed, non-negative for non-negative limits. */
  lemma AsWrittenAgreeingInput(vel: real, input: real, maxSpeed: real, accel: real, decel: real)
    requires vel * input >= 0.0 && Abs(vel) <= maxSpeed
    ensures AccelerationComponentAsWritten(vel, input, maxSpeed, accel, decel) == Min(accel, maxSpeed - Abs(vel))
  {
  }

  /** As written, within the maximal speed and with velocity and input opposed: the braking amount with a positive sign, non-negative for a non-negative deceleration. */
  lemma AsWrittenOpposingInput(vel: real, input: real, maxSpeed: real, accel: real, decel: real)
    requires vel * input < 0.0 && Abs(vel) <= maxSpeed
    ensures AccelerationComponentAsWritten(vel, input, maxSpeed, accel, decel) == Min(decel, Abs(vel))
  {
  }

  /** As written, above the maximal speed: braking by the excess, negative for agreeing and positive for opposed signs. */
  lemma AsWrittenOverMaxSpeed(vel: real, input: real, maxSpeed: real, accel: real, decel: real)
    requires Abs(vel) > maxSpeed
    ensures vel * input >= 0.0 ==> AccelerationComponentAsWritten(vel, input, maxSpeed, accel, decel) == -Min(decel, Abs(vel) - maxSpeed)
    ensures vel * input < 0.0 ==> AccelerationComponentAsWritten(vel, input, maxSpeed, accel, decel) == Min(decel, Abs(vel) - maxSpeed)
  {
  }

  /** As written, a forward axis within the maximal speed under backward input gains min(decel, vel) instead of braking. */
  lemma {:induction false} AsWrittenBackwardInputSpeedsUp(vel: real, input: real, maxSpeed: real, accel: real, decel: real)
    requires 0.0 < vel <= maxSpeed && input < 0.0 && decel >= 0.0
    ensures AccelerationComponentAsWritten(vel, input, maxSpeed, accel, decel) == Min(decel, vel) >= 0.0
  {
    assert vel * input < 0.0;
    AsWrittenOpposingInput(vel, input, maxSpeed, accel, decel);
  }

  /** As written, an axis at rest without input gets min(accel, maxSpeed). */
  lemma {:induction false} AsWrittenAtRestWithoutInput(maxSpeed: real, accel: real, decel: real)
    requires maxSpeed >= 0.0
    ensures AccelerationComponentAsWritten(0.0, 0.0, maxSpeed, accel, decel) == Min(accel, maxSpeed)
  {
    AsWrittenAgreeingInput(0.0, 0.0, maxSpeed, accel, decel);
  }

  /** The input pushes the way the axis already moves, or the axis is at rest and there is input. */
  predicate Pushes(vel: real, input: real)
  {
    (input > 0.0 && vel >= 0.0) || (input < 0.0 && vel <= 0.0)
  }

  /** The input drives the axis: it pushes it and the speed is within the maximum. */
  predicate Drives(vel: real, input: real, maxSpeed: real)
  {
    Pushes(vel, input) && Abs(vel) <= maxSpeed
  }

  /** How much braking may take off a speed: down to the maximal speed when over it, otherwise down to rest. */
  function BrakeCap(speed: real, maxSpeed: real): real
  {
    if speed > maxSpeed then speed - maxSpeed else speed
  }

  /**
   * The rule the source evidently intends: accelerate in the input's direction, by
   * at most what is left to the maximal speed, when the input drives the axis;
   * otherwise brake against the velocity by at most the braking cap (nothing at rest).
   */
  function AccelerationComponent(vel: real, input: real, maxSpeed: real, accel: real, decel: real): real
  {
    if Drives(vel, input, maxSpeed) then
      (if input > 0.0 then Min(accel, maxSpeed - Abs(vel)) else -Min(accel, maxSpeed - Abs(vel)))
    else if vel > 0.0 then -Min(decel, BrakeCap(vel, maxSpeed))
    else if vel < 0.0 then Min(decel, BrakeCap(-vel, maxSpeed))
    else 0.0
  }

  /** For positive input the two rules agree: the discrepancy is confined to negative input. */
  lemma AsWrittenAgreesForPositiveInput(vel: real, input: real, maxSpeed: real, accel: real, decel: real)
    requires input > 0.0 && maxSpeed >= 0.0
    ensures AccelerationComponentAsWritten(vel, input, maxSpeed, accel, decel) == AccelerationComponent(vel, input, maxSpeed, accel, decel)
  {
    if vel > 0.0 {
      assert vel * input > 0.0;
    } else if vel < 0.0 {
      assert vel * input < 0.0;
      assert SignOf(vel * input) == -1.0;
    } else {
      assert vel * input == 0.0;
    }
  }

  /** One axis of the Verlet velocity update: v + dt * a. */
  function AxisVelocity(dt: real, v: real, a: real): real
  {
    v + dt * a
  }

  /** A step of up to a second under a non-negative acceleration ends between v and v + a. */
  lemma AxisVelocityRises(dt: real, v: real, a: real)
    requires 0.0 <= dt <= 1.0 && a >= 0.0
    ensures v <= AxisVelocity(dt, v, a) <= v + a
  {
    assert AxisVelocity(dt, v, a) == v + dt * a;
    assert 0.0 <= dt * a <= a;
  }

  /** A step of up to a second under a non-positive acceleration ends between v + a and v. */
  lemma AxisVelocityFalls(dt: real, v: real, a: real)
    requires 0.0 <= dt <= 1.0 && a <= 0.0
    ensures v + a <= AxisVelocity(dt, v, a) <= v
  {
    assert AxisVelocity(dt, v, a) == v + dt * a;
    assert 0.0 <= dt * -a <= -a;
    assert dt * -a == -(dt * a);
  }

  /**
   * What one step of dt does to an axis velocity under acceleration `a`: nothing at rest
   * without input; under driving input, acceleration toward the input and never beyond
   * the maximal speed; otherwise braking that never reverses or speeds up the axis and,
   * when over the maximal speed, never brakes below it.
   */
  predicate AxisStepSafe(vel: real, input: real, a: real, maxSpeed: real, dt: real)
  {
    var v1 := AxisVelocity(dt, vel, a);
    (input == 0.0 && vel == 0.0 ==> a == 0.0) &&
    (Drives(vel, input, maxSpeed) ==> (input > 0.0 ==> a >= 0.0) && (input < 0.0 ==> a <= 0.0) && Abs(v1) <= maxSpeed) &&
    (!Drives(vel, input, maxSpeed) ==>
       (vel >= 0.0 ==> v1 >= 0.0) && (vel <= 0.0 ==> v1 <= 0.0) && Abs(v1) <= Abs(vel) &&
       (Abs(vel) > maxSpeed ==> Abs(v1) >= maxSpeed))
  }

  /** Driving input: the step moves toward the input's direction and stays within the maximal speed. */
  lemma DrivingStepIsSafe(vel: real, input: real, maxSpeed: real, accel: real, decel: real, dt: real)
    requires 0.0 <= dt <= 1.0 && accel >= 0.0
    requires Drives(vel, input, maxSpeed)
    ensures var a := AccelerationComponent(vel, input, maxSpeed, accel, decel);
      (input > 0.0 ==> a >= 0.0) && (input < 0.0 ==> a <= 0.0) && Abs(AxisVelocity(dt, vel, a)) <= maxSpeed
  {
    var a := AccelerationComponent(vel, input, maxSpeed, accel, decel);
    if input > 0.0 {
      AxisVelocityRises(dt, vel, a);
    } else {
      AxisVelocityFalls(dt, vel, a);
    }
  }

  /** Otherwise the step brakes: it never reverses or speeds up the axis, and never brakes below the maximal speed. */
  lemma BrakingStepIsSafe(vel: real, input: real, maxSpeed: real, accel: real, decel: real, dt: real)
    requires 0.0 <= dt <= 1.0 && maxSpeed >= 0.0 && decel >= 0.0
    requires !Drives(vel, input, maxSpeed)
    ensures var v1 := AxisVelocity(dt, vel, AccelerationComponent(vel, input, maxSpeed, accel, decel));
      (vel >= 0.0 ==> v1 >= 0.0) && (vel <= 0.0 ==> v1 <= 0.0) && Abs(v1) <= Abs(vel) &&
      (Abs(vel) > maxSpeed ==> Abs(v1) >= maxSpeed)
  {
    var a := AccelerationComponent(vel, input, maxSpeed, accel, decel);
    if vel > 0.0 {
      AxisVelocityFalls(dt, vel, a);
    } else {
      AxisVelocityRises(dt, vel, a);
    }
  }

  lemma {:induction false} AccelerationStepIsSafe(vel: real, input: real, maxSpeed: real, accel: real, decel: real, dt: real)
    requires 0.0 <= dt <= 1.0 && maxSpeed >= 0.0 && accel >= 0.0 && decel >= 0.0
    ensures AxisStepSafe(vel, input, AccelerationComponent(vel, input, maxSpeed, accel, decel), maxSpeed, dt)
  {
    if Drives(vel, input, maxSpeed) {
      DrivingStepIsSafe(vel, input, maxSpeed, accel, decel, dt);
    } else {
      BrakingStepIsSafe(vel, input, maxSpeed, accel, decel, dt);
    }
  }

  /** CalculateMoveSpaceAcceleration as the source computes it: the as-written rule on each axis with that axis's limits. */
  function CalculateMoveSpaceAcceleration(input: Vec3, oldVelocity: Vec3, phys: PhysConfig): Vec3
  {
    Vec3(
      AccelerationComponentAsWritten(oldVelocity.x, input.x, phys.maxSpeed.x, phys.acceleration.x, phys.deceleration.x),
      AccelerationComponentAsWritten(oldVelocity.y, input.y, phys.maxSpeed.y, phys.acceleration.y, phys.deceleration.y),
      AccelerationComponentAsWritten(oldVelocity.z, input.z, phys.maxSpeed.z, phys.acceleration.z, phys.deceleration.z))
  }

  /** The evidently intended CalculateMoveSpaceAcceleration: the corrected rule on each axis. */
  function CorrectedMoveSpaceAcceleration(input: Vec3, oldVelocity: Vec3, phys: PhysConfig): Vec3
  {
    Vec3(
      AccelerationComponent(oldVelocity.x, input.x, phys.maxSpeed.x, phys.acceleration.x, phys.deceleration.x),
      AccelerationComponent(oldVelocity.y, input.y, phys.maxSpeed.y, phys.acceleration.y, phys.deceleration.y),
      AccelerationComponent(oldVelocity.z, input.z, phys.maxSpeed.z, phys.acceleration.z, phys.deceleration.z))
  }

  /** With positive input on every axis, the source's acceleration is the intended one. */
  lemma {:induction false} MoveSpaceAccelerationAgreesForPositiveInput(input: Vec3, vel: Vec3, phys: PhysConfig)
    requires input.x > 0.0 && input.y > 0.0 && input.z > 0.0
    requires phys.maxSpeed.x >= 0.0 && phys.maxSpeed.y >= 0.0 && phys.maxSpeed.z >= 0.0
    ensures CalculateMoveSpaceAcceleration(input, vel, phys) == CorrectedMoveSpaceAcceleration(input, vel, phys)
  {
    AsWrittenAgreesForPositiveInput(vel.x, input.x, phys.maxSpeed.x, phys.acceleration.x, phys.deceleration.x);
    AsWrittenAgreesForPositiveInput(vel.y, input.y, phys.maxSpeed.y, phys.acceleration.y, phys.deceleration.y);
    AsWrittenAgreesForPositiveInput(vel.z, input.z, phys.maxSpeed.z, phys.acceleration.z, phys.deceleration.z);
  }

  /** With non-negative limits, one Verlet velocity update of up to a second under the corrected rule is safe on every axis. */
  lemma {:induction false} MoveSpaceAccelerationIsSafe(input: Vec3, vel: Vec3, phys: PhysConfig, dt: real)
    requires 0.0 <= dt <= 1.0
    requires phys.maxSpeed.x >= 0.0 && phys.maxSpeed.y >= 0.0 && phys.maxSpeed.z >= 0.0
    requires phys.acceleration.x >= 0.0 && phys.acceleration.y >= 0.0 && phys.acceleration.z >= 0.0
    requires phys.deceleration.x >= 0.0 && phys.deceleration.y >= 0.0 && phys.deceleration.z >= 0.0
    ensures var a := CorrectedMoveSpaceAcceleration(input, vel, phys);
      AxisStepSafe(vel.x, input.x, a.x, phys.maxSpeed.x, dt) &&
      AxisStepSafe(vel.y, input.y, a.y, phys.maxSpeed.y, dt) &&
      AxisStepSafe(vel.z, input.z, a.z, phys.maxSpeed.z, dt)
  {
    AccelerationStepIsSafe(vel.x, input.x, phys.maxSpeed.x, phys.acceleration.x, phys.deceleration.x, dt);
    AccelerationStepIsSafe(vel.y, input.y, phys.maxSpeed.y, phys.acceleration.y, phys.deceleration.y, dt);
    AccelerationStepIsSafe(vel.z, input.z, phys.maxSpeed.z, phys.acceleration.z, phys.deceleration.z, dt);
  }

  // ---------------------------------------------------------------- Verlet step

  /** The position delta of one step: dt * v + dt^2 / 2 * a. */
  function VerletMoveDelta(dt: real, v: Vec3, a: Vec3): Vec3
  {
    Add(Scale(dt, v), Scale(0.5 * dt * dt, a))
  }

  /** The velocity after one step: v + dt * a. */
  function VerletVelocity(dt: real, v: Vec3, a: Vec3): Vec3
  {
    Vec3(AxisVelocity(dt, v.x, a.x), AxisVelocity(dt, v.y, a.y), AxisVelocity(dt, v.z, a.z))
  }

  /** One axis of VerletMoveDelta. */
  function AxisMoveDelta(dt: real, v: real, a: real): real
  {
    dt * v + 0.5 * dt * dt * a
  }

  /** Two steps of one axis under constant acceleration. */
  lemma VerletSplitAxis(dt1: real, dt2: real, v: real, a: real)
    ensures AxisMoveDelta(dt1, v, a) + AxisMoveDelta(dt2, v + dt1 * a, a) == AxisMoveDelta(dt1 + dt2, v, a)
  {
  }

  lemma VerletMoveDeltaAxes(dt: real, v: Vec3, a: Vec3)
    ensures VerletMoveDelta(dt, v, a) == Vec3(AxisMoveDelta(dt, v.x, a.x), AxisMoveDelta(dt, v.y, a.y), AxisMoveDelta(dt, v.z, a.z))
  {
  }

  /** Under constant acceleration two steps of dt1 and dt2 move and accelerate exactly as one step of dt1 + dt2. */
  lemma {:induction false} VerletStepsCompose(dt1: real, dt2: real, v: Vec3, a: Vec3)
    ensures VerletVelocity(dt2, VerletVelocity(dt1, v, a), a) == VerletVelocity(dt1 + dt2, v, a)
    ensures Add(VerletMoveDelta(dt1, v, a), VerletMoveDelta(dt2, VerletVelocity(dt1, v, a), a)) == VerletMoveDelta(dt1 + dt2, v, a)
  {
    var v1 := VerletVelocity(dt1, v, a);
    VerletSplitAxis(dt1, dt2, v.x, a.x);
    VerletSplitAxis(dt1, dt2, v.y, a.y);
    VerletSplitAxis(dt1, dt2, v.z, a.z);
    VerletMoveDeltaAxes(dt1, v, a);
    VerletMoveDeltaAxes(dt2, v1, a);
    VerletMoveDeltaAxes(dt1 + dt2, v, a);
  }

  /** The position delta is dt times the mean of the velocities before and after the step. */
  lemma VerletMeanVelocity(dt: real, v: Vec3, a: Vec3)
    ensures VerletMoveDelta(dt, v, a) == Scale(0.5 * dt, Add(v, VerletVelocity(dt, v, a)))
  {
  }

  // ---------------------------------------------------------------- tracking speed

  /** The tracking speed's limits (SetTrackingSpeed). */
  const MaxTrackingSpeed: real := 50000.0

  /** FMath::Clamp(x, 0, 50000) */
  function ClampTrackingSpeed(x: real): (r: real)
    ensures 0.0 <= r <= MaxTrackingSpeed
    ensures 0.0 <= x <= MaxTrackingSpeed ==> r == x
    ensures x < 0.0 ==> r == 0.0
    ensures x > MaxTrackingSpeed ==> r == MaxTrackingSpeed
  {
    if x < 0.0 then 0.0 else if x > MaxTrackingSpeed then MaxTrackingSpeed else x
  }

  /** GetMoveSpaceVelocity: the stored velocity, with the tracking speed added on the forward axis when asked. */
  function WithTrackingSpeed(v: Vec3, trackingSpeed: real, addTrackSpeed: bool): (r: Vec3)
    ensures r.x == (if addTrackSpeed then v.x + trackingSpeed else v.x)
    ensures r.y == v.y && r.z == v.z
  {
    if addTrackSpeed then Add(v, Vec3(trackingSpeed, 0.0, 0.0)) else v
  }

  /** SetOnlyMoveSpaceVelocity: the stored velocity, with the tracking speed taken off the forward axis when it was included. */
  function WithoutTrackingSpeed(v: Vec3, trackingSpeed: real, trackingAccounted: bool): (r: Vec3)
    ensures r.x == (if trackingAccounted then v.x - trackingSpeed else v.x)
    ensures r.y == v.y && r.z == v.z
  {
    if trackingAccounted then v.(x := v.x - trackingSpeed) else v
  }

  /** Storing a velocity and reading it back with the same flag gives it back, in both orders. */
  lemma TrackingRoundTrip(v: Vec3, trackingSpeed: real, flag: bool)
    ensures WithTrackingSpeed(WithoutTrackingSpeed(v, trackingSpeed, flag), trackingSpeed, flag) == v
    ensures WithoutTrackingSpeed(WithTrackingSpeed(v, trackingSpeed, flag), trackingSpeed, flag) == v
  {
  }

  /**
   * SetVelocityInWorldSpace then GetMoveSpaceVelocity in world space gives the velocity
   * back, whenever the engine's vector transform undoes its inverse at that velocity.
   */
  lemma WorldVelocityRoundTrip(geo: Geometry, moveSpace: Transform, v: Vec3, trackingSpeed: real, flag: bool)
    requires geo.transformVector(moveSpace, geo.inverseTransformVector(moveSpace, v)) == v
    ensures geo.transformVector(moveSpace,
      WithTrackingSpeed(WithoutTrackingSpeed(geo.inverseTransformVector(moveSpace, v), trackingSpeed, flag), trackingSpeed, flag)) == v
  {
    TrackingRoundTrip(geo.inverseTransformVector(moveSpace, v), trackingSpeed, flag);
  }

  // ---------------------------------------------------------------- location along the spline

  /** Truncation toward zero. */
  function Trunc(q: real): int
  {
    if q >= 0.0 then q.Floor else -((-q).Floor)
  }

  /** FGenericPlatformMath::Fmod: x - l * trunc(x / l), with the sign of x. */
  function Fmod(x: real, l: real): real
    requires l != 0.0
  {
    x - l * (Trunc(x / l) as real)
  }

  /** d is a whole number of lengths l. */
  predicate WholeLaps(d: real, l: real)
    requires l != 0.0
  {
    (d / l).Floor as real == d / l
  }

  lemma MulMono(l: real, a: real, b: real)
    requires l > 0.0 && a <= b
    ensures l * a <= l * b
  {
  }
  lemma MulMonoStrict(l: real, a: real, b: real)
    requires l > 0.0 && a < b
    ensures l * a < l * b
  {
  }
  lemma FractionBelow(x: real, l: real, q: real, k: real)
    requires l > 0.0 && x == l * q && q < k + 1.0
    ensures x - l * k < l
  {
    MulMonoStrict(l, q - k, 1.0);
    assert l * (q - k) == l * q - l * k;
  }
  lemma ScaledFraction(x: real, l: real, q: real, k: real)
    requires l > 0.0 && x == l * q && k <= q < k + 1.0
    ensures 0.0 <= x - l * k < l
  {
    MulMono(l, k, q);
    FractionBelow(x, l, q, k);
  }
  /** A whole number k of lengths l that fits below l is 0. */
  lemma NoLapWithinLength(l: real, k: int, y: real)
    requires l > 0.0 && k >= 0 && l * (k as real) <= y < l
    ensures k == 0
  {
    if k != 0 {
      MulMono(l, 1.0, k as real);
      assert false;
    }
  }

  lemma {:induction false} TruncBounds(x: real, l: real, q: real)
    requires l > 0.0 && x == l * q
    ensures var r := x - l * (Trunc(q) as real);
      -l < r < l && (x >= 0.0 ==> 0.0 <= r) && (x <= 0.0 ==> r <= 0.0) && (-l < x < l ==> r == x)
  {
    var k := Trunc(q);
    var r := x - l * (k as real);
    if q >= 0.0 {
      assert k == q.Floor;
      assert (k as real) <= q < (k as real) + 1.0;
      ScaledFraction(x, l, q, k as real);
      assert 0.0 <= r < l;
      MulMono(l, 0.0, q);
      assert x >= 0.0;
      if x < l {
        NoLapWithinLength(l, k, x);
      }
    } else {
      var m := (-q).Floor;
      assert k == -m;
      assert (m as real) <= -q < (m as real) + 1.0;
      assert l * -q == -x;
      ScaledFraction(-x, l, -q, m as real);
      assert l * (m as real) == -(l * (k as real));
      assert -l < r <= 0.0;
      MulMonoStrict(l, q, 0.0);
      assert x < 0.0;
      if -l < x {
        NoLapWithinLength(l, m, -x);
      }
    }
  }

  lemma {:induction false} FmodBounds(x: real, l: real)
    requires l > 0.0
    ensures -l < Fmod(x, l) < l
    ensures x >= 0.0 ==> 0.0 <= Fmod(x, l)
    ensures x <= 0.0 ==> Fmod(x, l) <= 0.0
    ensures -l < x < l ==> Fmod(x, l) == x
    ensures WholeLaps(x - Fmod(x, l), l)
  {
    var k := Trunc(x / l);
    assert x == l * (x / l);
    TruncBounds(x, l, x / l);
    assert x - Fmod(x, l) == l * (k as real);
    assert (l * (k as real)) / l == k as real;
  }

  /**
   * FixLocationAlongSpline: without a spline the location is kept; on a spline of
   * non-positive length it is 0; otherwise it is wrapped by Fmod into (-L, L) with
   * the sign it had, a whole number of lengths away from where it was.
   */
  function FixedLocationAlongSpline(location: real, spline: Option<Spline>): (r: real)
    ensures spline.None? ==> r == location
    ensures spline.Some? && spline.value.length <= 0.0 ==> r == 0.0
    ensures spline.Some? && spline.value.length > 0.0 ==>
      var l := spline.value.length;
      -l < r < l && (location >= 0.0 ==> 0.0 <= r) && (location <= 0.0 ==> r <= 0.0) &&
      (-l < location < l ==> r == location) && WholeLaps(location - r, l)
  {
    match spline
    case None => location
    case Some(s) =>
      if s.length > 0.0 then FmodBounds(location, s.length); Fmod(location, s.length) else 0.0
  }

  /** The location is wrapped for the spline: what FixLocationAlongSpline leaves behind. */
  predicate LocationWrapped(location: real, spline: Option<Spline>)
  {
    match spline
    case None => true
    case Some(s) => if s.length > 0.0 then -s.length < location < s.length else location == 0.0
  }

  /** Fixing wraps the location, and a wrapped location is fixed already. */
  lemma FixedLocationIsWrapped(location: real, spline: Option<Spline>)
    ensures LocationWrapped(FixedLocationAlongSpline(location, spline), spline)
    ensures LocationWrapped(location, spline) ==> FixedLocationAlongSpline(location, spline) == location
    ensures FixedLocationAlongSpline(FixedLocationAlongSpline(location, spline), spline) == FixedLocationAlongSpline(location, spline)
  {
  }

  /** FixLocalToMoveSpace: the local offset with its forward component zeroed. */
  function WithoutForwardOffset(t: Transform): (r: Transform)
    ensures r.translation.x == 0.0
    ensures r.translation.y == t.translation.y && r.translation.z == t.translation.z
    ensures r.rotation == t.rotation && r.scale == t.scale
  {
    t.(translation := t.translation.(x := 0.0))
  }

  /**
   * MoveTick's bookkeeping on or toward the spline: the move delta is added to the
   * local offset; unless blending, its forward part is folded into the location along
   * the spline, which is wrapped again; then the local offset's forward part is zeroed.
   * The result is the new location along the spline and the new local offset.
   */
  function FoldMoveDelta(location: real, local: Transform, delta: Vec3, blendToSpline: bool, spline: Option<Spline>): (r: (real, Transform))
    // the lateral and vertical offsets take the delta; nothing is left on the forward axis
    ensures r.1.translation == Vec3(0.0, local.translation.y + delta.y, local.translation.z + delta.z)
    ensures r.1.rotation == local.rotation && r.1.scale == local.scale
    // while blending the forward part is dropped
    ensures blendToSpline ==> r.0 == location
    // otherwise it is carried over to the location, exactly without a spline and up to whole laps on one
    ensures !blendToSpline && spline.None? ==> r.0 == location + local.translation.x + delta.x
    ensures !blendToSpline && spline.Some? && spline.value.length > 0.0 ==>
      LocationWrapped(r.0, spline) && WholeLaps(location + local.translation.x + delta.x - r.0, spline.value.length) &&
      (location + local.translation.x + delta.x >= 0.0 ==> r.0 >= 0.0) &&
      (location + local.translation.x + delta.x <= 0.0 ==> r.0 <= 0.0)
    // on a spline of length zero or less it is reset to 0
    ensures !blendToSpline && spline.Some? && spline.value.length <= 0.0 ==> r.0 == 0.0
  {
    var moved := AddToTranslation(local, delta);
    var newLocation := if !blendToSpline then FixedLocationAlongSpline(location + moved.translation.x, spline) else location;
    (newLocation, WithoutForwardOffset(moved))
  }

  /** Which of the world-space quantities ResetSplineMoveSpaceAndParamsFromWorldSpace keeps. */
  datatype ResetFlags = ResetFlags(keepLocation: bool, keepRotation: bool, keepVelocity: bool)

  // ---------------------------------------------------------------- move space

  /** The cached move space: its transform to world, the blend velocity and the pre-attach-to-target translation. */
  datatype MoveSpace = MoveSpace(transform: Transform, blendVelocity: Vec3, detachedToTargetTranslation: Vec3)

  /**
   * RecalculateMoveSpace: on the spline the move space is the spline's transform at the
   * location; while blending it is the engine's blend of the pre-attach transform and
   * that one by attachingTime / blendTime, unless the blend time is nearly zero, when the
   * cached transform is left as it was; off the spline it is the updated component's
   * transform without the local rotation.
   */
  function RecalculatedMoveSpace(
    cache: MoveSpace, onOrToSpline: bool, blendToSpline: bool,
    spline: Option<Spline>, updated: Option<SceneComponent>, location: real, localRotation: Quat,
    preAttach: Transform, attachingTime: real, blendTime: real, geo: Geometry): (r: MoveSpace)
    requires !blendToSpline || onOrToSpline
    requires CanCalculateMoveSpace(onOrToSpline, spline, updated)
    // the move space carries its own velocity only while blending over a blend time that is not nearly zero
    ensures !(blendToSpline && !IsNearlyZero(blendTime, SmallNumber)) ==>
      r.blendVelocity == Zero && r.detachedToTargetTranslation == Zero
    // and then it is the engine's blend from the pre-attach space to the spline's by the elapsed fraction of the blend time,
    // with a velocity that covers the pre-attach-to-spline translation in exactly the blend time
    ensures blendToSpline && !IsNearlyZero(blendTime, SmallNumber) ==>
      r.transform == geo.blend(preAttach, geo.splineToWorldAt(spline.value, location), attachingTime / blendTime) &&
      r.detachedToTargetTranslation == Sub(geo.splineToWorldAt(spline.value, location).translation, preAttach.translation) &&
      Scale(blendTime, r.blendVelocity) == r.detachedToTargetTranslation
    // a nearly-zero blend time leaves the cached transform stale
    ensures blendToSpline && IsNearlyZero(blendTime, SmallNumber) ==> r.transform == cache.transform
    ensures onOrToSpline && !blendToSpline ==> r.transform == geo.splineToWorldAt(spline.value, location)
    ensures !onOrToSpline ==> r.transform == geo.withoutRotation(updated.value.transform, localRotation)
  {
    var zeroed := cache.(detachedToTargetTranslation := Zero, blendVelocity := Zero);
    if onOrToSpline then
      var target := geo.splineToWorldAt(spline.value, location);
      if blendToSpline then
        if !IsNearlyZero(blendTime, SmallNumber) then
          var translation := Sub(target.translation, preAttach.translation);
          var blendVelocity := Divide(translation, blendTime);
          assert Scale(blendTime, blendVelocity) == translation;
          MoveSpace(geo.blend(preAttach, target, attachingTime / blendTime), blendVelocity, translation)
        else zeroed
      else zeroed.(transform := target)
    else zeroed.(transform := geo.withoutRotation(updated.value.transform, localRotation))
  }

  /** At the start of the blend the move space is the pre-attach transform, if the engine's blend starts at its source. */
  lemma BlendStartsAtPreAttach(
    cache: MoveSpace, spline: Spline, updated: Option<SceneComponent>, location: real, localRotation: Quat,
    preAttach: Transform, blendTime: real, geo: Geometry)
    requires !IsNearlyZero(blendTime, SmallNumber)
    requires geo.blend(preAttach, geo.splineToWorldAt(spline, location), 0.0) == preAttach
    ensures RecalculatedMoveSpace(cache, true, true, Some(spline), updated, location, localRotation,
      preAttach, 0.0, blendTime, geo).transform == preAttach
  {
  }

  /**
   * When the timer reaches the blend time, the blended move space is the spline's, the
   * one the Attached state uses, if the engine's blend ends at its destination.
   */
  lemma BlendEndsAtSpline(
    cache: MoveSpace, spline: Spline, updated: Option<SceneComponent>, location: real, localRotation: Quat,
    preAttach: Transform, blendTime: real, geo: Geometry)
    requires !IsNearlyZero(blendTime, SmallNumber)
    requires geo.blend(preAttach, geo.splineToWorldAt(spline, location), 1.0) == geo.splineToWorldAt(spline, location)
    ensures RecalculatedMoveSpace(cache, true, true, Some(spline), updated, location, localRotation,
      preAttach, blendTime, blendTime, geo).transform
      == RecalculatedMoveSpace(cache, true, false, Some(spline), updated, location, localRotation,
      preAttach, blendTime, blendTime, geo).transform
  {
    assert blendTime / blendTime == 1.0;
  }
}
