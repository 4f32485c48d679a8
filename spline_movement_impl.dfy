/**
 * USplineMovementComponentImpl and FSplineMovementAttachmentState as objects whose
 * fields the operations update in place. The movement component's own state that the
 * implementation writes (Velocity) is a field; the updated component is passed to the
 * operations that read it; the engine's transform arithmetic is the `geo` record; every
 * delegate broadcast is appended to `log` and every move handed to the engine to
 * `moveRequests`.
 */
module SplineMovementImpl {
  import opened Wrappers
  import opened EngineTypes
  import opened GameMath
  import opened SplineMovementTypes
  import opened SplineMovementConfig
  import opened SplineMovementMath

  /** FSplineMovementAttachmentState: the attach state, the blend timer and the move space captured when attaching began. */
  class AttachmentState {
    var state: AttachState
    var attachingTime: real
    var moveSpaceToWorldBeforeAttaching: Transform

    /** The timer only runs while Attaching. */
    ghost predicate Valid()
      reads this
    {
      state != Attaching ==> attachingTime == 0.0
    }

    constructor()
      ensures Valid()
      ensures state == Detached && attachingTime == 0.0 && moveSpaceToWorldBeforeAttaching == Identity
    {
      state := Detached;
      attachingTime := 0.0;
      moveSpaceToWorldBeforeAttaching := Identity;
    }

    method SetAttached()
      modifies this`state, this`attachingTime
      ensures Valid()
      ensures state == Attached && attachingTime == 0.0
    {
      state := Attached;
      attachingTime := 0.0;
    }

    method SetAttaching(moveSpaceToWorld: Transform)
      modifies this
      ensures Valid()
      ensures state == Attaching && attachingTime == 0.0
      ensures moveSpaceToWorldBeforeAttaching == moveSpaceToWorld
    {
      state := Attaching;
      moveSpaceToWorldBeforeAttaching := moveSpaceToWorld;
      attachingTime := 0.0;
    }

    method SetDetached()
      modifies this`state, this`attachingTime
      ensures Valid()
      ensures state == Detached && attachingTime == 0.0
    {
      state := Detached;
      attachingTime := 0.0;
    }
  }

  /**
   * What the pre-tick check asks the engine: whether the movement component is active,
   * whether the world is a game world, whether the configured spline provider object is
   * still alive, and what UMovementComponent::ShouldSkipUpdate answers.
   */
  datatype TickEnvironment = TickEnvironment(isActive: bool, isGameWorld: bool, providerAlive: bool, componentSkipsUpdate: bool)

  /** The spline component FindComponentByClass finds on the provider, if any. */
  function SplineOf(provider: Option<Actor>): Option<Spline>
  {
    match provider
    case None => None
    case Some(a) => a.splineComponent
  }

  /** The log a transition appends when it happens, and nothing when it does not. */
  function BroadcastsIf(b: bool, t: Transition, s: AttachState): seq<Event>
  {
    if b then Broadcasts(t, s) else []
  }

  /** The reset GotoState_Attaching asks for: the world location unless the local offset is kept, the world rotation only for KeepWorld. */
  function AttachResetFlags(rules: AttachRules): ResetFlags
  {
    var mode := rules.attachTransformMode;
    ResetFlags(mode == KeepWorld || mode == KeepWorldLocationOnly, mode == KeepWorld, false)
  }

  /**
   * The move MoveTick hands to the engine. On or toward the spline: from where the updated
   * component is to the local offset placed in the move space, with that rotation. Off it:
   * the move delta and the local rotation, brought from the move space to the world.
   */
  function MoveRequestFor(geo: Geometry, onOrToSpline: bool, local: Transform, moveSpaceToWorld: Transform,
    moveDelta: Vec3, updated: SceneComponent, sweep: bool): MoveRequest
  {
    if onOrToSpline then
      var target := geo.compose(local, moveSpaceToWorld);
      MoveRequest(Sub(target.translation, updated.transform.translation), target.rotation, sweep)
    else
      MoveRequest(geo.transformVector(moveSpaceToWorld, moveDelta), geo.transformRotation(moveSpaceToWorld, local.rotation), sweep)
  }

  class SplineMovementComponentImpl {
    const attachState: AttachmentState
    /** The engine's transform arithmetic. */
    const geo: Geometry
    /** The configuration the component points to; its owner may change it between calls. */
    var config: Config
    /** The provider the component is linked to, and the spline component found on it. */
    var splineProvider: Option<Actor>
    var splineComponent: Option<Spline>
    var locationAlongSpline: real
    var localToMoveSpace: Transform
    /** Phys: the move-space velocity without tracking, and the tracking speed with its target. */
    var moveSpaceVelocity: Vec3
    var trackingSpeed: real
    var trackingTargetSpeed: real
    var inputVector: Vec3
    /** The move-space cache RecalculateMoveSpace writes. */
    var moveSpace: MoveSpace
    /** The movement component's world-space Velocity. */
    var velocity: Vec3
    /** Every delegate broadcast so far, in order. */
    var log: seq<Event>
    /** Every move handed to the engine so far, in order. */
    var moveRequests: seq<MoveRequest>

    /** The timer, the wrapped location and the zero forward offset. */
    ghost predicate StateValid()
      reads this, attachState
    {
      attachState.Valid() &&
      LocationWrapped(locationAlongSpline, splineComponent) &&
      localToMoveSpace.translation.x == 0.0
    }

    /** On or toward the spline, there is a spline. */
    ghost predicate Linked()
      reads this, attachState
    {
      attachState.state != Detached ==> splineComponent.Some?
    }

    /** The broadcasts so far obey the delegates' firing rules and end in the current state. */
    ghost predicate LogValid()
      reads this, attachState
    {
      Replay(Detached, log) == Some(attachState.state)
    }

    /** The log is complete but for the After event of a Before(ToAttached) already broadcast from the current state. */
    ghost predicate AttachedSignalled()
      reads this, attachState
    {
      |log| >= 1 && log[|log| - 1] == Before(ToAttached, State()) &&
      Replay(Detached, log[..|log| - 1]) == Some(State())
    }

    ghost predicate Valid()
      reads this, attachState
    {
      StateValid() && Linked() && LogValid()
    }

    function State(): AttachState
      reads attachState
    {
      attachState.state
    }

    /** CreateSplineMovementComponentImpl: a fresh component, Detached and not linked to any spline. */
    constructor(config: Config, geo: Geometry)
      ensures Valid()
      ensures fresh(attachState)
      ensures this.config == config && this.geo == geo
      ensures State() == Detached && attachState.attachingTime == 0.0
      ensures splineProvider == None && splineComponent == None
      ensures locationAlongSpline == 0.0 && localToMoveSpace == Identity
      ensures moveSpaceVelocity == Zero && trackingSpeed == 0.0 && trackingTargetSpeed == 0.0
      ensures inputVector == Zero && velocity == Zero
      ensures moveSpace == MoveSpace(Identity, Zero, Zero)
      ensures log == [] && moveRequests == []
    {
      attachState := new AttachmentState();
      this.geo := geo;
      this.config := config;
      splineProvider := None;
      splineComponent := None;
      locationAlongSpline := 0.0;
      localToMoveSpace := Identity;
      moveSpaceVelocity := Zero;
      trackingSpeed := 0.0;
      trackingTargetSpeed := 0.0;
      inputVector := Zero;
      moveSpace := MoveSpace(Identity, Zero, Zero);
      velocity := Zero;
      log := [];
      moveRequests := [];
    }

    // ------------------------------------------------------------ state transitions

    /** GotoState_Detached: Before, then the state change, then After; always succeeds. */
    method GotoState_Detached() returns (ok: bool)
      modifies this`log, attachState`state, attachState`attachingTime
      ensures ok
      ensures attachState.Valid()
      ensures State() == Detached && attachState.attachingTime == 0.0
      ensures log == old(log) + Broadcasts(ToDetached, old(State()))
      ensures old(LogValid()) ==> LogValid()
    {
      log := log + [Before(ToDetached, State())];
      attachState.SetDetached();
      log := log + [After(ToDetached)];
      ok := true;
      assert log == old(log) + Broadcasts(ToDetached, old(State()));
      if old(LogValid()) {
        ReplayAppend(Detached, old(log), ToDetached, old(State()));
      }
    }

    /**
     * GotoState_Attached: the Before event unless the caller has signalled it already,
     * then the state change, then After; always succeeds.
     */
    method GotoState_Attached(signalBefore: bool) returns (ok: bool)
      modifies this`log, attachState`state, attachState`attachingTime
      ensures ok
      ensures attachState.Valid()
      ensures State() == Attached && attachState.attachingTime == 0.0
      ensures log == old(log) + (if signalBefore then [Before(ToAttached, old(State()))] else []) + [After(ToAttached)]
      ensures signalBefore && old(LogValid()) ==> LogValid()
      // when the Before event was signalled already, the log is complete again
      ensures !signalBefore && old(AttachedSignalled()) ==> LogValid()
    {
      if signalBefore {
        log := log + [Before(ToAttached, State())];
      }
      attachState.SetAttached();
      log := log + [After(ToAttached)];
      ok := true;
      if signalBefore && old(LogValid()) {
        assert log == old(log) + Broadcasts(ToAttached, old(State()));
        ReplayAppend(Detached, old(log), ToAttached, old(State()));
      }
      if !signalBefore && old(AttachedSignalled()) {
        var prefix := old(log)[..|old(log)| - 1];
        assert old(log) == prefix + [Before(ToAttached, old(State()))];
        assert log == prefix + Broadcasts(ToAttached, old(State()));
        ReplayAppend(Detached, prefix, ToAttached, old(State()));
      }
    }

    // ------------------------------------------------------------ location and local offset

    /** FixLocationAlongSpline */
    method FixLocationAlongSpline()
      modifies this`locationAlongSpline
      ensures locationAlongSpline == FixedLocationAlongSpline(old(locationAlongSpline), splineComponent)
      ensures LocationWrapped(locationAlongSpline, splineComponent)
    {
      FixedLocationIsWrapped(locationAlongSpline, splineComponent);
      if splineComponent.None? {
        return;
      }
      var maxLocation := splineComponent.value.length;
      locationAlongSpline := if maxLocation > 0.0 then Fmod(locationAlongSpline, maxLocation) else 0.0;
    }

    /** SetLocationAlongSpline: the new location, wrapped. */
    method SetLocationAlongSpline(newLocation: real)
      modifies this`locationAlongSpline
      ensures locationAlongSpline == FixedLocationAlongSpline(newLocation, splineComponent)
      ensures LocationWrapped(locationAlongSpline, splineComponent)
    {
      locationAlongSpline := newLocation;
      FixLocationAlongSpline();
    }

    /** FixLocalToMoveSpace */
    method FixLocalToMoveSpace()
      modifies this`localToMoveSpace
      ensures localToMoveSpace == WithoutForwardOffset(old(localToMoveSpace))
    {
      localToMoveSpace := localToMoveSpace.(translation := Vec3(0.0, localToMoveSpace.translation.y, localToMoveSpace.translation.z));
    }

    /** ResetToInitialTransformAndLocation: the configured initial offset, its forward part moved into the location. */
    method ResetToInitialTransformAndLocation()
      modifies this`localToMoveSpace, this`locationAlongSpline
      ensures localToMoveSpace == WithoutForwardOffset(config.attachRules.initialLocalToMoveSpace)
      ensures locationAlongSpline == FixedLocationAlongSpline(config.attachRules.initialLocalToMoveSpace.translation.x, splineComponent)
      ensures LocationWrapped(locationAlongSpline, splineComponent)
    {
      localToMoveSpace := config.attachRules.initialLocalToMoveSpace;
      locationAlongSpline := config.attachRules.initialLocalToMoveSpace.translation.x;
      FixLocationAlongSpline();
      FixLocalToMoveSpace();
    }

    /** FixLocationFromWorldSpace: the offset of the updated component from the move space, without its forward part. */
    method FixLocationFromWorldSpace(updated: SceneComponent)
      modifies this`localToMoveSpace
      ensures localToMoveSpace == WithoutForwardOffset(old(localToMoveSpace).(translation := geo.subtractTranslations(updated.transform, moveSpace.transform)))
    {
      localToMoveSpace := localToMoveSpace.(translation := geo.subtractTranslations(updated.transform, moveSpace.transform));
      FixLocalToMoveSpace();
    }

    /** FixRotationFromWorldSpace: the updated component's rotation relative to the move space. */
    method FixRotationFromWorldSpace(updated: SceneComponent)
      modifies this`localToMoveSpace
      ensures localToMoveSpace == old(localToMoveSpace).(rotation := geo.relativeRotation(moveSpace.transform.rotation, updated.transform.rotation))
    {
      localToMoveSpace := localToMoveSpace.(rotation := geo.relativeRotation(moveSpace.transform.rotation, updated.transform.rotation));
    }

    /** FixLocationAlongSplineFromWorldSpace: the distance along the spline closest to the updated component, wrapped. */
    method FixLocationAlongSplineFromWorldSpace(updated: SceneComponent)
      requires splineComponent.Some?
      modifies this`locationAlongSpline
      ensures locationAlongSpline == FixedLocationAlongSpline(geo.closestDistance(splineComponent.value, updated.transform.translation), splineComponent)
      ensures LocationWrapped(locationAlongSpline, splineComponent)
    {
      locationAlongSpline := geo.closestDistance(splineComponent.value, updated.transform.translation);
      FixLocationAlongSpline();
    }

    // ------------------------------------------------------------ velocity and tracking speed

    /** GetMoveSpaceVelocity */
    function GetMoveSpaceVelocity(addTrackSpeed: bool): Vec3
      reads this
    {
      WithTrackingSpeed(moveSpaceVelocity, trackingSpeed, addTrackSpeed)
    }

    /** SetOnlyMoveSpaceVelocity: what GetMoveSpaceVelocity with the same flag then returns is the given velocity. */
    method SetOnlyMoveSpaceVelocity(v: Vec3, trackingAccounted: bool)
      modifies this`moveSpaceVelocity
      ensures moveSpaceVelocity == WithoutTrackingSpeed(v, trackingSpeed, trackingAccounted)
      ensures GetMoveSpaceVelocity(trackingAccounted) == v
    {
      moveSpaceVelocity := v;
      if trackingAccounted {
        moveSpaceVelocity := moveSpaceVelocity.(x := moveSpaceVelocity.x - trackingSpeed);
      }
      TrackingRoundTrip(v, trackingSpeed, trackingAccounted);
    }

    /** SetOnlyMoveSpaceVelocity_InWorldSpace: the world-space velocity brought into the move space first. */
    method SetOnlyMoveSpaceVelocity_InWorldSpace(v: Vec3, trackingAccounted: bool)
      modifies this`moveSpaceVelocity
      ensures moveSpaceVelocity == WithoutTrackingSpeed(geo.inverseTransformVector(moveSpace.transform, v), trackingSpeed, trackingAccounted)
      ensures GetMoveSpaceVelocity(trackingAccounted) == geo.inverseTransformVector(moveSpace.transform, v)
    {
      SetOnlyMoveSpaceVelocity(geo.inverseTransformVector(moveSpace.transform, v), trackingAccounted);
    }

    /** SetVelocityInWorldSpace: the move-space velocity from the world one, and the world velocity itself. */
    method SetVelocityInWorldSpace(v: Vec3, trackingAccounted: bool)
      modifies this`moveSpaceVelocity, this`velocity
      ensures moveSpaceVelocity == WithoutTrackingSpeed(geo.inverseTransformVector(moveSpace.transform, v), trackingSpeed, trackingAccounted)
      ensures velocity == v
      // reading it back in world space gives it back whenever the engine's transforms are inverse at v
      ensures geo.transformVector(moveSpace.transform, geo.inverseTransformVector(moveSpace.transform, v)) == v ==>
        geo.transformVector(moveSpace.transform, GetMoveSpaceVelocity(trackingAccounted)) == v
    {
      SetOnlyMoveSpaceVelocity_InWorldSpace(v, trackingAccounted);
      velocity := v;
    }

    /** RecalculateTrackingSpeed: one step of the ramp toward the target tracking speed. */
    method RecalculateTrackingSpeed(dt: real)
      modifies this`trackingSpeed
      ensures trackingSpeed == GetFloatUpdatedToTarget(dt, old(trackingSpeed), trackingTargetSpeed,
        GameFloatUpdate(config.phys.tracking.acceleration, config.phys.tracking.deceleration), SmallNumber)
    {
      var speedUpdate := GameFloatUpdate(config.phys.tracking.acceleration, config.phys.tracking.deceleration);
      trackingSpeed := GetFloatUpdatedToTarget(dt, trackingSpeed, trackingTargetSpeed, speedUpdate, SmallNumber);
    }

    /** SetTrackingSpeed: the target tracking speed, clamped to [0, 50000]. */
    method SetTrackingSpeed(targetSpeed: real)
      modifies this`trackingTargetSpeed
      ensures trackingTargetSpeed == ClampTrackingSpeed(targetSpeed)
      ensures 0.0 <= trackingTargetSpeed <= MaxTrackingSpeed
    {
      trackingTargetSpeed := ClampTrackingSpeed(targetSpeed);
    }

    /**
     * UpdateMoveSpaceVelocity_AndReturnMoveDelta: the Verlet step. The delta moves with
     * the velocity including tracking; only the stored velocity is accelerated.
     */
    method UpdateMoveSpaceVelocity_AndReturnMoveDelta(dt: real, acceleration: Vec3) returns (moveDelta: Vec3)
      modifies this`moveSpaceVelocity
      ensures moveDelta == VerletMoveDelta(dt, WithTrackingSpeed(old(moveSpaceVelocity), trackingSpeed, true), acceleration)
      ensures moveSpaceVelocity == VerletVelocity(dt, old(moveSpaceVelocity), acceleration)
    {
      moveDelta := Add(Scale(dt, GetMoveSpaceVelocity(true)), Scale(0.5 * dt * dt, acceleration));
      moveSpaceVelocity := Add(moveSpaceVelocity, Scale(dt, acceleration));
    }

    /** SetPendingInputVector: the input, clamped to length 1 by the engine. */
    method SetPendingInputVector(input: Vec3)
      modifies this`inputVector
      ensures inputVector == geo.clampedToMaxSize(input, 1.0)
    {
      inputVector := geo.clampedToMaxSize(input, 1.0);
    }

    /** StopMovementImmediately: no velocity, no tracking, and an unfinished attach is abandoned. */
    method StopMovementImmediately()
      requires Valid()
      modifies this`trackingSpeed, this`trackingTargetSpeed, this`moveSpaceVelocity, this`log, attachState`state, attachState`attachingTime
      ensures Valid()
      ensures trackingSpeed == 0.0 && trackingTargetSpeed == 0.0 && moveSpaceVelocity == Zero
      ensures State() == (if old(State()) == Attaching then Detached else old(State()))
      ensures log == old(log) + BroadcastsIf(old(State()) == Attaching, ToDetached, Attaching)
      ensures attachState.attachingTime == old(attachState.attachingTime) || State() == Detached
    {
      trackingSpeed := 0.0;
      trackingTargetSpeed := 0.0;
      moveSpaceVelocity := Zero;
      if State() == Attaching {
        var _ := GotoState_Detached();
      }
    }

    // ------------------------------------------------------------ move space

    /** RecalculateMoveSpace for the given kind of move space. */
    method RecalculateMoveSpace(onOrToSpline: bool, blendToSpline: bool, updated: Option<SceneComponent>)
      requires !blendToSpline || onOrToSpline
      requires !blendToSpline || State() == Attaching
      requires CanCalculateMoveSpace(onOrToSpline, splineComponent, updated)
      modifies this`moveSpace
      ensures moveSpace == RecalculatedMoveSpace(old(moveSpace), onOrToSpline, blendToSpline, splineComponent, updated,
        locationAlongSpline, localToMoveSpace.rotation, attachState.moveSpaceToWorldBeforeAttaching,
        attachState.attachingTime, config.attachRules.attachBlendTime, geo)
    {
      moveSpace := moveSpace.(detachedToTargetTranslation := Zero, blendVelocity := Zero);
      if onOrToSpline {
        var targetSplineToWorld := geo.splineToWorldAt(splineComponent.value, locationAlongSpline);
        if blendToSpline {
          var blendTime := config.attachRules.attachBlendTime;
          var beforeAttaching := attachState.moveSpaceToWorldBeforeAttaching;
          if !IsNearlyZero(blendTime, SmallNumber) {
            moveSpace := moveSpace.(transform := geo.blend(beforeAttaching, targetSplineToWorld, attachState.attachingTime / blendTime));
            moveSpace := moveSpace.(detachedToTargetTranslation := Sub(targetSplineToWorld.translation, beforeAttaching.translation));
            moveSpace := moveSpace.(blendVelocity := Divide(moveSpace.detachedToTargetTranslation, blendTime));
          }
        } else {
          moveSpace := moveSpace.(transform := targetSplineToWorld);
        }
      } else {
        moveSpace := moveSpace.(transform := GetMoveSpaceToWorld_ForFreeMovement(updated.value));
      }
    }

    /** GetMoveSpaceToWorld_ForFreeMovement: the updated component's transform without the local rotation. */
    function GetMoveSpaceToWorld_ForFreeMovement(updated: SceneComponent): Transform
      reads this
    {
      geo.withoutRotation(updated.transform, localToMoveSpace.rotation)
    }

    /** GetMoveSpaceToWorld: the recalculated move space of the current state, or the identity when it cannot be computed. */
    method GetMoveSpaceToWorld(updated: Option<SceneComponent>) returns (t: Transform)
      modifies this`moveSpace
      ensures var onOrToSpline := ShouldMoveFromOrToSpline(State());
        if CanCalculateMoveSpace(onOrToSpline, splineComponent, updated) then
          moveSpace == RecalculatedMoveSpace(old(moveSpace), onOrToSpline, ShouldBlendToSplineWhenMoving(State()), splineComponent, updated,
            locationAlongSpline, localToMoveSpace.rotation, attachState.moveSpaceToWorldBeforeAttaching,
            attachState.attachingTime, config.attachRules.attachBlendTime, geo) &&
          t == moveSpace.transform
        else moveSpace == old(moveSpace) && t == Identity
    {
      var onSpline := ShouldMoveFromOrToSpline(State());
      var withBlend := ShouldBlendToSplineWhenMoving(State());
      if !CanCalculateMoveSpace(onSpline, splineComponent, updated) {
        return Identity;
      }
      RecalculateMoveSpace(onSpline, withBlend, updated);
      t := moveSpace.transform;
    }

    /** SetVelocityInMoveSpace: the move-space velocity, and the world one when the move space can be computed. */
    method SetVelocityInMoveSpace(v: Vec3, trackingAccounted: bool, updated: Option<SceneComponent>)
      modifies this`moveSpaceVelocity, this`moveSpace, this`velocity
      ensures moveSpaceVelocity == WithoutTrackingSpeed(v, trackingSpeed, trackingAccounted)
      ensures var onOrToSpline := ShouldMoveFromOrToSpline(State());
        if CanCalculateMoveSpace(onOrToSpline, splineComponent, updated) then
          moveSpace == RecalculatedMoveSpace(old(moveSpace), onOrToSpline, ShouldBlendToSplineWhenMoving(State()), splineComponent, updated,
            locationAlongSpline, localToMoveSpace.rotation, attachState.moveSpaceToWorldBeforeAttaching,
            attachState.attachingTime, config.attachRules.attachBlendTime, geo) &&
          velocity == geo.transformVector(moveSpace.transform, v)
        else moveSpace == old(moveSpace) && velocity == old(velocity)
    {
      SetOnlyMoveSpaceVelocity(v, trackingAccounted);
      var onSpline := ShouldMoveFromOrToSpline(State());
      var withBlend := ShouldBlendToSplineWhenMoving(State());
      if CanCalculateMoveSpace(onSpline, splineComponent, updated) {
        RecalculateMoveSpace(onSpline, withBlend, updated);
        velocity := geo.transformVector(moveSpace.transform, v);
      }
    }

    /**
     * ResetSplineMoveSpaceAndParamsFromWorldSpace: the move space is the spline's at the
     * location (brought to the updated component first when the world location is kept);
     * then the local offset, the local rotation and the move-space velocity are taken from
     * the world as the flags ask.
     */
    method ResetSplineMoveSpaceAndParamsFromWorldSpace(updated: SceneComponent, flags: ResetFlags)
      requires splineComponent.Some?
      modifies this`locationAlongSpline, this`moveSpace, this`localToMoveSpace, this`moveSpaceVelocity
      ensures locationAlongSpline ==
        if flags.keepLocation then FixedLocationAlongSpline(geo.closestDistance(splineComponent.value, updated.transform.translation), splineComponent)
        else old(locationAlongSpline)
      ensures moveSpace == old(moveSpace).(transform := geo.splineToWorldAt(splineComponent.value, locationAlongSpline))
      ensures localToMoveSpace.translation ==
        if flags.keepLocation then WithoutForwardOffset(old(localToMoveSpace).(translation := geo.subtractTranslations(updated.transform, moveSpace.transform))).translation
        else old(localToMoveSpace).translation
      ensures localToMoveSpace.rotation ==
        if flags.keepRotation then geo.relativeRotation(moveSpace.transform.rotation, updated.transform.rotation)
        else old(localToMoveSpace).rotation
      ensures localToMoveSpace.scale == old(localToMoveSpace).scale
      ensures moveSpaceVelocity ==
        if flags.keepVelocity then WithoutTrackingSpeed(geo.inverseTransformVector(moveSpace.transform, velocity), trackingSpeed, true)
        else old(moveSpaceVelocity)
      // the location stays wrapped and the forward offset zero
      ensures old(LocationWrapped(locationAlongSpline, splineComponent)) ==> LocationWrapped(locationAlongSpline, splineComponent)
      ensures old(localToMoveSpace.translation.x) == 0.0 ==> localToMoveSpace.translation.x == 0.0
    {
      if flags.keepLocation {
        FixLocationAlongSplineFromWorldSpace(updated);
      }
      moveSpace := moveSpace.(transform := geo.splineToWorldAt(splineComponent.value, locationAlongSpline));
      if flags.keepLocation {
        FixLocationFromWorldSpace(updated);
      }
      if flags.keepRotation {
        FixRotationFromWorldSpace(updated);
      }
      if flags.keepVelocity {
        SetOnlyMoveSpaceVelocity_InWorldSpace(velocity, true);
      }
    }

    // ------------------------------------------------------------ attaching and detaching

    /**
     * What GotoState_Attaching(updated) establishes, between the state before it and the
     * state after it. First the reset from the world space, as AttachResetFlags says: the
     * location, the move space at it, the local offset and rotation; the scale and the
     * move-space velocity stay. Then, when attaching instantly, the Attached pair, one
     * unswept move onto the spline and the captured pre-attach space untouched; otherwise
     * the BeginAttaching pair, no move and the free move space captured. Either way the
     * timer is zero.
     */
    twostate predicate AttachingOutcome(updated: SceneComponent)
      reads this, attachState
    {
      var flags := AttachResetFlags(config.attachRules);
      splineComponent.Some? &&
      attachState.attachingTime == 0.0 &&
      // the reset from the world space
      locationAlongSpline ==
        (if flags.keepLocation then FixedLocationAlongSpline(geo.closestDistance(splineComponent.value, updated.transform.translation), splineComponent)
         else old(locationAlongSpline)) &&
      moveSpace == old(moveSpace).(transform := geo.splineToWorldAt(splineComponent.value, locationAlongSpline)) &&
      localToMoveSpace.translation ==
        (if flags.keepLocation then WithoutForwardOffset(old(localToMoveSpace).(translation := geo.subtractTranslations(updated.transform, moveSpace.transform))).translation
         else old(localToMoveSpace).translation) &&
      localToMoveSpace.rotation ==
        (if flags.keepRotation then geo.relativeRotation(moveSpace.transform.rotation, updated.transform.rotation)
         else old(localToMoveSpace).rotation) &&
      localToMoveSpace.scale == old(localToMoveSpace).scale &&
      moveSpaceVelocity == old(moveSpaceVelocity) &&
      // the transition and its broadcasts
      if AttachesInstantly(config.attachRules) then
        State() == Attached && log == old(log) + Broadcasts(ToAttached, old(State())) &&
        moveRequests == old(moveRequests) + [MoveRequestFor(geo, true, localToMoveSpace, moveSpace.transform, Zero, updated, false)] &&
        attachState.moveSpaceToWorldBeforeAttaching == old(attachState.moveSpaceToWorldBeforeAttaching)
      else
        State() == Attaching && log == old(log) + Broadcasts(ToBeginAttaching, old(State())) &&
        moveRequests == old(moveRequests) &&
        attachState.moveSpaceToWorldBeforeAttaching == geo.withoutRotation(updated.transform, localToMoveSpace.rotation)
    }

    /**
     * GotoState_Attaching. Instantly (KeepWorld, or a blend time of exactly zero): the
     * Before event of Attached, the reset from the world, an unswept move onto the spline
     * and GotoState_Attached without a second Before event. Otherwise: the Before and After
     * events of BeginAttaching around the reset and the capture of the free move space.
     */
    method GotoState_Attaching(updated: SceneComponent) returns (ok: bool)
      requires splineComponent.Some?
      requires StateValid() && LogValid()
      modifies this`log, this`moveRequests, this`locationAlongSpline, this`moveSpace, this`localToMoveSpace, this`moveSpaceVelocity, attachState
      ensures ok
      ensures Valid()
      ensures AttachingOutcome(updated)
    {
      var mode := config.attachRules.attachTransformMode;
      var keepWorldLocation := mode == KeepWorld || mode == KeepWorldLocationOnly;
      var keepWorldLocationAndRotation := mode == KeepWorld;
      var attachBlendTime := config.attachRules.attachBlendTime;
      var attachInstantly := keepWorldLocationAndRotation || attachBlendTime == 0.0;

      if attachInstantly {
        log := log + [Before(ToAttached, State())];
      } else {
        log := log + [Before(ToBeginAttaching, State())];
      }
      ResetSplineMoveSpaceAndParamsFromWorldSpace(updated, ResetFlags(keepWorldLocation, keepWorldLocationAndRotation, false));

      if attachInstantly {
        var newTransform := geo.compose(localToMoveSpace, moveSpace.transform);
        var deltaLocation := Sub(newTransform.translation, updated.transform.translation);
        moveRequests := moveRequests + [MoveRequest(deltaLocation, newTransform.rotation, false)];
        assert log[..|log| - 1] == old(log);
        ok := GotoState_Attached(false);
      } else {
        var oldMoveSpaceToWorld := GetMoveSpaceToWorld_ForFreeMovement(updated);
        attachState.SetAttaching(oldMoveSpaceToWorld);
        log := log + [After(ToBeginAttaching)];
        ok := true;
        assert log == old(log) + Broadcasts(ToBeginAttaching, old(State()));
        ReplayAppend(Detached, old(log), ToBeginAttaching, old(State()));
      }
    }

    /**
     * AttachToSpline: succeeds without a change when already on or toward the spline;
     * fails without a change when there is no updated component or no spline; otherwise
     * goes Attaching from Detached.
     */
    method AttachToSpline(updated: Option<SceneComponent>) returns (ok: bool)
      requires Valid()
      modifies this`log, this`moveRequests, this`locationAlongSpline, this`moveSpace, this`localToMoveSpace, this`moveSpaceVelocity, attachState
      ensures Valid()
      ensures old(State()) != Detached ==> ok && unchanged(this) && unchanged(attachState)
      ensures old(State()) == Detached && (updated.None? || splineComponent.None?) ==> !ok && unchanged(this) && unchanged(attachState)
      ensures old(State()) == Detached && updated.Some? && splineComponent.Some? ==>
        ok && AttachingOutcome(updated.value)
    {
      if State() != Detached {
        return true;
      }
      if updated.None? {
        return false;
      }
      if splineComponent.None? {
        return false;
      }
      ok := GotoState_Attaching(updated.value);
    }

    /** DetachFromSpline: succeeds without a change when already Detached, goes Detached otherwise. */
    method DetachFromSpline() returns (ok: bool)
      requires Valid()
      modifies this`log, attachState`state, attachState`attachingTime
      ensures Valid()
      ensures ok && State() == Detached
      ensures log == old(log) + BroadcastsIf(old(State()) != Detached, ToDetached, old(State()))
    {
      if State() == Detached {
        return true;
      }
      ok := GotoState_Detached();
    }

    /** ToggleAttachToSpline: detaches when on or toward the spline, attaches otherwise. */
    method ToggleAttachToSpline(updated: Option<SceneComponent>) returns (ok: bool)
      requires Valid()
      modifies this`log, this`moveRequests, this`locationAlongSpline, this`moveSpace, this`localToMoveSpace, this`moveSpaceVelocity, attachState
      ensures Valid()
      ensures old(State()) != Detached ==> ok && State() == Detached && log == old(log) + Broadcasts(ToDetached, old(State()))
      ensures old(State()) == Detached ==> (ok <==> updated.Some? && splineComponent.Some?) && (ok <==> State() != Detached)
      ensures old(State()) == Detached && (updated.None? || splineComponent.None?) ==> unchanged(this) && unchanged(attachState)
      ensures old(State()) == Detached && updated.Some? && splineComponent.Some? ==>
        AttachingOutcome(updated.value)
    {
      if State() != Detached {
        ok := DetachFromSpline();
      } else {
        ok := AttachToSpline(updated);
      }
    }

    // ------------------------------------------------------------ spline provider

    /** ReLinkToSpline: the configured provider, the spline found on it, and the location wrapped for that spline. */
    method ReLinkToSpline()
      requires State() == Detached
      modifies this`splineProvider, this`splineComponent, this`locationAlongSpline
      ensures splineProvider == config.splineProvider
      ensures splineComponent == SplineOf(config.splineProvider)
      ensures locationAlongSpline == FixedLocationAlongSpline(old(locationAlongSpline), splineComponent)
      ensures LocationWrapped(locationAlongSpline, splineComponent)
    {
      splineProvider := config.splineProvider;
      if splineProvider.None? {
        splineComponent := None;
      } else {
        splineComponent := splineProvider.value.splineComponent;
      }
      FixedLocationIsWrapped(locationAlongSpline, splineComponent);
      if splineComponent.Some? {
        FixLocationAlongSpline();
      }
    }

    /**
     * UpdateSplineProvider: when the configured provider is another actor than the linked one, or
     * there is no spline, the movement is detached and relinked; otherwise nothing changes.
     */
    method UpdateSplineProvider()
      requires Valid()
      modifies this`log, attachState`state, attachState`attachingTime, this`splineProvider, this`splineComponent, this`locationAlongSpline
      ensures Valid()
      ensures var relink := ActorId(old(splineProvider)) != ActorId(config.splineProvider) || old(splineComponent).None?;
        (relink ==>
          State() == Detached && splineProvider == config.splineProvider && splineComponent == SplineOf(config.splineProvider) &&
          locationAlongSpline == FixedLocationAlongSpline(old(locationAlongSpline), splineComponent) &&
          log == old(log) + BroadcastsIf(old(State()) != Detached, ToDetached, old(State()))) &&
        (!relink ==> unchanged(this) && unchanged(attachState))
    {
      var shouldRelink := false;
      if ActorId(splineProvider) != ActorId(config.splineProvider) {
        shouldRelink := true;
      }
      if splineComponent.None? {
        shouldRelink := true;
      }
      if shouldRelink {
        if State() != Detached {
          var _ := GotoState_Detached();
        }
        ReLinkToSpline();
      }
    }

    /** UpdateFromConfig */
    method UpdateFromConfig()
      requires Valid()
      modifies this`log, attachState`state, attachState`attachingTime, this`splineProvider, this`splineComponent, this`locationAlongSpline
      ensures Valid()
      ensures var relink := ActorId(old(splineProvider)) != ActorId(config.splineProvider) || old(splineComponent).None?;
        (relink ==>
          State() == Detached && splineProvider == config.splineProvider && splineComponent == SplineOf(config.splineProvider) &&
          locationAlongSpline == FixedLocationAlongSpline(old(locationAlongSpline), splineComponent) &&
          log == old(log) + BroadcastsIf(old(State()) != Detached, ToDetached, old(State()))) &&
        (!relink ==> unchanged(this) && unchanged(attachState))
    {
      UpdateSplineProvider();
    }

    // ------------------------------------------------------------ lifecycle

    /**
     * MovementComponentPostInitProperties: the tracking speed and its target start at the
     * configured initial speed, the offset and location are reset and the provider is updated.
     */
    method MovementComponentPostInitProperties()
      requires Valid()
      modifies this`trackingSpeed, this`trackingTargetSpeed, this`localToMoveSpace, this`locationAlongSpline,
        this`log, attachState`state, attachState`attachingTime, this`splineProvider, this`splineComponent
      ensures Valid()
      ensures trackingSpeed == config.phys.tracking.initialSpeed && trackingTargetSpeed == trackingSpeed
      ensures localToMoveSpace == WithoutForwardOffset(config.attachRules.initialLocalToMoveSpace)
      ensures var reset := FixedLocationAlongSpline(config.attachRules.initialLocalToMoveSpace.translation.x, old(splineComponent));
        var relink := ActorId(old(splineProvider)) != ActorId(config.splineProvider) || old(splineComponent).None?;
        (relink ==>
          State() == Detached && splineProvider == config.splineProvider && splineComponent == SplineOf(config.splineProvider) &&
          locationAlongSpline == FixedLocationAlongSpline(reset, splineComponent) &&
          log == old(log) + BroadcastsIf(old(State()) != Detached, ToDetached, old(State()))) &&
        (!relink ==>
          State() == old(State()) && splineProvider == old(splineProvider) && splineComponent == old(splineComponent) &&
          locationAlongSpline == reset && log == old(log))
    {
      trackingSpeed := config.phys.tracking.initialSpeed;
      trackingTargetSpeed := trackingSpeed;
      ResetToInitialTransformAndLocation();
      UpdateFromConfig();
    }

    /** MyBeginPlay: attaches when the rules ask for it. */
    method MyBeginPlay(updated: Option<SceneComponent>)
      requires Valid()
      modifies this`log, this`moveRequests, this`locationAlongSpline, this`moveSpace, this`localToMoveSpace, this`moveSpaceVelocity, attachState
      ensures Valid()
      ensures !config.attachRules.autoAttach ==> unchanged(this) && unchanged(attachState)
      ensures config.attachRules.autoAttach && (old(State()) != Detached || updated.None? || splineComponent.None?) ==>
        unchanged(this) && unchanged(attachState)
      ensures config.attachRules.autoAttach && old(State()) == Detached && updated.Some? && splineComponent.Some? ==>
        AttachingOutcome(updated.value)
    {
      if config.attachRules.autoAttach {
        var _ := AttachToSpline(updated);
      }
    }

    // ------------------------------------------------------------ tick

    /**
     * TickBeforeSuper_ReturnShouldSkipUpdate. A provider that is not set or no longer
     * alive unlinks the spline; without a spline, without an updated component or with a
     * primitive that simulates physics the movement is detached and the tick skipped; an
     * inactive component, a world that is not a game world, or the movement component's
     * own ShouldSkipUpdate also skip it.
     */
    method TickBeforeSuper_ReturnShouldSkipUpdate(updated: Option<SceneComponent>, env: TickEnvironment) returns (shouldSkip: bool)
      requires Valid()
      modifies this`splineComponent, this`log, attachState`state, attachState`attachingTime
      ensures Valid()
      ensures splineComponent == if config.splineProvider.Some? && env.providerAlive then old(splineComponent) else None
      ensures var shouldBeDetached := splineComponent.None? || updated.None? || updated.value.simulatingPhysics;
        State() == (if shouldBeDetached then Detached else old(State())) &&
        log == old(log) + BroadcastsIf(shouldBeDetached && old(State()) != Detached, ToDetached, old(State())) &&
        (shouldSkip <==> !env.isActive || !env.isGameWorld || shouldBeDetached || env.componentSkipsUpdate)
    {
      shouldSkip := false;
      if !env.isActive {
        shouldSkip := true;
      }
      if !env.isGameWorld {
        shouldSkip := true;
      }
      if !(config.splineProvider.Some? && env.providerAlive) {
        if splineComponent.Some? {
          splineComponent := None;
        }
      }
      var shouldBeDetached := false;
      if splineComponent.None? {
        shouldBeDetached := true;
        shouldSkip := true;
      }
      if updated.None? {
        shouldBeDetached := true;
        shouldSkip := true;
      }
      if updated.Some? && updated.value.simulatingPhysics {
        shouldBeDetached := true;
        shouldSkip := true;
      }
      if State() != Detached && shouldBeDetached {
        var _ := GotoState_Detached();
      }
      if env.componentSkipsUpdate {
        shouldSkip := true;
      }
    }

    /** FinalizeTick: the pending input is consumed. */
    method FinalizeTick()
      modifies this`inputVector
      ensures inputVector == Zero
    {
      inputVector := Zero;
    }

    /** The start of MoveTick: the attaching timer, and Attached once it reaches the blend time. */
    method AdvanceAttachingTime(dt: real)
      requires Valid()
      modifies this`log, attachState`state, attachState`attachingTime
      ensures Valid()
      ensures (State(), attachState.attachingTime) ==
        AttachingTimerStep(old(State()), old(attachState.attachingTime), dt, config.attachRules.attachBlendTime)
      ensures log == old(log) + BroadcastsIf(old(State()) == Attaching && State() == Attached, ToAttached, Attaching)
    {
      if State() == Attaching {
        attachState.attachingTime := attachState.attachingTime + dt;
        if attachState.attachingTime >= config.attachRules.attachBlendTime {
          var _ := GotoState_Attached(true);
        }
      }
    }

    /** MoveTick's bookkeeping on or toward the spline: the move delta folded into the offset and the location. */
    method ApplyMoveDeltaAlongSpline(moveDelta: Vec3, blendToSpline: bool)
      modifies this`localToMoveSpace, this`locationAlongSpline
      ensures (locationAlongSpline, localToMoveSpace) ==
        FoldMoveDelta(old(locationAlongSpline), old(localToMoveSpace), moveDelta, blendToSpline, splineComponent)
      ensures old(LocationWrapped(locationAlongSpline, splineComponent)) ==> LocationWrapped(locationAlongSpline, splineComponent)
      ensures localToMoveSpace.translation.x == 0.0
    {
      localToMoveSpace := AddToTranslation(localToMoveSpace, moveDelta);
      if !blendToSpline {
        locationAlongSpline := locationAlongSpline + localToMoveSpace.translation.x;
        FixLocationAlongSpline();
      }
      FixLocalToMoveSpace();
    }

    /**
     * The end of MoveTick after a blocking hit: detach when the state asks for it and the
     * movement is not free; when still Attached, take the location and the velocity from
     * the world again.
     */
    method HandleBlockingHit(updated: SceneComponent, detachOnBlockingHit: bool)
      requires Valid()
      modifies this`log, attachState`state, attachState`attachingTime,
        this`locationAlongSpline, this`moveSpace, this`localToMoveSpace, this`moveSpaceVelocity
      ensures Valid()
      ensures var detach := detachOnBlockingHit && old(State()) != Detached;
        State() == (if detach then Detached else old(State())) &&
        log == old(log) + BroadcastsIf(detach, ToDetached, old(State()))
      ensures State() == Attached ==>
        locationAlongSpline == FixedLocationAlongSpline(geo.closestDistance(splineComponent.value, updated.transform.translation), splineComponent) &&
        moveSpace == old(moveSpace).(transform := geo.splineToWorldAt(splineComponent.value, locationAlongSpline)) &&
        localToMoveSpace == WithoutForwardOffset(old(localToMoveSpace).(translation := geo.subtractTranslations(updated.transform, moveSpace.transform))) &&
        moveSpaceVelocity == WithoutTrackingSpeed(geo.inverseTransformVector(moveSpace.transform, velocity), trackingSpeed, true)
      ensures State() != Attached ==>
        locationAlongSpline == old(locationAlongSpline) && moveSpace == old(moveSpace) &&
        localToMoveSpace == old(localToMoveSpace) && moveSpaceVelocity == old(moveSpaceVelocity)
    {
      if detachOnBlockingHit {
        if State() != Detached {
          var _ := GotoState_Detached();
        }
      }
      if State() == Attached {
        ResetSplineMoveSpaceAndParamsFromWorldSpace(updated, ResetFlags(true, false, true));
      }
    }

    /**
     * The first half of the integration: the move space is recalculated for the state,
     * the tracking speed ramps, and the acceleration of the input in the move space (none
     * without control) drives the Verlet step.
     */
    method IntegrateVelocity(dt: real, updated: SceneComponent)
      returns (ghost recalculated: MoveSpace, ghost acceleration: Vec3, moveDelta: Vec3)
      requires Valid()
      modifies this`moveSpace, this`moveSpaceVelocity, this`trackingSpeed
      ensures Valid()
      ensures recalculated == RecalculatedMoveSpace(old(moveSpace), ShouldMoveFromOrToSpline(State()), ShouldBlendToSplineWhenMoving(State()),
          splineComponent, Some(updated), locationAlongSpline, localToMoveSpace.rotation,
          attachState.moveSpaceToWorldBeforeAttaching, attachState.attachingTime, config.attachRules.attachBlendTime, geo)
      ensures acceleration == CalculateMoveSpaceAcceleration(
          if StateFlags(State(), config.attachRules).allowMoveControl then geo.inverseTransformVector(recalculated.transform, inputVector) else Zero,
          old(moveSpaceVelocity), config.phys)
      ensures trackingSpeed == GetFloatUpdatedToTarget(dt, old(trackingSpeed), trackingTargetSpeed,
        GameFloatUpdate(config.phys.tracking.acceleration, config.phys.tracking.deceleration), SmallNumber)
      ensures moveDelta == VerletMoveDelta(dt, WithTrackingSpeed(old(moveSpaceVelocity), trackingSpeed, true), acceleration)
      ensures moveSpace == recalculated
      ensures moveSpaceVelocity == VerletVelocity(dt, old(moveSpaceVelocity), acceleration)
    {
      var flags := StateFlags(State(), config.attachRules);
      RecalculateMoveSpace(ShouldMoveFromOrToSpline(State()), ShouldBlendToSplineWhenMoving(State()), Some(updated));
      recalculated := moveSpace;

      var moveSpaceInput := if flags.allowMoveControl then geo.inverseTransformVector(moveSpace.transform, inputVector) else Zero;
      var moveSpaceAcceleration := CalculateMoveSpaceAcceleration(moveSpaceInput, moveSpaceVelocity, config.phys);
      acceleration := moveSpaceAcceleration;
      RecalculateTrackingSpeed(dt);

      moveDelta := UpdateMoveSpaceVelocity_AndReturnMoveDelta(dt, moveSpaceAcceleration);
    }

    /**
     * The second half of the integration: on or toward the spline the move delta is
     * folded into the offset and the location; the world velocity and one move request follow.
     */
    method PlaceMove(dt: real, updated: SceneComponent, moveDelta: Vec3) returns (ghost request: MoveRequest)
      requires Valid()
      modifies this`localToMoveSpace, this`locationAlongSpline, this`velocity, this`moveRequests
      ensures Valid()
      ensures (locationAlongSpline, localToMoveSpace) ==
          (if ShouldMoveFromOrToSpline(State())
           then FoldMoveDelta(old(locationAlongSpline), old(localToMoveSpace), moveDelta, ShouldBlendToSplineWhenMoving(State()), splineComponent)
           else (old(locationAlongSpline), old(localToMoveSpace)))
      ensures velocity == Add(geo.transformVector(moveSpace.transform, GetMoveSpaceVelocity(true)), Scale(dt, moveSpace.blendVelocity))
      ensures request == MoveRequestFor(geo, ShouldMoveFromOrToSpline(State()), localToMoveSpace, moveSpace.transform, moveDelta, updated,
        StateFlags(State(), config.attachRules).sweep)
      ensures moveRequests == old(moveRequests) + [request]
    {
      var moveOnOrToSpline := ShouldMoveFromOrToSpline(State());
      if moveOnOrToSpline {
        ApplyMoveDeltaAlongSpline(moveDelta, ShouldBlendToSplineWhenMoving(State()));
      }

      var move := MoveRequestFor(geo, moveOnOrToSpline, localToMoveSpace, moveSpace.transform, moveDelta, updated,
        StateFlags(State(), config.attachRules).sweep);
      request := move;

      velocity := geo.transformVector(moveSpace.transform, GetMoveSpaceVelocity(true));
      velocity := Add(velocity, Scale(dt, moveSpace.blendVelocity));

      moveRequests := moveRequests + [move];
    }

    /**
     * MoveTick: the attaching timer, then the integration in the state it leaves, then the
     * engine's answer `outcome` to the move request; after a blocking hit the movement may
     * detach or be re-seated on the spline.
     */
    method MoveTick(dt: real, updated: SceneComponent, outcome: MoveOutcome)
      returns (ghost recalculated: MoveSpace, ghost acceleration: Vec3, moveDelta: Vec3, ghost request: MoveRequest)
      requires Valid()
      modifies this`log, attachState`state, attachState`attachingTime, this`moveSpace, this`moveSpaceVelocity,
        this`trackingSpeed, this`localToMoveSpace, this`locationAlongSpline, this`velocity, this`moveRequests
      ensures Valid()
      // the state machine: the timer, then at most one detach on a blocking hit
      ensures var step := AttachingTimerStep(old(State()), old(attachState.attachingTime), dt, config.attachRules.attachBlendTime);
        var detach := outcome.blockingHit && StateFlags(step.0, config.attachRules).detachOnBlockingHit && step.0 != Detached;
        State() == (if detach then Detached else step.0) &&
        attachState.attachingTime == (if detach then 0.0 else step.1) &&
        log == old(log) + BroadcastsIf(old(State()) == Attaching && step.0 == Attached, ToAttached, Attaching)
                        + BroadcastsIf(detach, ToDetached, step.0)
      // the move space of the state the timer left, and the integration in it
      ensures var step := AttachingTimerStep(old(State()), old(attachState.attachingTime), dt, config.attachRules.attachBlendTime);
        recalculated == RecalculatedMoveSpace(old(moveSpace), ShouldMoveFromOrToSpline(step.0), ShouldBlendToSplineWhenMoving(step.0),
          splineComponent, Some(updated), old(locationAlongSpline), old(localToMoveSpace).rotation,
          attachState.moveSpaceToWorldBeforeAttaching, step.1, config.attachRules.attachBlendTime, geo) &&
        acceleration == CalculateMoveSpaceAcceleration(
          if StateFlags(step.0, config.attachRules).allowMoveControl then geo.inverseTransformVector(recalculated.transform, old(inputVector)) else Zero,
          old(moveSpaceVelocity), config.phys)
      ensures trackingSpeed == GetFloatUpdatedToTarget(dt, old(trackingSpeed), trackingTargetSpeed,
        GameFloatUpdate(config.phys.tracking.acceleration, config.phys.tracking.deceleration), SmallNumber)
      ensures moveDelta == VerletMoveDelta(dt, WithTrackingSpeed(old(moveSpaceVelocity), trackingSpeed, true), acceleration)
      ensures velocity == Add(geo.transformVector(recalculated.transform,
          WithTrackingSpeed(VerletVelocity(dt, old(moveSpaceVelocity), acceleration), trackingSpeed, true)),
        Scale(dt, recalculated.blendVelocity))
      ensures moveRequests == old(moveRequests) + [request]
      // the move delta folded into the location and the offset, and the request built from them
      ensures var step := AttachingTimerStep(old(State()), old(attachState.attachingTime), dt, config.attachRules.attachBlendTime);
        var folded := if ShouldMoveFromOrToSpline(step.0)
          then FoldMoveDelta(old(locationAlongSpline), old(localToMoveSpace), moveDelta, ShouldBlendToSplineWhenMoving(step.0), splineComponent)
          else (old(locationAlongSpline), old(localToMoveSpace));
        request == MoveRequestFor(geo, ShouldMoveFromOrToSpline(step.0), folded.1, recalculated.transform, moveDelta, updated,
          StateFlags(step.0, config.attachRules).sweep) &&
        (!(outcome.blockingHit && State() == Attached) ==> (locationAlongSpline, localToMoveSpace) == folded) &&
        // a hit that leaves the movement Attached re-seats it on the spline from where the engine left the component
        (outcome.blockingHit && State() == Attached ==>
          locationAlongSpline == FixedLocationAlongSpline(geo.closestDistance(splineComponent.value, outcome.transform.translation), splineComponent) &&
          moveSpace == recalculated.(transform := geo.splineToWorldAt(splineComponent.value, locationAlongSpline)) &&
          localToMoveSpace == WithoutForwardOffset(folded.1.(translation := geo.subtractTranslations(outcome.transform, moveSpace.transform))) &&
          moveSpaceVelocity == WithoutTrackingSpeed(geo.inverseTransformVector(moveSpace.transform, velocity), trackingSpeed, true))
      // without a re-seat after a hit, the new state is the integration's
      ensures !(outcome.blockingHit && State() == Attached) ==>
        moveSpace == recalculated &&
        moveSpaceVelocity == VerletVelocity(dt, old(moveSpaceVelocity), acceleration)
    {
      ghost var s0 := State();
      ghost var t0 := attachState.attachingTime;
      ghost var log0 := log;
      AdvanceAttachingTime(dt);
      ghost var s1 := State();
      ghost var log1 := log;
      var flags := StateFlags(State(), config.attachRules);
      recalculated, acceleration, moveDelta := IntegrateVelocity(dt, updated);
      request := PlaceMove(dt, updated, moveDelta);
      assert State() == s1 && log == log1;
      if outcome.blockingHit {
        HandleBlockingHit(SceneComponent(outcome.transform, updated.simulatingPhysics), flags.detachOnBlockingHit);
      }
    }

    /**
     * OnComponentTeleported: an unfinished attach is abandoned; when Attached, the location
     * and rotation are taken from the world again and the world velocity recomputed.
     */
    method OnComponentTeleported(updated: SceneComponent)
      requires Valid()
      modifies this`log, attachState`state, attachState`attachingTime,
        this`locationAlongSpline, this`moveSpace, this`localToMoveSpace, this`moveSpaceVelocity, this`velocity
      ensures Valid()
      ensures State() == (if old(State()) == Attaching then Detached else old(State()))
      ensures log == old(log) + BroadcastsIf(old(State()) == Attaching, ToDetached, Attaching)
      ensures old(State()) == Attached ==>
        locationAlongSpline == FixedLocationAlongSpline(geo.closestDistance(splineComponent.value, updated.transform.translation), splineComponent) &&
        moveSpace == old(moveSpace).(transform := geo.splineToWorldAt(splineComponent.value, locationAlongSpline)) &&
        localToMoveSpace == WithoutForwardOffset(old(localToMoveSpace).(translation := geo.subtractTranslations(updated.transform, moveSpace.transform),
          rotation := geo.relativeRotation(moveSpace.transform.rotation, updated.transform.rotation))) &&
        moveSpaceVelocity == old(moveSpaceVelocity) &&
        velocity == geo.inverseTransformVector(moveSpace.transform, GetMoveSpaceVelocity(true))
      ensures old(State()) != Attached ==>
        locationAlongSpline == old(locationAlongSpline) && moveSpace == old(moveSpace) &&
        localToMoveSpace == old(localToMoveSpace) && moveSpaceVelocity == old(moveSpaceVelocity) && velocity == old(velocity)
    {
      if State() == Attaching {
        var _ := GotoState_Detached();
      }
      if State() == Attached {
        ResetSplineMoveSpaceAndParamsFromWorldSpace(updated, ResetFlags(true, true, false));
        velocity := geo.inverseTransformVector(moveSpace.transform, GetMoveSpaceVelocity(true));
      }
    }

    /** GetComponentGravityZ */
    function GetComponentGravityZ(gravityZ: real): real
      reads attachState
    {
      ComponentGravityZ(State(), gravityZ)
    }
  }
}
