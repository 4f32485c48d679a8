/**
 * Whole-component runs as a pawn drives them: post-init, begin play, pre-tick checks and
 * move ticks, with the resulting state and the broadcasts in order.
 */
module SplineMovementScenarios {
  import opened Wrappers
  import opened EngineTypes
  import opened SplineMovementTypes
  import opened SplineMovementConfig
  import opened SplineMovementMath
  import opened SplineMovementImpl

  /** A spline of length 1000 provided by actor 1. */
  const Track: Spline := Spline(7, 1000.0)

  function TestRules(mode: AttachTransformMode, blendTime: real, detachOnBlockingHit: bool): AttachRules
  {
    AttachRules(true, mode, blendTime, true, true, detachOnBlockingHit, Identity)
  }

  function TestConfig(rules: AttachRules): Config
  {
    Config(Some(Actor(1, Some(Track))), rules, PhysConfig(Vec3(1200.0, 600.0, 600.0), Vec3(900.0, 900.0, 900.0), Vec3(1500.0, 1500.0, 1500.0),
      TrackingConfig(100.0, 200.0, 0.0)))
  }

  /** A freshly created, initialised component: linked to the provider's spline, Detached, nothing broadcast. */
  method NewInitialised(rules: AttachRules, geo: Geometry) returns (c: SplineMovementComponentImpl)
    ensures fresh(c) && fresh(c.attachState)
    ensures c.Valid()
    ensures c.config == TestConfig(rules)
    ensures c.State() == Detached && c.splineComponent == Some(Track) && c.log == [] && c.moveRequests == []
  {
    c := new SplineMovementComponentImpl(TestConfig(rules), geo);
    c.MovementComponentPostInitProperties();
  }

  /** Auto-attach with a zero blend time: Attached at begin play, with no BeginAttaching broadcasts. */
  method AutoAttachInstantly(geo: Geometry, updated: SceneComponent) returns (c: SplineMovementComponentImpl)
    ensures fresh(c) && fresh(c.attachState)
    ensures c.Valid()
    ensures c.State() == Attached
    ensures c.log == [Before(ToAttached, Detached), After(ToAttached)]
    ensures |c.moveRequests| == 1 && !c.moveRequests[0].sweep
  {
    c := NewInitialised(TestRules(KeepLocalOffset, 0.0, false), geo);
    c.MyBeginPlay(Some(updated));
  }

  /**
   * Auto-attach with a blend of one second, then two half-second ticks: Attaching after
   * begin play, Attached from the second tick on, and each transition broadcast once.
   */
  method BlendedAttach(geo: Geometry, updated: SceneComponent, free: MoveOutcome) returns (c: SplineMovementComponentImpl)
    requires !free.blockingHit
    ensures fresh(c)
    ensures c.Valid()
    ensures c.State() == Attached && c.attachState.attachingTime == 0.0
    ensures c.log == [Before(ToBeginAttaching, Detached), After(ToBeginAttaching), Before(ToAttached, Attaching), After(ToAttached)]
    ensures |c.moveRequests| == 2
  {
    c := NewInitialised(TestRules(KeepWorldLocationOnly, 1.0, false), geo);
    c.MyBeginPlay(Some(updated));
    assert c.State() == Attaching && c.attachState.attachingTime == 0.0;
    var _, _, _, _ := c.MoveTick(0.5, updated, free);
    assert c.State() == Attaching && c.attachState.attachingTime == 0.5;
    var _, _, _, _ := c.MoveTick(0.5, updated, free);
  }

  /** While Attaching, a blocking hit always detaches, whatever the rule for Attached says. */
  method HitWhileAttachingDetaches(geo: Geometry, updated: SceneComponent, hit: MoveOutcome) returns (c: SplineMovementComponentImpl)
    requires hit.blockingHit
    ensures fresh(c)
    ensures c.Valid()
    ensures c.State() == Detached
    ensures c.log == [Before(ToBeginAttaching, Detached), After(ToBeginAttaching), Before(ToDetached, Attaching), After(ToDetached)]
  {
    c := NewInitialised(TestRules(KeepWorldLocationOnly, 1.0, false), geo);
    c.MyBeginPlay(Some(updated));
    var _, _, _, _ := c.MoveTick(0.25, updated, hit);
  }

  /** Losing the provider detaches on the next pre-tick check, which skips the tick. */
  method ProviderLostDetaches(geo: Geometry, updated: SceneComponent) returns (c: SplineMovementComponentImpl, skipped: bool)
    ensures fresh(c)
    ensures c.Valid()
    ensures skipped && c.State() == Detached && c.splineComponent == None
    ensures c.log == [Before(ToAttached, Detached), After(ToAttached), Before(ToDetached, Attached), After(ToDetached)]
  {
    c := AutoAttachInstantly(geo, updated);
    skipped := c.TickBeforeSuper_ReturnShouldSkipUpdate(Some(updated), TickEnvironment(true, true, false, false));
  }
}
