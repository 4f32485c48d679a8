/**
 * The configuration the movement component reads (FSplineMovementConfig as the
 * component uses it): the spline provider, the attach rules and the physics settings.
 */
module SplineMovementConfig {
  import opened Wrappers
  import opened EngineTypes

  /**
   * ESplineMovementAttachTransformMode. KeepWorld and KeepWorldLocationOnly are the
   * enumerators the component tests; KeepLocalOffset stands for every other one.
   */
  datatype AttachTransformMode = KeepWorld | KeepWorldLocationOnly | KeepLocalOffset

  datatype AttachRules = AttachRules(
    autoAttach: bool,
    attachTransformMode: AttachTransformMode,
    /** seconds the Attaching blend lasts */
    attachBlendTime: real,
    /** sweep while Attaching */
    attachSweep: bool,
    /** input is applied while Attaching */
    allowAttachingControl: bool,
    /** leave the spline when a move hits something blocking while Attached */
    detachOnBlockingHit: bool,
    initialLocalToMoveSpace: Transform
  )

  datatype TrackingConfig = TrackingConfig(acceleration: real, deceleration: real, initialSpeed: real)

  /** Per-axis limits (X forward, Y strafe, Z lift) and the tracking settings. */
  datatype PhysConfig = PhysConfig(
    maxSpeed: Vec3,
    acceleration: Vec3,
    deceleration: Vec3,
    tracking: TrackingConfig
  )

  datatype Config = Config(splineProvider: Option<Actor>, attachRules: AttachRules, phys: PhysConfig)
}
