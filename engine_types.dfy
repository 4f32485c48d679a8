/**
 * The engine-side values the movement component reads and writes: vectors,
 * rotations and transforms, the spline it follows, the actor that provides the
 * spline, and the scene component it moves. Transform and rotation arithmetic
 * is the engine's and is not modelled: every such operation is a field of the
 * `Geometry` record, a function the caller supplies, so that every property
 * proved holds whatever the engine computes.
 */
module EngineTypes {
  import opened Wrappers

  /** FVector: X is forward (along the spline), Y is strafe, Z is lift. */
  datatype Vec3 = Vec3(x: real, y: real, z: real)

  const Zero: Vec3 := Vec3(0.0, 0.0, 0.0)

  function Add(a: Vec3, b: Vec3): Vec3 { Vec3(a.x + b.x, a.y + b.y, a.z + b.z) }

  function Sub(a: Vec3, b: Vec3): Vec3 { Vec3(a.x - b.x, a.y - b.y, a.z - b.z) }

  function Scale(k: real, v: Vec3): Vec3 { Vec3(k * v.x, k * v.y, k * v.z) }

  /** FVector / float, component by component. */
  function Divide(v: Vec3, k: real): Vec3
    requires k != 0.0
  {
    Vec3(v.x / k, v.y / k, v.z / k)
  }

  /** FQuat: its components are carried, never interpreted. */
  datatype Quat = Quat(x: real, y: real, z: real, w: real)

  const IdentityQuat: Quat := Quat(0.0, 0.0, 0.0, 1.0)

  /** FTransform: rotation, translation and scale. */
  datatype Transform = Transform(rotation: Quat, translation: Vec3, scale: Vec3)

  const Identity: Transform := Transform(IdentityQuat, Zero, Vec3(1.0, 1.0, 1.0))

  /** FTransform::AddToTranslation */
  function AddToTranslation(t: Transform, delta: Vec3): Transform
  {
    t.(translation := Add(t.translation, delta))
  }

  /** A spline component: an identity and its total arc length (GetSplineLength). */
  datatype Spline = Spline(id: nat, length: real)

  /** The actor that provides the spline; `splineComponent` is what FindComponentByClass finds on it. */
  datatype Actor = Actor(id: nat, splineComponent: Option<Spline>)

  /** The identity of a provider pointer: what `==` on two actor pointers compares. */
  function ActorId(a: Option<Actor>): (r: Option<nat>)
    ensures r.None? <==> a.None?
    ensures a.Some? ==> r == Some(a.value.id)
  {
    if a.None? then None else Some(a.value.id)
  }

  /**
   * The updated component: its world transform and whether it is a primitive that
   * simulates physics (false for a component that is not a primitive).
   */
  datatype SceneComponent = SceneComponent(transform: Transform, simulatingPhysics: bool)

  /** A request to the engine to move the updated component (MoveUpdatedComponent, SafeMoveUpdatedComponent). */
  datatype MoveRequest = MoveRequest(deltaLocation: Vec3, newRotation: Quat, sweep: bool)

  /**
   * What the engine reports after SafeMoveUpdatedComponent together with HandleImpact and
   * SlideAlongSurface: where the updated component ended and whether the move hit something blocking.
   */
  datatype MoveOutcome = MoveOutcome(transform: Transform, blockingHit: bool)

  /** The engine's transform, rotation and spline arithmetic, supplied by the caller. */
  datatype Geometry = Geometry(
    /** USplineComponent::GetTransformAtDistanceAlongSpline in world space */
    splineToWorldAt: (Spline, real) -> Transform,
    /** UMySplineUtil::GetDistanceAlongSplineClosestToPoint */
    closestDistance: (Spline, Vec3) -> real,
    /** A * B: the transform of A's frame, given relative to B, in B's parent space */
    compose: (Transform, Transform) -> Transform,
    /** FTransform::Blend(A, B, Alpha) */
    blend: (Transform, Transform, real) -> Transform,
    /** FTransform::InverseTransformVectorNoScale */
    inverseTransformVector: (Transform, Vec3) -> Vec3,
    /** FTransform::TransformVectorNoScale */
    transformVector: (Transform, Vec3) -> Vec3,
    /** FTransform::TransformRotation */
    transformRotation: (Transform, Quat) -> Quat,
    /** T * Q.Inverse(): the transform with a local rotation removed */
    withoutRotation: (Transform, Quat) -> Transform,
    /** A.Inverse() * B */
    relativeRotation: (Quat, Quat) -> Quat,
    /** FTransform::SubtractTranslations(A, B) */
    subtractTranslations: (Transform, Transform) -> Vec3,
    /** FVector::GetClampedToMaxSize */
    clampedToMaxSize: (Vec3, real) -> Vec3
  )
}
