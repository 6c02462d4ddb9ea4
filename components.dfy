/**
 * The ECS world the bullet systems run over, as plain records: one `Entity`
 * per engine entity, holding the components the systems query (a missing
 * component is `None`). A query becomes a walk over a sequence or array of
 * these records, and despawning becomes removal from the sequence.
 */
module Components {
  import opened Wrappers
  import opened Geometry

  type EntityId = nat

  /** The `Bullet` component. */
  datatype Bullet = Bullet(position: Vec2, rotation: real, speed: real, angularVelocity: real)

  /** The `Transform` component; its quaternion is always a rotation about z,
      kept here as that angle. Scale is not modelled. */
  datatype Transform = Transform(translation: Vec3, zRotation: real)

  const IDENTITY: Transform := Transform(Vec3(0.0, 0.0, 0.0), 0.0)

  /** Modifier components. */
  datatype AngularVelocity = AngularVelocity(amount: real)
  datatype Acceleration = Acceleration(amount: real)
  datatype Delayed<T> = Delayed(wait: real, component: T)

  datatype Entity = Entity(
    id: EntityId,
    player: bool,
    transform: Option<Transform>,
    bullet: Option<Bullet>,
    angularVelocity: Option<AngularVelocity>,
    acceleration: Option<Acceleration>,
    delayed: Option<Delayed<AngularVelocity>>)

  /** Every entity id occurs once. */
  ghost predicate UniqueIds(world: seq<Entity>)
  {
    forall a, b :: 0 <= a < |world| && 0 <= b < |world| && world[a].id == world[b].id ==> a == b
  }

  /** The time that passes over a run of frames with the given `delta_seconds`. */
  function Elapsed(dts: seq<real>): real
    decreases |dts|
  {
    if dts == [] then 0.0 else Elapsed(dts[..|dts| - 1]) + dts[|dts| - 1]
  }
}
