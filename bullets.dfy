/**
 * The bullet systems of `src/bullet/mod.rs`: spawning a radial burst,
 * moving bullets, copying them into their transforms, and despawning those
 * that touch a player.
 */
module Bullets {
  import opened Wrappers
  import opened Geometry
  import opened Components

  // ---------------------------------------------------------------------------
  // Spawning

  /** `radial_bullets`: a bullet at the origin heading `percent` of a full turn. */
  function RadialBullet(percent: real): (b: Bullet)
    ensures b.rotation == percent * 2.0 * PI
    ensures b.position == ZERO2 && b.speed == 0.2 && b.angularVelocity == 0.0
  {
    Bullet(ZERO2, percent * 2.0 * PI, 0.2, 0.0)
  }

  /** How many bullets one press of E spawns. */
  const SPAWN_COUNT: nat := 10

  /**
   * `spawn_bullets`: nothing unless E was just pressed; otherwise a batch of
   * `SPAWN_COUNT` sprites, the `i`-th a radial bullet at `i / SPAWN_COUNT` of a
   * turn carrying an angular velocity of 0.5. The engine picks entity ids; here
   * the batch takes `firstId`, `firstId + 1`, ...
   */
  function SpawnBullets(justPressedE: bool, firstId: EntityId): (spawned: seq<Entity>)
    ensures !justPressedE ==> spawned == []
    ensures justPressedE ==> |spawned| == SPAWN_COUNT
    ensures justPressedE ==> forall i :: 0 <= i < |spawned| ==>
      && spawned[i].id == firstId + i && !spawned[i].player
      && spawned[i].transform == Some(IDENTITY)
      && spawned[i].bullet == Some(RadialBullet(i as real / SPAWN_COUNT as real))
      && spawned[i].angularVelocity == Some(AngularVelocity(0.5))
      && spawned[i].acceleration.None? && spawned[i].delayed.None?
  {
    if !justPressedE then []
    else
      seq(SPAWN_COUNT, i requires 0 <= i < SPAWN_COUNT =>
        Entity(firstId + i, false, Some(IDENTITY), Some(RadialBullet(i as real / SPAWN_COUNT as real)),
               Some(AngularVelocity(0.5)), None, None))
  }

  /** The burst covers the circle evenly: headings start at 0, step by a tenth of a turn and stay below a full turn. */
  lemma SpawnEvenlySpaced(firstId: EntityId, i: nat)
    requires i < SPAWN_COUNT
    ensures var spawned := SpawnBullets(true, firstId);
      && spawned[0].bullet.value.rotation == 0.0
      && 0.0 <= spawned[i].bullet.value.rotation < 2.0 * PI
      && (i + 1 < SPAWN_COUNT ==>
            spawned[i + 1].bullet.value.rotation - spawned[i].bullet.value.rotation == 2.0 * PI / SPAWN_COUNT as real)
  {
    var spawned := SpawnBullets(true, firstId);
    assert spawned[i].bullet.value.rotation == i as real / 10.0 * 2.0 * PI;
    if i + 1 < SPAWN_COUNT {
      assert spawned[i + 1].bullet.value.rotation == (i + 1) as real / 10.0 * 2.0 * PI;
    }
  }

  // ---------------------------------------------------------------------------
  // Moving

  /** One bullet under `move_bullets`: turn first, then advance along the new heading by `speed` (not scaled by `dt`). */
  function Move(b: Bullet, dt: real, fromAngle: FromAngle): (r: Bullet)
    ensures r.rotation == b.rotation + b.angularVelocity * dt
    ensures r.position == b.position.Plus(fromAngle(r.rotation).Scale(b.speed))
    ensures r.speed == b.speed && r.angularVelocity == b.angularVelocity
  {
    var rotation := b.rotation + b.angularVelocity * dt;
    b.(rotation := rotation, position := b.position.Plus(fromAngle(rotation).Scale(b.speed)))
  }

  function MoveEntity(e: Entity, dt: real, fromAngle: FromAngle): Entity
  {
    if e.bullet.Some? then e.(bullet := Some(Move(e.bullet.value, dt, fromAngle))) else e
  }

  /** `move_bullets`: every entity with a `Bullet` is moved in place; nothing else changes. */
  method MoveBullets(world: array<Entity>, dt: real, fromAngle: FromAngle)
    modifies world
    ensures forall k :: 0 <= k < world.Length ==> world[k] == MoveEntity(old(world[k]), dt, fromAngle)
  {
    for k := 0 to world.Length
      invariant forall m :: 0 <= m < k ==> world[m] == MoveEntity(old(world[m]), dt, fromAngle)
      invariant forall m :: k <= m < world.Length ==> world[m] == old(world[m])
    {
      if world[k].bullet.Some? {
        world[k] := world[k].(bullet := Some(Move(world[k].bullet.value, dt, fromAngle)));
      }
    }
  }

  /** A bullet over a run of frames. */
  function MoveFrames(b: Bullet, dts: seq<real>, fromAngle: FromAngle): Bullet
    decreases |dts|
  {
    if dts == [] then b else Move(MoveFrames(b, dts[..|dts| - 1], fromAngle), dts[|dts| - 1], fromAngle)
  }

  /** However many frames pass, speed and angular velocity stay as spawned and the heading turns by `angular_velocity` times the elapsed time. */
  lemma {:induction false} MoveFramesKeepsVelocity(b: Bullet, dts: seq<real>, fromAngle: FromAngle)
    ensures MoveFrames(b, dts, fromAngle).speed == b.speed
    ensures MoveFrames(b, dts, fromAngle).angularVelocity == b.angularVelocity
    ensures MoveFrames(b, dts, fromAngle).rotation == b.rotation + b.angularVelocity * Elapsed(dts)
    decreases |dts|
  {
    if dts != [] {
      var init := dts[..|dts| - 1];
      MoveFramesKeepsVelocity(b, init, fromAngle);
      var d := dts[|dts| - 1];
      assert b.angularVelocity * Elapsed(init) + b.angularVelocity * d == b.angularVelocity * (Elapsed(init) + d);
    }
  }

  /** The step length does not depend on the frame time: without turning, a bullet covers the same ground whatever `dt` is. */
  lemma MoveIgnoresFrameTime(b: Bullet, dt1: real, dt2: real, fromAngle: FromAngle)
    requires b.angularVelocity == 0.0
    ensures Move(b, dt1, fromAngle) == Move(b, dt2, fromAngle)
  {
    assert b.angularVelocity * dt1 == 0.0 && b.angularVelocity * dt2 == 0.0;
  }

  // ---------------------------------------------------------------------------
  // Transforms

  function TransformEntity(e: Entity): Entity
  {
    if e.transform.Some? && e.bullet.Some? then
      var b := e.bullet.value;
      e.(transform := Some(Transform(Vec3(b.position.x, b.position.y, 0.0), b.rotation - PI / 2.0)))
    else e
  }

  /** `transform_bullets`: each bullet's transform is rebuilt from its position (at z = 0) and heading. */
  method TransformBullets(world: array<Entity>)
    modifies world
    ensures forall k :: 0 <= k < world.Length ==> world[k] == TransformEntity(old(world[k]))
  {
    for k := 0 to world.Length
      invariant forall m :: 0 <= m < k ==> world[m] == TransformEntity(old(world[m]))
      invariant forall m :: k <= m < world.Length ==> world[m] == old(world[m])
    {
      if world[k].transform.Some? && world[k].bullet.Some? {
        var bullet := world[k].bullet.value;
        var translation := Vec3(bullet.position.x, bullet.position.y, 0.0);
        world[k] := world[k].(transform := Some(Transform(translation, bullet.rotation - PI / 2.0)));
      }
    }
  }

  /**
   * The transform of a bullet shows its position in the z = 0 plane, turned a
   * quarter turn back from its heading; only the transform changes, an entity
   * outside the query is left alone, and rebuilding again changes nothing.
   */
  lemma TransformFollowsBullet(e: Entity)
    ensures var r := TransformEntity(e);
      && (e.transform.Some? && e.bullet.Some? ==>
            && r.transform.Some?
            && r.transform.value.translation == Vec3(e.bullet.value.position.x, e.bullet.value.position.y, 0.0)
            && r.transform.value.zRotation == e.bullet.value.rotation - PI / 2.0)
      && r == e.(transform := r.transform)
      && (!(e.transform.Some? && e.bullet.Some?) ==> r == e)
      && TransformEntity(r) == r
  {
  }

  // ---------------------------------------------------------------------------
  // Collisions

  /** `player_thiccness`. */
  const PLAYER_RADIUS: real := 5.0

  /** Entities the player query sees: a player with a transform and no `Bullet`. */
  predicate IsPlayer(e: Entity)
  {
    e.player && e.transform.Some? && e.bullet.None?
  }

  /** Entities the bullet query sees: a `Bullet` with a transform. */
  predicate IsBulletBody(e: Entity)
  {
    e.bullet.Some? && e.transform.Some?
  }

  /** Strictly inside the player's radius. */
  predicate Hits(player: Vec3, bullet: Vec3)
  {
    DistanceSquared(player, bullet) < PLAYER_RADIUS * PLAYER_RADIUS
  }

  /** A bullet the bullet query sees, strictly inside the radius around `player`. */
  predicate HitAt(player: Vec3, e: Entity)
  {
    IsBulletBody(e) && Hits(player, e.transform.value.translation)
  }

  /** The despawn commands one player issues: the ids of the bullets it touches, in query order. */
  function HitsOf(player: Vec3, world: seq<Entity>): seq<EntityId>
    decreases |world|
  {
    if world == [] then []
    else
      var e := world[|world| - 1];
      HitsOf(player, world[..|world| - 1])
        + if HitAt(player, e) then [e.id] else []
  }

  /** The despawn commands of the players among `players`, player by player. */
  function Despawns(players: seq<Entity>, world: seq<Entity>): seq<EntityId>
    decreases |players|
  {
    if players == [] then []
    else
      var p := players[|players| - 1];
      Despawns(players[..|players| - 1], world)
        + if IsPlayer(p) then HitsOf(p.transform.value.translation, world) else []
  }

  /** `collide_bullets`: for each player, for each bullet, a despawn command when the bullet is strictly closer than 5. */
  method CollideBullets(world: seq<Entity>) returns (despawned: seq<EntityId>)
    ensures despawned == Despawns(world, world)
  {
    var thiccness := PLAYER_RADIUS;
    thiccness := thiccness * thiccness;
    despawned := [];
    for i := 0 to |world|
      invariant despawned == Despawns(world[..i], world)
    {
      assert world[..i + 1][..i] == world[..i];
      if IsPlayer(world[i]) {
        var player := world[i].transform.value.translation;
        ghost var before := despawned;
        for j := 0 to |world|
          invariant despawned == before + HitsOf(player, world[..j])
        {
          assert world[..j + 1][..j] == world[..j];
          var e := world[j];
          if e.bullet.Some? && e.transform.Some? && DistanceSquared(player, e.transform.value.translation) < thiccness {
            despawned := despawned + [e.id];
          }
        }
        assert world[..|world|] == world;
      }
    }
    assert world[..|world|] == world;
  }

  lemma {:induction false} HitsOfIff(player: Vec3, world: seq<Entity>, x: EntityId)
    ensures x in HitsOf(player, world) <==>
      exists k :: 0 <= k < |world| && world[k].id == x && HitAt(player, world[k])
    decreases |world|
  {
    if world != [] {
      var init := world[..|world| - 1];
      HitsOfIff(player, init, x);
      if exists k :: 0 <= k < |init| && init[k].id == x && HitAt(player, init[k]) {
        var k :| 0 <= k < |init| && init[k].id == x && HitAt(player, init[k]);
        assert world[k] == init[k];
      }
      if exists k :: 0 <= k < |world| && world[k].id == x && HitAt(player, world[k]) {
        var k :| 0 <= k < |world| && world[k].id == x && HitAt(player, world[k]);
        if k < |init| { assert init[k] == world[k]; }
      }
    }
  }

  /** `player` touches the bullet `bullet`, as the two queries see them. */
  predicate HitBy(player: Entity, bullet: Entity)
  {
    IsPlayer(player) && HitAt(player.transform.value.translation, bullet)
  }

  /** Some player among `players` touches a bullet of `world` whose id is `x`. */
  ghost predicate DespawnedBy(players: seq<Entity>, world: seq<Entity>, x: EntityId)
  {
    exists i, k :: 0 <= i < |players| && 0 <= k < |world| && world[k].id == x && HitBy(players[i], world[k])
  }

  lemma {:induction false} DespawnsSound(players: seq<Entity>, world: seq<Entity>, x: EntityId)
    requires x in Despawns(players, world)
    ensures DespawnedBy(players, world, x)
    decreases |players|
  {
    var last := |players| - 1;
    var init, p := players[..last], players[last];
    if x in Despawns(init, world) {
      DespawnsSound(init, world, x);
      var i, k :| 0 <= i < |init| && 0 <= k < |world| && world[k].id == x && HitBy(init[i], world[k]);
      assert players[i] == init[i];
    } else {
      assert IsPlayer(p) && x in HitsOf(p.transform.value.translation, world);
      HitsOfIff(p.transform.value.translation, world, x);
      var k :| 0 <= k < |world| && world[k].id == x && HitAt(p.transform.value.translation, world[k]);
      assert HitBy(players[last], world[k]);
    }
  }

  lemma {:induction false} DespawnsComplete(players: seq<Entity>, world: seq<Entity>, x: EntityId)
    requires DespawnedBy(players, world, x)
    ensures x in Despawns(players, world)
    decreases |players|
  {
    var last := |players| - 1;
    var init, p := players[..last], players[last];
    var i, k :| 0 <= i < |players| && 0 <= k < |world| && world[k].id == x && HitBy(players[i], world[k]);
    if i < last {
      assert HitBy(init[i], world[k]);
      DespawnsComplete(init, world, x);
    } else {
      HitsOfIff(p.transform.value.translation, world, x);
    }
  }

  /** `collide_bullets` names an id exactly when some player touches a bullet with that id. */
  lemma DespawnsIff(players: seq<Entity>, world: seq<Entity>, x: EntityId)
    ensures x in Despawns(players, world) <==> DespawnedBy(players, world, x)
  {
    if x in Despawns(players, world) {
      DespawnsSound(players, world, x);
    }
    if DespawnedBy(players, world, x) {
      DespawnsComplete(players, world, x);
    }
  }

  /** Applying despawn commands: the entities whose id was not named, in their order. */
  function ApplyDespawns(world: seq<Entity>, ids: seq<EntityId>): (r: seq<Entity>)
    ensures forall e :: e in r <==> e in world && e.id !in ids
    ensures |r| <= |world|
    decreases |world|
  {
    if world == [] then []
    else ApplyDespawns(world[..|world| - 1], ids) + if world[|world| - 1].id !in ids then [world[|world| - 1]] else []
  }

  /** Some player of `world` is strictly closer than `PLAYER_RADIUS` to `e`. */
  ghost predicate Touched(world: seq<Entity>, e: Entity)
    requires IsBulletBody(e)
  {
    exists i :: 0 <= i < |world| && IsPlayer(world[i]) && Hits(world[i].transform.value.translation, e.transform.value.translation)
  }

  /**
   * After `collide_bullets`' commands apply, a bullet of the world is gone
   * exactly when some player touches it; every survivor is an entity of the
   * world, unchanged.
   */
  lemma CollideSurvivors(world: seq<Entity>, e: Entity)
    requires UniqueIds(world)
    ensures e in ApplyDespawns(world, Despawns(world, world)) ==> e in world
    ensures e in world && IsBulletBody(e) ==>
      (e in ApplyDespawns(world, Despawns(world, world)) <==> !Touched(world, e))
    ensures e in world && !IsBulletBody(e) ==> e in ApplyDespawns(world, Despawns(world, world))
  {
    DespawnsIff(world, world, e.id);
    if e in world {
      var k :| 0 <= k < |world| && world[k] == e;
      if e.id in Despawns(world, world) {
        assert DespawnedBy(world, world, e.id);
        var i, k' :| 0 <= i < |world| && 0 <= k' < |world| && world[k'].id == e.id && HitBy(world[i], world[k']);
        assert k' == k;
      }
      if IsBulletBody(e) && Touched(world, e) {
        var i :| 0 <= i < |world| && IsPlayer(world[i]) && Hits(world[i].transform.value.translation, e.transform.value.translation);
        assert IsBulletBody(world[k]) && world[k].id == e.id;
      }
    }
  }

  /** Without a player nothing is despawned. */
  lemma {:induction false} NoPlayerNoDespawn(players: seq<Entity>, world: seq<Entity>)
    requires forall i :: 0 <= i < |players| ==> !IsPlayer(players[i])
    ensures Despawns(players, world) == []
    decreases |players|
  {
    if players != [] {
      NoPlayerNoDespawn(players[..|players| - 1], world);
    }
  }

  /** The radius is strict: at distance 4 a bullet is hit, at exactly 5 or at 6 it survives. */
  lemma HitBoundary()
    ensures Hits(Vec3(4.0, 0.0, 0.0), Vec3(0.0, 0.0, 0.0))
    ensures !Hits(Vec3(5.0, 0.0, 0.0), Vec3(0.0, 0.0, 0.0))
    ensures !Hits(Vec3(6.0, 0.0, 0.0), Vec3(0.0, 0.0, 0.0))
  {
  }
}
