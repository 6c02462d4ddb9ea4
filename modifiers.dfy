/**
 * The bullet modifiers of `src/bullet/modifiers.rs`: components that, each
 * frame, change a bullet's heading or speed, or count down a delay. Each
 * system is a walk over the world array changing only its own fields.
 */
module Modifiers {
  import opened Wrappers
  import opened Components

  /** `AngularVelocity::new`. */
  function NewAngularVelocity(amount: real): (r: AngularVelocity)
    ensures r.amount == amount
  {
    AngularVelocity(amount)
  }

  // ---------------------------------------------------------------------------
  // Angular velocity

  function AngularVelocityStep(e: Entity, dt: real): Entity
  {
    if e.bullet.Some? && e.angularVelocity.Some? then
      var b, turn := e.bullet.value, e.angularVelocity.value.amount * dt;
      e.(bullet := Some(b.(rotation := b.rotation + turn)))
    else e
  }

  /** `angular_velocity_system`: every bullet with an `AngularVelocity` turns by `amount * dt`. */
  method AngularVelocitySystem(world: array<Entity>, dt: real)
    modifies world
    ensures forall k :: 0 <= k < world.Length ==> world[k] == AngularVelocityStep(old(world[k]), dt)
  {
    for k := 0 to world.Length
      invariant forall m :: 0 <= m < k ==> world[m] == AngularVelocityStep(old(world[m]), dt)
      invariant forall m :: k <= m < world.Length ==> world[m] == old(world[m])
    {
      if world[k].bullet.Some? && world[k].angularVelocity.Some? {
        var bullet := world[k].bullet.value;
        var turn := world[k].angularVelocity.value.amount * dt;
        bullet := bullet.(rotation := bullet.rotation + turn);
        assert AngularVelocityStep(world[k], dt).bullet.value.rotation == bullet.rotation;
        world[k] := world[k].(bullet := Some(bullet));
      }
    }
  }

  /** Only the heading of a matched bullet changes; entities without both components are left alone. */
  lemma AngularVelocityFrame(e: Entity, dt: real)
    ensures var r := AngularVelocityStep(e, dt);
      && r.id == e.id && r.player == e.player && r.transform == e.transform
      && r.angularVelocity == e.angularVelocity && r.acceleration == e.acceleration && r.delayed == e.delayed
      && r.bullet.Some? == e.bullet.Some?
      && (e.bullet.Some? ==>
            && r.bullet.value.position == e.bullet.value.position
            && r.bullet.value.speed == e.bullet.value.speed
            && r.bullet.value.angularVelocity == e.bullet.value.angularVelocity
            && r.bullet.value.rotation ==
                 e.bullet.value.rotation + (if e.angularVelocity.Some? then e.angularVelocity.value.amount * dt else 0.0))
  {
  }

  function AngularVelocityFrames(e: Entity, dts: seq<real>): Entity
    decreases |dts|
  {
    if dts == [] then e else AngularVelocityStep(AngularVelocityFrames(e, dts[..|dts| - 1]), dts[|dts| - 1])
  }

  /** Over many frames the heading turns by `amount` times the elapsed time. */
  lemma {:induction false} AngularVelocityOverTime(e: Entity, dts: seq<real>)
    requires e.bullet.Some? && e.angularVelocity.Some?
    ensures var r := AngularVelocityFrames(e, dts);
      && r.bullet.Some? && r.angularVelocity == e.angularVelocity
      && r.bullet.value == e.bullet.value.(rotation := e.bullet.value.rotation + e.angularVelocity.value.amount * Elapsed(dts))
      && r == e.(bullet := r.bullet)
    decreases |dts|
  {
    if dts != [] {
      var init := dts[..|dts| - 1];
      AngularVelocityOverTime(e, init);
      AngularVelocityFrame(AngularVelocityFrames(e, init), dts[|dts| - 1]);
      var a, d := e.angularVelocity.value.amount, dts[|dts| - 1];
      assert a * Elapsed(init) + a * d == a * (Elapsed(init) + d);
    }
  }

  // ---------------------------------------------------------------------------
  // Acceleration

  function AccelerationStep(e: Entity, dt: real): Entity
  {
    if e.bullet.Some? && e.acceleration.Some? then
      var b, gain := e.bullet.value, e.acceleration.value.amount * dt;
      e.(bullet := Some(b.(speed := b.speed + gain)))
    else e
  }

  /** `acceleration_system`: every bullet with an `Acceleration` speeds up by `amount * dt`. */
  method AccelerationSystem(world: array<Entity>, dt: real)
    modifies world
    ensures forall k :: 0 <= k < world.Length ==> world[k] == AccelerationStep(old(world[k]), dt)
  {
    for k := 0 to world.Length
      invariant forall m :: 0 <= m < k ==> world[m] == AccelerationStep(old(world[m]), dt)
      invariant forall m :: k <= m < world.Length ==> world[m] == old(world[m])
    {
      if world[k].bullet.Some? && world[k].acceleration.Some? {
        var bullet := world[k].bullet.value;
        var gain := world[k].acceleration.value.amount * dt;
        bullet := bullet.(speed := bullet.speed + gain);
        assert AccelerationStep(world[k], dt).bullet.value.speed == bullet.speed;
        world[k] := world[k].(bullet := Some(bullet));
      }
    }
  }

  /** Only the speed of a matched bullet changes. */
  lemma AccelerationFrame(e: Entity, dt: real)
    ensures var r := AccelerationStep(e, dt);
      && r.id == e.id && r.player == e.player && r.transform == e.transform
      && r.angularVelocity == e.angularVelocity && r.acceleration == e.acceleration && r.delayed == e.delayed
      && r.bullet.Some? == e.bullet.Some?
      && (e.bullet.Some? ==>
            && r.bullet.value.position == e.bullet.value.position
            && r.bullet.value.rotation == e.bullet.value.rotation
            && r.bullet.value.angularVelocity == e.bullet.value.angularVelocity
            && r.bullet.value.speed ==
                 e.bullet.value.speed + (if e.acceleration.Some? then e.acceleration.value.amount * dt else 0.0))
  {
  }

  /**
   * Both systems write `Bullet`, so the scheduler runs them one after the
   * other in an order the plugin leaves open; the outcome is the same either way.
   */
  lemma ModifiersCommute(e: Entity, dt: real)
    ensures AngularVelocityStep(AccelerationStep(e, dt), dt) == AccelerationStep(AngularVelocityStep(e, dt), dt)
  {
    AngularVelocityFrame(e, dt);
    AccelerationFrame(e, dt);
    AngularVelocityFrame(AccelerationStep(e, dt), dt);
    AccelerationFrame(AngularVelocityStep(e, dt), dt);
    var turnedFirst := AccelerationStep(AngularVelocityStep(e, dt), dt);
    var speededFirst := AngularVelocityStep(AccelerationStep(e, dt), dt);
    if e.bullet.Some? {
      var l, r := speededFirst.bullet.value, turnedFirst.bullet.value;
      assert l.rotation == r.rotation && l.speed == r.speed;
      assert l.position == r.position && l.angularVelocity == r.angularVelocity;
      assert l == r;
    }
  }

  // ---------------------------------------------------------------------------
  // Delays

  function DelayedStep(e: Entity, dt: real): Entity
  {
    if e.delayed.Some? then e.(delayed := Some(e.delayed.value.(wait := e.delayed.value.wait - dt))) else e
  }

  /**
   * `delayed_system::<AngularVelocity>`: every `Delayed` counts its wait down
   * by `dt`. Once the wait is negative the insertion of the delayed component is
   * commented out, so expiry does nothing.
   */
  method DelayedSystem(world: array<Entity>, dt: real)
    modifies world
    ensures forall k :: 0 <= k < world.Length ==> world[k] == DelayedStep(old(world[k]), dt)
  {
    for k := 0 to world.Length
      invariant forall m :: 0 <= m < k ==> world[m] == DelayedStep(old(world[m]), dt)
      invariant forall m :: k <= m < world.Length ==> world[m] == old(world[m])
    {
      if world[k].delayed.Some? {
        var delayed := world[k].delayed.value;
        delayed := delayed.(wait := delayed.wait - dt);
        world[k] := world[k].(delayed := Some(delayed));
      }
    }
  }

  function DelayedFrames(e: Entity, dts: seq<real>): Entity
    decreases |dts|
  {
    if dts == [] then e else DelayedStep(DelayedFrames(e, dts[..|dts| - 1]), dts[|dts| - 1])
  }

  /**
   * However long a delay runs, its wait falls by the elapsed time and the
   * entity never gains the delayed component: apart from the wait it is unchanged.
   */
  lemma {:induction false} DelayNeverFires(e: Entity, dts: seq<real>)
    requires e.delayed.Some?
    ensures var r := DelayedFrames(e, dts);
      && r.delayed.Some?
      && r.delayed.value.wait == e.delayed.value.wait - Elapsed(dts)
      && r.delayed.value.component == e.delayed.value.component
      && r == e.(delayed := r.delayed)
    decreases |dts|
  {
    if dts != [] {
      DelayNeverFires(e, dts[..|dts| - 1]);
    }
  }

  /** A frame that takes no time changes nothing under any of the three systems. */
  lemma NoTimeNoChange(e: Entity)
    ensures AngularVelocityStep(e, 0.0) == e
    ensures AccelerationStep(e, 0.0) == e
    ensures DelayedStep(e, 0.0) == e
  {
    AngularVelocityFrame(e, 0.0);
    AccelerationFrame(e, 0.0);
    if e.bullet.Some? {
      var b := e.bullet.value;
      assert AngularVelocityStep(e, 0.0).bullet.value == b;
      assert AccelerationStep(e, 0.0).bullet.value == b;
    }
  }
}
