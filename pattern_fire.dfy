/**
 * `Pattern::fire`: a single default seed is threaded through the operations in
 * order; ring and arc replace the seeds, and every bullet operation adds one
 * bullet per seed to the pool.
 */
module PatternFire {
  import opened Geometry
  import opened Pool
  import opened PatternOps

  /** What `pool.add` receives for one seed at a bullet operation: the operation's
      lifetime and expressions at `t = 0`, the seed's position and heading. */
  function AddArgs(bullet: BulletContext, seed: BulletContext): Spawn
  {
    Spawn(bullet.lifetime, seed.position, seed.rotation, bullet.speed(0.0), bullet.angularVelocity(0.0))
  }

  /** The `pool.add` calls of a bullet operation, one per seed, in seed order. */
  function Emit(bullet: BulletContext, seeds: seq<BulletContext>): (r: seq<Spawn>)
    ensures |r| == |seeds|
    ensures forall k :: 0 <= k < |seeds| ==>
      r[k] == Spawn(bullet.lifetime, seeds[k].position, seeds[k].rotation, bullet.speed(0.0), bullet.angularVelocity(0.0))
    decreases |seeds|
  {
    if seeds == [] then [] else Emit(bullet, seeds[..|seeds| - 1]) + [AddArgs(bullet, seeds[|seeds| - 1])]
  }

  /** The seeds in hand and the bullets added so far. */
  datatype FireState = FireState(seeds: seq<BulletContext>, spawned: seq<Spawn>)

  /** The ring count as `fire` reads it: evaluated at `t = 0`, then cast to `u32`. */
  function RingCount(count: Expr): nat
  {
    SaturatingToU32(count(0.0))
  }

  /** One operation of `fire`: ring and arc replace the seeds, a bullet operation keeps them. */
  function Step(s: FireState, op: PatternOp, fromAngle: FromAngle): (r: FireState)
    ensures !op.Bullet? ==> r.spawned == s.spawned
    ensures op.Bullet? ==> r.seeds == s.seeds && r.spawned == s.spawned + Emit(op.bullet, s.seeds)
  {
    match op
    case Ring(count, radius) => FireState(ApplyRing(s.seeds, RingCount(count), radius, fromAngle), s.spawned)
    case Arc(count, angle) => FireState(ApplyArc(s.seeds, count, angle), s.spawned)
    case Bullet(b) => FireState(s.seeds, s.spawned + Emit(b, s.seeds))
  }

  /** The operations applied in order to a starting list of seeds. */
  function Run(ops: seq<PatternOp>, seeds: seq<BulletContext>, fromAngle: FromAngle): FireState
    decreases |ops|
  {
    if ops == [] then FireState(seeds, [])
    else Step(Run(ops[..|ops| - 1], seeds, fromAngle), ops[|ops| - 1], fromAngle)
  }

  /** The `for_each` of a bullet operation: one `pool.add` per seed, in seed order. */
  method AddAll(pool: BulletPool, bullet: BulletContext, seeds: seq<BulletContext>)
    modifies pool
    ensures pool.records == old(pool.records) + Emit(bullet, seeds)
  {
    var j := 0;
    while j < |seeds|
      invariant 0 <= j <= |seeds|
      invariant pool.records == old(pool.records) + Emit(bullet, seeds[..j])
    {
      assert seeds[..j + 1][..j] == seeds[..j];
      pool.Add(bullet.lifetime, seeds[j].position, seeds[j].rotation,
               bullet.speed(0.0), bullet.angularVelocity(0.0));
      j := j + 1;
    }
    assert seeds[..j] == seeds;
  }

  lemma RunPrefix(ops: seq<PatternOp>, k: nat, seeds: seq<BulletContext>, fromAngle: FromAngle)
    requires k < |ops|
    ensures Run(ops[..k + 1], seeds, fromAngle) == Step(Run(ops[..k], seeds, fromAngle), ops[k], fromAngle)
  {
    assert ops[..k + 1][..k] == ops[..k];
  }

  /**
   * The `match` inside `fire`'s loop: the seeds after one operation; a bullet
   * operation adds to `pool`. `state` is the firing so far, `base` what the pool
   * held before it.
   */
  method ApplyOp(pool: BulletPool, op: PatternOp, bullets: seq<BulletContext>, fromAngle: FromAngle,
                 ghost state: FireState, ghost base: seq<Spawn>)
    returns (next: seq<BulletContext>)
    requires bullets == state.seeds && pool.records == base + state.spawned
    modifies pool
    ensures next == Step(state, op, fromAngle).seeds
    ensures pool.records == base + Step(state, op, fromAngle).spawned
  {
    match op
    case Ring(count, radius) =>
      next := ApplyRing(bullets, SaturatingToU32(count(0.0)), radius, fromAngle);
    case Arc(count, angle) =>
      next := ApplyArc(bullets, count, angle);
    case Bullet(bullet) =>
      AddAll(pool, bullet, bullets);
      assert base + state.spawned + Emit(bullet, bullets) == base + (state.spawned + Emit(bullet, bullets));
      next := bullets;
  }

  /** `Pattern::fire`: starts from the single default seed and adds to `pool` at every bullet operation. */
  method Fire(pattern: Pattern, pool: BulletPool, fromAngle: FromAngle)
    modifies pool
    ensures pool.records == old(pool.records) + Run(pattern.operations, [InitialSeed()], fromAngle).spawned
  {
    var ops := pattern.operations;
    var bullets := [InitialSeed()];
    ghost var state := FireState(bullets, []);
    for k := 0 to |ops|
      invariant state == Run(ops[..k], [InitialSeed()], fromAngle)
      invariant bullets == state.seeds
      invariant pool.records == old(pool.records) + state.spawned
    {
      RunPrefix(ops, k, [InitialSeed()], fromAngle);
      bullets := ApplyOp(pool, ops[k], bullets, fromAngle, state, old(pool.records));
      state := Step(state, ops[k], fromAngle);
    }
    assert ops[..|ops|] == ops;
  }

  // ---------------------------------------------------------------------------
  // Properties of firing

  /** A step does not look at what was added before it. */
  lemma StepAfter(done: seq<Spawn>, s: FireState, op: PatternOp, fromAngle: FromAngle)
    ensures Step(FireState(s.seeds, done + s.spawned), op, fromAngle)
         == FireState(Step(s, op, fromAngle).seeds, done + Step(s, op, fromAngle).spawned)
  {
    if op.Bullet? {
      assert done + s.spawned + Emit(op.bullet, s.seeds) == done + (s.spawned + Emit(op.bullet, s.seeds));
    }
  }

  /** Operations apply strictly in order: running `a + b` runs `a`, then `b` on the seeds `a` left. */
  lemma {:induction false} RunSplit(a: seq<PatternOp>, b: seq<PatternOp>, seeds: seq<BulletContext>, fromAngle: FromAngle)
    ensures var m := Run(a, seeds, fromAngle);
      var n := Run(b, m.seeds, fromAngle);
      Run(a + b, seeds, fromAngle) == FireState(n.seeds, m.spawned + n.spawned)
    decreases |b|
  {
    var m := Run(a, seeds, fromAngle);
    if b == [] {
      assert a + b == a;
      assert m.spawned + [] == m.spawned;
    } else {
      var init, op := b[..|b| - 1], b[|b| - 1];
      RunSplit(a, init, seeds, fromAngle);
      assert (a + b)[..|a + b| - 1] == a + init;
      assert (a + b)[|a + b| - 1] == op;
      var n0 := Run(init, m.seeds, fromAngle);
      assert Run(a + init, seeds, fromAngle) == FireState(n0.seeds, m.spawned + n0.spawned);
      StepAfter(m.spawned, n0, op, fromAngle);
    }
  }

  /** Once no seed is left, no later operation adds anything. */
  lemma {:induction false} RunFromNothing(ops: seq<PatternOp>, fromAngle: FromAngle)
    ensures Run(ops, [], fromAngle) == FireState([], [])
    decreases |ops|
  {
    if ops != [] {
      RunFromNothing(ops[..|ops| - 1], fromAngle);
    }
  }

  /**
   * A ring whose count evaluates below one is cast to a count of zero and
   * silences every operation after it.
   */
  lemma RingOfNoneSilences(a: seq<PatternOp>, count: Expr, radius: real, b: seq<PatternOp>, seeds: seq<BulletContext>, fromAngle: FromAngle)
    requires count(0.0) < 1.0
    ensures Run(a + [Ring(count, radius)] + b, seeds, fromAngle).spawned == Run(a, seeds, fromAngle).spawned
    ensures Run(a + [Ring(count, radius)] + b, seeds, fromAngle).seeds == []
  {
    var ring := [Ring(count, radius)];
    assert RingCount(count) == 0;
    RunSplit(a + ring, b, seeds, fromAngle);
    RunSplit(a, ring, seeds, fromAngle);
    var m := Run(a, seeds, fromAngle);
    assert ring[..0] == [];
    assert Run(ring, m.seeds, fromAngle) == FireState([], []);
    RunFromNothing(b, fromAngle);
  }

  /** A pattern without bullet operations adds nothing to the pool. */
  lemma {:induction false} NoBulletNoSpawn(ops: seq<PatternOp>, seeds: seq<BulletContext>, fromAngle: FromAngle)
    requires forall k :: 0 <= k < |ops| ==> !ops[k].Bullet?
    ensures Run(ops, seeds, fromAngle).spawned == []
    decreases |ops|
  {
    if ops != [] {
      NoBulletNoSpawn(ops[..|ops| - 1], seeds, fromAngle);
    }
  }

  /** How many seeds one seed becomes under an operation. */
  function Factor(op: PatternOp): nat
  {
    match op
    case Ring(count, _) => RingCount(count)
    case Arc(count, _) => count
    case Bullet(_) => 1
  }

  /** How many seeds one starting seed becomes under all of `ops`. */
  function SeedFactor(ops: seq<PatternOp>): nat
    decreases |ops|
  {
    if ops == [] then 1 else SeedFactor(ops[..|ops| - 1]) * Factor(ops[|ops| - 1])
  }

  /** How many bullets one starting seed produces under `ops`: each bullet operation adds one per seed in hand. */
  function Emitted(ops: seq<PatternOp>): nat
    decreases |ops|
  {
    if ops == [] then 0
    else Emitted(ops[..|ops| - 1]) + (if ops[|ops| - 1].Bullet? then SeedFactor(ops[..|ops| - 1]) else 0)
  }

  lemma MulAssoc(n: nat, f: nat, m: nat)
    ensures n * (f * m) == (n * f) * m
  {
  }

  lemma MulAdd(n: nat, e: nat, f: nat)
    ensures n * (e + f) == n * e + n * f
  {
  }

  /** One step multiplies the seeds by the operation's factor; a bullet operation adds one bullet per seed. */
  lemma StepCounts(s: FireState, op: PatternOp, fromAngle: FromAngle, n: nat, f: nat, e: nat)
    requires |s.seeds| == n * f && |s.spawned| == n * e
    ensures |Step(s, op, fromAngle).seeds| == n * (f * Factor(op))
    ensures |Step(s, op, fromAngle).spawned| == n * (e + if op.Bullet? then f else 0)
  {
    MulAssoc(n, f, Factor(op));
    MulAdd(n, e, f);
    match op
    case Ring(count, radius) =>
      RingLength(s.seeds, RingCount(count), radius, fromAngle);
    case Arc(count, angle) =>
      ArcLength(s.seeds, count, angle);
    case Bullet(_) =>
  }

  lemma {:induction false} RunCounts(ops: seq<PatternOp>, seeds: seq<BulletContext>, fromAngle: FromAngle)
    ensures |Run(ops, seeds, fromAngle).seeds| == |seeds| * SeedFactor(ops)
    ensures |Run(ops, seeds, fromAngle).spawned| == |seeds| * Emitted(ops)
    decreases |ops|
  {
    if ops != [] {
      var init, op := ops[..|ops| - 1], ops[|ops| - 1];
      RunCounts(init, seeds, fromAngle);
      StepCounts(Run(init, seeds, fromAngle), op, fromAngle, |seeds|, SeedFactor(init), Emitted(init));
    }
  }

  /** A firing adds exactly `Emitted(ops)` bullets. */
  lemma FireCount(pattern: Pattern, fromAngle: FromAngle)
    ensures |Run(pattern.operations, [InitialSeed()], fromAngle).spawned| == Emitted(pattern.operations)
  {
    RunCounts(pattern.operations, [InitialSeed()], fromAngle);
  }

  /** A ring of four at radius 10 followed by a bullet operation: four bullets a quarter turn apart, each 10 out along its heading. */
  lemma RingOfFourExample(bullet: BulletContext, fromAngle: FromAngle)
    ensures var spawned := Run([Ring(Constant(4.0), 10.0), Bullet(bullet)], [InitialSeed()], fromAngle).spawned;
      && |spawned| == 4
      && forall i :: 0 <= i < 4 ==>
        && spawned[i].rotation == i as real / 4.0 * 2.0 * PI
        && spawned[i].position == fromAngle(spawned[i].rotation).Scale(10.0)
        && spawned[i].lifetime == bullet.lifetime
        && spawned[i].speed == bullet.speed(0.0)
        && spawned[i].angularVelocity == bullet.angularVelocity(0.0)
  {
    var ring := Ring(Constant(4.0), 10.0);
    var ops := [ring, Bullet(bullet)];
    assert ops[..1] == [ring] && [ring][..0] == [];
    assert RingCount(Constant(4.0)) == 4;
    var seeds := ApplyRing([InitialSeed()], 4, 10.0, fromAngle);
    assert Run([ring], [InitialSeed()], fromAngle) == FireState(seeds, []);
    assert Run(ops, [InitialSeed()], fromAngle) == FireState(seeds, Emit(bullet, seeds));
    RingOfFourSeeds(fromAngle);
  }

  /** The four seeds a ring of 4 at radius 10 makes from the initial seed. */
  lemma RingOfFourSeeds(fromAngle: FromAngle)
    ensures var seeds := ApplyRing([InitialSeed()], 4, 10.0, fromAngle);
      && |seeds| == 4
      && forall i :: 0 <= i < 4 ==>
        && seeds[i].rotation == i as real / 4.0 * 2.0 * PI
        && seeds[i].position == fromAngle(seeds[i].rotation).Scale(10.0)
  {
    var seeds := ApplyRing([InitialSeed()], 4, 10.0, fromAngle);
    forall i | 0 <= i < 4
      ensures seeds[i].rotation == i as real / 4.0 * 2.0 * PI
      ensures seeds[i].position == fromAngle(seeds[i].rotation).Scale(10.0)
    {
      RingAt([InitialSeed()], 4, 10.0, fromAngle, 0, i);
    }
  }
}
