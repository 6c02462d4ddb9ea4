/**
 * Bullet patterns (`src/bullet/pattern.rs`): the compiled form of a
 * `*.pattern.json` file, a list of ring, arc and bullet operations, and the two
 * sequence transformers `ring` and `arc` that fan seeds out.
 */
module PatternOps {
  import opened Wrappers
  import opened Geometry

  /** A compiled `ExpressionSlab`, seen only through its value at a time `t`. */
  type Expr = real -> real

  function Constant(c: real): (e: Expr)
    ensures forall t :: e(t) == c
  {
    (t: real) => c
  }

  /** `BulletContext`: a seed while a pattern runs, and the template of a bullet operation. */
  datatype BulletContext = BulletContext(
    lifetime: real,
    position: Vec2,
    rotation: real,
    angularVelocity: Expr,
    speed: Expr)

  /** `BulletContext::default`. */
  function DefaultContext(): (c: BulletContext)
    ensures c.lifetime == 10.0 && c.position == ZERO2 && c.rotation == 0.0
    ensures forall t :: c.speed(t) == 0.0 && c.angularVelocity(t) == 0.0
  {
    BulletContext(10.0, ZERO2, 0.0, Constant(0.0), Constant(0.0))
  }

  /** `BulletContext::new(speed)`: the default context with a constant speed expression
      (the source formats `speed` as text and compiles it back). */
  function NewContext(speed: real): (c: BulletContext)
    ensures c.lifetime == 10.0 && c.position == ZERO2 && c.rotation == 0.0
    ensures forall t :: c.speed(t) == speed && c.angularVelocity(t) == 0.0
  {
    DefaultContext().(speed := Constant(speed))
  }

  /** The seed every firing starts from. */
  function InitialSeed(): BulletContext
  {
    NewContext(60.0)
  }

  datatype PatternOp =
    | Ring(count: Expr, radius: real)
    | Arc(arcCount: nat, angle: real)
    | Bullet(bullet: BulletContext)

  datatype Pattern = Pattern(operations: seq<PatternOp>)

  // ---------------------------------------------------------------------------
  // Ring and arc: sequence transformers

  /**
   * The fan-out shared by ring and arc: each input seed is replaced by `count`
   * derived seeds, grouped by input in input order.
   */
  function FanOut(bullets: seq<BulletContext>, count: nat, seed: (BulletContext, nat) --> BulletContext): (r: seq<BulletContext>)
    requires forall b, i: nat :: i < count ==> seed.requires(b, i)
    ensures |r| == |bullets| * count
    decreases |bullets|
  {
    if bullets == [] then []
    else seq(count, i requires 0 <= i < count => seed(bullets[0], i)) + FanOut(bullets[1..], count, seed)
  }

  lemma MulStep(j: nat, count: nat, n: nat)
    requires j < n
    ensures j * count + count <= n * count
  {
    assert j * count + count == (j + 1) * count;
    assert (j + 1) * count <= n * count by {
      var d := n - (j + 1);
      assert n * count == (j + 1) * count + d * count;
    }
  }

  /** Seed `i` of input `j` sits at index `j * count + i`. */
  lemma {:induction false} FanOutAt(bullets: seq<BulletContext>, count: nat, seed: (BulletContext, nat) --> BulletContext, j: nat, i: nat)
    requires forall b, i: nat :: i < count ==> seed.requires(b, i)
    requires j < |bullets| && i < count
    ensures j * count + i < |FanOut(bullets, count, seed)|
    ensures FanOut(bullets, count, seed)[j * count + i] == seed(bullets[j], i)
    decreases j
  {
    MulStep(j, count, |bullets|);
    if j > 0 {
      FanOutAt(bullets[1..], count, seed, j - 1, i);
      assert j * count + i == count + ((j - 1) * count + i);
    }
  }

  function RingSeed(b: BulletContext, i: nat, count: nat, radius: real, fromAngle: FromAngle): BulletContext
    requires i < count
  {
    var rotation := b.rotation + i as real / count as real * 2.0 * PI;
    b.(position := b.position.Plus(fromAngle(rotation).Scale(radius)), rotation := rotation)
  }

  /** `Pattern::ring`. */
  function ApplyRing(bullets: seq<BulletContext>, count: nat, radius: real, fromAngle: FromAngle): (r: seq<BulletContext>)
    ensures count == 0 ==> r == []
  {
    FanOut(bullets, count, (b: BulletContext, i: nat) requires i < count => RingSeed(b, i, count, radius, fromAngle))
  }

  /**
   * Seed `i` of input `b` is turned by `i / count` of a full turn, pushed out by
   * `radius` along its new heading, and keeps the rest of `b`.
   */
  lemma RingAt(bullets: seq<BulletContext>, count: nat, radius: real, fromAngle: FromAngle, j: nat, i: nat)
    requires j < |bullets| && i < count
    ensures |ApplyRing(bullets, count, radius, fromAngle)| == |bullets| * count
    ensures j * count + i < |ApplyRing(bullets, count, radius, fromAngle)|
    ensures var s, b := ApplyRing(bullets, count, radius, fromAngle)[j * count + i], bullets[j];
      && s.rotation == b.rotation + i as real / count as real * 2.0 * PI
      && s.position == b.position.Plus(fromAngle(s.rotation).Scale(radius))
      && s.lifetime == b.lifetime && s.speed == b.speed && s.angularVelocity == b.angularVelocity
  {
    FanOutAt(bullets, count, (b: BulletContext, i: nat) requires i < count => RingSeed(b, i, count, radius, fromAngle), j, i);
  }

  /** Within a group, consecutive ring seeds are `2π / count` apart, starting at the input's heading. */
  lemma RingSpacing(bullets: seq<BulletContext>, count: nat, radius: real, fromAngle: FromAngle, j: nat, i: nat)
    requires j < |bullets| && i + 1 < count
    ensures j * count + i + 1 < |ApplyRing(bullets, count, radius, fromAngle)|
    ensures var r := ApplyRing(bullets, count, radius, fromAngle);
      && r[j * count].rotation == bullets[j].rotation
      && r[j * count + i + 1].rotation - r[j * count + i].rotation == 2.0 * PI / count as real
  {
    RingAt(bullets, count, radius, fromAngle, j, 0);
    RingAt(bullets, count, radius, fromAngle, j, i);
    RingAt(bullets, count, radius, fromAngle, j, i + 1);
    TurnStep(i as real, count as real);
  }

  lemma TurnStep(a: real, c: real)
    requires c > 0.0
    ensures (a + 1.0) / c * 2.0 * PI - a / c * 2.0 * PI == 2.0 * PI / c
  {
    calc {
      (a + 1.0) / c * 2.0 * PI - a / c * 2.0 * PI;
      ((a + 1.0) / c - a / c) * (2.0 * PI);
      { assert (a + 1.0) / c - a / c == 1.0 / c; }
      1.0 / c * (2.0 * PI);
    }
  }

  function ArcSeed(b: BulletContext, i: nat, count: nat, angle: real): BulletContext
    requires count != 1
  {
    var step := angle / (count as real - 1.0);
    b.(rotation := b.rotation - angle / 2.0 + step * i as real)
  }

  /** `Pattern::arc`: a single-seed arc leaves the list as it is (no step to compute). */
  function ApplyArc(bullets: seq<BulletContext>, count: nat, angle: real): (r: seq<BulletContext>)
    ensures count == 1 ==> r == bullets
  {
    if count == 1 then bullets
    else FanOut(bullets, count, (b: BulletContext, i: nat) requires i < count && count != 1 => ArcSeed(b, i, count, angle))
  }

  /** Outside the single-seed case, an arc makes `count` seeds of every input. */
  lemma ArcLength(bullets: seq<BulletContext>, count: nat, angle: real)
    ensures |ApplyArc(bullets, count, angle)| == |bullets| * count
  {
  }

  /** A ring makes `count` seeds of every input. */
  lemma RingLength(bullets: seq<BulletContext>, count: nat, radius: real, fromAngle: FromAngle)
    ensures |ApplyRing(bullets, count, radius, fromAngle)| == |bullets| * count
  {
  }

  /** An arc seed only turns: position, lifetime and expressions are those of its input. */
  lemma ArcAt(bullets: seq<BulletContext>, count: nat, angle: real, j: nat, i: nat)
    requires count != 1 && j < |bullets| && i < count
    ensures |ApplyArc(bullets, count, angle)| == |bullets| * count
    ensures j * count + i < |ApplyArc(bullets, count, angle)|
    ensures var s, b := ApplyArc(bullets, count, angle)[j * count + i], bullets[j];
      && s.rotation == b.rotation - angle / 2.0 + angle / (count as real - 1.0) * i as real
      && s.position == b.position && s.lifetime == b.lifetime
      && s.speed == b.speed && s.angularVelocity == b.angularVelocity
  {
    FanOutAt(bullets, count, (b: BulletContext, i: nat) requires i < count && count != 1 => ArcSeed(b, i, count, angle), j, i);
  }

  /** The arc spans `[-angle/2, +angle/2]` around its input's heading. */
  lemma ArcEnds(bullets: seq<BulletContext>, count: nat, angle: real, j: nat)
    requires count >= 2 && j < |bullets|
    ensures j * count + (count - 1) < |ApplyArc(bullets, count, angle)|
    ensures var r := ApplyArc(bullets, count, angle);
      && r[j * count].rotation == bullets[j].rotation - angle / 2.0
      && r[j * count + (count - 1)].rotation == bullets[j].rotation + angle / 2.0
  {
    var r := ApplyArc(bullets, count, angle);
    var heading, step := bullets[j].rotation, angle / (count as real - 1.0);
    ArcAt(bullets, count, angle, j, 0);
    assert r[j * count].rotation == heading - angle / 2.0 + step * 0 as real;
    ArcAt(bullets, count, angle, j, count - 1);
    assert r[j * count + (count - 1)].rotation == heading - angle / 2.0 + step * (count - 1) as real;
    ArcSpan(heading, angle, count);
  }

  lemma ArcSpan(r: real, angle: real, count: nat)
    requires count >= 2
    ensures r - angle / 2.0 + angle / (count as real - 1.0) * (count - 1) as real == r + angle / 2.0
  {
    var n := count as real - 1.0;
    assert (count - 1) as real == n;
    assert angle / n * n == angle;
  }
}
