/**
 * The bullet pool that `Pattern::fire` adds to and `extract_bullets` reads.
 * The pool type itself (`BulletPool`) is only imported by the pattern and
 * render code and is not part of this model; it is represented by what those
 * callers use of it: `add`, the positions and rotations of what it holds, and
 * the texture handle it draws with.
 */
module Pool {
  import opened Geometry

  /** An asset handle, compared by identity; `Handle<Image>` orders by its id. */
  type Handle = nat

  /** What one call of the pool's `add` records: lifetime, position, heading, speed and turn rate. */
  datatype Spawn = Spawn(lifetime: real, position: Vec2, rotation: real, speed: real, angularVelocity: real)

  class BulletPool {
    var records: seq<Spawn>
    const handle: Handle

    constructor (h: Handle)
      ensures records == [] && handle == h
    {
      records := [];
      handle := h;
    }

    function Positions(): (ps: seq<Vec2>)
      reads this
      ensures |ps| == |records|
      ensures forall i :: 0 <= i < |records| ==> ps[i] == records[i].position
    {
      seq(|records|, i requires 0 <= i < |records| reads this => records[i].position)
    }

    function Rotations(): (rs: seq<real>)
      reads this
      ensures |rs| == |records|
      ensures forall i :: 0 <= i < |records| ==> rs[i] == records[i].rotation
    {
      seq(|records|, i requires 0 <= i < |records| reads this => records[i].rotation)
    }

    /** Records one bullet; nothing already in the pool changes. */
    method Add(lifetime: real, position: Vec2, rotation: real, speed: real, angularVelocity: real)
      modifies this
      ensures records == old(records) + [Spawn(lifetime, position, rotation, speed, angularVelocity)]
    {
      records := records + [Spawn(lifetime, position, rotation, speed, angularVelocity)];
    }
  }
}
