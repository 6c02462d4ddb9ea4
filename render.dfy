/**
 * The batching of `prepare_bullets`: the sorted pool snapshots are packed
 * into one buffer of `(x, y, rotation, 0)` entries, and each run of pools
 * sharing a texture becomes a `BulletBatch` naming a vertex range of that
 * buffer (six vertices per bullet). Also the guard of `queue_bullets` that
 * keeps `bind_buffer` from being asked for a zero-sized binding.
 */
module Render {
  import opened Wrappers
  import opened Geometry
  import opened Pool
  import opened RenderExtract

  /** A `Range<u32>` of vertices, `start..end`. */
  datatype Range = Range(start: nat, end: nat) {
    predicate IsEmpty() { !(start < end) }
  }

  /** `BulletBatch`: a texture and the vertices drawn with it. */
  datatype Batch = Batch(handle: Handle, range: Range)

  /** Vertices per bullet quad. */
  const VERTICES_PER_BULLET: nat := 6

  /** The `BulletMeta` resource; only its positions buffer takes part in batching. */
  class BulletMeta {
    var positions: seq<Vec4>

    constructor ()
      ensures positions == []
    {
      positions := [];
    }
  }

  function Min(a: nat, b: nat): nat { if a <= b then a else b }

  /** A pool's positions paired with its rotations as `(x, y, rotation, 0)` entries; the pairing stops at the shorter list. */
  function Pack(positions: seq<Vec2>, rotations: seq<real>): (packed: seq<Vec4>)
    ensures |packed| == Min(|positions|, |rotations|)
    ensures forall i :: 0 <= i < |packed| ==> packed[i] == Vec4(positions[i].x, positions[i].y, rotations[i], 0.0)
  {
    seq(Min(|positions|, |rotations|), i requires 0 <= i < Min(|positions|, |rotations|) =>
      Vec4(positions[i].x, positions[i].y, rotations[i], 0.0))
  }

  /** The loop state of `prepare_bullets`: the buffer, `range`, `handle`, and the batches spawned so far. */
  datatype Prep = Prep(buffer: seq<Vec4>, range: Range, handle: Option<Handle>, batches: seq<Batch>)

  /** One iteration of the loop over the sorted pools. */
  function PrepStep(s: Prep, pool: ExtractedPool): Prep
  {
    var flush := s.handle.Some? && s.handle.value != pool.handle;
    var batches := if flush then s.batches + [Batch(s.handle.value, s.range)] else s.batches;
    var start := if flush then s.range.end else s.range.start;
    Prep(s.buffer + Pack(pool.positions, pool.rotations),
         Range(start, s.range.end + |pool.positions| * VERTICES_PER_BULLET),
         Some(pool.handle), batches)
  }

  /** The loop state after the given pools, from an empty buffer, `0..0` and no handle. */
  function Scan(pools: seq<ExtractedPool>): (s: Prep)
    ensures s.handle.None? <==> pools == []
    ensures pools != [] ==> s.handle == Some(pools[|pools| - 1].handle)
    ensures pools == [] ==> s.range == Range(0, 0)
    ensures s.range.start <= s.range.end
    decreases |pools|
  {
    if pools == [] then Prep([], Range(0, 0), None, [])
    else PrepStep(Scan(pools[..|pools| - 1]), pools[|pools| - 1])
  }

  /** Every batch `prepare_bullets` spawns: those flushed on a handle change, then the last range if it is not empty. */
  function Batches(pools: seq<ExtractedPool>): seq<Batch>
  {
    var s := Scan(pools);
    if !s.range.IsEmpty() then s.batches + [Batch(s.handle.value, s.range)] else s.batches
  }

  /** Pushes one pool's packed entries onto the positions buffer, one at a time. */
  method PushPacked(meta: BulletMeta, pool: ExtractedPool)
    modifies meta
    ensures meta.positions == old(meta.positions) + Pack(pool.positions, pool.rotations)
  {
    var packed := Pack(pool.positions, pool.rotations);
    for j := 0 to |packed|
      invariant meta.positions == old(meta.positions) + packed[..j]
    {
      meta.positions := meta.positions + [packed[j]];
    }
    assert packed[..|packed|] == packed;
  }

  /** The body of the loop over the pools, on the loop's variables. */
  method PrepareOne(meta: BulletMeta, pool: ExtractedPool, range: Range, handle: Option<Handle>, batches: seq<Batch>)
    returns (range': Range, handle': Option<Handle>, batches': seq<Batch>)
    modifies meta
    ensures Prep(meta.positions, range', handle', batches') == PrepStep(Prep(old(meta.positions), range, handle, batches), pool)
  {
    range', batches' := range, batches;
    if handle.Some? {
      if handle.value != pool.handle {
        batches' := batches' + [Batch(handle.value, range')];
        range' := range'.(start := range'.end);
      }
    }
    PushPacked(meta, pool);
    range' := range'.(end := range'.end + |pool.positions| * VERTICES_PER_BULLET);
    handle' := Some(pool.handle);
  }

  /**
   * `prepare_bullets`: clears the buffer, sorts the pools by handle, then
   * packs every pool and spawns the batches.
   */
  method PrepareBullets(meta: BulletMeta, extracted: ExtractedBulletPools) returns (batches: seq<Batch>)
    modifies meta, extracted
    ensures extracted.pools == SortByHandle(old(extracted.pools))
    ensures meta.positions == Scan(extracted.pools).buffer
    ensures batches == Batches(extracted.pools)
  {
    meta.positions := [];
    extracted.pools := SortByHandle(extracted.pools);
    var pools := extracted.pools;
    var range := Range(0, 0);
    var handle: Option<Handle> := None;
    batches := [];
    for i := 0 to |pools|
      invariant extracted.pools == pools
      invariant Scan(pools[..i]) == Prep(meta.positions, range, handle, batches)
    {
      assert pools[..i + 1][..i] == pools[..i];
      range, handle, batches := PrepareOne(meta, pools[i], range, handle, batches);
    }
    assert pools[..|pools|] == pools;
    if !range.IsEmpty() {
      batches := batches + [Batch(handle.value, range)];
    }
  }

  // ---------------------------------------------------------------------------
  // Binding the buffer

  /** `size_of::<Vec4>()`: four `f32`s. */
  const VEC4_SIZE: nat := 16

  /**
   * The size `bind_buffer` gives its binding, element size times count, or
   * `None` where the zero size makes its non-zero conversion panic. The
   * missing-buffer panic of `bind_buffer` is not modelled.
   */
  function BindBufferSize(elementSize: nat, count: nat): (size: Option<nat>)
    ensures size.None? <==> elementSize == 0 || count == 0
    ensures size.Some? ==> size.value == elementSize * count && size.value > 0
  {
    if elementSize == 0 || count == 0 then None else Some(elementSize * count)
  }

  /** What `queue_bullets` does before queueing draws: return early, or bind the positions buffer with a given size. */
  datatype Queued = Skipped | Bound(bindingSize: nat)

  /**
   * The guards of `queue_bullets`: without a view binding or with an empty
   * positions buffer it returns early; otherwise it binds the whole buffer.
   * `None` would be a panic inside `bind_buffer`; the empty-buffer guard rules
   * it out.
   */
  function QueueBullets(hasViewBinding: bool, positions: seq<Vec4>): (r: Option<Queued>)
    ensures r.Some?
    ensures r.value.Skipped? <==> !hasViewBinding || positions == []
    ensures r.value.Bound? ==> r.value.bindingSize == VEC4_SIZE * |positions|
  {
    if !hasViewBinding then Some(Skipped)
    else if |positions| == 0 then Some(Skipped)
    else
      match BindBufferSize(VEC4_SIZE, |positions|)
      case None => None
      case Some(size) => Some(Bound(size))
  }
}
