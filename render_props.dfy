/**
 * What the batching of `prepare_bullets` guarantees: the buffer and vertex
 * counts it reaches, ranges that tile the vertex space without overlap, one
 * batch per texture change, and increasing textures once the pools are sorted.
 */
module BatchProperties {
  import opened Wrappers
  import opened Geometry
  import opened Pool
  import opened RenderExtract
  import opened Render

  /** Bullets over all pools, counted by positions (the `total` of `prepare_bullets`). */
  function TotalPositions(pools: seq<ExtractedPool>): nat
    decreases |pools|
  {
    if pools == [] then 0 else TotalPositions(pools[..|pools| - 1]) + |pools[|pools| - 1].positions|
  }

  /** Entries the zip pushes over all pools. */
  function TotalPacked(pools: seq<ExtractedPool>): nat
    decreases |pools|
  {
    if pools == [] then 0
    else
      var p := pools[|pools| - 1];
      TotalPacked(pools[..|pools| - 1]) + Min(|p.positions|, |p.rotations|)
  }

  /** `batches` cover `from..to` in order, each starting where the previous ended. */
  predicate Tiles(batches: seq<Batch>, from: nat, to: nat)
    decreases |batches|
  {
    if batches == [] then from == to
    else
      && batches[0].range.start == from
      && batches[0].range.start <= batches[0].range.end
      && Tiles(batches[1..], batches[0].range.end, to)
  }

  lemma {:induction false} TilesAppend(batches: seq<Batch>, from: nat, mid: nat, b: Batch)
    requires Tiles(batches, from, mid)
    requires b.range.start == mid <= b.range.end
    ensures Tiles(batches + [b], from, b.range.end)
    decreases |batches|
  {
    if batches == [] {
      assert ([] + [b])[1..] == [];
    } else {
      assert (batches + [b])[1..] == batches[1..] + [b];
      TilesAppend(batches[1..], batches[0].range.end, mid, b);
    }
  }

  /** Tiling ranges lie inside `from..to` and never overlap. */
  lemma {:induction false} TilesDisjoint(batches: seq<Batch>, from: nat, to: nat)
    requires Tiles(batches, from, to)
    ensures from <= to
    ensures forall i :: 0 <= i < |batches| ==> from <= batches[i].range.start <= batches[i].range.end <= to
    ensures forall i, j :: 0 <= i < j < |batches| ==> batches[i].range.end <= batches[j].range.start
    decreases |batches|
  {
    if batches != [] {
      var rest := batches[1..];
      TilesDisjoint(rest, batches[0].range.end, to);
      forall i | 0 < i < |batches|
        ensures batches[0].range.end <= batches[i].range.start
      {
        assert batches[i] == rest[i - 1];
      }
      forall i, j | 0 < i < j < |batches|
        ensures batches[i].range.end <= batches[j].range.start
      {
        assert batches[i] == rest[i - 1] && batches[j] == rest[j - 1];
      }
    }
  }

  /**
   * After the loop the buffer holds as many entries as the zips push over all pools, `range.end`
   * is six vertices per position over all pools, and the batches spawned so far
   * tile `0..range.start`.
   */
  lemma {:induction false} ScanLayout(pools: seq<ExtractedPool>)
    ensures |Scan(pools).buffer| == TotalPacked(pools)
    ensures Scan(pools).range.end == VERTICES_PER_BULLET * TotalPositions(pools)
    ensures Tiles(Scan(pools).batches, 0, Scan(pools).range.start)
    decreases |pools|
  {
    if pools != [] {
      var init := pools[..|pools| - 1];
      ScanLayout(init);
      var s := Scan(init);
      var pool := pools[|pools| - 1];
      if s.handle.Some? && s.handle.value != pool.handle {
        TilesAppend(s.batches, 0, s.range.start, Batch(s.handle.value, s.range));
      }
    }
  }

  /**
   * The buffer's contents: pool `k`'s `i`-th zipped pair sits right after the
   * entries of the pools before it, as `(x, y, rotation, 0)`.
   */
  lemma {:induction false} BufferEntries(pools: seq<ExtractedPool>, k: nat, i: nat)
    requires k < |pools| && i < Min(|pools[k].positions|, |pools[k].rotations|)
    ensures TotalPacked(pools[..k]) + i < |Scan(pools).buffer|
    ensures Scan(pools).buffer[TotalPacked(pools[..k]) + i] ==
      Vec4(pools[k].positions[i].x, pools[k].positions[i].y, pools[k].rotations[i], 0.0)
    decreases |pools|
  {
    var init := pools[..|pools| - 1];
    ScanLayout(pools);
    ScanLayout(init);
    if k == |pools| - 1 {
      assert pools[..k] == init;
    } else {
      assert init[..k] == pools[..k];
      BufferEntries(init, k, i);
      assert init[k] == pools[k];
    }
  }

  /** All the batches spawned tile the vertex space `0..6 * total` exactly, without gaps or overlap. */
  lemma BatchesTile(pools: seq<ExtractedPool>)
    ensures Tiles(Batches(pools), 0, VERTICES_PER_BULLET * TotalPositions(pools))
    ensures forall i, j :: 0 <= i < j < |Batches(pools)| ==> Batches(pools)[i].range.end <= Batches(pools)[j].range.start
  {
    ScanLayout(pools);
    var s := Scan(pools);
    if !s.range.IsEmpty() {
      TilesAppend(s.batches, 0, s.range.start, Batch(s.handle.value, s.range));
    }
    TilesDisjoint(Batches(pools), 0, VERTICES_PER_BULLET * TotalPositions(pools));
  }

  /** When every pool holds as many rotations as positions, the vertex count is six per buffer entry. */
  lemma {:induction false} MatchedPoolsRange(pools: seq<ExtractedPool>)
    requires forall i :: 0 <= i < |pools| ==> |pools[i].positions| == |pools[i].rotations|
    ensures Scan(pools).range.end == VERTICES_PER_BULLET * |Scan(pools).buffer|
    decreases |pools|
  {
    ScanLayout(pools);
    TotalsAgree(pools);
  }

  lemma {:induction false} TotalsAgree(pools: seq<ExtractedPool>)
    requires forall i :: 0 <= i < |pools| ==> |pools[i].positions| == |pools[i].rotations|
    ensures TotalPacked(pools) == TotalPositions(pools)
    decreases |pools|
  {
    if pools != [] {
      TotalsAgree(pools[..|pools| - 1]);
    }
  }

  /** Positions `i` where the handle differs from the previous pool's. */
  function Changes(pools: seq<ExtractedPool>): nat
    decreases |pools|
  {
    if |pools| < 2 then 0
    else Changes(pools[..|pools| - 1]) + if pools[|pools| - 2].handle != pools[|pools| - 1].handle then 1 else 0
  }

  /** A batch is flushed at every change of handle, whether or not its range is empty. */
  lemma {:induction false} ScanFlushes(pools: seq<ExtractedPool>)
    ensures |Scan(pools).batches| == Changes(pools)
    decreases |pools|
  {
    if pools != [] {
      var init := pools[..|pools| - 1];
      ScanFlushes(init);
      if |pools| >= 2 {
        assert init[|init| - 1] == pools[|pools| - 2];
      }
    }
  }

  /** When the last pool holds bullets, the final range is spawned too: one batch per run of equal handles. */
  lemma BatchCount(pools: seq<ExtractedPool>)
    requires pools != [] && |pools[|pools| - 1].positions| > 0
    ensures |Batches(pools)| == Changes(pools) + 1
  {
    ScanFlushes(pools);
    var init := pools[..|pools| - 1];
    assert Scan(init).range.start <= Scan(init).range.end;
  }

  /**
   * Over pools sorted by handle every batch handle is smaller than the current
   * handle, and the batches' handles strictly increase.
   */
  predicate HandlesBelow(batches: seq<Batch>, h: Handle)
  {
    forall i :: 0 <= i < |batches| ==> batches[i].handle < h
  }

  predicate HandlesIncrease(batches: seq<Batch>)
  {
    forall i, j :: 0 <= i < j < |batches| ==> batches[i].handle < batches[j].handle
  }

  lemma {:induction false} ScanSortedHandles(pools: seq<ExtractedPool>)
    requires SortedByHandle(pools)
    ensures pools != [] ==> HandlesBelow(Scan(pools).batches, Scan(pools).handle.value)
    ensures HandlesIncrease(Scan(pools).batches)
    decreases |pools|
  {
    if pools != [] {
      var init := pools[..|pools| - 1];
      assert SortedByHandle(init) by {
        forall i, j | 0 <= i < j < |init|
          ensures init[i].handle <= init[j].handle
        {
          assert init[i] == pools[i] && init[j] == pools[j];
        }
      }
      ScanSortedHandles(init);
      var s0, pool := Scan(init), pools[|pools| - 1];
      var s := Scan(pools);
      assert s == PrepStep(s0, pool);
      if init != [] {
        var h0 := s0.handle.value;
        assert h0 == pools[|pools| - 2].handle <= pool.handle;
        if h0 != pool.handle {
          assert s.batches == s0.batches + [Batch(h0, s0.range)];
          forall i | 0 <= i < |s.batches|
            ensures s.batches[i].handle < pool.handle
          {
            if i < |s0.batches| { assert s.batches[i] == s0.batches[i]; }
          }
          forall i, j | 0 <= i < j < |s.batches|
            ensures s.batches[i].handle < s.batches[j].handle
          {
            assert s.batches[i] == s0.batches[i];
            if j < |s0.batches| { assert s.batches[j] == s0.batches[j]; }
          }
        } else {
          assert s.batches == s0.batches && s.handle == s0.handle;
        }
      } else {
        assert s.batches == [];
      }
    }
  }

  /** Once the pools are sorted, each texture is drawn by at most one batch: the batches' handles strictly increase. */
  lemma SortedBatchHandles(pools: seq<ExtractedPool>)
    requires SortedByHandle(pools)
    ensures HandlesIncrease(Batches(pools))
  {
    ScanSortedHandles(pools);
    var s := Scan(pools);
    if !s.range.IsEmpty() {
      var all := Batches(pools);
      assert all == s.batches + [Batch(s.handle.value, s.range)];
      forall i, j | 0 <= i < j < |all|
        ensures all[i].handle < all[j].handle
      {
        assert all[i] == s.batches[i];
        if j < |s.batches| {
          assert all[j] == s.batches[j];
        } else {
          assert s.batches[i].handle < s.handle.value;
        }
      }
    }
  }

  /** An empty pool followed by another texture still flushes an empty batch; an empty final range is not spawned. */
  lemma EmptyRanges(p: Vec2, r: real)
    ensures Batches([ExtractedPool([], [], 1), ExtractedPool([p], [r], 2)]) == [Batch(1, Range(0, 0)), Batch(2, Range(0, 6))]
    ensures Batches([ExtractedPool([p], [r], 1), ExtractedPool([], [], 1)]) == [Batch(1, Range(0, 6))]
    ensures Batches([ExtractedPool([], [], 1)]) == []
  {
    var a := [ExtractedPool([], [], 1), ExtractedPool([p], [r], 2)];
    assert a[..1] == [ExtractedPool([], [], 1)];
    assert Scan(a[..1]) == Prep([], Range(0, 0), Some(1), []);
    var b := [ExtractedPool([p], [r], 1), ExtractedPool([], [], 1)];
    assert b[..1] == [ExtractedPool([p], [r], 1)];
    assert Scan(b[..1]).range == Range(0, 6);
  }
}
