/**
 * The snapshot `extract_bullets` takes of every bullet pool, and the ordering
 * by texture handle that `prepare_bullets` puts those snapshots in.
 */
module RenderExtract {
  import opened Geometry
  import opened Pool

  /** `ExtractedBulletPool`: copies of a pool's positions and rotations, and its texture. */
  datatype ExtractedPool = ExtractedPool(positions: seq<Vec2>, rotations: seq<real>, handle: Handle)

  /** The `ExtractedBulletPools` resource. */
  class ExtractedBulletPools {
    var pools: seq<ExtractedPool>

    constructor ()
      ensures pools == []
    {
      pools := [];
    }
  }

  /**
   * `extract_bullets`: the previous extraction is discarded and replaced by one
   * entry per pool, in query order, each a verbatim copy of that pool's
   * positions, rotations and handle.
   */
  method ExtractBullets(extracted: ExtractedBulletPools, pools: seq<BulletPool>)
    modifies extracted
    ensures |extracted.pools| == |pools|
    ensures forall i :: 0 <= i < |pools| ==>
      extracted.pools[i] == ExtractedPool(pools[i].Positions(), pools[i].Rotations(), pools[i].handle)
  {
    extracted.pools := [];
    for i := 0 to |pools|
      invariant |extracted.pools| == i
      invariant forall k :: 0 <= k < i ==>
        extracted.pools[k] == ExtractedPool(pools[k].Positions(), pools[k].Rotations(), pools[k].handle)
    {
      var p := pools[i];
      extracted.pools := extracted.pools + [ExtractedPool(p.Positions(), p.Rotations(), p.handle)];
    }
  }

  // ---------------------------------------------------------------------------
  // Ordering by handle

  predicate SortedByHandle(pools: seq<ExtractedPool>)
  {
    forall i, j :: 0 <= i < j < |pools| ==> pools[i].handle <= pools[j].handle
  }

  /** Places `p` before the first entry whose handle is not smaller, so it stays ahead of entries with the same handle. */
  function Insert(p: ExtractedPool, sorted: seq<ExtractedPool>): (r: seq<ExtractedPool>)
    requires SortedByHandle(sorted)
    ensures SortedByHandle(r)
    ensures multiset(r) == multiset(sorted) + multiset{p}
    ensures |r| == |sorted| + 1
    ensures r[0] == p || (sorted != [] && r[0] == sorted[0])
    decreases |sorted|
  {
    if sorted == [] || p.handle <= sorted[0].handle then
      SortedCons(p, sorted);
      [p] + sorted
    else
      var rest := Insert(p, sorted[1..]);
      assert sorted == [sorted[0]] + sorted[1..];
      SortedCons(sorted[0], rest);
      [sorted[0]] + rest
  }

  lemma SortedCons(p: ExtractedPool, sorted: seq<ExtractedPool>)
    requires SortedByHandle(sorted)
    requires sorted != [] ==> p.handle <= sorted[0].handle
    ensures SortedByHandle([p] + sorted)
  {
    var r := [p] + sorted;
    forall i, j | 0 <= i < j < |r|
      ensures r[i].handle <= r[j].handle
    {
      assert r[j] == sorted[j - 1];
      if i == 0 {
        assert sorted[0].handle <= sorted[j - 1].handle;
      } else {
        assert r[i] == sorted[i - 1];
      }
    }
  }

  /**
   * The sort of the extracted pools by texture handle: the same pools, as a
   * permutation, in ascending handle order.
   */
  function SortByHandle(pools: seq<ExtractedPool>): (r: seq<ExtractedPool>)
    ensures SortedByHandle(r)
    ensures multiset(r) == multiset(pools)
    ensures |r| == |pools|
    decreases |pools|
  {
    if pools == [] then []
    else
      assert pools == [pools[0]] + pools[1..];
      Insert(pools[0], SortByHandle(pools[1..]))
  }

  /** Sorting an already sorted list of pools leaves it as it is. */
  lemma {:induction false} SortSortedIsIdentity(pools: seq<ExtractedPool>)
    requires SortedByHandle(pools)
    ensures SortByHandle(pools) == pools
    decreases |pools|
  {
    if pools != [] {
      var rest := pools[1..];
      assert SortedByHandle(rest) by {
        forall i, j | 0 <= i < j < |rest|
          ensures rest[i].handle <= rest[j].handle
        {
          assert rest[i] == pools[i + 1] && rest[j] == pools[j + 1];
        }
      }
      SortSortedIsIdentity(rest);
      if rest != [] {
        assert pools[0].handle <= pools[1].handle;
      }
      assert pools == [pools[0]] + rest;
    }
  }
}
