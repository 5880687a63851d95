/** The block cache: a window of blocks, newest first, advanced and repaired one update at a time
    (library/src/caching/block_cache.rs). */
module BlockCaching {
  import opened Prelude
  import opened Chain

  datatype CacheState = CacheState(height: nat, daemonHeight: u64, blocks: seq<Block>)
  {
    /** Height of the oldest cached block. */
    function Bottom(): int { height - |blocks| + 1 }
  }

  /** Nonempty, not reaching below height 0, and slot i is the block at height - i. */
  ghost predicate ValidCache(c: CacheState)
  {
    && 1 <= |c.blocks| <= c.height + 1
    && forall i :: 0 <= i < |c.blocks| ==> c.blocks[i].height == c.height - i
  }

  ghost predicate LinkedFrom(blocks: seq<Block>, start: nat)
  {
    forall i :: start <= i < |blocks| - 1 ==> LinkAt(blocks, i)
  }

  predicate LinkAt(blocks: seq<Block>, i: nat)
    requires i + 1 < |blocks|
  {
    blocks[i].prevId == blocks[i + 1].hash
  }

  ghost predicate Linked(blocks: seq<Block>) { LinkedFrom(blocks, 0) }

  // ---------------------------------------------------------------------------
  // Repair and update, as functions of the state
  // ---------------------------------------------------------------------------

  /** Blocks after a walk, and the count it reports (none: a request failed half-way). */
  datatype Repair = Repair(blocks: seq<Block>, count: Option<nat>)

  /** The rest of the reorg walk from link i on, `updated` being the running count. */
  function RepairFrom(blocks: seq<Block>, height: nat, daemon: Daemon, i: nat, updated: nat): Repair
    requires 1 <= |blocks| <= height + 1
    decreases |blocks| - i
  {
    if i + 1 >= |blocks| then Repair(blocks, Some(updated))
    else if LinkAt(blocks, i) then RepairFrom(blocks, height, daemon, i + 1, updated)
    else
      match daemon(height - 1 - i)
      case None => Repair(blocks, None)
      case Some(f) =>
        RepairFrom(blocks[i + 1 := Cached(f, height - 1 - i)], height, daemon, i + 1, Max(updated, 1) + 1)
  }

  datatype CacheUpdate = CacheUpdate(cache: CacheState, count: Option<nat>)

  predicate Advances(c: CacheState, daemonHeight: u64) { c.height < SaturatingSub(daemonHeight, 1) }

  function Advance(c: CacheState, f: Fetched): CacheState
    requires |c.blocks| > 0
  {
    c.(height := c.height + 1, blocks := [Cached(f, c.height + 1)] + c.blocks[..|c.blocks| - 1])
  }

  function UpdateCache(c: CacheState, reported: Option<u64>, daemon: Daemon): CacheUpdate
    requires 1 <= |c.blocks| <= c.height + 1
  {
    match reported
    case None => CacheUpdate(c, None)
    case Some(d) =>
      var c := c.(daemonHeight := d);
      if Advances(c, d) then
        match daemon(c.height + 1)
        case None => CacheUpdate(c, None)
        case Some(f) =>
          var c := Advance(c, f);
          var r := RepairFrom(c.blocks, c.height, daemon, 0, 0);
          CacheUpdate(c.(blocks := r.blocks), if r.count.None? then None else Some(Max(1, r.count.value)))
      else
        var r := RepairFrom(c.blocks, c.height, daemon, 0, 0);
        CacheUpdate(c.(blocks := r.blocks), r.count)
  }

  // ---------------------------------------------------------------------------
  // The walk
  // ---------------------------------------------------------------------------

  /** The walk never changes the length, what lies at or above link i, or which height a slot stands for. */
  lemma {:induction false} RepairKeepsShape(blocks: seq<Block>, height: nat, daemon: Daemon, i: nat, updated: nat)
    requires 1 <= |blocks| <= height + 1
    requires forall k :: 0 <= k < |blocks| ==> blocks[k].height == height - k
    ensures var r := RepairFrom(blocks, height, daemon, i, updated);
            && |r.blocks| == |blocks|
            && (forall k :: 0 <= k < |blocks| ==> r.blocks[k].height == height - k)
            && (forall k :: 0 <= k <= i && k < |blocks| ==> r.blocks[k] == blocks[k])
    decreases |blocks| - i
  {
    if i + 1 >= |blocks| {
    } else if LinkAt(blocks, i) {
      RepairKeepsShape(blocks, height, daemon, i + 1, updated);
    } else {
      match daemon(height - 1 - i)
      case None =>
      case Some(f) =>
        RepairKeepsShape(blocks[i + 1 := Cached(f, height - 1 - i)], height, daemon, i + 1, Max(updated, 1) + 1);
    }
  }

  /** A linked remainder is left alone. */
  lemma {:induction false} RepairOfLinked(blocks: seq<Block>, height: nat, daemon: Daemon, i: nat, updated: nat)
    requires 1 <= |blocks| <= height + 1
    requires LinkedFrom(blocks, i)
    ensures RepairFrom(blocks, height, daemon, i, updated) == Repair(blocks, Some(updated))
    decreases |blocks| - i
  {
    if i + 1 < |blocks| {
      assert LinkAt(blocks, i);
      RepairOfLinked(blocks, height, daemon, i + 1, updated);
    }
  }

  /** Slot k holds what the daemon served in this update, because the block above did not link to the old one. */
  ghost predicate Replaced(now: seq<Block>, old_: seq<Block>, height: nat, daemon: Daemon, k: nat)
    requires 0 < k < |now| && k < |old_| && |now| <= height + 1
  {
    && daemon(height - k).Some?
    && now[k] == Cached(daemon(height - k).value, height - k)
    && now[k - 1].prevId != old_[k].hash
  }

  /** The running count when slots 1..i were all replaced and nothing else was. */
  function RunningCount(i: nat): nat { if i == 0 then 0 else i + 1 }

  /** With slots 1..i just replaced and everything below link i still linked, the walk replaces a further
      contiguous run of slots, and the count it reports is the end of that run. */
  lemma {:induction false} RepairIsContiguous(blocks: seq<Block>, height: nat, daemon: Daemon, i: nat)
    requires 1 <= |blocks| <= height + 1 && i < |blocks|
    requires LinkedFrom(blocks, i + 1)
    ensures var r := RepairFrom(blocks, height, daemon, i, RunningCount(i));
            r.count.Some? ==>
              && var n := r.count.value;
              && |r.blocks| == |blocks|
              && RunningCount(i) <= n <= |blocks|
              && (n == RunningCount(i) || n >= i + 2)
              && (forall k :: 0 <= k <= i ==> r.blocks[k] == blocks[k])
              && (forall k :: i < k < n ==> Replaced(r.blocks, blocks, height, daemon, k))
              && (forall k :: Max(n, i + 1) <= k < |blocks| ==> r.blocks[k] == blocks[k])
    decreases |blocks| - i
  {
    if i + 1 >= |blocks| {
    } else if LinkAt(blocks, i) {
      assert LinkedFrom(blocks, i);
      RepairOfLinked(blocks, height, daemon, i, RunningCount(i));
    } else {
      match daemon(height - 1 - i)
      case None =>
      case Some(f) =>
        var next := blocks[i + 1 := Cached(f, height - 1 - i)];
        forall k | i + 2 <= k < |next| - 1
          ensures LinkAt(next, k)
        {
          assert LinkAt(blocks, k);
        }
        RepairIsContiguous(next, height, daemon, i + 1);
        var r := RepairFrom(next, height, daemon, i + 1, RunningCount(i + 1));
        if r.count.Some? {
          forall k | i < k < r.count.value
            ensures Replaced(r.blocks, blocks, height, daemon, k)
          {
            if k > i + 1 { assert Replaced(r.blocks, next, height, daemon, k); }
          }
        }
    }
  }

  /** If moreover the daemon serves one chain, and slot i came from it, the walk leaves everything linked. */
  lemma {:induction false} RepairLinks(blocks: seq<Block>, height: nat, daemon: Daemon, i: nat)
    requires 1 <= |blocks| <= height + 1 && i < |blocks|
    requires ServesOneChain(daemon)
    requires daemon(height - i).Some? && blocks[i] == Cached(daemon(height - i).value, height - i)
    requires forall k :: 0 <= k < i ==> LinkAt(blocks, k)
    requires LinkedFrom(blocks, i + 1)
    ensures var r := RepairFrom(blocks, height, daemon, i, RunningCount(i));
            r.count.Some? ==> Linked(r.blocks)
    decreases |blocks| - i
  {
    if i + 1 >= |blocks| {
    } else if LinkAt(blocks, i) {
      assert LinkedFrom(blocks, i);
      RepairOfLinked(blocks, height, daemon, i, RunningCount(i));
    } else {
      match daemon(height - 1 - i)
      case None =>
      case Some(f) =>
        var next := blocks[i + 1 := Cached(f, height - 1 - i)];
        assert daemon((height - 1 - i) + 1) == daemon(height - i);
        forall k | 0 <= k < |next| - 1 && k != i + 1
          ensures LinkAt(next, k)
        {
          if k != i { assert LinkAt(blocks, k); }
        }
        RepairLinks(next, height, daemon, i + 1);
    }
  }

  // ---------------------------------------------------------------------------
  // The update
  // ---------------------------------------------------------------------------

  /** The block a cache held at a height of its window. */
  function BlockAt(c: CacheState, h: int): Block
    requires |c.blocks| > 0 && c.Bottom() <= h <= c.height
  {
    c.blocks[c.height - h]
  }

  /** The block is what the daemon serves at this height. */
  ghost predicate ServedBlock(b: Block, daemon: Daemon, h: nat)
  {
    && daemon(h).Some? && b.height == h
    && b.hash == daemon(h).value.hash && b.prevId == daemon(h).value.prevId && b.txs == daemon(h).value.txs
  }

  /** Slot i holds what the daemon served in this update. */
  ghost predicate FetchedSlot(c: CacheState, daemon: Daemon, i: nat)
    requires i < |c.blocks| <= c.height + 1
  {
    ServedBlock(c.blocks[i], daemon, c.height - i)
  }

  /** Slot i is the block the cache held before at that height. */
  ghost predicate KeptSlot(before: CacheState, after: CacheState, i: nat)
    requires i < |after.blocks| && |before.blocks| > 0 && before.Bottom() <= after.height - i <= before.height
  {
    after.blocks[i] == BlockAt(before, after.height - i)
  }

  /** Slot i's neighbour above does not link to the block the cache held before at slot i's height. */
  ghost predicate DisplacedSlot(before: CacheState, after: CacheState, i: nat)
    requires 0 < i < |after.blocks| && |before.blocks| > 0 && before.Bottom() <= after.height - i <= before.height
  {
    after.blocks[i - 1].prevId != BlockAt(before, after.height - i).hash
  }

  /** Slots 0..n-1 of the updated cache are exactly the ones fetched in this update: the head because the
      cache advanced, slot i >= 1 because slot i-1 did not link to the block held before at that height.
      Every slot from n on is the block the cache already held at that height. */
  ghost predicate ExactlyReplaced(before: CacheState, after: CacheState, daemon: Daemon, n: nat)
    requires ValidCache(before) && ValidCache(after) && |after.blocks| == |before.blocks|
    requires before.height <= after.height <= before.height + 1
  {
    && n <= |after.blocks|
    && (n > 0 <==> after.height == before.height + 1)
    && (forall i :: 0 <= i < n ==> FetchedSlot(after, daemon, i))
    && (forall i :: 1 <= i < n ==> DisplacedSlot(before, after, i))
    && (forall i :: n <= i < |after.blocks| ==> KeptSlot(before, after, i))
  }

  /** Shape of any update, failed or not: window length kept, height up by at most one, slots at height - i. */
  lemma UpdateKeepsShape(c: CacheState, reported: Option<u64>, daemon: Daemon)
    requires ValidCache(c)
    ensures var u := UpdateCache(c, reported, daemon);
            && ValidCache(u.cache)
            && |u.cache.blocks| == |c.blocks|
            && c.height <= u.cache.height <= c.height + 1
            && (u.count.Some? ==>
                  && reported.Some?
                  && u.cache.daemonHeight == reported.value
                  && (u.cache.height == c.height + 1 <==> Advances(c, reported.value)))
  {
    if reported.Some? {
      var c1 := c.(daemonHeight := reported.value);
      if Advances(c1, reported.value) {
        match daemon(c1.height + 1)
        case None =>
        case Some(f) =>
          var c2 := Advance(c1, f);
          RepairKeepsShape(c2.blocks, c2.height, daemon, 0, 0);
      } else {
        RepairKeepsShape(c1.blocks, c1.height, daemon, 0, 0);
      }
    }
  }

  lemma AdvanceBreaksOneLink(c: CacheState, f: Fetched)
    requires ValidCache(c) && Linked(c.blocks)
    ensures LinkedFrom(Advance(c, f).blocks, 1)
  {
    var blocks := Advance(c, f).blocks;
    forall k | 1 <= k < |blocks| - 1
      ensures LinkAt(blocks, k)
    {
      assert LinkAt(c.blocks, k - 1);
    }
  }

  /** An update that advanced: the walk's contiguous run of replacements, seen from the cache before. */
  lemma AdvancedCountIsExact(c: CacheState, f: Fetched, daemon: Daemon)
    requires ValidCache(c) && Linked(c.blocks) && daemon(c.height + 1) == Some(f)
    requires RepairFrom(Advance(c, f).blocks, c.height + 1, daemon, 0, 0).count.Some?
    ensures var r := RepairFrom(Advance(c, f).blocks, c.height + 1, daemon, 0, 0);
            var after := Advance(c, f).(blocks := r.blocks);
            && ValidCache(after) && |after.blocks| == |c.blocks|
            && ExactlyReplaced(c, after, daemon, Max(1, r.count.value))
            && (ServesOneChain(daemon) ==> Linked(after.blocks))
  {
    var c2 := Advance(c, f);
    AdvanceBreaksOneLink(c, f);
    RepairKeepsShape(c2.blocks, c2.height, daemon, 0, 0);
    RepairIsContiguous(c2.blocks, c2.height, daemon, 0);
    if ServesOneChain(daemon) { RepairLinks(c2.blocks, c2.height, daemon, 0); }
    var r := RepairFrom(c2.blocks, c2.height, daemon, 0, 0);
    var after := c2.(blocks := r.blocks);
    forall i | 0 <= i < Max(1, r.count.value)
      ensures FetchedSlot(after, daemon, i)
      ensures i > 0 ==> DisplacedSlot(c, after, i)
    {
      if i > 0 { assert Replaced(after.blocks, c2.blocks, c2.height, daemon, i); }
    }
  }

  /** Reorg count is exact. */
  lemma UpdateCountIsExact(c: CacheState, reported: Option<u64>, daemon: Daemon)
    requires ValidCache(c) && Linked(c.blocks)
    requires UpdateCache(c, reported, daemon).count.Some?
    ensures var u := UpdateCache(c, reported, daemon);
            && ValidCache(u.cache) && |u.cache.blocks| == |c.blocks|
            && c.height <= u.cache.height <= c.height + 1
            && ExactlyReplaced(c, u.cache, daemon, u.count.value)
    ensures ServesOneChain(daemon) ==> Linked(UpdateCache(c, reported, daemon).cache.blocks)
  {
    var c1 := c.(daemonHeight := reported.value);
    if Advances(c1, reported.value) {
      AdvancedCountIsExact(c1, daemon(c1.height + 1).value, daemon);
      SameWindow(c, c1, UpdateCache(c, reported, daemon).cache, daemon, UpdateCache(c, reported, daemon).count.value);
    } else {
      RepairOfLinked(c1.blocks, c1.height, daemon, 0, 0);
    }
  }

  /** The recorded daemon height plays no part. */
  lemma SameWindow(c: CacheState, c1: CacheState, after: CacheState, daemon: Daemon, n: nat)
    requires ValidCache(c) && ValidCache(c1) && c1.blocks == c.blocks && c1.height == c.height
    requires ValidCache(after) && |after.blocks| == |c.blocks| && c.height <= after.height <= c.height + 1
    requires ExactlyReplaced(c1, after, daemon, n)
    ensures ExactlyReplaced(c, after, daemon, n)
  {
    forall i | 1 <= i < n
      ensures DisplacedSlot(c, after, i)
    {
      assert DisplacedSlot(c1, after, i);
    }
    forall i | n <= i < |after.blocks|
      ensures KeptSlot(c, after, i)
    {
      assert KeptSlot(c1, after, i);
    }
  }

  /** When the daemon serves one chain, a slot below the head is counted exactly if its block really changed. */
  lemma CountedIffChanged(c: CacheState, reported: Option<u64>, daemon: Daemon, i: nat)
    requires ValidCache(c) && Linked(c.blocks) && ServesOneChain(daemon)
    requires UpdateCache(c, reported, daemon).count.Some?
    requires 1 <= i < |c.blocks|
    ensures var u := UpdateCache(c, reported, daemon);
            && |u.cache.blocks| == |c.blocks|
            && c.height <= u.cache.height <= c.height + 1
            && (i < u.count.value <==> u.cache.blocks[i].hash != BlockAt(c, u.cache.height - i).hash)
  {
    UpdateCountIsExact(c, reported, daemon);
    var u := UpdateCache(c, reported, daemon);
    assert LinkAt(u.cache.blocks, i - 1);
    if i < u.count.value {
      assert DisplacedSlot(c, u.cache, i);
    } else {
      assert KeptSlot(c, u.cache, i);
    }
  }

  /** The count covers what changed: every slot from n on is the block the cache already held at that height. */
  ghost predicate CountCovers(before: CacheState, after: CacheState, n: nat)
  {
    && 1 <= |before.blocks| == |after.blocks| && before.height <= after.height <= before.height + 1
    && (after.height == before.height + 1 ==> n >= 1)
    && forall i :: n <= i < |after.blocks| ==> KeptSlot(before, after, i)
  }

  lemma {:induction false} RepairCountFits(blocks: seq<Block>, height: nat, daemon: Daemon, i: nat, updated: nat)
    requires 1 <= |blocks| <= height + 1 && updated <= i + 1 && i < |blocks|
    ensures var r := RepairFrom(blocks, height, daemon, i, updated);
            |r.blocks| == |blocks| && (r.count.Some? ==> r.count.value <= |blocks|)
    decreases |blocks| - i
  {
    if i + 1 < |blocks| {
      if LinkAt(blocks, i) {
        RepairCountFits(blocks, height, daemon, i + 1, updated);
      } else {
        match daemon(height - 1 - i)
        case None =>
        case Some(f) =>
          RepairCountFits(blocks[i + 1 := Cached(f, height - 1 - i)], height, daemon, i + 1, Max(updated, 1) + 1);
      }
    }
  }

  /** Of any cache, linked or not, an update reports at most the window, and at least the new head. */
  lemma UpdateCountFits(c: CacheState, reported: Option<u64>, daemon: Daemon)
    requires ValidCache(c)
    ensures var u := UpdateCache(c, reported, daemon);
            && (u.count.Some? ==> u.count.value <= |u.cache.blocks|)
            && (u.count.Some? && u.cache.height == c.height + 1 ==> u.count.value >= 1)
  {
    if reported.Some? {
      var c1 := c.(daemonHeight := reported.value);
      if Advances(c1, reported.value) {
        match daemon(c1.height + 1)
        case None =>
        case Some(f) => RepairCountFits(Advance(c1, f).blocks, c1.height + 1, daemon, 0, 0);
      } else {
        RepairCountFits(c1.blocks, c1.height, daemon, 0, 0);
      }
    }
  }

  // ---------------------------------------------------------------------------
  // Agreement with the chain
  // ---------------------------------------------------------------------------

  datatype Contents = Contents(prevId: Hash, txs: seq<Tx>)

  /** The block's hash identifies its contents, `contents` being that correspondence. */
  predicate Authentic(b: Block, contents: Hash -> Contents) { contents(b.hash) == Contents(b.prevId, b.txs) }

  /** The daemon answers for every height in the range, with authentic blocks. */
  ghost predicate ServesAuthentic(daemon: Daemon, low: int, high: int, contents: Hash -> Contents)
  {
    forall h: nat :: low <= h <= high ==> daemon(h).Some? && Authentic(Cached(daemon(h).value, h), contents)
  }

  /** Slot k does not hold the block the daemon serves at its height. */
  ghost predicate IsStale(blocks: seq<Block>, height: nat, daemon: Daemon, k: nat)
    requires k < |blocks| <= height + 1
  {
    !ServedBlock(blocks[k], daemon, height - k)
  }

  /** The stale slots below link i. */
  ghost function Stale(blocks: seq<Block>, height: nat, daemon: Daemon, i: nat): set<nat>
    requires |blocks| <= height + 1
  {
    set k: nat | i < k < |blocks| && IsStale(blocks, height, daemon, k)
  }

  lemma StaleStep(blocks: seq<Block>, height: nat, daemon: Daemon, i: nat, b: Block)
    requires i + 1 < |blocks| <= height + 1
    ensures Stale(blocks[i + 1 := b], height, daemon, i + 1) == Stale(blocks, height, daemon, i + 1)
    ensures |Stale(blocks, height, daemon, i)| ==
            |Stale(blocks, height, daemon, i + 1)| + (if IsStale(blocks, height, daemon, i + 1) then 1 else 0)
  {
    var stale, next := Stale(blocks, height, daemon, i + 1), blocks[i + 1 := b];
    forall k: nat | i + 1 < k < |blocks|
      ensures IsStale(next, height, daemon, k) <==> IsStale(blocks, height, daemon, k)
    {
      assert next[k] == blocks[k];
    }
    if IsStale(blocks, height, daemon, i + 1) {
      assert Stale(blocks, height, daemon, i) == stale + {i + 1};
    } else {
      assert Stale(blocks, height, daemon, i) == stale;
    }
  }

  /** The running count after m more replacements. */
  function Bumped(updated: nat, m: nat): nat { if m == 0 then updated else Max(updated, 1) + m }

  lemma BumpedStep(updated: nat, m: nat)
    ensures Bumped(Max(updated, 1) + 1, m) == Bumped(updated, m + 1)
  {
  }

  /** From slot i on the blocks are the chain's. */
  ghost predicate ServedFrom(blocks: seq<Block>, height: nat, daemon: Daemon, i: nat)
    requires |blocks| <= height + 1
  {
    forall k :: i <= k < |blocks| ==> ServedBlock(blocks[k], daemon, height - k)
  }

  /** What the walk goes through against one chain: authentic blocks, of which the one in slot i is the chain's. */
  ghost predicate OnChainAt(blocks: seq<Block>, height: nat, daemon: Daemon, i: nat, contents: Hash -> Contents)
  {
    && 1 <= |blocks| <= height + 1 && i < |blocks| && ServesOneChain(daemon)
    && (forall k :: 0 <= k < |blocks| ==> blocks[k].height == height - k && Authentic(blocks[k], contents))
    && ServesAuthentic(daemon, height + 1 - |blocks|, height - 1, contents)
    && ServedBlock(blocks[i], daemon, height - i)
  }

  /** One step of the walk: the block below links up if and only if it is the chain's. */
  lemma WalkStep(blocks: seq<Block>, height: nat, daemon: Daemon, i: nat, contents: Hash -> Contents)
    requires OnChainAt(blocks, height, daemon, i, contents) && i + 1 < |blocks|
    ensures LinkAt(blocks, i) <==> !IsStale(blocks, height, daemon, i + 1)
    ensures daemon(height - 1 - i).Some?
    ensures LinkAt(blocks, i) ==> OnChainAt(blocks, height, daemon, i + 1, contents)
    ensures var below := Cached(daemon(height - 1 - i).value, height - 1 - i);
            OnChainAt(blocks[i + 1 := below], height, daemon, i + 1, contents)
  {
    var below := Cached(daemon(height - (i + 1)).value, height - (i + 1));
    assert ServedBlock(blocks[i], daemon, height - i);
    assert daemon((height - (i + 1)) + 1) == daemon(height - i);
    assert blocks[i].prevId == below.hash;
    assert Authentic(blocks[i + 1], contents) && Authentic(below, contents);
    assert LinkAt(blocks, i) ==> blocks[i + 1] == below;
  }

  /** Against one chain the walk ends with the chain's blocks. */
  lemma {:induction false} RepairServes(blocks: seq<Block>, height: nat, daemon: Daemon, i: nat, updated: nat,
                                        contents: Hash -> Contents)
    requires OnChainAt(blocks, height, daemon, i, contents)
    ensures var r := RepairFrom(blocks, height, daemon, i, updated);
            |r.blocks| == |blocks| && ServedFrom(r.blocks, height, daemon, i)
    decreases |blocks| - i
  {
    RepairKeepsShape(blocks, height, daemon, i, updated);
    if i + 1 < |blocks| {
      WalkStep(blocks, height, daemon, i, contents);
      if LinkAt(blocks, i) {
        RepairServes(blocks, height, daemon, i + 1, updated, contents);
      } else {
        var next := blocks[i + 1 := Cached(daemon(height - 1 - i).value, height - 1 - i)];
        RepairServes(next, height, daemon, i + 1, Max(updated, 1) + 1, contents);
      }
    }
  }

  /** ... and counts the stale ones it replaced. */
  lemma {:induction false} RepairCountsStale(blocks: seq<Block>, height: nat, daemon: Daemon, i: nat, updated: nat,
                                             contents: Hash -> Contents)
    requires OnChainAt(blocks, height, daemon, i, contents)
    ensures RepairFrom(blocks, height, daemon, i, updated).count ==
            Some(Bumped(updated, |Stale(blocks, height, daemon, i)|))
    decreases |blocks| - i
  {
    if i + 1 < |blocks| {
      WalkStep(blocks, height, daemon, i, contents);
      var below := Cached(daemon(height - 1 - i).value, height - 1 - i);
      StaleStep(blocks, height, daemon, i, below);
      if LinkAt(blocks, i) {
        RepairCountsStale(blocks, height, daemon, i + 1, updated, contents);
      } else {
        BumpedStep(updated, |Stale(blocks, height, daemon, i + 1)|);
        RepairCountsStale(blocks[i + 1 := below], height, daemon, i + 1, Max(updated, 1) + 1, contents);
      }
    } else {
      assert Stale(blocks, height, daemon, i) == {};
    }
  }

  /** Against one chain the walk replaces exactly the stale blocks, and counts them. */
  lemma RepairFollowsChain(blocks: seq<Block>, height: nat, daemon: Daemon, i: nat, updated: nat,
                           contents: Hash -> Contents)
    requires OnChainAt(blocks, height, daemon, i, contents)
    ensures var r := RepairFrom(blocks, height, daemon, i, updated);
            && r.count == Some(Bumped(updated, |Stale(blocks, height, daemon, i)|))
            && |r.blocks| == |blocks| && ServedFrom(r.blocks, height, daemon, i)
  {
    RepairServes(blocks, height, daemon, i, updated, contents);
    RepairCountsStale(blocks, height, daemon, i, updated, contents);
  }

  /** The cached block is the one the daemon serves at its height. */
  ghost predicate OnChain(b: Block, daemon: Daemon) { ServedBlock(b, daemon, b.height) }

  /** What an update against one chain starts from: an advance, with every hash standing for its contents. */
  ghost predicate MeetsChain(c: CacheState, reported: u64, daemon: Daemon, contents: Hash -> Contents)
  {
    && ValidCache(c) && Advances(c, reported) && ServesOneChain(daemon)
    && (forall k :: 0 <= k < |c.blocks| ==> Authentic(c.blocks[k], contents))
    && ServesAuthentic(daemon, c.height + 2 - |c.blocks|, c.height + 1, contents)
  }

  /** The block that was to become slot k of the new window is not the chain's. */
  ghost predicate WasStale(c: CacheState, daemon: Daemon, k: nat)
  {
    1 <= k < |c.blocks| && !OnChain(c.blocks[k - 1], daemon)
  }

  ghost function StaleSlots(c: CacheState, daemon: Daemon): set<nat>
  {
    set k: nat | k < |c.blocks| && WasStale(c, daemon, k)
  }

  /** The new head and the old blocks below it, as the walk finds them. */
  lemma AdvanceOntoChain(c: CacheState, reported: u64, daemon: Daemon, contents: Hash -> Contents)
    requires MeetsChain(c, reported, daemon, contents)
    ensures daemon(c.height + 1).Some?
    ensures var c2 := Advance(c.(daemonHeight := reported), daemon(c.height + 1).value);
            && OnChainAt(c2.blocks, c2.height, daemon, 0, contents)
            && Stale(c2.blocks, c2.height, daemon, 0) == StaleSlots(c, daemon)
  {
    var c2 := Advance(c.(daemonHeight := reported), daemon(c.height + 1).value);
    assert c2.blocks[0] == Cached(daemon(c2.height - 0).value, c2.height - 0);
    forall k: nat | 1 <= k < |c2.blocks|
      ensures c2.blocks[k].height == c2.height - k && Authentic(c2.blocks[k], contents)
      ensures IsStale(c2.blocks, c2.height, daemon, k) <==> WasStale(c, daemon, k)
    {
      assert c2.blocks[k] == c.blocks[k - 1];
    }
  }

  lemma UpdateAgainstChain(c: CacheState, reported: u64, daemon: Daemon, contents: Hash -> Contents)
    requires MeetsChain(c, reported, daemon, contents)
    ensures var u := UpdateCache(c, Some(reported), daemon);
            && u.count == Some(1 + |StaleSlots(c, daemon)|)
            && u.cache.height == c.height + 1
            && |u.cache.blocks| == |c.blocks|
            && forall i :: 0 <= i < |u.cache.blocks| ==> FetchedSlot(u.cache, daemon, i)
  {
    AdvanceOntoChain(c, reported, daemon, contents);
    var c2 := Advance(c.(daemonHeight := reported), daemon(c.height + 1).value);
    RepairFollowsChain(c2.blocks, c2.height, daemon, 0, 0, contents);
  }

  /** Cache agrees with chain: once the head advanced against a daemon that serves one chain, every slot is that
      chain's block, whatever the cache held before (it need not have been linked). */
  lemma UpdateAgreesWithChain(c: CacheState, reported: u64, daemon: Daemon, contents: Hash -> Contents)
    requires MeetsChain(c, reported, daemon, contents)
    ensures var u := UpdateCache(c, Some(reported), daemon);
            && u.count.Some?
            && u.cache.height == c.height + 1
            && |u.cache.blocks| == |c.blocks|
            && forall i :: 0 <= i < |u.cache.blocks| ==> FetchedSlot(u.cache, daemon, i)
  {
    UpdateAgainstChain(c, reported, daemon, contents);
  }

  /** No cached block that is the chain's lies above one that is not (the oldest, which leaves the window, aside). */
  ghost predicate ForkedOnce(c: CacheState, daemon: Daemon)
  {
    forall j, k :: 0 <= j < k < |c.blocks| - 1 && OnChain(c.blocks[j], daemon) ==> OnChain(c.blocks[k], daemon)
  }

  /** When the count can be trusted: of any cache, linked or not, that advances against one chain, every replaced slot
      is below the returned count if and only if no cached block that is the chain's lies above one that is not. */
  lemma CountCoversIff(c: CacheState, reported: u64, daemon: Daemon, contents: Hash -> Contents)
    requires MeetsChain(c, reported, daemon, contents)
    ensures var u := UpdateCache(c, Some(reported), daemon);
            && u.count.Some?
            && (CountCovers(c, u.cache, u.count.value) <==> ForkedOnce(c, daemon))
  {
    UpdateAgainstChain(c, reported, daemon, contents);
    var u := UpdateCache(c, Some(reported), daemon);
    var stale := StaleSlots(c, daemon);
    forall i: nat | 1 <= i < |c.blocks|
      ensures KeptSlot(c, u.cache, i) <==> i !in stale
    {
      assert i in stale <==> WasStale(c, daemon, i);
      KeptIffOnChain(c, u.cache, daemon, i);
    }
    GaplessIff(stale, 1);
    assert CountCovers(c, u.cache, 1 + |stale|) <==> forall i :: i in stale ==> i < 1 + |stale|;
    StaleForksOnce(c, daemon);
  }

  lemma KeptIffOnChain(c: CacheState, after: CacheState, daemon: Daemon, i: nat)
    requires ValidCache(c) && after.height == c.height + 1 && |after.blocks| == |c.blocks|
    requires 1 <= i < |c.blocks| && FetchedSlot(after, daemon, i)
    ensures KeptSlot(c, after, i) <==> OnChain(c.blocks[i - 1], daemon)
  {
    assert c.height - (i - 1) == after.height - i;
    assert BlockAt(c, after.height - i) == c.blocks[i - 1];
  }

  /** No gaps from lo on. */
  ghost predicate Gapless(s: set<nat>, lo: nat) { forall j, k :: lo <= j < k && k in s ==> j in s }

  /** The n numbers from lo on. */
  function Span(lo: nat, n: nat): (s: set<nat>)
    ensures |s| == n && forall k :: k in s <==> lo <= k < lo + n
  {
    if n == 0 then {} else Span(lo, n - 1) + {lo + n - 1}
  }

  /** A set of numbers from lo on lies within its own size exactly if it has no gaps. */
  lemma GaplessIff(s: set<nat>, lo: nat)
    requires forall i :: i in s ==> lo <= i
    ensures (forall i :: i in s ==> i < lo + |s|) <==> Gapless(s, lo)
  {
    if forall i :: i in s ==> i < lo + |s| {
      SubsetSize(s, Span(lo, |s|));
      assert s == Span(lo, |s|);
    }
    if Gapless(s, lo) {
      forall i | i in s
        ensures i < lo + |s|
      {
        SubsetSize(Span(lo, i - lo + 1), s);
      }
    }
  }

  lemma StaleForksOnce(c: CacheState, daemon: Daemon)
    requires ValidCache(c)
    ensures Gapless(StaleSlots(c, daemon), 1) <==> ForkedOnce(c, daemon)
  {
    var stale := StaleSlots(c, daemon);
    if Gapless(stale, 1) {
      forall j, k | 0 <= j < k < |c.blocks| - 1 && OnChain(c.blocks[j], daemon)
        ensures OnChain(c.blocks[k], daemon)
      {
        assert !WasStale(c, daemon, j + 1);
        assert j + 1 !in stale && k + 1 !in stale;
        assert !WasStale(c, daemon, k + 1);
      }
    }
    if ForkedOnce(c, daemon) {
      forall j, k | 1 <= j < k && k in stale
        ensures j in stale
      {
        assert WasStale(c, daemon, k);
        assert WasStale(c, daemon, j);
      }
    }
  }

  // ---------------------------------------------------------------------------
  // An update without a new block
  // ---------------------------------------------------------------------------

  /** Link j is the first that is broken. */
  ghost predicate FirstBroken(blocks: seq<Block>, j: nat)
  {
    j + 1 < |blocks| && !LinkAt(blocks, j) && forall i :: 0 <= i < j ==> LinkAt(blocks, i)
  }

  lemma FindBroken(blocks: seq<Block>) returns (j: nat)
    requires !Linked(blocks)
    ensures FirstBroken(blocks, j)
  {
    var k: nat :| k + 1 < |blocks| && !LinkAt(blocks, k);
    j := 0;
    while LinkAt(blocks, j)
      invariant j <= k && forall i :: 0 <= i < j ==> LinkAt(blocks, i)
      decreases k - j
    {
      j := j + 1;
    }
  }

  lemma {:induction false} WalkSkips(blocks: seq<Block>, height: nat, daemon: Daemon, i: nat, j: nat)
    requires 1 <= |blocks| <= height + 1 && i <= j < |blocks| && forall k :: i <= k < j ==> LinkAt(blocks, k)
    ensures RepairFrom(blocks, height, daemon, i, 0) == RepairFrom(blocks, height, daemon, j, 0)
    decreases j - i
  {
    if i < j { WalkSkips(blocks, height, daemon, i + 1, j); }
  }

  /** An update that finds no new block, against one chain, with every hash standing for its contents. */
  ghost predicate MeetsChainAgain(c: CacheState, reported: u64, daemon: Daemon, contents: Hash -> Contents)
  {
    && ValidCache(c) && !Advances(c, reported) && ServesOneChain(daemon)
    && (forall k :: 0 <= k < |c.blocks| ==> Authentic(c.blocks[k], contents))
    && ServesAuthentic(daemon, c.Bottom(), c.height - 1, contents)
  }

  /** The walk comes to the first broken link with nothing counted, and goes on from the block it fetches there. */
  lemma WalkBreaks(c: CacheState, reported: u64, daemon: Daemon, j: nat)
    requires ValidCache(c) && !Advances(c, reported) && FirstBroken(c.blocks, j) && daemon(c.height - 1 - j).Some?
    ensures var next := c.blocks[j + 1 := Cached(daemon(c.height - 1 - j).value, c.height - 1 - j)];
            var r := RepairFrom(next, c.height, daemon, j + 1, 2);
            UpdateCache(c, Some(reported), daemon) ==
            CacheUpdate(c.(daemonHeight := reported, blocks := r.blocks), r.count)
  {
    WalkSkips(c.blocks, c.height, daemon, 0, j);
  }

  lemma FetchedBelowBreak(c: CacheState, reported: u64, daemon: Daemon, contents: Hash -> Contents, j: nat)
    requires MeetsChainAgain(c, reported, daemon, contents) && j + 1 < |c.blocks|
    ensures daemon(c.height - 1 - j).Some?
    ensures var next := c.blocks[j + 1 := Cached(daemon(c.height - 1 - j).value, c.height - 1 - j)];
            OnChainAt(next, c.height, daemon, j + 1, contents)
  {
    assert c.Bottom() <= c.height - 1 - j <= c.height - 1;
    assert daemon(c.height - 1 - j) == daemon(c.height - (j + 1));
  }

  /** Below the first broken link the update leaves the chain's blocks; its count is one for the head, one for the block
      below the break, and one for each stale block further down. */
  lemma UpdateAgain(c: CacheState, reported: u64, daemon: Daemon, contents: Hash -> Contents, j: nat)
    requires MeetsChainAgain(c, reported, daemon, contents) && FirstBroken(c.blocks, j)
    ensures var u := UpdateCache(c, Some(reported), daemon);
            && u.count == Some(2 + |Stale(c.blocks, c.height, daemon, j + 1)|)
            && u.cache.height == c.height && |u.cache.blocks| == |c.blocks|
            && (forall k :: 0 <= k <= j ==> u.cache.blocks[k] == c.blocks[k])
            && ServedFrom(u.cache.blocks, c.height, daemon, j + 1)
  {
    FetchedBelowBreak(c, reported, daemon, contents, j);
    WalkBreaks(c, reported, daemon, j);
    var below := Cached(daemon(c.height - 1 - j).value, c.height - 1 - j);
    var next := c.blocks[j + 1 := below];
    StaleStep(c.blocks, c.height, daemon, j, below);
    RepairKeepsShape(next, c.height, daemon, j + 1, 2);
    RepairFollowsChain(next, c.height, daemon, j + 1, 2, contents);
  }

  /** From slot i on every block is the chain's. */
  ghost predicate OnChainFrom(c: CacheState, daemon: Daemon, i: nat)
  {
    forall k :: i <= k < |c.blocks| ==> OnChain(c.blocks[k], daemon)
  }

  /** From slot i on no block that is the chain's lies above one that is not. */
  ghost predicate ForkedOnceFrom(c: CacheState, daemon: Daemon, i: nat)
  {
    forall j, k :: i <= j < k < |c.blocks| && OnChain(c.blocks[j], daemon) ==> OnChain(c.blocks[k], daemon)
  }

  /** Which slots an update without a new block changes: the stale ones below the first broken link. */
  lemma ChangedAgain(c: CacheState, after: CacheState, daemon: Daemon, j: nat, k: nat)
    requires ValidCache(c) && after.height == c.height && |after.blocks| == |c.blocks| && k < |c.blocks|
    requires (forall i :: 0 <= i <= j && i < |c.blocks| ==> after.blocks[i] == c.blocks[i])
    requires ServedFrom(after.blocks, c.height, daemon, j + 1)
    ensures KeptSlot(c, after, k) <==> k <= j || !IsStale(c.blocks, c.height, daemon, k)
  {
    assert BlockAt(c, after.height - k) == c.blocks[k];
    if k > j { assert ServedBlock(after.blocks[k], daemon, c.height - k); }
  }

  /** The count 2 + |deeper| reaches every stale slot exactly if there is none, or the break is at the head and the
      deeper ones follow it without a gap. */
  lemma ReachesIff(deeper: set<nat>, j: nat, here: bool)
    requires forall k :: k in deeper ==> k > j + 1
    ensures ((here ==> j + 1 < 2 + |deeper|) && forall k :: k in deeper ==> k < 2 + |deeper|) <==>
            (!here && deeper == {}) || (j == 0 && Gapless(deeper, 2))
  {
    GaplessIff(deeper, 2);
    if j > 0 && Gapless(deeper, 2) {
      assert forall k :: k in deeper ==> 2 in deeper;
      assert deeper == {};
    }
  }

  /** When the count can be trusted without a new block: the cache is linked; or every slot below the first broken
      link is the chain's already; or the first broken link is the head's, and from slot 2 on no block that is the
      chain's lies above one that is not. */
  ghost predicate CountIsSafe(c: CacheState, daemon: Daemon)
  {
    Linked(c.blocks) ||
    exists j: nat ::
      FirstBroken(c.blocks, j) && (OnChainFrom(c, daemon, j + 1) || (j == 0 && ForkedOnceFrom(c, daemon, 2)))
  }

  lemma StaleOrOnChain(c: CacheState, daemon: Daemon, j: nat)
    requires ValidCache(c) && j + 1 < |c.blocks|
    ensures OnChainFrom(c, daemon, j + 1) <==>
            !IsStale(c.blocks, c.height, daemon, j + 1) && Stale(c.blocks, c.height, daemon, j + 1) == {}
    ensures j == 0 ==> (ForkedOnceFrom(c, daemon, 2) <==> Gapless(Stale(c.blocks, c.height, daemon, 1), 2))
  {
    forall k: nat | k < |c.blocks|
      ensures IsStale(c.blocks, c.height, daemon, k) <==> !OnChain(c.blocks[k], daemon)
    {
    }
    var stale := Stale(c.blocks, c.height, daemon, j + 1);
    if OnChainFrom(c, daemon, j + 1) {
      assert forall k: nat :: j + 1 < k < |c.blocks| ==> !IsStale(c.blocks, c.height, daemon, k);
    }
    if !IsStale(c.blocks, c.height, daemon, j + 1) && stale == {} {
      forall k | j + 1 <= k < |c.blocks|
        ensures OnChain(c.blocks[k], daemon)
      {
        if k > j + 1 { assert k !in stale; }
      }
    }
    if j == 0 { GaplessIsForkedOnce(c, daemon); }
  }

  lemma GaplessIsForkedOnce(c: CacheState, daemon: Daemon)
    requires ValidCache(c)
    ensures ForkedOnceFrom(c, daemon, 2) <==> Gapless(Stale(c.blocks, c.height, daemon, 1), 2)
  {
    var stale := Stale(c.blocks, c.height, daemon, 1);
    forall k: nat | 1 < k < |c.blocks|
      ensures k in stale <==> !OnChain(c.blocks[k], daemon)
    {
      assert IsStale(c.blocks, c.height, daemon, k) <==> !OnChain(c.blocks[k], daemon);
    }
    if ForkedOnceFrom(c, daemon, 2) {
      forall j, k | 2 <= j < k && k in stale
        ensures j in stale
      {
        assert !OnChain(c.blocks[k], daemon);
        assert !OnChain(c.blocks[j], daemon);
      }
    }
    if Gapless(stale, 2) {
      forall j, k | 2 <= j < k < |c.blocks| && OnChain(c.blocks[j], daemon)
        ensures OnChain(c.blocks[k], daemon)
      {
        assert j !in stale && k !in stale;
      }
    }
  }

  lemma OnlyOneFirst(blocks: seq<Block>, i: nat, j: nat)
    requires FirstBroken(blocks, i) && FirstBroken(blocks, j)
    ensures i == j
  {
  }

  /** When the count can be trusted, for an update that finds no new block. */
  lemma CountCoversAgainIff(c: CacheState, reported: u64, daemon: Daemon, contents: Hash -> Contents)
    requires MeetsChainAgain(c, reported, daemon, contents)
    ensures var u := UpdateCache(c, Some(reported), daemon);
            && u.count.Some?
            && (CountCovers(c, u.cache, u.count.value) <==> CountIsSafe(c, daemon))
  {
    if Linked(c.blocks) {
      RepairOfLinked(c.blocks, c.height, daemon, 0, 0);
      UpdateCountIsExact(c, Some(reported), daemon);
    } else {
      var j := FindBroken(c.blocks);
      BrokenCoversIff(c, reported, daemon, contents, j);
      if CountIsSafe(c, daemon) {
        var i: nat :| FirstBroken(c.blocks, i) &&
                      (OnChainFrom(c, daemon, i + 1) || (i == 0 && ForkedOnceFrom(c, daemon, 2)));
        OnlyOneFirst(c.blocks, i, j);
      }
    }
  }

  lemma BrokenCoversIff(c: CacheState, reported: u64, daemon: Daemon, contents: Hash -> Contents, j: nat)
    requires MeetsChainAgain(c, reported, daemon, contents) && FirstBroken(c.blocks, j)
    ensures var u := UpdateCache(c, Some(reported), daemon);
            && u.count.Some?
            && (CountCovers(c, u.cache, u.count.value) <==>
                OnChainFrom(c, daemon, j + 1) || (j == 0 && ForkedOnceFrom(c, daemon, 2)))
  {
    UpdateAgain(c, reported, daemon, contents, j);
    var u := UpdateCache(c, Some(reported), daemon);
    var deeper, here := Stale(c.blocks, c.height, daemon, j + 1), IsStale(c.blocks, c.height, daemon, j + 1);
    ReachesIff(deeper, j, here);
    StaleOrOnChain(c, daemon, j);
    CoversAgain(c, u.cache, daemon, j);
  }

  lemma CoversAgain(c: CacheState, after: CacheState, daemon: Daemon, j: nat)
    requires ValidCache(c) && after.height == c.height && |after.blocks| == |c.blocks| && j + 1 < |c.blocks|
    requires (forall i :: 0 <= i <= j ==> after.blocks[i] == c.blocks[i])
    requires ServedFrom(after.blocks, c.height, daemon, j + 1)
    ensures var deeper := Stale(c.blocks, c.height, daemon, j + 1);
            CountCovers(c, after, 2 + |deeper|) <==>
            && (IsStale(c.blocks, c.height, daemon, j + 1) ==> j + 1 < 2 + |deeper|)
            && forall k :: k in deeper ==> k < 2 + |deeper|
  {
    var deeper := Stale(c.blocks, c.height, daemon, j + 1);
    forall k: nat | k < |c.blocks|
      ensures KeptSlot(c, after, k) <==>
              k <= j || (k == j + 1 && !IsStale(c.blocks, c.height, daemon, k)) || (k > j + 1 && k !in deeper)
    {
      ChangedAgain(c, after, daemon, j, k);
      if k > j + 1 { assert k in deeper <==> IsStale(c.blocks, c.height, daemon, k); }
    }
  }

  // ---------------------------------------------------------------------------
  // Start-up height and synchronisation
  // ---------------------------------------------------------------------------

  /** The height the cache starts at. */
  function StartHeight(stored: Option<u64>, initial: Option<u64>, daemonHeight: u64, cacheSize: nat): int
  {
    var wanted :=
      if stored.Some? then stored.value
      else if initial.Some? then initial.value
      else daemonHeight;
    Max(Min(wanted, daemonHeight), cacheSize) - 1
  }

  /** `height` is one below `wanted`, brought down to the daemon's height and up to the size of the cache. */
  ghost predicate OneBelow(height: int, wanted: nat, daemonHeight: nat, cacheSize: nat)
  {
    && (wanted <= cacheSize || daemonHeight <= cacheSize ==> height == cacheSize - 1)
    && (cacheSize < wanted <= daemonHeight ==> height == wanted - 1)
    && (cacheSize < daemonHeight <= wanted ==> height == daemonHeight - 1)
  }

  /** The cache starts one below the stored height; without one, one below the height asked for; without either, at the
      daemon's top block; in each case within the daemon's chain and with room for the window. */
  lemma StartHeightIs(stored: Option<u64>, initial: Option<u64>, daemonHeight: u64, cacheSize: nat)
    ensures stored.Some? ==>
              OneBelow(StartHeight(stored, initial, daemonHeight, cacheSize), stored.value, daemonHeight, cacheSize)
    ensures stored.None? && initial.Some? ==>
              OneBelow(StartHeight(stored, initial, daemonHeight, cacheSize), initial.value, daemonHeight, cacheSize)
    ensures stored.None? && initial.None? ==>
              OneBelow(StartHeight(stored, initial, daemonHeight, cacheSize), daemonHeight, daemonHeight, cacheSize)
  {
  }

  predicate IsSynchronized(c: CacheState) { c.height >= SaturatingSub(c.daemonHeight, 1) }

  /** A run of successful updates against a daemon that keeps reporting the same height. */
  ghost predicate UpdateRun(states: seq<CacheState>, daemons: seq<Daemon>, daemonHeight: u64)
  {
    && |states| == |daemons| + 1
    && ValidCache(states[0])
    && states[0].daemonHeight == daemonHeight
    && (forall k :: 0 <= k < |states| ==> ValidCache(states[k]))
    && forall k :: 0 <= k < |daemons| ==>
         UpdateCache(states[k], Some(daemonHeight), daemons[k]) ==
           CacheUpdate(states[k + 1], UpdateCache(states[k], Some(daemonHeight), daemons[k]).count)
         && UpdateCache(states[k], Some(daemonHeight), daemons[k]).count.Some?
  }

  /** With a fixed daemon height the cache is synchronised after exactly max(0, daemonHeight - 1 - height) updates. */
  lemma {:induction false} SynchronizesOnTime(states: seq<CacheState>, daemons: seq<Daemon>, daemonHeight: u64, k: nat)
    requires UpdateRun(states, daemons, daemonHeight) && k < |states|
    ensures states[k].daemonHeight == daemonHeight
    ensures states[k].height == Max(states[0].height, Min(states[0].height + k, daemonHeight - 1))
    ensures IsSynchronized(states[k]) <==> k >= daemonHeight - 1 - states[0].height
  {
    if k > 0 {
      SynchronizesOnTime(states, daemons, daemonHeight, k - 1);
      UpdateKeepsShape(states[k - 1], Some(daemonHeight), daemons[k - 1]);
      assert UpdateCache(states[k - 1], Some(daemonHeight), daemons[k - 1]).cache == states[k - 1 + 1];
    }
  }

  /** The start height leaves room for a full window, which lies on the daemon's chain if that is long enough. */
  lemma StartHeightFitsWindow(stored: Option<u64>, initial: Option<u64>, daemonHeight: u64, cacheSize: nat)
    requires cacheSize >= 1
    ensures StartHeight(stored, initial, daemonHeight, cacheSize) >= cacheSize - 1
    ensures cacheSize <= daemonHeight ==> StartHeight(stored, initial, daemonHeight, cacheSize) < daemonHeight
    ensures cacheSize > daemonHeight ==> StartHeight(stored, initial, daemonHeight, cacheSize) == cacheSize - 1
  {
  }

  /** No subtraction underflows: a linked cache never reports more blocks than lie above height 0, so the
      deepest updated height (height - count + 1) is computed without wrapping and lies in the window. */
  lemma DeepestUpdateDoesNotUnderflow(c: CacheState, reported: Option<u64>, daemon: Daemon)
    requires ValidCache(c) && Linked(c.blocks)
    requires UpdateCache(c, reported, daemon).count.Some?
    ensures var u := UpdateCache(c, reported, daemon);
            && 0 <= u.cache.height - u.count.value
            && 0 <= u.cache.Bottom() <= u.cache.height - u.count.value + 1 <= u.cache.height + 1
  {
    UpdateCountIsExact(c, reported, daemon);
  }

  // ---------------------------------------------------------------------------
  // The cache as an object
  // ---------------------------------------------------------------------------

  lemma PushAndPop(blocks: seq<Block>, b: Block)
    requires |blocks| > 0
    ensures ([b] + blocks)[..|blocks|] == [b] + blocks[..|blocks| - 1]
  {
  }

  class BlockCache {
    var height: nat
    var daemonHeight: u64
    var blocks: seq<Block>

    function State(): CacheState
      reads this
    {
      CacheState(height, daemonHeight, blocks)
    }

    ghost predicate Valid()
      reads this
    {
      ValidCache(State())
    }

    constructor (height: nat, daemonHeight: u64, blocks: seq<Block>)
      ensures State() == CacheState(height, daemonHeight, blocks)
    {
      this.height, this.daemonHeight, this.blocks := height, daemonHeight, blocks;
    }

    /** Fill the window downwards from `height`; fails with the first failing request. */
    static method LoadBlocks(daemon: Daemon, cacheSize: nat, height: nat) returns (r: Option<seq<Block>>)
      requires cacheSize <= height + 1
      ensures r.None? <==> exists h: nat :: height - cacheSize < h <= height && daemon(h).None?
      ensures r.Some? ==> |r.value| == cacheSize
      ensures r.Some? && cacheSize >= 1 ==> forall d: u64 :: ValidCache(CacheState(height, d, r.value))
      ensures r.Some? ==> forall i :: 0 <= i < cacheSize ==> ServedBlock(r.value[i], daemon, height - i)
      ensures r.Some? && ServesOneChain(daemon) ==> Linked(r.value)
    {
      var loaded: seq<Block> := [];
      for i := 0 to cacheSize
        invariant |loaded| == i
        invariant forall k :: 0 <= k < i ==> ServedBlock(loaded[k], daemon, height - k)
      {
        var answer := daemon(height - i);
        if answer.None? { return None; }
        loaded := loaded + [Cached(answer.value, height - i)];
      }
      forall h: nat | height - cacheSize < h <= height
        ensures daemon(h).Some?
      {
        assert ServedBlock(loaded[height - h], daemon, height - (height - h));
      }
      if ServesOneChain(daemon) {
        forall k | 0 <= k < |loaded| - 1
          ensures LinkAt(loaded, k)
        {
          assert ServedBlock(loaded[k], daemon, height - k);
          assert ServedBlock(loaded[k + 1], daemon, height - (k + 1));
          assert daemon((height - (k + 1)) + 1) == daemon(height - k);
        }
      }
      return Some(loaded);
    }

    /** Walk the links, newest first, re-fetching the lower block of every broken one. */
    method CheckAndFixReorg(daemon: Daemon) returns (count: Option<nat>)
      requires Valid()
      modifies this`blocks
      ensures var r := RepairFrom(old(blocks), height, daemon, 0, 0);
              blocks == r.blocks && count == r.count
    {
      var updated: nat := 0;
      for i := 0 to |blocks| - 1
        invariant |blocks| == |old(blocks)|
        invariant RepairFrom(old(blocks), height, daemon, 0, 0) == RepairFrom(blocks, height, daemon, i, updated)
      {
        if blocks[i].prevId != blocks[i + 1].hash {
          var answer := daemon(height - 1 - i);
          if answer.None? { return None; }
          blocks := blocks[i + 1 := Cached(answer.value, height - 1 - i)];
          updated := Max(updated, 1);
          updated := updated + 1;
        }
      }
      return Some(updated);
    }

    /** Advance by one block if there is one, then repair; returns the number of blocks updated. */
    method Update(reported: Option<u64>, daemon: Daemon) returns (count: Option<nat>)
      requires Valid()
      modifies this
      ensures Valid()
      ensures CacheUpdate(State(), count) == UpdateCache(old(State()), reported, daemon)
    {
      UpdateKeepsShape(State(), reported, daemon);
      var updated := 0;
      if reported.None? { return None; }
      daemonHeight := reported.value;
      if height < SaturatingSub(reported.value, 1) {
        var answer := daemon(height + 1);
        if answer.None? { return None; }
        PushAndPop(blocks, Cached(answer.value, height + 1));
        blocks := [Cached(answer.value, height + 1)] + blocks;
        blocks := blocks[..|blocks| - 1];
        height := height + 1;
        updated := updated + 1;
        assert State() == Advance(old(State()).(daemonHeight := reported.value), answer.value);
      }
      var fixed := CheckAndFixReorg(daemon);
      if fixed.None? { return None; }
      return Some(Max(updated, fixed.value));
    }
  }
}
