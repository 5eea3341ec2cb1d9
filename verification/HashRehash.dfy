/** The rehash worker, cut where it may drop the table lock: start, one bucket
    at a time, and the three ways to end. */
module HashRehash {
  import opened Queues
  import opened HashTable
  import opened HashOps

  // ---------------------------------------------------------------- start

  lemma GrowBlocks(g: Geometry, s: State, more: seq<nat>)
    requires Blocks(s) && s.rehash == [] && more != []
    requires NoDup(more) && forall a :: a in more ==> a !in s.mem
    ensures Blocks(s.(rehash := s.buckets + more, mem := s.mem + NewBlocks(g, |s.buckets|, more)))
  {
    NewBlocksAre(g, |s.buckets|, more);
    var s' := s.(rehash := s.buckets + more, mem := s.mem + NewBlocks(g, |s.buckets|, more));
    assert Full(s') == s.buckets + more && Full(s) == s.buckets;
  }

  lemma ShrinkBlocks(s: State, n: nat)
    requires Blocks(s) && s.rehash == [] && n <= |s.buckets|
    ensures Blocks(s.(rehash := s.buckets[..n]))
  {
  }

  /** New, empty buckets change nothing about the items. */
  lemma GrowListed(g: Geometry, s: State, where: map<Item, Pos>, more: seq<nat>)
    requires Listed(s.mem, where, g.nlists)
    requires NoDup(more) && forall a :: a in more ==> a !in s.mem
    ensures Listed(s.mem + NewBlocks(g, |s.buckets|, more), where, g.nlists)
  {
    NewBlocksAre(g, |s.buckets|, more);
    var blocks := NewBlocks(g, |s.buckets|, more);
    var mem' := s.mem + blocks;
    forall a | a in mem' ensures BucketOk(mem'[a], g.nlists) && (a in blocks ==> Empty(mem'[a])) {
      if a in blocks {
        var k :| 0 <= k < |more| && more[k] == a;
        TotalZero(NewBucket(g, |s.buckets| + k).lists);
      }
    }
    forall x | x in where ensures OnList(mem', x, where[x]) {
      assert OnList(s.mem, x, where[x]);
    }
    forall x, p | OnList(mem', x, p) ensures x in where && where[x] == p {
      assert p.bucket !in blocks;
      assert OnList(s.mem, x, p);
    }
  }

  ghost predicate ReadyToStart(g: Geometry, s: State, t: Track) {
    Inv(g, s, t) && s.rehash == [] && s.rehashBits > 0 && !t.aborted
  }

  /** When a rehash starts every item is still at its old position. */
  lemma StartHomes(g: Geometry, s: State, t: Track, s': State)
    requires ReadyToStart(g, s, t)
    requires s' == s.(rehash := s'.rehash, mem := s'.mem) && s'.rehash != [] && Sizes(g, s')
    ensures Homes(g, s', t)
  {
  }

  lemma StartGrowing(g: Geometry, s: State, t: Track, more: seq<nat>)
    requires ReadyToStart(g, s, t) && more != [] && |s.buckets| + |more| == g.size(s.rehashBits)
    requires NoDup(more) && forall a :: a in more ==> a !in s.mem
    ensures Inv(g, s.(rehash := s.buckets + more, mem := s.mem + NewBlocks(g, |s.buckets|, more)), t)
  {
    GrowBlocks(g, s, more);
    GrowListed(g, s, t.where, more);
    StartHomes(g, s, t, s.(rehash := s.buckets + more, mem := s.mem + NewBlocks(g, |s.buckets|, more)));
  }

  lemma StartShrinking(g: Geometry, s: State, t: Track)
    requires ReadyToStart(g, s, t) && g.size(s.rehashBits) <= |s.buckets|
    ensures Inv(g, s.(rehash := s.buckets[..g.size(s.rehashBits)]), t)
  {
    ShrinkBlocks(s, g.size(s.rehashBits));
    StartHomes(g, s, t, s.(rehash := s.buckets[..g.size(s.rehashBits)]));
  }

  // ---------------------------------------------------------------- one bucket

  /** After a bucket is dealt with, nothing in it is out of place. */
  lemma BucketDone(g: Geometry, s: State, t: Track, c: State, u: Track)
    requires Inv(g, s, t) && s.rehash != [] && t.done < |s.buckets|
    requires Inv(g, c, u) && ListsOnly(s, c) && u == t.(where := Rehomed(g, s, t.where, s.buckets[t.done]))
    ensures Inv(g, c, u.(done := t.done + 1))
  {
  }

  // ---------------------------------------------------------------- the end

  /** The table after the swap at the end of `cfs_hash_rehash_worker`. */
  function Swapped(s: State, mem': map<nat, Bucket>): State {
    s.(buckets := s.rehash, rehash := [], curBits := s.rehashBits, rehashBits := 0, mem := mem')
  }

  /** The buckets the new table has no use for. */
  ghost function Dropped(s: State): set<nat> {
    set i | |s.rehash| <= i < |s.buckets| :: s.buckets[i]
  }

  /** All items have moved. */
  lemma AllMoved(g: Geometry, s: State, t: Track)
    requires Inv(g, s, t) && s.rehash != [] && t.done == |s.buckets|
    ensures forall x :: x in t.where ==> t.where[x] == NewPos(g, s, x.key)
  {
  }

  /** A dropped bucket is not part of the new table. */
  lemma DroppedApart(s: State, a: nat)
    requires Blocks(s) && a in Dropped(s)
    ensures a in s.mem && a !in s.rehash
  {
  }

  /** Every bucket freed at the end is empty. */
  lemma DroppedEmpty(g: Geometry, s: State, t: Track, a: nat)
    requires Inv(g, s, t) && s.rehash != [] && t.done == |s.buckets| && a in Dropped(s)
    ensures a in s.mem && a !in s.rehash && Empty(s.mem[a])
  {
    DroppedApart(s, a);
    AllMoved(g, s, t);
    forall x | x in t.where ensures t.where[x].bucket != a {
      assert s.rehash[g.slot(x.key, s.rehashBits)] in s.rehash;
    }
    forall o | 0 <= o < |s.mem[a].lists| ensures s.mem[a].lists[o] == [] {
      assert s.mem[a].lists[o] != [] ==> OnList(s.mem, s.mem[a].lists[o][0], Pos(a, o));
    }
  }

  lemma SwapBlocks(s: State, keep: map<nat, Bucket>)
    requires Blocks(s) && s.rehash != [] && keep == s.mem - Dropped(s)
    ensures Blocks(Swapped(s, keep))
  {
  }

  lemma SwapListed(g: Geometry, s: State, where: map<Item, Pos>)
    requires Listed(s.mem, where, g.nlists)
    requires forall a :: a in Dropped(s) && a in s.mem ==> Empty(s.mem[a])
    ensures Listed(s.mem - Dropped(s), where, g.nlists)
  {
    var keep := s.mem - Dropped(s);
    forall x | x in where ensures OnList(keep, x, where[x]) {
      assert OnList(s.mem, x, where[x]);
    }
    forall x, p | OnList(keep, x, p) ensures x in where && where[x] == p {
      assert OnList(s.mem, x, p);
    }
  }

  /** The normal end: all items are found in the new table, and the memory that
      is freed is exactly the empty buckets the new table does not use. */
  lemma FinishOk(g: Geometry, s: State, t: Track)
    requires Inv(g, s, t) && s.rehash != [] && t.done == |s.buckets|
    ensures Inv(g, Swapped(s, s.mem - Dropped(s)), t.(done := 0))
  {
    var keep := s.mem - Dropped(s);
    forall a | a in Dropped(s) && a in s.mem ensures Empty(s.mem[a]) {
      DroppedEmpty(g, s, t, a);
    }
    SwapBlocks(s, keep);
    SwapListed(g, s, t.where);
    AllMoved(g, s, t);
    var s', t' := Swapped(s, keep), t.(done := 0);
    assert Sizes(g, s');
    forall x | x in t.where ensures Home(g, s', t', x.key, t.where[x]) {
      assert t.where[x] == NewPos(g, s, x.key);
    }
  }

  /** Aborting while growing: the new table is the one that holds every bucket. */
  lemma AbortGrowing(g: Geometry, s: State, t: Track)
    requires Inv(g, s, t) && s.rehash != [] && s.exiting && |s.buckets| < |s.rehash|
    ensures Inv(g, Swapped(s, s.mem), t.(done := 0, aborted := true))
  {
  }

  /** Aborting while shrinking: the old table is the one that holds every bucket. */
  lemma AbortShrinking(g: Geometry, s: State, t: Track)
    requires Inv(g, s, t) && s.rehash != [] && s.exiting && |s.rehash| <= |s.buckets|
    ensures Inv(g, s.(rehash := [], rehashBits := 0), t.(done := 0, aborted := true))
  {
  }
}
