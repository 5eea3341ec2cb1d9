/** The end of a hash table: `cfs_hash_destroy` once no rehash is on. */
module HashDestroy {
  import opened Queues
  import opened HashTable
  import opened HashOps

  /** The items `gone` have left the table, each once. */
  ghost predicate Gone(t: Track, gone: seq<Item>, t': Track) {
    NoDup(gone) && Members(gone) <= t.where.Keys && t' == t.(where := t.where - Members(gone))
  }

  lemma GoneMore(t: Track, gone: seq<Item>, t': Track, more: seq<Item>, t'': Track)
    requires Gone(t, gone, t') && Gone(t', more, t'')
    ensures Gone(t, gone + more, t'')
  {
    forall x | x in more ensures x !in gone {
      assert x in Members(more) && x in t'.where;
    }
    NoDupConcat(gone, more);
    assert Members(gone + more) == Members(gone) + Members(more);
  }

  lemma GoneNothing(t: Track)
    ensures Gone(t, [], t)
  {
  }

  lemma GoneOne(t: Track, x: Item)
    requires x in t.where
    ensures Gone(t, [x], t.(where := t.where - {x}))
  {
    assert Members([x]) == {x};
  }

  lemma GoneIs(t: Track, gone: seq<Item>, t': Track)
    requires Gone(t, gone, t')
    ensures forall x :: x in t'.where <==> x in t.where && x !in gone
    ensures forall x :: x in t'.where ==> t'.where[x] == t.where[x]
  {
  }

  lemma OnItsList(g: Geometry, s: State, t: Track, x: Item)
    requires Inv(g, s, t) && x in t.where
    ensures OnList(s.mem, x, t.where[x])
  {
  }

  /** One node off its list. */
  method EmptyOne(g: Geometry, s: State, ghost t: Track, p: Pos, x: Item) returns (s': State, ghost t': Track)
    requires Inv(g, s, t) && x in t.where && t.where[x] == p
    ensures Inv(g, s', t') && ListsOnly(s, s') && Gone(t, [x], t')
  {
    hide Inv, Gone, ListsOnly, TotalLength, Minus;
    OnItsList(g, s, t, x);
    DelAtOk(g, s, t, p, x);
    TakeShape(s, p, x);
    GoneOne(t, x);
    s' := DelAt(s, p, x);
    t' := t.(where := t.where - {x});
  }

  /** The innermost loop empties a list. */
  method EmptyList(g: Geometry, s: State, ghost t: Track, p: Pos) returns (s': State, ghost t': Track, gone: seq<Item>)
    requires Inv(g, s, t) && p.bucket in s.mem && p.offset < g.nlists
    ensures Inv(g, s', t') && ListsOnly(s, s') && Gone(t, gone, t')
    ensures forall x :: x in t'.where ==> t.where[x] != p
  {
    hide Inv, Gone, ListsOnly;
    OnThisList(g, s, t, p);
    var list := s.mem[p.bucket].lists[p.offset];
    s', t', gone := s, t, [];
    GoneNothing(t);
    ListsSame(s);
    for k := 0 to |list|
      invariant Inv(g, s', t') && ListsOnly(s, s') && Gone(t, gone, t') && gone == list[..k]
    {
      NoDupFront(list, k);
      GoneIs(t, gone, t');
      ghost var c, u := s', t';
      s', t' := EmptyOne(g, s', t', p, list[k]);
      ListsOnlyTwice(s, c, s');
      GoneMore(t, gone, u, [list[k]], t');
      gone := gone + [list[k]];
    }
    assert gone == list;
    GoneIs(t, gone, t');
  }

  /** The lists of a bucket one after another. */
  method EmptyBucket(g: Geometry, s: State, ghost t: Track, b: nat)
    returns (s': State, ghost t': Track, gone: seq<Item>)
    requires Inv(g, s, t) && b in s.mem
    ensures Inv(g, s', t') && ListsOnly(s, s') && Gone(t, gone, t')
    ensures forall x :: x in t'.where ==> t.where[x].bucket != b
  {
    hide Inv, Gone, ListsOnly;
    OffsetsBounded(g, s, t);
    s', t', gone := s, t, [];
    GoneNothing(t);
    ListsSame(s);
    GoneIs(t, gone, t');
    for o := 0 to g.nlists
      invariant Inv(g, s', t') && ListsOnly(s, s') && Gone(t, gone, t')
      invariant forall x :: x in t'.where ==> x in t.where && t.where[x] == t'.where[x]
      invariant forall x :: x in t'.where && t'.where[x].bucket == b ==> t'.where[x].offset >= o
    {
      SameBuckets(s, s');
      ghost var c, u := s', t';
      var more;
      s', t', more := EmptyList(g, s', t', Pos(b, o));
      ListsOnlyTwice(s, c, s');
      GoneIs(u, more, t');
      GoneMore(t, gone, u, more, t');
      gone := gone + more;
    }
  }

  lemma SameBuckets(s: State, s': State)
    requires ListsOnly(s, s')
    ensures s'.mem.Keys == s.mem.Keys && s'.buckets == s.buckets && s'.rehash == s.rehash
  {
  }

  lemma NothingOn(g: Geometry, s: State, t: Track, b: nat)
    requires Inv(g, s, t) && b in s.mem && forall x :: x in t.where ==> t.where[x].bucket != b
    ensures s.mem[b].count == 0
  {
    assert BucketOk(s.mem[b], g.nlists);
    forall o | 0 <= o < |s.mem[b].lists| ensures s.mem[b].lists[o] == [] {
      assert s.mem[b].lists[o] != [] ==> OnList(s.mem, s.mem[b].lists[o][0], Pos(b, o));
    }
    TotalZero(s.mem[b].lists);
  }

  lemma BucketsAll(g: Geometry, s: State, t: Track)
    requires Inv(g, s, t) && s.rehash == []
    ensures forall a :: a in s.mem <==> a in s.buckets
    ensures forall x :: x in t.where ==> t.where[x].bucket in s.buckets
    ensures s.count == |t.where|
  {
    forall x | x in t.where ensures t.where[x].bucket in s.buckets {
      OnItsList(g, s, t, x);
    }
  }

  /** Every bucket in turn. */
  method EmptyAll(g: Geometry, s: State, ghost t: Track) returns (s': State, ghost t': Track, gone: seq<Item>)
    requires Inv(g, s, t) && s.rehash == []
    ensures Inv(g, s', t') && ListsOnly(s, s') && Gone(t, gone, t') && t'.where == map[]
  {
    hide Inv, Gone, ListsOnly;
    BucketsAll(g, s, t);
    s', t', gone := s, t, [];
    GoneNothing(t);
    ListsSame(s);
    for i := 0 to |s.buckets|
      invariant Inv(g, s', t') && ListsOnly(s, s') && Gone(t, gone, t')
      invariant forall x :: x in t'.where ==> x in t.where && t.where[x] == t'.where[x]
      invariant forall x :: x in t'.where ==> t'.where[x].bucket !in s.buckets[..i]
    {
      SameBuckets(s, s');
      assert s.buckets[i] in s.buckets && s.buckets[..i + 1] == s.buckets[..i] + [s.buckets[i]];
      ghost var c, u := s', t';
      var more;
      s', t', more := EmptyBucket(g, s', t', s.buckets[i]);
      ListsOnlyTwice(s, c, s');
      GoneIs(u, more, t');
      GoneMore(t, gone, u, more, t');
      gone := gone + more;
    }
    assert s.buckets[..|s.buckets|] == s.buckets;
  }

  /** Destruction, be it after an aborted rehash: every item leaves the table
      exactly once, the counts come down to 0, and every bucket is freed. */
  method Destroy(g: Geometry, s: State, ghost t: Track) returns (s': State, gone: seq<Item>, mem': map<nat, Bucket>)
    requires Inv(g, s, t) && s.rehash == []
    ensures NoDup(gone) && Members(gone) == t.where.Keys
    ensures s'.count == 0 && s'.mem.Keys == s.mem.Keys && forall a :: a in s'.mem ==> s'.mem[a].count == 0
    ensures mem' == map[]
  {
    hide Inv, ListsOnly;
    ghost var t';
    s', t', gone := EmptyAll(g, s, t);
    GoneIs(t, gone, t');
    SameBuckets(s, s');
    forall a | a in s'.mem ensures s'.mem[a].count == 0 {
      NothingOn(g, s', t', a);
    }
    BucketsAll(g, s', t');
    mem' := BucketsFree(s'.mem, s'.buckets, 0, |s'.buckets|);
  }
}
