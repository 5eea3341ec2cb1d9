/** The operations of the libcfs hash table on the table object. Each is one
    section under the table lock; the rehash worker is cut where it may drop
    that lock. All keep `Valid()`, whatever the order they come in. */
module HashOps {
  import opened Queues
  import opened HashTable
  import opened Options

  // ---------------------------------------------------------------- the two positions of a key

  /** `cfs_hash_bd_compare`: by bucket index, then by offset. */
  predicate Before(s: State, p: Pos, q: Pos)
    requires p.bucket in s.mem && q.bucket in s.mem
  {
    var i, j := s.mem[p.bucket].index, s.mem[q.bucket].index;
    i < j || (i == j && p.offset < q.offset)
  }

  /** `cfs_hash_bd_order`: both positions in locking order, or one if they are the same. */
  function Ordered(s: State, a: Pos, b: Pos): seq<Pos>
    requires a.bucket in s.mem && b.bucket in s.mem
  {
    if Before(s, a, b) then [a, b] else if Before(s, b, a) then [b, a] else [a]
  }

  /** Both positions and no others; a second one is in a strictly later bucket,
      or later in the same bucket, so locks are always taken in index order. */
  lemma OrderedIs(s: State, a: Pos, b: Pos)
    requires a.bucket in s.mem && b.bucket in s.mem
    requires s.mem[a.bucket].index == s.mem[b.bucket].index <==> a.bucket == b.bucket
    ensures forall p :: p in Ordered(s, a, b) <==> p == a || p == b
    ensures var bds := Ordered(s, a, b);
            && 1 <= |bds| <= 2
            && (|bds| == 2 ==> Before(s, bds[0], bds[1]))
            && (|bds| == 2 && bds[0].bucket != bds[1].bucket ==>
                  s.mem[bds[0].bucket].index < s.mem[bds[1].bucket].index)
  {
  }

  /** `cfs_hash_dual_bd_get`: the current and the future position of a key. */
  function DualGet(g: Geometry, s: State, key: nat): seq<Pos>
    requires Sizes(g, s)
    requires OldPos(g, s, key).bucket in s.mem && NewPos(g, s, key).bucket in s.mem
  {
    Ordered(s, OldPos(g, s, key), NewPos(g, s, key))
  }

  /** A bucket's index identifies it. */
  lemma SameIndex(s: State, a: nat, b: nat)
    requires Blocks(s) && a in s.mem && b in s.mem
    ensures s.mem[a].index == s.mem[b].index <==> a == b
  {
  }

  lemma DualGetIs(g: Geometry, s: State, t: Track, key: nat)
    requires Inv(g, s, t)
    ensures IsPos(s.mem, OldPos(g, s, key)) && IsPos(s.mem, NewPos(g, s, key))
    ensures |DualGet(g, s, key)| > 0
    ensures forall p :: p in DualGet(g, s, key) ==> IsPos(s.mem, p)
    ensures OldPos(g, s, key) in DualGet(g, s, key) && NewPos(g, s, key) in DualGet(g, s, key)
  {
    PosExists(g, s, t, key);
    var a, b := OldPos(g, s, key), NewPos(g, s, key);
    SameIndex(s, a.bucket, b.bucket);
    OrderedIs(s, a, b);
  }

  /** Whatever the rehash has done so far, an item with this key is on one of
      the lists of its two positions. */
  lemma DualCovers(g: Geometry, s: State, t: Track, x: Item)
    requires Inv(g, s, t) && !t.aborted && x in t.where
    ensures OldPos(g, s, x.key).bucket in s.mem && NewPos(g, s, x.key).bucket in s.mem
    ensures t.where[x] in DualGet(g, s, x.key) && OnList(s.mem, x, t.where[x])
  {
    DualGetIs(g, s, t, x.key);
    assert Home(g, s, t, x.key, t.where[x]);
  }

  /** What a scan of the lists `bds` found. */
  ghost predicate Scanned(mem: map<nat, Bucket>, bds: seq<Pos>, key: nat, only: Option<Item>, r: Option<Item>, p: Pos) {
    && (r.Some? ==> p in bds && OnList(mem, r.value, p) && r.value.key == key && (only.Some? ==> r == only))
    && (r.None? ==> forall x, q :: q in bds && OnList(mem, x, q) && x.key == key ==> only.Some? && x != only.value)
  }

  /** Scanning the lists of both positions is searching the whole table. */
  lemma ScanMeaning(g: Geometry, s: State, t: Track, bds: seq<Pos>, key: nat, only: Option<Item>, r: Option<Item>,
                    p: Pos)
    requires Inv(g, s, t) && !t.aborted
    requires OldPos(g, s, key).bucket in s.mem && NewPos(g, s, key).bucket in s.mem
    requires bds == DualGet(g, s, key) && Scanned(s.mem, bds, key, only, r, p)
    ensures r.Some? ==> r.value in t.where && r.value.key == key && (only.Some? ==> r == only) && t.where[r.value] == p
    ensures r.None? ==> forall x :: x in t.where && x.key == key ==> only.Some? && x != only.value
  {
    if r.None? {
      forall x | x in t.where && x.key == key ensures only.Some? && x != only.value {
        DualCovers(g, s, t, x);
      }
    }
  }

  /** The loop of `cfs_hash_bd_lookup_intent`: the first item of the list with
      the key, and with the identity `only` asks for. */
  method ScanList(list: seq<Item>, key: nat, only: Option<Item>) returns (r: Option<Item>)
    ensures r.Some? ==> r.value in list && r.value.key == key && (only.Some? ==> r == only)
    ensures r.None? ==> forall x :: x in list && x.key == key ==> only.Some? && x != only.value
  {
    for i := 0 to |list|
      invariant forall j :: 0 <= j < i && list[j].key == key ==> only.Some? && list[j] != only.value
    {
      if list[i].key == key && (only.None? || only.value == list[i]) {
        return Some(list[i]);
      }
    }
    r := None;
  }

  /** `cfs_hash_multi_bd_lookup_locked` and the search part of its siblings:
      the lists of `bds` one after the other. */
  method MultiScan(mem: map<nat, Bucket>, bds: seq<Pos>, key: nat, only: Option<Item>)
    returns (r: Option<Item>, p: Pos)
    requires |bds| > 0 && forall q :: q in bds ==> IsPos(mem, q)
    ensures Scanned(mem, bds, key, only, r, p)
  {
    for i := 0 to |bds|
      invariant forall j, x :: 0 <= j < i && OnList(mem, x, bds[j]) && x.key == key ==> only.Some? && x != only.value
    {
      assert bds[i] in bds;
      r := ScanList(mem[bds[i].bucket].lists[bds[i].offset], key, only);
      if r.Some? {
        return r, bds[i];
      }
    }
    r, p := None, bds[0];
  }

  /** `cfs_hash_bd_order`. */
  method OrderBds(s: State, a: Pos, b: Pos) returns (bds: seq<Pos>)
    requires a.bucket in s.mem && b.bucket in s.mem
    ensures bds == Ordered(s, a, b)
  {
    var i, j := s.mem[a.bucket].index, s.mem[b.bucket].index;
    var rc := if i != j then i - j else a.offset - b.offset;
    if rc == 0 {
      bds := [a];
    } else if rc > 0 {
      bds := [b, a];
    } else {
      bds := [a, b];
    }
  }

  /** Searching at any point of a rehash is searching the abstract table: an
      item is found if and only if it is there. */
  method DualScan(g: Geometry, s: State, ghost t: Track, key: nat, only: Option<Item>)
    returns (r: Option<Item>, p: Pos)
    requires Inv(g, s, t) && !t.aborted
    ensures r.Some? ==>
              r.value in t.where && r.value.key == key && (only.Some? ==> r == only) && OnList(s.mem, r.value, p)
    ensures r.None? ==> forall x :: x in t.where && x.key == key ==> only.Some? && x != only.value
  {
    DualGetIs(g, s, t, key);
    var bds := OrderBds(s, OldPos(g, s, key), NewPos(g, s, key));
    r, p := MultiScan(s.mem, bds, key, only);
    ScanMeaning(g, s, t, bds, key, only, r, p);
  }

  // ---------------------------------------------------------------- changing the table

  ghost predicate HasKey(c: set<Item>, key: nat) {
    exists x :: x in c && x.key == key
  }

  /** `cfs_hash_add`: at the position the table is moving to. */
  method AddItem(g: Geometry, s: State, ghost t: Track, x: Item, tail: bool) returns (s': State, ghost t': Track)
    requires Inv(g, s, t) && x !in t.where
    ensures Inv(g, s', t') && t' == t.(where := t'.where) && t'.where.Keys == t.where.Keys + {x}
    ensures ListsOnly(s, s')
  {
    PosExists(g, s, t, x.key);
    var p := NewPos(g, s, x.key);
    AddAtOk(g, s, t, p, x, tail);
    PutShape(s, p, x, tail);
    s' := AddAt(s, p, x, tail);
    t' := t.(where := t.where[x := p]);
    PlusKeys(t.where, x, p);
  }

  lemma PlusKeys(m: map<Item, Pos>, x: Item, p: Pos)
    ensures m[x := p].Keys == m.Keys + {x}
  {
  }

  /** `cfs_hash_bd_del_locked`. */
  method DelItem(g: Geometry, s: State, ghost t: Track, p: Pos, x: Item) returns (s': State, ghost t': Track)
    requires Inv(g, s, t) && OnList(s.mem, x, p)
    ensures Inv(g, s', t') && t' == t.(where := t'.where) && t'.where.Keys == t.where.Keys - {x}
    ensures ListsOnly(s, s')
  {
    DelAtOk(g, s, t, p, x);
    TakeShape(s, p, x);
    s' := DelAt(s, p, x);
    t' := t.(where := t.where - {x});
  }

  // ---------------------------------------------------------------- rehash, one bucket

  /** Where the items are once those of bucket `b` have moved. */
  ghost function Rehomed(g: Geometry, s: State, where: map<Item, Pos>, b: nat): map<Item, Pos>
    requires Sizes(g, s)
  {
    map x | x in where :: if where[x].bucket == b then NewPos(g, s, x.key) else where[x]
  }

  /** Half-way through bucket `b`: the items of its lists before `o` have moved,
      all others are where they were. */
  ghost predicate Halfway(g: Geometry, s: State, where: map<Item, Pos>, b: nat, o: nat, now: map<Item, Pos>)
    requires Sizes(g, s)
  {
    && now.Keys == where.Keys
    && (forall x :: x in where ==>
          now[x] == if where[x].bucket == b && where[x].offset < o then NewPos(g, s, x.key) else where[x])
  }

  lemma OffsetsBounded(g: Geometry, s: State, t: Track)
    requires Inv(g, s, t)
    ensures forall x :: x in t.where ==> t.where[x].offset < g.nlists
  {
  }

  lemma AllLists(g: Geometry, s: State, where: map<Item, Pos>, b: nat, now: map<Item, Pos>)
    requires Sizes(g, s) && Halfway(g, s, where, b, g.nlists, now)
    requires forall x :: x in where ==> where[x].offset < g.nlists
    ensures now == Rehomed(g, s, where, b)
  {
  }

  /** Moving one item to its new position. */
  method MoveOne(g: Geometry, s: State, ghost t: Track, from: Pos, x: Item, tail: bool) returns (s': State)
    requires Inv(g, s, t) && OnList(s.mem, x, from)
    ensures Inv(g, s', t.(where := t.where[x := NewPos(g, s, x.key)])) && ListsOnly(s, s')
  {
    PosExists(g, s, t, x.key);
    MoveToOk(g, s, t, from, NewPos(g, s, x.key), x, tail);
    MoveShape(s, from, NewPos(g, s, x.key), x, tail);
    s' := MoveTo(s, from, NewPos(g, s, x.key), x, tail);
  }

  /** The items of `moved` gone to their new positions. */
  ghost function MovedOn(g: Geometry, s: State, where: map<Item, Pos>, moved: seq<Item>): map<Item, Pos>
    requires Sizes(g, s)
  {
    map x | x in where :: if x in moved then NewPos(g, s, x.key) else where[x]
  }

  /** Until it is its turn, an item is still on its list. */
  lemma StillThere(g: Geometry, s: State, c: State, u: Track, where0: map<Item, Pos>, p: Pos, list: seq<Item>, k: nat)
    requires Sizes(g, s) && Inv(g, c, u) && k < |list| && NoDup(list)
    requires u.where == MovedOn(g, s, where0, list[..k])
    requires list[k] in where0 && where0[list[k]] == p
    ensures OnList(c.mem, list[k], p)
  {
    NoDupFront(list, k);
    assert u.where[list[k]] == p;
  }

  /** What is on a list of the table. */
  lemma OnThisList(g: Geometry, s: State, t: Track, p: Pos)
    requires Inv(g, s, t) && p.bucket in s.mem && p.offset < g.nlists
    ensures p.offset < |s.mem[p.bucket].lists| && NoDup(s.mem[p.bucket].lists[p.offset])
    ensures forall x :: x in s.mem[p.bucket].lists[p.offset] <==> x in t.where && t.where[x] == p
  {
    assert BucketOk(s.mem[p.bucket], g.nlists);
    forall x | x in t.where && t.where[x] == p ensures x in s.mem[p.bucket].lists[p.offset] {
      assert OnList(s.mem, x, t.where[x]);
    }
    forall x | x in s.mem[p.bucket].lists[p.offset] ensures x in t.where && t.where[x] == p {
      assert OnList(s.mem, x, p);
    }
  }

  lemma ListsSame(s: State)
    ensures ListsOnly(s, s)
  {
  }

  lemma ListsOnlyTwice(s: State, c: State, c': State)
    requires ListsOnly(s, c) && ListsOnly(c, c')
    ensures ListsOnly(s, c')
  {
  }

  /** Where the items are once those of the list `p` have moved. */
  ghost function ListRehomed(g: Geometry, s: State, where: map<Item, Pos>, p: Pos): map<Item, Pos>
    requires Sizes(g, s)
  {
    map x | x in where :: if where[x] == p then NewPos(g, s, x.key) else where[x]
  }

  lemma MovedNone(g: Geometry, s: State, where: map<Item, Pos>, list: seq<Item>)
    requires Sizes(g, s)
    ensures MovedOn(g, s, where, list[..0]) == where
  {
  }

  lemma MovedAll(g: Geometry, s: State, where: map<Item, Pos>, list: seq<Item>, p: Pos)
    requires Sizes(g, s)
    requires forall x :: x in list <==> x in where && where[x] == p
    ensures MovedOn(g, s, where, list[..|list|]) == ListRehomed(g, s, where, p)
  {
  }

  lemma MovedOnStep(g: Geometry, s: State, c: State, where: map<Item, Pos>, list: seq<Item>, k: nat)
    requires Sizes(g, s) && ListsOnly(s, c) && k < |list| && list[k] in where
    ensures Sizes(g, c)
    ensures MovedOn(g, s, where, list[..k])[list[k] := NewPos(g, c, list[k].key)] == MovedOn(g, s, where, list[..k + 1])
  {
  }

  /** One item of the list: the state after moving it. */
  method MoveNext(g: Geometry, s: State, ghost where0: map<Item, Pos>, c: State, ghost u: Track, p: Pos,
                  list: seq<Item>, k: nat, tail: bool)
    returns (c': State, ghost u': Track)
    requires Sizes(g, s) && Inv(g, c, u) && ListsOnly(s, c)
    requires k < |list| && NoDup(list) && list[k] in where0 && where0[list[k]] == p
    requires u.where == MovedOn(g, s, where0, list[..k])
    ensures Inv(g, c', u') && ListsOnly(s, c')
    ensures u' == u.(where := MovedOn(g, s, where0, list[..k + 1]))
  {
    StillThere(g, s, c, u, where0, p, list, k);
    MovedOnStep(g, s, c, where0, list, k);
    c' := MoveOne(g, c, u, p, list[k], tail);
    u' := u.(where := MovedOn(g, s, where0, list[..k + 1]));
    ListsOnlyTwice(s, c, c');
  }

  /** The inner loop of `cfs_hash_rehash_bd`. The list is walked as it was on
      entry, which is what the safe iteration of the source amounts to: an item
      leaves the list only when it is its turn. */
  method RehashList(g: Geometry, s: State, ghost t: Track, p: Pos, tail: bool) returns (c: State, ghost u: Track)
    requires Inv(g, s, t) && p.bucket in s.mem && p.offset < g.nlists
    ensures Inv(g, c, u) && ListsOnly(s, c)
    ensures u == t.(where := ListRehomed(g, s, t.where, p))
  {
    OnThisList(g, s, t, p);
    var list := s.mem[p.bucket].lists[p.offset];
    MovedNone(g, s, t.where, list);
    MovedAll(g, s, t.where, list, p);
    c, u := s, t;
    for k := 0 to |list|
      invariant Inv(g, c, u) && ListsOnly(s, c)
      invariant u == t.(where := MovedOn(g, s, t.where, list[..k]))
    {
      c, u := MoveNext(g, s, t.where, c, u, p, list, k, tail);
    }
  }

  lemma HalfwayStart(g: Geometry, s: State, where: map<Item, Pos>, b: nat)
    requires Sizes(g, s)
    ensures Halfway(g, s, where, b, 0, where)
  {
  }

  lemma HalfwayStep(g: Geometry, s: State, where: map<Item, Pos>, b: nat, o: nat, now: map<Item, Pos>)
    requires Sizes(g, s) && Halfway(g, s, where, b, o, now)
    ensures Halfway(g, s, where, b, o + 1, ListRehomed(g, s, now, Pos(b, o)))
  {
  }

  lemma SameRehomed(g: Geometry, s: State, c: State, where: map<Item, Pos>, p: Pos)
    requires Sizes(g, s) && ListsOnly(s, c)
    ensures Sizes(g, c) && ListRehomed(g, c, where, p) == ListRehomed(g, s, where, p)
  {
  }

  /** `cfs_hash_rehash_bd`: every list of the bucket. */
  method RehashBd(g: Geometry, s: State, ghost t: Track, b: nat, tail: bool) returns (c: State, ghost u: Track)
    requires Inv(g, s, t) && b in s.mem
    ensures Inv(g, c, u) && ListsOnly(s, c)
    ensures u == t.(where := Rehomed(g, s, t.where, b))
  {
    HalfwayStart(g, s, t.where, b);
    OffsetsBounded(g, s, t);
    c, u := s, t;
    for o := 0 to g.nlists
      invariant Inv(g, c, u) && ListsOnly(s, c) && u == t.(where := u.where)
      invariant Halfway(g, s, t.where, b, o, u.where)
    {
      SameRehomed(g, s, c, u.where, Pos(b, o));
      HalfwayStep(g, s, t.where, b, o, u.where);
      ghost var c0 := c;
      c, u := RehashList(g, c, u, Pos(b, o), tail);
      ListsOnlyTwice(s, c0, c);
    }
    AllLists(g, s, t.where, b, u.where);
  }

  // ---------------------------------------------------------------- rehash, start and end

  predicate Empty(b: Bucket) {
    forall o :: 0 <= o < |b.lists| ==> b.lists[o] == []
  }

  function NewBucket(g: Geometry, index: nat): Bucket {
    Bucket(index, seq(g.nlists, _ => []), 0)
  }

  /** `cfs_hash_buckets_free`. */
  method BucketsFree(mem: map<nat, Bucket>, table: seq<nat>, prev: nat, size: nat) returns (mem': map<nat, Bucket>)
    requires size <= |table|
    ensures mem' == mem - (set i | prev <= i < size :: table[i])
  {
    mem' := mem;
    var i := prev;
    while i < size
      invariant prev <= i
      invariant mem' == mem - (set j | prev <= j < i && j < size :: table[j])
    {
      mem' := mem' - {table[i]};
      i := i + 1;
    }
    assert (set j | prev <= j < i && j < size :: table[j]) == (set j | prev <= j < size :: table[j]);
  }

  /** The new blocks of `cfs_hash_buckets_realloc`: bucket `first + k` at `addrs[k]`. */
  function NewBlocks(g: Geometry, first: nat, addrs: seq<nat>): map<nat, Bucket>
    decreases addrs
  {
    if addrs == [] then map[]
    else NewBlocks(g, first, addrs[..|addrs| - 1])[addrs[|addrs| - 1] := NewBucket(g, first + |addrs| - 1)]
  }

  /** `cfs_hash_buckets_realloc`. `gotArray` is whether there is memory for the array
      of buckets and `addrs` are the blocks the allocator has to give for buckets;
      when they run out, everything allocated so far is freed again. */
  method BucketsRealloc(g: Geometry, mem: map<nat, Bucket>, old_bkts: seq<nat>, new_size: nat, gotArray: bool,
                        addrs: seq<nat>)
    returns (r: Option<seq<nat>>, mem': map<nat, Bucket>)
    requires NoDup(addrs) && forall a :: a in addrs ==> a !in mem
    ensures r.Some? <==> new_size == |old_bkts| || (gotArray && new_size - |old_bkts| <= |addrs|)
    ensures r.None? ==> mem' == mem
    ensures r.Some? ==>
              && |r.value| == new_size && new_size - |old_bkts| <= |addrs|
              && r.value == (if new_size <= |old_bkts| then old_bkts[..new_size]
                             else old_bkts + addrs[..new_size - |old_bkts|])
              && mem' == mem + (if new_size <= |old_bkts| then map[]
                                else NewBlocks(g, |old_bkts|, addrs[..new_size - |old_bkts|]))
  {
    var n := |old_bkts|;
    if new_size == n {
      return Some(old_bkts[..new_size]), mem + map[];
    }
    if !gotArray {
      return None, mem;
    }
    if new_size < n {
      return Some(old_bkts[..new_size]), mem + map[];
    }
    var k := 0;
    var table := old_bkts;
    mem' := mem + map[];
    while n + k < new_size
      invariant k <= |addrs| && n + k <= new_size
      invariant table == old_bkts + addrs[..k]
      invariant mem' == mem + NewBlocks(g, n, addrs[..k])
    {
      if k == |addrs| {
        mem' := BucketsFree(mem', table, n, n + k);
        NoDupPrefix(addrs, k);
        FreedAgain(g, mem, n, addrs[..k], table, mem');
        return None, mem';
      }
      assert addrs[..k + 1][..k] == addrs[..k];
      mem' := mem'[addrs[k] := NewBucket(g, n + k)];
      table := table + [addrs[k]];
      k := k + 1;
    }
    r := Some(table);
  }

  lemma {:induction false} NewBlocksAre(g: Geometry, first: nat, addrs: seq<nat>)
    requires NoDup(addrs)
    ensures NewBlocks(g, first, addrs).Keys == set a | a in addrs
    ensures forall k :: 0 <= k < |addrs| && addrs[k] in NewBlocks(g, first, addrs) ==>
              NewBlocks(g, first, addrs)[addrs[k]] == NewBucket(g, first + k)
    decreases addrs
  {
    if addrs != [] {
      NoDupPrefix(addrs, |addrs| - 1);
      NoDupFront(addrs, |addrs| - 1);
      NewBlocksAre(g, first, addrs[..|addrs| - 1]);
    }
  }

  lemma FreedAgain(g: Geometry, mem: map<nat, Bucket>, n: nat, addrs: seq<nat>, table: seq<nat>, mem': map<nat, Bucket>)
    requires NoDup(addrs) && (forall a :: a in addrs ==> a !in mem) && |table| == n + |addrs| && table[n..] == addrs
    requires mem' == (mem + NewBlocks(g, n, addrs)) - (set i | n <= i < n + |addrs| :: table[i])
    ensures mem' == mem
  {
    NewBlocksAre(g, n, addrs);
    var freed := set i | n <= i < n + |addrs| :: table[i];
    forall a ensures a in freed <==> a in addrs {
      if a in addrs {
        var k :| 0 <= k < |addrs| && addrs[k] == a;
        assert table[n + k] == table[n..][k];
      }
      if a in freed {
        var i :| n <= i < n + |addrs| && table[i] == a;
        assert table[n..][i - n] == a;
      }
    }
  }

  /** The table being moved to and the memory once it is allocated. */
  ghost predicate Allocated(g: Geometry, s: State, addrs: seq<nat>, table: seq<nat>, mem': map<nat, Bucket>) {
    && NoDup(addrs) && (forall a :: a in addrs ==> a !in s.mem)
    && (|table| <= |s.buckets| ==> table == s.buckets[..|table|] && mem' == s.mem)
    && (|table| > |s.buckets| ==>
          && |table| - |s.buckets| <= |addrs|
          && table == s.buckets + addrs[..|table| - |s.buckets|]
          && mem' == s.mem + NewBlocks(g, |s.buckets|, addrs[..|table| - |s.buckets|]))
  }
}
