/** The libcfs hash table with incremental rehash.

    Buckets are separate memory blocks, named by their address; `buckets` is the
    table in use and `rehash`, when not empty, the table a rehash is moving to.
    The two share the blocks of their common prefix. A rehash moves the items of
    one bucket at a time and lets other threads at the table in between, so an
    item may sit where the old size puts it or where the new size puts it.

    Every method is one section under the table lock. All of them keep `Valid`,
    so any interleaving of them does. */
module HashTable {
  import opened Arithmetic
  import opened Queues
  import opened Options

  datatype Item = Item(id: nat, key: nat)

  /** `struct cfs_hash_bucket`: its index, its hash lists and its item count. */
  datatype Bucket = Bucket(index: nat, lists: seq<seq<Item>>, count: nat)

  /** A hash list: the bucket's address and the offset in it. */
  datatype Pos = Pos(bucket: nat, offset: nat)

  /** Sizes and positions as functions of the number of hash bits: how many
      buckets a table has, how many lists a bucket has, and on which list of
      which bucket a key belongs. */
  datatype Geometry = Geometry(
    nlists: nat,
    size: nat -> nat,
    slot: (nat, nat) -> nat,
    offset: (nat, nat) -> nat)

  ghost predicate ValidGeometry(g: Geometry) {
    && g.nlists > 0
    && (forall bits: nat :: g.size(bits) > 0)
    && (forall key: nat, bits: nat :: g.slot(key, bits) < g.size(bits))
    && (forall key: nat, bits: nat :: g.offset(key, bits) < g.nlists)
  }

  /** 2^(bits - bktBits) buckets. */
  function BucketsFor(bktBits: nat, bits: nat): (n: nat)
    ensures n > 0
  {
    if bits < bktBits then 1 else Pow2(bits - bktBits)
  }

  /** `index & (n - 1)` for a power of two `n`. */
  function LowBits(index: nat, n: nat): (r: nat)
    ensures n > 0 ==> r < n
  {
    if n == 0 then 0 else index % n
  }

  /** `index >> log2(n)` for a power of two `n`. */
  function HighBits(index: nat, n: nat): nat {
    if n == 0 then 0 else index / n
  }

  function OffsetOf(bktBits: nat, bits: nat, index: nat): nat {
    if bits < bktBits then 0 else HighBits(index, BucketsFor(bktBits, bits))
  }

  /** The geometry of `cfs_hash_bd_from_key`: the low bits of the hash choose the
      bucket, the high bits the list in it. `hash(key, bits)` is `hs_hash` masked
      to `bits` bits. */
  function Layout(hash: (nat, nat) -> nat, bktBits: nat): Geometry {
    Geometry(
      Pow2(bktBits),
      bits => BucketsFor(bktBits, bits),
      (key, bits) => LowBits(hash(key, bits), BucketsFor(bktBits, bits)),
      (key, bits) => OffsetOf(bktBits, bits, hash(key, bits)))
  }

  /** Every key gets a list that exists, and two keys share a list exactly when
      they have the same masked hash. */
  lemma LayoutValid(hash: (nat, nat) -> nat, bktBits: nat)
    requires forall key: nat, bits: nat :: hash(key, bits) < Pow2(bits)
    ensures ValidGeometry(Layout(hash, bktBits))
  {
    var g := Layout(hash, bktBits);
    forall key: nat, bits: nat ensures g.offset(key, bits) < g.nlists {
      if bits >= bktBits {
        Pow2Adds(bits - bktBits, bktBits);
        DivBelow(hash(key, bits), Pow2(bits - bktBits), Pow2(bktBits));
      }
    }
  }

  lemma LayoutSeparates(hash: (nat, nat) -> nat, bktBits: nat, key1: nat, key2: nat, bits: nat)
    requires bits >= bktBits
    ensures var g := Layout(hash, bktBits);
            g.slot(key1, bits) == g.slot(key2, bits) && g.offset(key1, bits) == g.offset(key2, bits)
            <==> hash(key1, bits) == hash(key2, bits)
  {
    SplitUnique(hash(key1, bits), hash(key2, bits), BucketsFor(bktBits, bits));
  }

  lemma SplitUnique(a: nat, b: nat, n: nat)
    requires n > 0
    ensures LowBits(a, n) == LowBits(b, n) && HighBits(a, n) == HighBits(b, n) <==> a == b
  {
    assert a == n * (a / n) + a % n && b == n * (b / n) + b % n;
  }

  function TotalLength(lists: seq<seq<Item>>): nat {
    if lists == [] then 0 else |lists[0]| + TotalLength(lists[1..])
  }

  lemma {:induction false} TotalUpdate(lists: seq<seq<Item>>, i: nat, l: seq<Item>)
    requires i < |lists|
    ensures TotalLength(lists[i := l]) == TotalLength(lists) - |lists[i]| + |l|
  {
    if i == 0 {
      assert lists[i := l][1..] == lists[1..];
    } else {
      TotalUpdate(lists[1..], i - 1, l);
      assert lists[i := l][1..] == lists[1..][i - 1 := l];
    }
  }

  lemma {:induction false} TotalZero(lists: seq<seq<Item>>)
    requires forall i :: 0 <= i < |lists| ==> lists[i] == []
    ensures TotalLength(lists) == 0
  {
    if lists != [] { TotalZero(lists[1..]); }
  }

  /** `hlist_del`: the list without `x`. */
  function Minus(q: seq<Item>, x: Item): seq<Item>
    requires x in q
  {
    if q[0] == x then q[1..] else [q[0]] + Minus(q[1..], x)
  }

  lemma {:induction false} MinusIs(q: seq<Item>, x: Item)
    requires x in q && NoDup(q)
    ensures NoDup(Minus(q, x)) && |Minus(q, x)| == |q| - 1
    ensures forall y :: y in Minus(q, x) <==> y in q && y != x
  {
    assert q == [q[0]] + q[1..];
    if q[0] != x {
      MinusIs(q[1..], x);
      assert Minus(q, x)[1..] == Minus(q[1..], x);
    }
  }

  // ---------------------------------------------------------------- the lists

  ghost predicate BucketOk(b: Bucket, nlists: nat) {
    && |b.lists| == nlists
    && b.count == TotalLength(b.lists)
    && (forall o :: 0 <= o < |b.lists| ==> NoDup(b.lists[o]))
  }

  ghost predicate OnList(mem: map<nat, Bucket>, x: Item, p: Pos) {
    p.bucket in mem && p.offset < |mem[p.bucket].lists| && x in mem[p.bucket].lists[p.offset]
  }

  /** Every item of `where` is on the list `where` says, once, and on no other. */
  ghost predicate Listed(mem: map<nat, Bucket>, where: map<Item, Pos>, nlists: nat) {
    && (forall a :: a in mem ==> BucketOk(mem[a], nlists))
    && (forall x :: x in where ==> OnList(mem, x, where[x]))
    && (forall x, p :: OnList(mem, x, p) ==> x in where && where[x] == p)
  }

  ghost predicate IsPos(mem: map<nat, Bucket>, p: Pos) {
    p.bucket in mem && p.offset < |mem[p.bucket].lists|
  }

  /** `hop_hnode_add` and the bucket's count. */
  function Put(mem: map<nat, Bucket>, p: Pos, x: Item, tail: bool): map<nat, Bucket>
    requires p.bucket in mem && p.offset < |mem[p.bucket].lists|
  {
    var b := mem[p.bucket];
    var l := if tail then b.lists[p.offset] + [x] else [x] + b.lists[p.offset];
    mem[p.bucket := b.(lists := b.lists[p.offset := l], count := b.count + 1)]
  }

  /** `hop_hnode_del` and the bucket's count. */
  function Take(mem: map<nat, Bucket>, p: Pos, x: Item): map<nat, Bucket>
    requires p.bucket in mem && p.offset < |mem[p.bucket].lists| && x in mem[p.bucket].lists[p.offset]
    requires mem[p.bucket].count > 0
  {
    var b := mem[p.bucket];
    mem[p.bucket := b.(lists := b.lists[p.offset := Minus(b.lists[p.offset], x)], count := b.count - 1)]
  }

  lemma PutBucket(b: Bucket, nlists: nat, o: nat, x: Item, tail: bool)
    requires BucketOk(b, nlists) && o < nlists && x !in b.lists[o]
    ensures var l := if tail then b.lists[o] + [x] else [x] + b.lists[o];
            BucketOk(b.(lists := b.lists[o := l], count := b.count + 1), nlists)
  {
    TotalUpdate(b.lists, o, if tail then b.lists[o] + [x] else [x] + b.lists[o]);
    NoDupAppend(b.lists[o], x);
    assert ([x] + b.lists[o])[1..] == b.lists[o];
  }

  lemma PutListed(mem: map<nat, Bucket>, where: map<Item, Pos>, nlists: nat, p: Pos, x: Item, tail: bool)
    requires Listed(mem, where, nlists) && IsPos(mem, p) && x !in where
    ensures Listed(Put(mem, p, x, tail), where[x := p], nlists)
  {
    var b, mem' := mem[p.bucket], Put(mem, p, x, tail);
    assert !OnList(mem, x, p);
    PutBucket(b, nlists, p.offset, x, tail);
    var where' := where[x := p];
    forall y, q | OnList(mem', y, q) ensures y in where' && where'[y] == q {
      if y != x { assert OnList(mem, y, q); }
      else { assert q != p ==> OnList(mem, x, q); }
    }
    forall y | y in where' ensures OnList(mem', y, where'[y]) {
      if y != x { assert OnList(mem, y, where[y]); }
    }
  }

  lemma {:induction false} MemberCounts(lists: seq<seq<Item>>, o: nat)
    requires o < |lists|
    ensures TotalLength(lists) >= |lists[o]|
  {
    if o > 0 { MemberCounts(lists[1..], o - 1); }
  }

  lemma TakeListed(mem: map<nat, Bucket>, where: map<Item, Pos>, nlists: nat, p: Pos, x: Item)
    requires Listed(mem, where, nlists) && OnList(mem, x, p)
    ensures mem[p.bucket].count > 0
    ensures Listed(Take(mem, p, x), where - {x}, nlists)
  {
    var b := mem[p.bucket];
    assert BucketOk(b, nlists);
    MemberCounts(b.lists, p.offset);
    MinusIs(b.lists[p.offset], x);
    TotalUpdate(b.lists, p.offset, Minus(b.lists[p.offset], x));
    var mem' := Take(mem, p, x);
    forall y, q | OnList(mem', y, q) ensures y in where - {x} && (where - {x})[y] == q {
      assert OnList(mem, y, q);
    }
    forall y | y in where - {x} ensures OnList(mem', y, (where - {x})[y]) {
      assert OnList(mem, y, where[y]);
    }
  }

  // ---------------------------------------------------------------- the table

  /** `struct cfs_hash`. `rehash` is empty when there is no rehash table. */
  datatype State = State(
    curBits: nat, rehashBits: nat,
    buckets: seq<nat>, rehash: seq<nat>,
    mem: map<nat, Bucket>,
    count: nat, exiting: bool)

  /** What the code need not store: the list each item is on, how many buckets
      the rehash has dealt with, whether it gave up half-way. */
  datatype Track = Track(where: map<Item, Pos>, done: nat, aborted: bool)

  /** The larger of the two tables holds every bucket there is. */
  function Full(s: State): seq<nat> {
    if |s.rehash| > |s.buckets| then s.rehash else s.buckets
  }

  ghost predicate Sizes(g: Geometry, s: State) {
    && ValidGeometry(g)
    && |s.buckets| == g.size(s.curBits)
    && (s.rehash != [] ==> s.rehashBits > 0 && |s.rehash| == g.size(s.rehashBits))
  }

  /** Array slot `i` of either table holds the bucket with index `i`, and there
      are no other buckets. */
  ghost predicate Blocks(s: State) {
    && (forall i :: 0 <= i < |s.buckets| ==> s.buckets[i] == Full(s)[i])
    && (forall i :: 0 <= i < |s.rehash| ==> s.rehash[i] == Full(s)[i])
    && (forall a :: a in s.mem <==> a in Full(s))
    && (forall i :: 0 <= i < |Full(s)| && Full(s)[i] in s.mem ==> s.mem[Full(s)[i]].index == i)
  }

  /** `cfs_hash_bd_from_key`. */
  function FromKey(g: Geometry, table: seq<nat>, bits: nat, key: nat): Pos
    requires g.slot(key, bits) < |table|
  {
    Pos(table[g.slot(key, bits)], g.offset(key, bits))
  }

  function OldPos(g: Geometry, s: State, key: nat): Pos
    requires Sizes(g, s)
  {
    FromKey(g, s.buckets, s.curBits, key)
  }

  /** `cfs_hash_bd_get`: where new items go. */
  function NewPos(g: Geometry, s: State, key: nat): Pos
    requires Sizes(g, s)
  {
    if s.rehash == [] then OldPos(g, s, key) else FromKey(g, s.rehash, s.rehashBits, key)
  }

  ghost predicate Moved(s: State, done: nat, bucket: nat) {
    exists i :: 0 <= i < done && i < |s.buckets| && s.buckets[i] == bucket
  }

  /** Where an item may be: in place, or not yet moved by the rehash. */
  ghost predicate Home(g: Geometry, s: State, t: Track, key: nat, p: Pos)
    requires Sizes(g, s)
  {
    || t.aborted
    || p == NewPos(g, s, key)
    || (s.rehash != [] && p == OldPos(g, s, key) && !Moved(s, t.done, p.bucket))
  }

  ghost predicate Homes(g: Geometry, s: State, t: Track)
    requires Sizes(g, s)
  {
    forall x :: x in t.where ==> Home(g, s, t, x.key, t.where[x])
  }

  ghost predicate Inv(g: Geometry, s: State, t: Track) {
    && Sizes(g, s) && Blocks(s) && Listed(s.mem, t.where, g.nlists) && Homes(g, s, t)
    && s.count == |t.where|
    && (s.rehash == [] ==> t.done == 0)
    && t.done <= |s.buckets|
    && (t.aborted ==> s.exiting && s.rehash == [])
  }

  /** A position computed from a key is the position of a list. */
  lemma PosExists(g: Geometry, s: State, t: Track, key: nat)
    requires Inv(g, s, t)
    ensures IsPos(s.mem, OldPos(g, s, key)) && IsPos(s.mem, NewPos(g, s, key))
  {
    var a, b := OldPos(g, s, key).bucket, NewPos(g, s, key).bucket;
    assert a == Full(s)[g.slot(key, s.curBits)];
    assert s.rehash != [] ==> b == Full(s)[g.slot(key, s.rehashBits)];
    assert BucketOk(s.mem[a], g.nlists) && BucketOk(s.mem[b], g.nlists);
  }

  /** Only the lists and the counters changed. */
  ghost predicate ListsOnly(s: State, s': State) {
    && s' == s.(mem := s'.mem, count := s'.count)
    && s'.mem.Keys == s.mem.Keys
    && (forall a :: a in s.mem ==> s'.mem[a].index == s.mem[a].index)
  }

  lemma BlocksKept(s: State, s': State)
    requires Blocks(s) && ListsOnly(s, s')
    ensures Blocks(s')
  {
    assert Full(s') == Full(s);
  }

  lemma HomesKept(g: Geometry, s: State, s': State, t: Track, where': map<Item, Pos>)
    requires Sizes(g, s) && Homes(g, s, t) && ListsOnly(s, s')
    requires forall x :: x in where' ==> (x in t.where && where'[x] == t.where[x]) || Home(g, s, t, x.key, where'[x])
    ensures Sizes(g, s') && Homes(g, s', t.(where := where'))
  {
    var t' := t.(where := where');
    forall x | x in where' ensures Home(g, s', t', x.key, where'[x]) {
      assert Home(g, s, t, x.key, where'[x]);
    }
  }

  lemma InvKept(g: Geometry, s: State, s': State, t: Track, where': map<Item, Pos>)
    requires Inv(g, s, t) && ListsOnly(s, s')
    requires forall x :: x in where' ==> (x in t.where && where'[x] == t.where[x]) || Home(g, s, t, x.key, where'[x])
    requires Listed(s'.mem, where', g.nlists) && s'.count == |where'|
    ensures Inv(g, s', t.(where := where'))
  {
    BlocksKept(s, s');
    HomesKept(g, s, s', t, where');
  }

  /** `cfs_hash_bd_add_locked`. */
  function AddAt(s: State, p: Pos, x: Item, tail: bool): State
    requires p.bucket in s.mem && p.offset < |s.mem[p.bucket].lists|
  {
    s.(mem := Put(s.mem, p, x, tail), count := s.count + 1)
  }

  lemma AddAtOk(g: Geometry, s: State, t: Track, p: Pos, x: Item, tail: bool)
    requires Inv(g, s, t) && x !in t.where && IsPos(s.mem, p) && Home(g, s, t, x.key, p)
    ensures Inv(g, AddAt(s, p, x, tail), t.(where := t.where[x := p]))
  {
    assert Listed(s.mem, t.where, g.nlists);
    PutListed(s.mem, t.where, g.nlists, p, x, tail);
    PutShape(s, p, x, tail);
    PlusSize(t.where, x, p);
    InvKept(g, s, AddAt(s, p, x, tail), t, t.where[x := p]);
  }

  lemma PutShape(s: State, p: Pos, x: Item, tail: bool)
    requires IsPos(s.mem, p)
    ensures ListsOnly(s, AddAt(s, p, x, tail))
  {
  }

  lemma PlusSize(m: map<Item, Pos>, x: Item, p: Pos)
    requires x !in m
    ensures |m[x := p]| == |m| + 1
  {
    assert m[x := p].Keys == m.Keys + {x};
  }

  lemma MinusSize(m: map<Item, Pos>, x: Item)
    requires x in m
    ensures |m - {x}| == |m| - 1
  {
    assert (m - {x}).Keys == m.Keys - {x};
  }

  /** `cfs_hash_bd_del_locked`. */
  function DelAt(s: State, p: Pos, x: Item): State
    requires p.bucket in s.mem && p.offset < |s.mem[p.bucket].lists| && x in s.mem[p.bucket].lists[p.offset]
    requires s.mem[p.bucket].count > 0 && s.count > 0
  {
    s.(mem := Take(s.mem, p, x), count := s.count - 1)
  }

  lemma DelAtOk(g: Geometry, s: State, t: Track, p: Pos, x: Item)
    requires Inv(g, s, t) && OnList(s.mem, x, p)
    ensures s.mem[p.bucket].count > 0 && s.count > 0
    ensures Inv(g, DelAt(s, p, x), t.(where := t.where - {x}))
  {
    assert Listed(s.mem, t.where, g.nlists);
    TakeListed(s.mem, t.where, g.nlists, p, x);
    MinusSize(t.where, x);
    TakeShape(s, p, x);
    InvKept(g, s, DelAt(s, p, x), t, t.where - {x});
  }

  lemma TakeShape(s: State, p: Pos, x: Item)
    requires OnList(s.mem, x, p) && s.mem[p.bucket].count > 0 && s.count > 0
    ensures ListsOnly(s, DelAt(s, p, x))
  {
  }

  /** `cfs_hash_bd_move_locked`. */
  function MoveTo(s: State, from: Pos, to: Pos, x: Item, tail: bool): State
    requires from.bucket in s.mem && from.offset < |s.mem[from.bucket].lists|
               && x in s.mem[from.bucket].lists[from.offset]
    requires s.mem[from.bucket].count > 0
    requires to.bucket in s.mem && to.offset < |s.mem[to.bucket].lists|
  {
    if from == to then s else s.(mem := Put(Take(s.mem, from, x), to, x, tail))
  }

  lemma MoveToOk(g: Geometry, s: State, t: Track, from: Pos, to: Pos, x: Item, tail: bool)
    requires Inv(g, s, t) && OnList(s.mem, x, from) && IsPos(s.mem, to) && Home(g, s, t, x.key, to)
    ensures s.mem[from.bucket].count > 0
    ensures Inv(g, MoveTo(s, from, to, x, tail), t.(where := t.where[x := to]))
  {
    hide Listed, Blocks;
    MoveListed(s, t.where, g.nlists, from, to, x, tail);
    MoveShape(s, from, to, x, tail);
    InvKept(g, s, MoveTo(s, from, to, x, tail), t, t.where[x := to]);
  }

  lemma MoveShape(s: State, from: Pos, to: Pos, x: Item, tail: bool)
    requires OnList(s.mem, x, from) && s.mem[from.bucket].count > 0 && IsPos(s.mem, to)
    ensures ListsOnly(s, MoveTo(s, from, to, x, tail))
  {
  }

  lemma MoveListed(s: State, where: map<Item, Pos>, nlists: nat, from: Pos, to: Pos, x: Item, tail: bool)
    requires Listed(s.mem, where, nlists) && OnList(s.mem, x, from) && IsPos(s.mem, to)
    ensures s.mem[from.bucket].count > 0 && |where[x := to]| == |where|
    ensures Listed(MoveTo(s, from, to, x, tail).mem, where[x := to], nlists)
  {
    TakeListed(s.mem, where, nlists, from, x);
    assert where[x := to].Keys == where.Keys;
    if from == to {
      assert where[x := to] == where;
    } else {
      PutListed(Take(s.mem, from, x), where - {x}, nlists, to, x, tail);
      assert (where - {x})[x := to] == where[x := to];
    }
  }
}
