/** The table object, and what any interleaving of its operations with a
    running rehash looks like from outside: a run of the same operations on a
    plain set of items. */
module HashRuns {
  import opened Arithmetic
  import opened Queues
  import opened HashTable
  import opened HashOps
  import opened HashRehash
  import HashDestroy
  import opened Options

  /** `__cfs_hash_theta`: items per list, in units of 1/1024. */
  function Theta(s: State): nat {
    HighBits(s.count * 1024, Pow2(s.curBits))
  }

  lemma OtherBits(g: Geometry, s: State, t: Track, bits: nat)
    requires Inv(g, s, t) && s.rehash == []
    ensures Inv(g, s.(rehashBits := bits), t)
  {
  }

  lemma OtherFlag(g: Geometry, s: State, t: Track)
    requires Inv(g, s, t)
    ensures Inv(g, s.(exiting := true), t)
  {
  }

  /** `cfs_hash_rehash_worker` up to its loop. If it does not start after all
      (no memory, same size, or the load is fine by now), the table is exactly
      what it was: nothing allocated is left behind. */
  method StartRehash(g: Geometry, s: State, ghost t: Track, gotArray: bool, addrs: seq<nat>, minTheta: nat,
                     maxTheta: nat)
    returns (s': State)
    requires ReadyToStart(g, s, t) && NoDup(addrs) && forall a :: a in addrs ==> a !in s.mem
    ensures Inv(g, s', t)
    ensures var more := g.size(s.rehashBits) - |s.buckets|;
            s'.rehash != [] <==>
              more != 0 && gotArray && more <= |addrs| && (Theta(s) < minTheta || maxTheta < Theta(s))
    ensures s'.rehash == [] ==> s' == s.(rehashBits := 0)
    ensures s'.rehash != [] ==> s' == s.(rehash := s'.rehash, mem := s'.mem)
  {
    var bkts, mem' := NewTable(g, s, gotArray, addrs);
    s' := s.(rehashBits := 0);
    if bkts.Some? && |bkts.value| != |s.buckets| {
      if Theta(s) < minTheta || maxTheta < Theta(s) {
        AllocatedOk(g, s, t, addrs, bkts.value, mem');
        s' := s.(rehash := bkts.value, mem := mem');
        return;
      }
      mem' := Undo(g, s, addrs, bkts.value, mem');
      s' := s.(rehashBits := 0, mem := mem');
    }
    OtherBits(g, s, t, 0);
  }

  /** Allocating the table the rehash is to fill. */
  method NewTable(g: Geometry, s: State, gotArray: bool, addrs: seq<nat>)
    returns (r: Option<seq<nat>>, mem': map<nat, Bucket>)
    requires NoDup(addrs) && forall a :: a in addrs ==> a !in s.mem
    ensures var more := g.size(s.rehashBits) - |s.buckets|; r.Some? <==> more == 0 || (gotArray && more <= |addrs|)
    ensures r.None? ==> mem' == s.mem
    ensures r.Some? ==> |r.value| == g.size(s.rehashBits) && Allocated(g, s, addrs, r.value, mem')
  {
    r, mem' := BucketsRealloc(g, s.mem, s.buckets, g.size(s.rehashBits), gotArray, addrs);
  }

  /** Freeing it again. */
  method Undo(g: Geometry, s: State, addrs: seq<nat>, table: seq<nat>, mem: map<nat, Bucket>)
    returns (mem': map<nat, Bucket>)
    requires Allocated(g, s, addrs, table, mem)
    ensures mem' == s.mem
  {
    AllocatedUndone(g, s, addrs, table, mem);
    mem' := BucketsFree(mem, table, |s.buckets|, |table|);
  }

  /** The new table can be put to use. */
  lemma AllocatedOk(g: Geometry, s: State, t: Track, addrs: seq<nat>, table: seq<nat>, mem': map<nat, Bucket>)
    requires ReadyToStart(g, s, t) && Allocated(g, s, addrs, table, mem')
    requires |table| == g.size(s.rehashBits) != |s.buckets|
    ensures Inv(g, s.(rehash := table, mem := mem'), t)
  {
    if |s.buckets| < |table| {
      var more := addrs[..|table| - |s.buckets|];
      SomeOf(addrs, |more|, s.mem);
      StartGrowing(g, s, t, more);
    } else {
      StartShrinking(g, s, t);
    }
  }

  lemma SomeOf(addrs: seq<nat>, n: nat, mem: map<nat, Bucket>)
    requires n <= |addrs| && NoDup(addrs) && forall a :: a in addrs ==> a !in mem
    ensures NoDup(addrs[..n]) && forall a :: a in addrs[..n] ==> a !in mem
  {
    NoDupPrefix(addrs, n);
  }

  /** Or it can be freed again without a trace. */
  lemma AllocatedUndone(g: Geometry, s: State, addrs: seq<nat>, table: seq<nat>, mem': map<nat, Bucket>)
    requires Allocated(g, s, addrs, table, mem')
    ensures mem' - (set i | |s.buckets| <= i < |table| :: table[i]) == s.mem
  {
    if |s.buckets| < |table| {
      var more := addrs[..|table| - |s.buckets|];
      SomeOf(addrs, |more|, s.mem);
      FreedAgain(g, s.mem, |s.buckets|, more, table, mem' - (set i | |s.buckets| <= i < |table| :: table[i]));
    }
  }

  /** One round of the worker's loop: a pause point before and after. */
  method RehashNext(g: Geometry, s: State, ghost t: Track, i: nat, tail: bool) returns (s': State, ghost t': Track)
    requires Inv(g, s, t) && s.rehash != [] && i == t.done < |s.buckets|
    ensures Inv(g, s', t') && t'.done == i + 1 && t'.where.Keys == t.where.Keys && t'.aborted == t.aborted
    ensures ListsOnly(s, s')
  {
    assert s.buckets[i] == Full(s)[i];
    s', t' := RehashBd(g, s, t, s.buckets[i], tail);
    BucketDone(g, s, t, s', t');
    t' := t'.(done := i + 1);
  }

  /** The end of the worker. What it frees is empty and not in the new table. */
  method FinishRehash(g: Geometry, s: State, ghost t: Track) returns (s': State)
    requires Inv(g, s, t) && s.rehash != [] && t.done == |s.buckets|
    ensures Inv(g, s', t.(done := 0)) && s'.rehash == [] && s'.buckets == s.rehash && s'.exiting == s.exiting
    ensures forall a :: a in s.mem && a !in s'.mem ==> Empty(s.mem[a]) && a !in s'.buckets
  {
    FinishOk(g, s, t);
    forall a | a in Dropped(s) ensures a in s.mem && a !in s.rehash && Empty(s.mem[a]) {
      DroppedEmpty(g, s, t, a);
    }
    var mem' := BucketsFree(s.mem, s.buckets, |s.rehash|, |s.buckets|);
    s' := Swapped(s, mem');
  }

  /** `cfs_hash_destroy` announces itself. */
  method AnnounceExit(g: Geometry, s: State, ghost t: Track) returns (s': State)
    requires Inv(g, s, t)
    ensures Inv(g, s', t) && s' == s.(exiting := true)
  {
    OtherFlag(g, s, t);
    s' := s.(exiting := true);
  }

  /** Giving up because the table is about to be destroyed: no bucket is freed. */
  method AbortRehash(g: Geometry, s: State, ghost t: Track) returns (s': State)
    requires Inv(g, s, t) && s.rehash != [] && s.exiting
    ensures Inv(g, s', t.(done := 0, aborted := true)) && s'.mem == s.mem && s'.count == s.count
    ensures s'.rehashBits == 0 && s'.exiting
  {
    if |s.buckets| < |s.rehash| {
      AbortGrowing(g, s, t);
      s' := Swapped(s, s.mem);
    } else {
      AbortShrinking(g, s, t);
      s' := s.(rehash := [], rehashBits := 0);
    }
  }

  // ---------------------------------------------------------------- creation

  /** `cfs_hash_create`: an empty table, unless memory for its array of buckets or
      for a bucket runs out. */
  method NewHash(g: Geometry, bits: nat, gotArray: bool, addrs: seq<nat>) returns (r: Option<State>)
    requires ValidGeometry(g) && NoDup(addrs)
    ensures r.Some? <==> gotArray && g.size(bits) <= |addrs|
    ensures r.Some? ==> Inv(g, r.value, Track(map[], 0, false)) && r.value.rehash == [] && !r.value.exiting
  {
    var bkts, mem := BucketsRealloc(g, map[], [], g.size(bits), gotArray, addrs);
    if bkts.None? {
      return None;
    }
    var s := State(bits, 0, bkts.value, [], mem, 0, false);
    NoDupPrefix(addrs, g.size(bits));
    NewHashOk(g, s, addrs[..g.size(bits)]);
    r := Some(s);
  }

  lemma NewBlocksPlace(g: Geometry, s: State, addrs: seq<nat>)
    requires NoDup(addrs) && s.buckets == addrs && s.rehash == [] && s.mem == NewBlocks(g, 0, addrs)
    ensures Blocks(s)
  {
    NewBlocksAre(g, 0, addrs);
    hide NewBlocks;
  }

  lemma NewHashOk(g: Geometry, s: State, addrs: seq<nat>)
    requires ValidGeometry(g) && NoDup(addrs) && g.size(s.curBits) == |addrs|
    requires s.buckets == [] + addrs && s.rehash == [] && s.count == 0 && !s.exiting
    requires s.mem == map[] + NewBlocks(g, 0, addrs)
    ensures Inv(g, s, Track(map[], 0, false))
  {
    hide NewBlocks, Listed, Blocks, ValidGeometry;
    var empty := s.(buckets := [], mem := map[]);
    NothingListed(g.nlists);
    GrowListed(g, empty, map[], addrs);
    assert s.mem == empty.mem + NewBlocks(g, 0, addrs) == NewBlocks(g, 0, addrs);
    NewBlocksPlace(g, s, addrs);
  }

  lemma NothingListed(nlists: nat)
    ensures Listed(map[], map[], nlists)
  {
  }

  // ---------------------------------------------------------------- runs

  /** What a caller asks for, the next thing the rehash worker does, or the start
      of the table's destruction. */
  datatype Op =
    | DoAdd(x: Item)
    | DoFindAdd(x: Item)
    | DoDel(x: Item)
    | DoDelKey(key: nat)
    | DoLookup(key: nat)
    | Request(bits: nat)
    | Start(gotArray: bool, addrs: seq<nat>)
    | Bucket1
    | Finish
    | Exit
    | Abort

  /** What a caller sees. */
  datatype Event =
    | Added(x: Item)
    | FoundOrAdded(x: Item, e: Item)
    | Deleted(x: Item)
    | DeletedKey(key: nat, r: Option<Item>)
    | Found(key: nat, r: Option<Item>)
    | Internal

  /** The same operation on a plain set of items. */
  ghost predicate AbsStep(c: set<Item>, ev: Event, c': set<Item>) {
    match ev
    case Added(x) => x !in c && c' == c + {x}
    case FoundOrAdded(x, e) =>
      && x !in c
      && if HasKey(c, x.key) then e in c && e.key == x.key && c' == c
         else e == x && c' == c + {x}
    case Deleted(x) => c' == c - {x}
    case DeletedKey(key, r) =>
      if r.Some? then r.value in c && r.value.key == key && c' == c - {r.value}
      else c' == c && !HasKey(c, key)
    case Found(key, r) =>
      && c' == c
      && (r.Some? ==> r.value in c && r.value.key == key)
      && (r.None? ==> !HasKey(c, key))
    case Internal => c' == c
  }

  /** What a caller sees is the answer to what it asked for. Adding a node that is
      on a list already, which the code asserts against, is no operation. */
  ghost predicate Answers(c: set<Item>, op: Op, ev: Event) {
    match op
    case DoAdd(x) => ev == if x in c then Internal else Added(x)
    case DoFindAdd(x) => if x in c then ev.Internal? else ev.FoundOrAdded? && ev.x == x
    case DoDel(x) => ev == Deleted(x)
    case DoDelKey(key) => ev.DeletedKey? && ev.key == key
    case DoLookup(key) => ev.Found? && ev.key == key
    case _ => ev.Internal?
  }

  /** A run of the plain set: `hist` are its values before and after each event. */
  ghost predicate AbsRun(hist: seq<set<Item>>, evs: seq<Event>) {
    |hist| == |evs| + 1 && forall i :: 0 <= i < |evs| ==> AbsStep(hist[i], evs[i], hist[i + 1])
  }

  lemma AbsRunMore(hist: seq<set<Item>>, evs: seq<Event>, ev: Event, c: set<Item>)
    requires AbsRun(hist, evs) && AbsStep(hist[|hist| - 1], ev, c)
    ensures AbsRun(hist + [c], evs + [ev])
  {
  }

  /** The opposite of `hlist_unhashed`: the item's node is on some list. */
  predicate Hashed(s: State, x: Item) {
    exists a :: a in s.mem && x in AllItems(s.mem[a].lists)
  }

  function AllItems(lists: seq<seq<Item>>): set<Item> {
    set o, x | 0 <= o < |lists| && x in lists[o] :: x
  }

  lemma HashedIs(g: Geometry, s: State, t: Track, x: Item)
    requires Inv(g, s, t)
    ensures Hashed(s, x) <==> x in t.where
  {
    if x in t.where {
      assert OnList(s.mem, x, t.where[x]);
      assert x in AllItems(s.mem[t.where[x].bucket].lists);
    }
    if Hashed(s, x) {
      var a :| a in s.mem && x in AllItems(s.mem[a].lists);
      var o :| 0 <= o < |s.mem[a].lists| && x in s.mem[a].lists[o];
      assert OnList(s.mem, x, Pos(a, o));
    }
  }

  /** `cfs_hash_add`, which asserts that the node is on no list. */
  method Add(g: Geometry, s: State, ghost t: Track, x: Item, tail: bool)
    returns (ev: Event, s': State, ghost t': Track)
    requires Inv(g, s, t) && !t.aborted && !Hashed(s, x)
    ensures Inv(g, s', t') && t' == t.(where := t'.where) && ListsOnly(s, s')
    ensures AbsStep(t.where.Keys, ev, t'.where.Keys) && ev == Added(x)
  {
    HashedIs(g, s, t, x);
    s', t' := AddItem(g, s, t, x, tail);
    ev := Added(x);
  }

  /** `cfs_hash_find_or_add`, which asserts the same. */
  method FindAdd(g: Geometry, s: State, ghost t: Track, x: Item, tail: bool)
    returns (ev: Event, s': State, ghost t': Track)
    requires Inv(g, s, t) && !t.aborted && !Hashed(s, x)
    ensures Inv(g, s', t') && t' == t.(where := t'.where) && ListsOnly(s, s')
    ensures AbsStep(t.where.Keys, ev, t'.where.Keys) && ev.FoundOrAdded? && ev.x == x
  {
    HashedIs(g, s, t, x);
    var r, p := DualScan(g, s, t, x.key, None);
    if r.Some? {
      return FoundOrAdded(x, r.value), s, t;
    }
    s', t' := AddItem(g, s, t, x, tail);
    ev := FoundOrAdded(x, x);
  }

  lemma IsSized(g: Geometry, s: State, t: Track)
    requires Inv(g, s, t)
    ensures Sizes(g, s)
  {
  }

  lemma OnlyPlace(g: Geometry, s: State, t: Track, x: Item)
    requires Inv(g, s, t) && !t.aborted && x in t.where && OldPos(g, s, x.key) == NewPos(g, s, x.key)
    ensures OnList(s.mem, x, OldPos(g, s, x.key))
  {
    assert Home(g, s, t, x.key, t.where[x]) && OnList(s.mem, x, t.where[x]);
  }

  /** `cfs_hash_del` with a node: nothing if the node is on no list; else it is
      taken off the one list it can be on, or looked for on both. */
  method Delete(g: Geometry, s: State, ghost t: Track, x: Item) returns (ev: Event, s': State, ghost t': Track)
    requires Inv(g, s, t) && !t.aborted
    ensures Inv(g, s', t') && t' == t.(where := t'.where) && ListsOnly(s, s')
    ensures AbsStep(t.where.Keys, ev, t'.where.Keys) && ev == Deleted(x)
  {
    hide Inv, Hashed, OnList, FromKey, ListsOnly;
    HashedIs(g, s, t, x);
    IsSized(g, s, t);
    ListsSame(s);
    hide Sizes;
    ev, s', t' := Deleted(x), s, t;
    if Hashed(s, x) {
      var p := OldPos(g, s, x.key);
      if p == NewPos(g, s, x.key) {
        OnlyPlace(g, s, t, x);
      } else {
        var r;
        r, p := DualScan(g, s, t, x.key, Some(x));
        assert r == Some(x);
      }
      s', t' := DelItem(g, s, t, p, x);
    }
  }

  /** `cfs_hash_del_key`. */
  method DeleteKey(g: Geometry, s: State, ghost t: Track, key: nat) returns (ev: Event, s': State, ghost t': Track)
    requires Inv(g, s, t) && !t.aborted
    ensures Inv(g, s', t') && t' == t.(where := t'.where) && ListsOnly(s, s')
    ensures AbsStep(t.where.Keys, ev, t'.where.Keys) && ev.DeletedKey? && ev.key == key
  {
    var r, p := DualScan(g, s, t, key, None);
    if r.Some? {
      s', t' := DelItem(g, s, t, p, r.value);
    } else {
      s', t' := s, t;
    }
    ev := DeletedKey(key, r);
  }

  /** `cfs_hash_lookup`. */
  method Lookup(g: Geometry, s: State, ghost t: Track, key: nat) returns (ev: Event)
    requires Inv(g, s, t) && !t.aborted
    ensures AbsStep(t.where.Keys, ev, t.where.Keys) && ev.Found? && ev.key == key
  {
    var r, p := DualScan(g, s, t, key, None);
    ev := Found(key, r);
  }

  /** An operation of a caller. Adding a node that is on a list, which the code
      asserts against, is none. */
  method Call(g: Geometry, s: State, ghost t: Track, op: Op, tail: bool)
    returns (ev: Event, s': State, ghost t': Track)
    requires Inv(g, s, t) && !t.aborted
    ensures Inv(g, s', t') && t' == t.(where := t'.where) && ListsOnly(s, s')
    ensures AbsStep(t.where.Keys, ev, t'.where.Keys) && Answers(t.where.Keys, op, ev)
  {
    hide Inv, Hashed, ListsOnly;
    ListsSame(s);
    if op.DoAdd? || op.DoFindAdd? {
      HashedIs(g, s, t, op.x);
    }
    ev, s', t' := Internal, s, t;
    if op.DoAdd? {
      if !Hashed(s, op.x) {
        ev, s', t' := Add(g, s, t, op.x, tail);
      }
    } else if op.DoFindAdd? {
      if !Hashed(s, op.x) {
        ev, s', t' := FindAdd(g, s, t, op.x, tail);
      }
    } else if op.DoDel? {
      ev, s', t' := Delete(g, s, t, op.x);
    } else if op.DoDelKey? {
      ev, s', t' := DeleteKey(g, s, t, op.key);
    } else if op.DoLookup? {
      ev := Lookup(g, s, t, op.key);
    }
  }

  ghost predicate Good(g: Geometry, s: State, t: Track, i: nat) {
    Inv(g, s, t) && i == t.done && (t.aborted ==> s.rehashBits == 0)
  }

  /** Blocks the allocator can give. */
  ghost predicate Given(s: State, addrs: seq<nat>) {
    NoDup(addrs) && forall a :: a in addrs ==> a !in s.mem
  }

  /** What a step of the worker, when it is its turn, gets done. */
  ghost predicate Progress(g: Geometry, s: State, op: Op, i: nat, s': State, i': nat, minTheta: nat, maxTheta: nat) {
    match op
    case Request(bits) => s.rehash == [] && !s.exiting ==> s'.rehashBits == bits
    case Start(gotArray, addrs) =>
      s.rehash == [] && s.rehashBits > 0 && Given(s, addrs) ==>
        var more := g.size(s.rehashBits) - |s.buckets|;
        s'.rehash != [] <==> more != 0 && gotArray && more <= |addrs| && (Theta(s) < minTheta || maxTheta < Theta(s))
    case Bucket1 => s.rehash != [] && i < |s.buckets| && !s.exiting ==> i' == i + 1 && s'.rehash == s.rehash
    case Finish => s.rehash != [] && i == |s.buckets| ==> s'.rehash == [] && s'.buckets == s.rehash && i' == 0
    case Abort => s.rehash != [] && i < |s.buckets| && s.exiting ==> s'.rehash == [] && i' == 0
    case _ => true
  }

  /** A step of the rehash worker, or none if it is not its turn. A worker that
      finds the table on its way out moves no further bucket but gives up. */
  method Work(g: Geometry, s: State, ghost t: Track, op: Op, i: nat, tail: bool, minTheta: nat, maxTheta: nat)
    returns (s': State, ghost t': Track, i': nat)
    requires Good(g, s, t, i)
    requires op.Start? ==> Given(s, op.addrs)
    ensures Progress(g, s, op, i, s', i', minTheta, maxTheta)
    ensures Good(g, s', t', i') && t'.where.Keys == t.where.Keys && s'.exiting == (s.exiting || op.Exit?)
  {
    s', t', i' := s, t, i;
    if op.Request? && s.rehash == [] && (!s.exiting || op.bits == 0) {
      OtherBits(g, s, t, op.bits);
      s' := s.(rehashBits := op.bits);
    } else if op.Start? && s.rehash == [] && s.rehashBits > 0 {
      s' := StartRehash(g, s, t, op.gotArray, op.addrs, minTheta, maxTheta);
    } else if op.Bucket1? && s.rehash != [] && i < |s.buckets| && !s.exiting {
      s', t' := RehashNext(g, s, t, i, tail);
      i' := i + 1;
    } else if op.Finish? && s.rehash != [] && i == |s.buckets| {
      s' := FinishRehash(g, s, t);
      t', i' := t.(done := 0), 0;
    } else if op.Exit? {
      s' := AnnounceExit(g, s, t);
    } else if op.Abort? && s.rehash != [] && i < |s.buckets| && s.exiting {
      s' := AbortRehash(g, s, t);
      t', i' := t.(done := 0, aborted := true), 0;
    }
  }

  /** One section under the table lock. Once the table is on its way out nobody
      has a reference with which to call. */
  method Perform(g: Geometry, s: State, ghost t: Track, op: Op, i: nat, tail: bool, minTheta: nat, maxTheta: nat)
    returns (ev: Event, s': State, ghost t': Track, i': nat)
    requires Good(g, s, t, i)
    ensures Good(g, s', t', i') && s'.exiting == (s.exiting || op.Exit?)
    ensures Progress(g, s, op, i, s', i', minTheta, maxTheta)
    ensures AbsStep(t.where.Keys, ev, t'.where.Keys) && (!s.exiting ==> Answers(t.where.Keys, op, ev))
  {
    i' := i;
    ev, s', t' := Internal, s, t;
    if op.DoAdd? || op.DoFindAdd? || op.DoDel? || op.DoDelKey? || op.DoLookup? {
      if !s.exiting {
        ev, s', t' := Call(g, s, t, op, tail);
      }
    } else if op.Start? ==> NoDup(op.addrs) && forall a :: a in op.addrs ==> a !in s.mem {
      s', t', i' := Work(g, s, t, op, i, tail, minTheta, maxTheta);
    }
  }

  class CfsHash {
    const g: Geometry
    const addTail: bool
    const minTheta: nat
    const maxTheta: nat
    var st: State
    /** The loop variable of the rehash worker. */
    var cursor: nat
    ghost var track: Track

    ghost predicate Valid()
      reads this
    {
      Good(g, st, track, cursor)
    }

    ghost function Contents(): set<Item>
      reads this
    {
      track.where.Keys
    }

    /** A table as `cfs_hash_create` has allocated it. */
    constructor (g: Geometry, s: State, addTail: bool, minTheta: nat, maxTheta: nat)
      requires Inv(g, s, Track(map[], 0, false))
      ensures Valid() && Contents() == {} && this.g == g && st == s
    {
      this.g, this.addTail, this.minTheta, this.maxTheta := g, addTail, minTheta, maxTheta;
      st, cursor, track := s, 0, Track(map[], 0, false);
    }

    /** `cfs_hash_create`. */
    static method Create(g: Geometry, bits: nat, gotArray: bool, addrs: seq<nat>, addTail: bool, minTheta: nat,
                         maxTheta: nat)
      returns (hs: CfsHash?)
      requires ValidGeometry(g) && NoDup(addrs)
      ensures hs != null <==> gotArray && g.size(bits) <= |addrs|
      ensures hs != null ==> fresh(hs) && hs.g == g && hs.Valid() && hs.Contents() == {}
    {
      var s := NewHash(g, bits, gotArray, addrs);
      if s.None? {
        return null;
      }
      hide Inv;
      hs := new CfsHash(g, s.value, addTail, minTheta, maxTheta);
    }

    method Execute(op: Op) returns (ev: Event)
      requires Valid()
      modifies this
      ensures Valid() && st.exiting == (old(st.exiting) || op.Exit?)
      ensures AbsStep(old(Contents()), ev, Contents())
      ensures !old(st.exiting) ==> Answers(old(Contents()), op, ev)
      ensures Progress(g, old(st), op, old(cursor), st, cursor, minTheta, maxTheta)
    {
      hide Good, AbsStep, Answers, Progress;
      var s, i := st, cursor;
      ghost var t := track;
      ev, s, t, i := Perform(g, s, t, op, i, addTail, minTheta, maxTheta);
      st, track, cursor := s, t, i;
    }

    /** Rehash refinement: whatever operations come in whatever order, with the
        rehash starting, pausing between buckets, ending or being given up for the
        destruction of the table anywhere among them, callers see a run of a plain
        set, and until the destruction begins each gets the answer to what it asked
        for. */
    method Run(ops: seq<Op>) returns (evs: seq<Event>, ghost hist: seq<set<Item>>)
      requires Valid()
      modifies this
      ensures Valid() && |evs| == |ops|
      ensures AbsRun(hist, evs) && hist[0] == old(Contents()) && hist[|evs|] == Contents()
      ensures !old(st.exiting) ==>
                forall i :: 0 <= i < |ops| && Exit !in ops[..i] ==> Answers(hist[i], ops[i], evs[i])
    {
      hide Good, Answers, AbsStep, Progress;
      evs, hist := [], [Contents()];
      for i := 0 to |ops|
        invariant Valid() && |evs| == i
        invariant AbsRun(hist, evs) && hist[0] == old(Contents()) && hist[|evs|] == Contents()
        invariant st.exiting == (old(st.exiting) || Exit in ops[..i])
        invariant !old(st.exiting) ==> forall j :: 0 <= j < i && Exit !in ops[..j] ==> Answers(hist[j], ops[j], evs[j])
      {
        var ev := Execute(ops[i]);
        AbsRunMore(hist, evs, ev, Contents());
        evs, hist := evs + [ev], hist + [Contents()];
        assert ops[..i + 1] == ops[..i] + [ops[i]];
      }
    }

    /** `cfs_hash_destroy` when the rehash, if one was on, has ended or given up:
        every item of the set leaves once, and no bucket stays allocated. */
    method Destroy() returns (gone: seq<Item>)
      requires Valid() && st.exiting && st.rehash == []
      modifies this
      ensures NoDup(gone) && Members(gone) == old(Contents())
      ensures st.count == 0 && st.mem == map[]
    {
      var s, mem := st, st.mem;
      ghost var t := track;
      assert Inv(g, s, t);
      hide Inv;
      s, gone, mem := HashDestroy.Destroy(g, s, t);
      st := s.(mem := mem);
    }
  }
}
