/** The binary heap: nodes in slots 0, 1, 2, …, the children of slot `i` in
    slots `2 i + 1` and `2 i + 2`, and in every node the number of its slot. */
module Heap {
  import opened HeapStorage
  import opened HeapSlots

  /** The user's comparison, and the total preorder it decides: `cmp(a, b)` means
      that `a` may come before `b`, its failure that `b` may come before `a`. */
  datatype Order = Order(cmp: (nat, nat) -> bool, le: (nat, nat) -> bool)

  ghost predicate ValidOrder(o: Order) {
    && (forall a, b :: o.cmp(a, b) ==> o.le(a, b))
    && (forall a, b :: !o.cmp(a, b) ==> o.le(b, a))
    && (forall a, b, c :: o.le(a, b) && o.le(b, c) ==> o.le(a, c))
  }

  function Parent(i: nat): nat
    requires i > 0
  {
    (i - 1) / 2
  }

  predicate Fine(o: Order, v: seq<nat>, i: nat)
    requires i < |v|
  {
    i > 0 ==> o.le(v[Parent(i)], v[i])
  }

  /** Heap order. */
  predicate Ordered(o: Order, v: seq<nat>) {
    forall i :: 0 <= i < |v| ==> Fine(o, v, i)
  }

  predicate ChildrenFine(o: Order, v: seq<nat>, c: nat) {
    forall i :: 0 < i < |v| && Parent(i) == c ==> Fine(o, v, i)
  }

  /** Heap order but for the node in slot `c`: what is above it still precedes
      what is below it. */
  predicate Broken(o: Order, v: seq<nat>, c: nat)
    requires c < |v|
  {
    && (forall i :: 0 < i < |v| && i != c && Parent(i) != c ==> Fine(o, v, i))
    && (forall i :: 0 < i < |v| && c > 0 && Parent(i) == c ==> o.le(v[Parent(c)], v[i]))
  }

  lemma Repaired(o: Order, v: seq<nat>, c: nat)
    requires c < |v| && Broken(o, v, c) && Fine(o, v, c) && ChildrenFine(o, v, c)
    ensures Ordered(o, v)
  {
  }

  function Swap(v: seq<nat>, i: nat, j: nat): seq<nat>
    requires i < |v| && j < |v|
  {
    v[i := v[j]][j := v[i]]
  }

  lemma SwapSame(v: seq<nat>, i: nat, j: nat)
    requires i < |v| && j < |v| && i != j
    ensures multiset(Swap(v, i, j)) == multiset(v)
  {
  }

  /** A node that precedes its parent changes places with it. */
  lemma Rise(o: Order, v: seq<nat>, c: nat)
    requires ValidOrder(o) && 0 < c < |v| && Broken(o, v, c) && o.le(v[c], v[Parent(c)])
    ensures Broken(o, Swap(v, c, Parent(c)), Parent(c)) && ChildrenFine(o, Swap(v, c, Parent(c)), Parent(c))
  {
    var p := Parent(c);
    var w := Swap(v, c, p);
    forall i | 0 < i < |w| && Parent(i) == p ensures Fine(o, w, i) {
      if i != c {
        assert Fine(o, v, i);
      }
    }
    forall i | 0 < i < |w| && i != p && Parent(i) != p ensures Fine(o, w, i) {
      if Parent(i) != c {
        assert Fine(o, v, i);
      }
    }
    if p > 0 {
      assert Fine(o, v, p);
      forall i | 0 < i < |w| && Parent(i) == p ensures o.le(w[Parent(p)], w[i]) {
        if i != c {
          assert Fine(o, v, i);
        }
      }
    }
  }

  /** One round of bubbling: the node is in order with its parent, or rises. */
  lemma RiseStep(o: Order, v: seq<nat>, c: nat)
    requires ValidOrder(o) && 0 < c < |v| && Broken(o, v, c)
    ensures o.cmp(v[Parent(c)], v[c]) ==> Fine(o, v, c)
    ensures !o.cmp(v[Parent(c)], v[c]) ==>
              Broken(o, Swap(v, c, Parent(c)), Parent(c)) && ChildrenFine(o, Swap(v, c, Parent(c)), Parent(c))
  {
    if !o.cmp(v[Parent(c)], v[c]) {
      Rise(o, v, c);
    }
  }

  /** The child the code picks, if there is one. */
  predicate Picked(o: Order, v: seq<nat>, c: nat, k: nat) {
    && (k == 2 * c + 1 || k == 2 * c + 2) && k < |v|
    && (k == 2 * c + 2 ==> o.cmp(v[k], v[k - 1]))
    && (k == 2 * c + 1 && k + 1 < |v| ==> !o.cmp(v[k + 1], v[k]))
  }

  /** It comes before the other. */
  lemma PickedFirst(o: Order, v: seq<nat>, c: nat, k: nat)
    requires ValidOrder(o) && Picked(o, v, c, k)
    ensures Parent(k) == c && forall i :: 0 < i < |v| && Parent(i) == c ==> i == k || o.le(v[k], v[i])
  {
  }

  /** A node preceded by its lesser child changes places with it. */
  lemma Fall(o: Order, v: seq<nat>, c: nat, k: nat)
    requires ValidOrder(o) && c < |v| && Broken(o, v, c) && Fine(o, v, c)
    requires 0 < k < |v| && Parent(k) == c && o.le(v[k], v[c])
    requires forall i :: 0 < i < |v| && Parent(i) == c ==> i == k || o.le(v[k], v[i])
    ensures Broken(o, Swap(v, c, k), k) && Fine(o, Swap(v, c, k), k)
  {
  }

  /** One round of sinking: the node is in order with its children, or falls. */
  lemma FallStep(o: Order, v: seq<nat>, c: nat, k: nat)
    requires ValidOrder(o) && c < |v| && Broken(o, v, c) && Fine(o, v, c) && Picked(o, v, c, k)
    ensures o.cmp(v[c], v[k]) ==> ChildrenFine(o, v, c)
    ensures !o.cmp(v[c], v[k]) ==> Broken(o, Swap(v, c, k), k) && Fine(o, Swap(v, c, k), k)
  {
    PickedFirst(o, v, c, k);
    if !o.cmp(v[c], v[k]) {
      Fall(o, v, c, k);
    }
  }

  // ---------------------------------------------------------------- back pointers

  /** Every node knows its slot. */
  predicate Indexed(v: seq<nat>, index: map<nat, nat>) {
    forall i :: 0 <= i < |v| ==> v[i] in index && index[v[i]] == i
  }

  lemma SwapIndexed(v: seq<nat>, index: map<nat, nat>, i: nat, j: nat)
    requires i < |v| && j < |v| && i != j && Indexed(v, index)
    ensures Indexed(Swap(v, i, j), index[v[j] := i][v[i] := j])
  {
  }

  /** `e` is on its way, in slot `cur` of `v`. In the slots themselves `cur` is a
      hole: it is filled, and `e` told its place, only at the end. */
  ghost predicate Moving(elems: seq<nat>, index: map<nat, nat>, v: seq<nat>,
                         slots: seq<nat>, places: map<nat, nat>, e: nat, cur: nat) {
    && cur < |v| == |slots| && v == slots[cur := e]
    && Indexed(v, places[e := cur])
    && places.Keys == index.Keys && multiset(v) == multiset(elems)
    && (forall x :: x in index && x !in elems ==> places[x] == index[x])
  }

  lemma MoveOn(elems: seq<nat>, index: map<nat, nat>, v: seq<nat>,
               slots: seq<nat>, places: map<nat, nat>, e: nat, cur: nat, to: nat)
    requires Moving(elems, index, v, slots, places, e, cur) && to < |v| && to != cur && e in index
    ensures v[to] == slots[to] && slots[to] in places
    ensures Moving(elems, index, Swap(v, cur, to), slots[cur := slots[to]], places[slots[to] := cur], e, to)
  {
    SwapSame(v, cur, to);
    SwapIndexed(v, places[e := cur], cur, to);
    assert v[to] in multiset(v);
    assert Swap(v, cur, to) == slots[cur := slots[to]][to := e];
    assert places[e := cur][v[to] := cur][v[cur] := to] == places[slots[to] := cur][e := to];
    assert places[slots[to] := cur].Keys == places.Keys;
  }

  lemma MoveStart(elems: seq<nat>, index: map<nat, nat>, e: nat)
    requires Indexed(elems, index) && e in index && index[e] < |elems| && elems[index[e]] == e
    ensures Moving(elems, index, elems, elems, index, e, index[e])
  {
  }

  lemma MoveEnd(elems: seq<nat>, index: map<nat, nat>, v: seq<nat>,
                slots: seq<nat>, places: map<nat, nat>, e: nat, cur: nat)
    requires Moving(elems, index, v, slots, places, e, cur) && e in index && e in elems
    ensures Kept(elems, index, slots[cur := e], places[e := cur])
  {
  }

  /** The same nodes in some order, each knowing its slot; other nodes keep what
      they had. */
  ghost predicate Kept(elems: seq<nat>, index: map<nat, nat>, elems': seq<nat>, index': map<nat, nat>) {
    && Indexed(elems', index') && index'.Keys == index.Keys && multiset(elems') == multiset(elems)
    && (forall x :: x in index && x !in elems ==> index'[x] == index[x])
  }

  /** Where `e` says it is. */
  predicate At(elems: seq<nat>, index: map<nat, nat>, e: nat) {
    e in index && index[e] < |elems| && elems[index[e]] == e
  }

  /** `cfs_binheap_bubble`. */
  method Bubble(o: Order, size: nat, s: Store, ghost p: Plan, ghost elems: seq<nat>, index: map<nat, nat>, e: nat)
    returns (s': Store, ghost elems': seq<nat>, index': map<nat, nat>, moved: bool)
    requires Holds(size, s, p, elems)
    requires ValidOrder(o) && Indexed(elems, index) && At(elems, index, e) && Broken(o, elems, index[e])
    ensures Holds(size, s', p, elems') && SameChunks(s, s') && Kept(elems, index, elems', index')
    ensures !moved ==> elems' == elems && index' == index && Fine(o, elems, index[e])
    ensures moved ==> Ordered(o, elems')
  {
    hide ValidOrder, Indexed, Broken, ChildrenFine, Ordered, Swap, Kept, Holds;
    MoveStart(elems, index, e);
    var cur: nat := index[e];
    s', elems', index', moved := s, elems, index, false;
    ghost var v := elems;
    while cur > 0
      invariant Holds(size, s', p, elems') && SameChunks(s, s')
      invariant Moving(elems, index, v, elems', index', e, cur) && Broken(o, v, cur)
      invariant moved ==> ChildrenFine(o, v, cur)
      invariant !moved ==> elems' == elems && index' == index && cur == index[e]
      decreases cur
    {
      var parent: nat := (cur - 1) / 2;
      RiseStep(o, v, cur);
      var q := Read(size, s', p, elems', parent);
      if o.cmp(q, e) {
        break;
      }
      MoveOn(elems, index, v, elems', index', e, cur, parent);
      index' := index'[q := cur];
      s', elems' := Put(size, s', p, elems', cur, q);
      v := Swap(v, cur, parent);
      cur := parent;
      moved := true;
    }
    MoveEnd(elems, index, v, elems', index', e, cur);
    index' := index'[e := cur];
    s', elems' := Put(size, s', p, elems', cur, e);
    if moved {
      Repaired(o, elems', cur);
    }
  }

  /** `cfs_binheap_sink`. */
  method Sink(o: Order, size: nat, s: Store, ghost p: Plan, n: nat, ghost elems: seq<nat>, index: map<nat, nat>, e: nat)
    returns (s': Store, ghost elems': seq<nat>, index': map<nat, nat>)
    requires Holds(size, s, p, elems) && n == |elems|
    requires ValidOrder(o) && Indexed(elems, index) && At(elems, index, e)
    requires Broken(o, elems, index[e]) && Fine(o, elems, index[e])
    ensures Holds(size, s', p, elems') && SameChunks(s, s') && Kept(elems, index, elems', index') && Ordered(o, elems')
  {
    hide ValidOrder, Indexed, Broken, Ordered, Swap, Kept, Holds;
    MoveStart(elems, index, e);
    var cur: nat := index[e];
    s', elems', index' := s, elems, index;
    ghost var v := elems;
    while 2 * cur + 1 < n
      invariant Holds(size, s', p, elems') && SameChunks(s, s') && n == |v|
      invariant Moving(elems, index, v, elems', index', e, cur) && Broken(o, v, cur) && Fine(o, v, cur)
      decreases n - cur
    {
      var child := 2 * cur + 1;
      var q := Read(size, s', p, elems', child);
      if child + 1 < n {
        var q2 := Read(size, s', p, elems', child + 1);
        if o.cmp(q2, q) {
          child, q := child + 1, q2;
        }
      }
      FallStep(o, v, cur, child);
      if o.cmp(e, q) {
        break;
      }
      MoveOn(elems, index, v, elems', index', e, cur, child);
      index' := index'[q := cur];
      s', elems' := Put(size, s', p, elems', cur, q);
      v := Swap(v, cur, child);
      cur := child;
    }
    MoveEnd(elems, index, v, elems', index', e, cur);
    index' := index'[e := cur];
    s', elems' := Put(size, s', p, elems', cur, e);
    Repaired(o, elems', cur);
  }

  /** `cfs_binheap_relocate`. */
  method Repair(o: Order, size: nat, s: Store, ghost p: Plan, n: nat, ghost elems: seq<nat>, index: map<nat, nat>,
                e: nat)
    returns (s': Store, ghost elems': seq<nat>, index': map<nat, nat>)
    requires Holds(size, s, p, elems) && n == |elems|
    requires ValidOrder(o) && Indexed(elems, index) && At(elems, index, e) && Broken(o, elems, index[e])
    ensures Holds(size, s', p, elems') && SameChunks(s, s') && Kept(elems, index, elems', index') && Ordered(o, elems')
    ensures |elems'| == n && Indexed(elems', index')
  {
    hide Broken, Ordered, ValidOrder, Indexed, Holds;
    var moved;
    s', elems', index', moved := Bubble(o, size, s, p, elems, index, e);
    if !moved {
      s', elems', index' := Sink(o, size, s', p, n, elems', index', e);
    }
    SameLength(elems', elems);
  }

  ghost predicate SameChunks(s: Store, s': Store) { s'.n == s.n && s'.mem.Keys == s.mem.Keys }

  method Put(size: nat, s: Store, ghost p: Plan, ghost v: seq<nat>, i: nat, x: nat)
    returns (s': Store, ghost v': seq<nat>)
    requires Holds(size, s, p, v) && i < |v|
    ensures Holds(size, s', p, v') && v' == v[i := x] && SameChunks(s, s')
  {
    s' := Write(size, s, p, v, i, x);
    v' := v[i := x];
  }

  // ---------------------------------------------------------------- what breaks a heap

  /** Changing what one node compares as breaks the heap at that node only, in
      whichever direction. */
  lemma Rekeyed(o: Order, o': Order, v: seq<nat>, c: nat)
    requires ValidOrder(o) && Ordered(o, v) && c < |v|
    requires forall a, b :: a != v[c] && b != v[c] ==> (o.le(a, b) <==> o'.le(a, b))
    requires forall i :: 0 <= i < |v| && i != c ==> v[i] != v[c]
    ensures Broken(o', v, c)
  {
    forall i | 0 < i < |v| && i != c && Parent(i) != c ensures Fine(o', v, i) {
      assert Fine(o, v, i);
    }
    forall i | 0 < i < |v| && c > 0 && Parent(i) == c ensures o'.le(v[Parent(c)], v[i]) {
      assert Fine(o, v, i) && Fine(o, v, c);
    }
  }

  lemma Appended(o: Order, v: seq<nat>, e: nat)
    requires Ordered(o, v)
    ensures Broken(o, v + [e], |v|)
  {
    forall i | 0 < i < |v| ensures Fine(o, v + [e], i) {
      assert Fine(o, v, i);
    }
  }

  /** Putting the last node in place of another. */
  lemma Replaced(o: Order, v: seq<nat>, c: nat)
    requires ValidOrder(o) && Ordered(o, v) && c < |v| - 1
    ensures Broken(o, v[..|v| - 1][c := v[|v| - 1]], c)
  {
    var w := v[..|v| - 1][c := v[|v| - 1]];
    forall i | 0 < i < |w| && i != c && Parent(i) != c ensures Fine(o, w, i) {
      assert Fine(o, v, i);
    }
    forall i | 0 < i < |w| && c > 0 && Parent(i) == c ensures o.le(w[Parent(c)], w[i]) {
      assert Fine(o, v, i) && Fine(o, v, c);
    }
  }

  lemma ReplacedNodes(v: seq<nat>, index: map<nat, nat>, c: nat)
    requires Indexed(v, index) && c < |v| - 1
    ensures var last := v[|v| - 1];
            var w := v[..|v| - 1][c := last];
            && Indexed(w, index[last := c]) && At(w, index[last := c], last) && index[last := c].Keys == index.Keys
            && multiset(w) == multiset(v) - multiset{v[c]} && v[c] !in w
  {
    var last := v[|v| - 1];
    var w := v[..|v| - 1][c := last];
    assert v == v[..|v| - 1] + [last];
    assert v[c] != last;
    forall i | 0 <= i < |w| ensures w[i] != v[c] {
      assert w[i] == if i == c then last else v[i];
    }
  }

  lemma ShortenedNodes(v: seq<nat>, index: map<nat, nat>)
    requires Indexed(v, index) && v != []
    ensures Indexed(v[..|v| - 1], index) && multiset(v[..|v| - 1]) == multiset(v) - multiset{v[|v| - 1]}
  {
    assert v == v[..|v| - 1] + [v[|v| - 1]];
  }

  lemma Shortened(o: Order, v: seq<nat>)
    requires Ordered(o, v) && v != []
    ensures Ordered(o, v[..|v| - 1])
  {
    var w := v[..|v| - 1];
    forall i | 0 <= i < |w| ensures Fine(o, w, i) {
      assert Fine(o, v, i);
    }
  }

  /** The root comes before everything. */
  lemma {:induction false} RootLeast(o: Order, v: seq<nat>, i: nat)
    requires ValidOrder(o) && Ordered(o, v) && i < |v|
    ensures o.le(v[0], v[i])
    decreases i
  {
    if i == 0 {
      assert o.cmp(v[0], v[0]) || !o.cmp(v[0], v[0]);
    } else {
      RootLeast(o, v, Parent(i));
      assert Fine(o, v, i);
    }
  }

  // ---------------------------------------------------------------- the heap object

  datatype Code = Ok | NoMemory | Refused

  /** `struct cfs_binheap`. */
  class BinHeap {
    /** Slots per chunk. */
    const size: nat
    var nelements: nat
    var store: Store
    var index: map<nat, nat>
    /** The nodes in the slots in use, and what the chunks are for. */
    ghost var elems: seq<nat>
    ghost var plan: Plan

    ghost predicate Stored()
      reads this
    {
      nelements == |elems| && Holds(size, store, plan, elems) && Indexed(elems, index)
    }

    ghost predicate Valid(o: Order)
      reads this
    {
      ValidOrder(o) && Stored() && Ordered(o, elems)
    }

    /** `cfs_binheap_create` without preallocation. */
    constructor (size: nat)
      requires size > 0
      ensures this.size == size && elems == [] && forall o :: ValidOrder(o) ==> Valid(o)
    {
      this.size := size;
      nelements, store, index := 0, Store(0, 0, 0, 0, map[]), map[];
      elems, plan := [], Plan(Shape(false, 0, 0, 0), map[]);
      EmptyStore(size);
    }

    /** Whether the memory could grow with `avail`. */
    ghost predicate CanGrow(avail: seq<nat>)
      reads this
    {
      store.n < 1 + size + size * size && Needed(size, plan.shape) <= |avail|
    }

    /** Repairs a heap that is broken at `e`. */
    method Relocate(o: Order, e: nat)
      requires ValidOrder(o) && Stored() && At(elems, index, e) && Broken(o, elems, index[e])
      modifies this
      ensures Valid(o) && SameChunks(old(store), store) && Kept(old(elems), old(index), elems, index)
    {
      hide Broken, Ordered, ValidOrder, Indexed, Holds;
      var s, idx := store, index;
      ghost var p, v := plan, elems;
      s, v, idx := Repair(o, size, s, p, nelements, v, idx, e);
      hide Kept;
      store, elems, index := s, v, idx;
    }

    /** Inserts `e`. More memory, out of `avail`, is asked for exactly when all
        slots are in use; `enters` is what the user's callback says. If either
        fails, nothing changes but perhaps the memory. */
    method Insert(o: Order, e: nat, avail: seq<nat>, enters: bool) returns (rc: Code)
      requires Valid(o) && e !in elems && Unused(avail, store.mem)
      modifies this
      ensures Valid(o)
      ensures var full := |old(elems)| == Capacity(size, old(store));
              && rc == (if full && !old(CanGrow(avail)) then NoMemory else if !enters then Refused else Ok)
              && Capacity(size, store) == Capacity(size, old(store)) + (if full && old(CanGrow(avail)) then size else 0)
              && (!full || rc == NoMemory ==> SameChunks(old(store), store))
      ensures rc != Ok ==> elems == old(elems) && index == old(index)
      ensures rc == Ok ==> multiset(elems) == multiset(old(elems)) + multiset{e}
    {
      hide Holds, Unused, Needed, Capacity;
      var n, s := nelements, store;
      ghost var p, v := plan, elems;
      FitsIn(size, s, p, v);
      if n == Capacity(size, s) {
        var ok;
        ok, s, p := MoreSlots(size, s, p, v, avail);
        store, plan := s, p;
        if !ok {
          return NoMemory;
        }
      }
      if !enters {
        return Refused;
      }
      Appended(o, v, e);
      AppendedNodes(v, index, e);
      var idx := index[e := n];
      ghost var grown := s;
      s := Write(size, s, p, v, n, e);
      v := v + [e];
      hide Indexed;
      var moved;
      s, v, idx, moved := Bubble(o, size, s, p, v, idx, e);
      if !moved {
        Repaired(o, v, n);
      }
      SameLength(v, elems + [e]);
      SameCapacity(size, grown, s);
      hide Broken, Ordered, ValidOrder, Kept;
      nelements := n + 1;
      store, elems, index := s, v, idx;
      rc := Ok;
    }

    /** `cfs_binheap_remove`. */
    method Remove(o: Order, e: nat)
      requires Valid(o) && At(elems, index, e)
      modifies this
      ensures Valid(o) && SameChunks(old(store), store) && multiset(elems) == multiset(old(elems)) - multiset{e}
    {
      hide Holds;
      var n, cur := nelements - 1, index[e];
      ShortenedNodes(elems, index);
      var last := Read(size, store, plan, elems, n);
      Fewer(size, store, plan, elems, n);
      if last == e {
        Shortened(o, elems);
        nelements, elems := n, elems[..n];
        return;
      }
      Replaced(o, elems, cur);
      ReplacedNodes(elems, index, cur);
      hide Broken, Ordered, ValidOrder, Indexed;
      var s := Write(size, store, plan, elems[..n], cur, last);
      index := index[last := cur];
      nelements, store, elems := n, s, elems[..n][cur := last];
      Relocate(o, last);
    }

    /** Takes nodes off the root until the heap is empty: they come in order, and
        all of them come. */
    method Drain(o: Order) returns (out: seq<nat>)
      requires Valid(o)
      modifies this
      ensures Valid(o) && elems == [] && multiset(out) == multiset(old(elems))
      ensures Sorted(o, out)
    {
      out := [];
      while nelements > 0
        invariant Valid(o) && multiset(out) + multiset(elems) == multiset(old(elems))
        invariant Sorted(o, out) && Precedes(o, out, multiset(elems))
        decreases |multiset(elems)|
      {
        hide Ordered, ValidOrder, Sorted, Precedes, Holds;
        var e := Read(size, store, plan, elems, 0);
        Drained(o, out, elems);
        Remove(o, e);
        out := out + [e];
      }
    }
  }

  lemma AppendedNodes(v: seq<nat>, index: map<nat, nat>, e: nat)
    requires Indexed(v, index) && e !in v
    ensures Indexed(v + [e], index[e := |v|]) && At(v + [e], index[e := |v|], e)
  {
  }

  lemma SameCapacity(size: nat, s: Store, s': Store)
    requires SameChunks(s, s')
    ensures Capacity(size, s') == Capacity(size, s)
  {
  }

  lemma FitsIn(size: nat, s: Store, p: Plan, v: seq<nat>)
    requires Holds(size, s, p, v)
    ensures |v| <= Capacity(size, s) && size > 0
  {
  }

  lemma SameLength(v: seq<nat>, w: seq<nat>)
    requires multiset(v) == multiset(w)
    ensures |v| == |w|
  {
    assert |v| == |multiset(v)| && |w| == |multiset(w)|;
  }

  predicate Sorted(o: Order, out: seq<nat>) {
    forall i, j :: 0 <= i < j < |out| ==> o.le(out[i], out[j])
  }

  ghost predicate Precedes(o: Order, out: seq<nat>, rest: multiset<nat>) {
    forall i, x :: 0 <= i < |out| && x in rest ==> o.le(out[i], x)
  }

  /** The root is the next in order. */
  lemma Drained(o: Order, out: seq<nat>, v: seq<nat>)
    requires ValidOrder(o) && Ordered(o, v) && v != [] && Sorted(o, out) && Precedes(o, out, multiset(v))
    ensures v[0] in multiset(v)
    ensures Sorted(o, out + [v[0]]) && Precedes(o, out + [v[0]], multiset(v) - multiset{v[0]})
  {
    forall x | x in multiset(v) ensures o.le(v[0], x) {
      var i :| 0 <= i < |v| && v[i] == x;
      RootLeast(o, v, i);
    }
  }
}
