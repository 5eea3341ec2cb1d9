/** The chunks of the heap's memory as one array of slots: reading and writing a
    slot by its number, and adding slots. */
module HeapSlots {
  import opened Arithmetic
  import opened HeapStorage

  /** What is known of the chunks and not stored. */
  datatype Plan = Plan(shape: Shape, role: map<nat, Role>)

  ghost predicate Sound(size: nat, s: Store, p: Plan) {
    Valid(size, s, p.shape, p.role)
  }

  /** How many slots there is memory for. */
  function Capacity(size: nat, s: Store): nat {
    Product(s.n, size);
    s.n * size
  }

  ghost predicate InReach(size: nat, s: Store, p: Plan, i: nat) {
    size > 0 && Tabled(size, s, p.shape) && Has(size, p.shape, LeafOf(size, i))
    && var (a, w) := Pointer(size, s, p.shape, i); a in s.mem && w < |s.mem[a]|
  }

  lemma Reached(size: nat, s: Store, p: Plan, i: nat)
    requires Sound(size, s, p) && i < Capacity(size, s)
    ensures InReach(size, s, p, i)
  {
    PointerInjective(size, s, p.shape, p.role, i, i);
  }

  /** The word a slot is. */
  ghost function Word(size: nat, s: Store, p: Plan, i: nat): nat
    requires InReach(size, s, p, i)
  {
    var (a, w) := Pointer(size, s, p.shape, i);
    s.mem[a][w]
  }

  /** The first `|v|` slots hold `v`. */
  ghost predicate Holds(size: nat, s: Store, p: Plan, v: seq<nat>) {
    && Sound(size, s, p) && |v| <= Capacity(size, s)
    && forall i :: 0 <= i < |v| ==> InReach(size, s, p, i) && Word(size, s, p, i) == v[i]
  }

  lemma EmptyStore(size: nat)
    requires size > 0
    ensures Holds(size, Store(0, 0, 0, 0, map[]), Plan(Shape(false, 0, 0, 0), map[]), [])
  {
  }

  /** `cfs_binheap_pointer`. */
  method Locate(size: nat, s: Store, ghost p: Plan, idx: nat) returns (a: nat, w: nat)
    requires Sound(size, s, p) && idx < Capacity(size, s)
    ensures InReach(size, s, p, idx) && (a, w) == Pointer(size, s, p.shape, idx)
  {
    Reached(size, s, p, idx);
    Remainders(size, idx);
    var i := idx;
    if i < size {
      return s.e1, i;
    }
    i := i - size;
    if i < size * size {
      return s.mem[s.e2][i / size], i % size;
    }
    i := i - size * size;
    a, w := s.mem[s.mem[s.e3][i / (size * size)]][i / size % size], i % size;
  }

  /** What is left of the number at each level gives the same word. */
  lemma Remainders(size: nat, idx: nat)
    requires size > 0
    ensures idx < size ==> idx % size == idx
    ensures idx >= size ==> (idx - size) % size == idx % size
    ensures idx >= size + size * size ==> (idx - size - size * size) % size == idx % size
    ensures size * size > 0
  {
    QuotRem(idx, size);
    if idx >= size {
      assert (idx / size - 1) * size == (idx / size) * size - size;
      DivUnique(idx - size, size, idx / size - 1, idx % size);
    } else {
      DivUnique(idx, size, 0, idx);
    }
    if idx >= size + size * size {
      assert (idx / size - 1 - size) * size == (idx / size) * size - size - size * size;
      DivUnique(idx - size - size * size, size, idx / size - 1 - size, idx % size);
    }
  }

  function Written(s: Store, a: nat, w: nat, x: nat): Store
    requires a in s.mem && w < |s.mem[a]|
  {
    var chunk: seq<nat> := s.mem[a][w := x];
    s.(mem := s.mem[a := chunk])
  }

  /** A write to a word of a slot leaves all tables alone. */
  lemma WrittenSound(size: nat, s: Store, p: Plan, a: nat, w: nat, x: nat)
    requires Sound(size, s, p) && a in s.mem && w < |s.mem[a]| && a in p.role && p.role[a].Slots?
    ensures Sound(size, Written(s, a, w, x), p)
    ensures forall l :: Has(size, p.shape, l) ==>
              LeafAt(size, Written(s, a, w, x), p.shape, l) == LeafAt(size, s, p.shape, l)
  {
    var s', h := Written(s, a, w, x), p.shape;
    hide IsShape;
    forall b | b in s.mem && b != a ensures s'.mem[b] == s.mem[b] {}
    assert h.two > 0 ==> s.e2 != a;
    assert HasTable3(h) ==> s.e3 != a;
    forall i | 0 <= i < size && HasMiddle(h, i)
      ensures MiddleOk(size, s', i) && s'.mem[s'.e3][i] == s.mem[s.e3][i] != a
    {
      assert MiddleOk(size, s, i);
    }
    assert Tabled(size, s', h);
    forall l | Has(size, h, l) ensures LeafAt(size, s', h, l) == LeafAt(size, s, h, l) {
      assert l.Three? ==> HasMiddle(h, l.i);
    }
  }

  /** A write to slot `i` changes what slot `i` holds and no other slot. */
  lemma WriteOne(size: nat, s: Store, p: Plan, i: nat, x: nat, j: nat)
    requires Sound(size, s, p) && i < Capacity(size, s) && j < Capacity(size, s)
    ensures InReach(size, s, p, i) && InReach(size, s, p, j)
    ensures var (a, w) := Pointer(size, s, p.shape, i);
            var s' := Written(s, a, w, x);
            && Sound(size, s', p) && InReach(size, s', p, j)
            && Word(size, s', p, j) == if j == i then x else Word(size, s, p, j)
  {
    Reached(size, s, p, i);
    Reached(size, s, p, j);
    var (a, w) := Pointer(size, s, p.shape, i);
    PointerInjective(size, s, p.shape, p.role, i, j);
    WrittenSound(size, s, p, a, w, x);
    hide Valid, LeafOf, LeafAt, Has, Tabled;
    var s' := Written(s, a, w, x);
    Reached(size, s', p, j);
    assert Pointer(size, s', p.shape, j) == Pointer(size, s, p.shape, j);
  }

  method Read(size: nat, s: Store, ghost p: Plan, ghost v: seq<nat>, i: nat) returns (x: nat)
    requires Holds(size, s, p, v) && i < |v|
    ensures x == v[i]
  {
    var a, w := Locate(size, s, p, i);
    x := s.mem[a][w];
  }

  /** Writing a slot in use, or the first one that is not. */
  method Write(size: nat, s: Store, ghost p: Plan, ghost v: seq<nat>, i: nat, x: nat) returns (s': Store)
    requires Holds(size, s, p, v) && i <= |v| && i < Capacity(size, s)
    ensures Holds(size, s', p, if i < |v| then v[i := x] else v + [x])
    ensures s'.n == s.n && s'.mem.Keys == s.mem.Keys
  {
    var a, w := Locate(size, s, p, i);
    s' := Written(s, a, w, x);
    ghost var v' := if i < |v| then v[i := x] else v + [x];
    forall j | 0 <= j < |v'| ensures InReach(size, s', p, j) && Word(size, s', p, j) == v'[j] {
      WriteOne(size, s, p, i, x, j);
    }
    WriteOne(size, s, p, i, x, i);
  }

  /** `cfs_binheap_grow`, which leaves what the slots hold alone. */
  method MoreSlots(size: nat, s: Store, ghost p: Plan, ghost v: seq<nat>, avail: seq<nat>)
    returns (ok: bool, s': Store, ghost p': Plan)
    requires Holds(size, s, p, v) && Unused(avail, s.mem)
    ensures Holds(size, s', p', v)
    ensures ok <==> s.n < 1 + size + size * size && Needed(size, p.shape) <= |avail|
    ensures if ok then Capacity(size, s') == Capacity(size, s) + size else s' == s
  {
    hide Valid, Extends, Unused, Needed;
    ghost var h, role;
    ok, s', h, role := Grow(size, s, p.shape, p.role, avail);
    p' := Plan(h, role);
    if ok {
      GrownHolds(size, s, p, v, s', p');
    } else {
      SamePlan(size, s, p, v, p');
    }
  }

  lemma GrownHolds(size: nat, s: Store, p: Plan, v: seq<nat>, s': Store, p': Plan)
    requires Holds(size, s, p, v) && Sound(size, s', p') && s'.n == s.n + 1
    requires Extends(size, s, p.shape, s', p'.shape)
    ensures Holds(size, s', p', v) && Capacity(size, s') == Capacity(size, s) + size
  {
    hide Valid, Extends, InReach, Capacity;
    CapacityMore(size, s, s');
    forall i | 0 <= i < |v| ensures InReach(size, s', p', i) && Word(size, s', p', i) == v[i] {
      GrownWord(size, s, p, s', p', i);
    }
  }

  lemma CapacityMore(size: nat, s: Store, s': Store)
    requires s'.n == s.n + 1
    ensures Capacity(size, s') == Capacity(size, s) + size
  {
    assert (s.n + 1) * size == s.n * size + size;
  }

  lemma GrownWord(size: nat, s: Store, p: Plan, s': Store, p': Plan, i: nat)
    requires Sound(size, s, p) && Sound(size, s', p') && s'.n == s.n + 1 && i < Capacity(size, s)
    requires Extends(size, s, p.shape, s', p'.shape)
    ensures InReach(size, s, p, i) && InReach(size, s', p', i) && Word(size, s', p', i) == Word(size, s, p, i)
  {
    hide Valid, Extends, Tabled, Has, LeafOf, LeafAt, Capacity;
    CapacityMore(size, s, s');
    SlotStays(size, s, p, s', p', i);
    Reached(size, s, p, i);
    Reached(size, s', p', i);
  }

  lemma SlotStays(size: nat, s: Store, p: Plan, s': Store, p': Plan, i: nat)
    requires Sound(size, s, p) && Extends(size, s, p.shape, s', p'.shape) && i < Capacity(size, s)
    ensures Has(size, p.shape, LeafOf(size, i)) && Has(size, p'.shape, LeafOf(size, i))
    ensures Tabled(size, s, p.shape) && Tabled(size, s', p'.shape)
    ensures Pointer(size, s', p'.shape, i) == Pointer(size, s, p.shape, i)
    ensures var a := Pointer(size, s, p.shape, i).0; a in s.mem && a in s'.mem && s'.mem[a] == s.mem[a]
  {
    hide LeafOf, LeafAt;
    SlotsStay(size, s, p.shape, p.role, s', p'.shape, i);
  }

  lemma SamePlan(size: nat, s: Store, p: Plan, v: seq<nat>, p': Plan)
    requires Holds(size, s, p, v) && Sound(size, s, p') && p'.shape == p.shape
    ensures Holds(size, s, p', v)
  {
    hide Valid;
    forall i | 0 <= i < |v| ensures InReach(size, s, p', i) && Word(size, s, p', i) == v[i] {
      assert InReach(size, s, p, i);
    }
  }

  lemma Fewer(size: nat, s: Store, p: Plan, v: seq<nat>, n: nat)
    requires Holds(size, s, p, v) && n <= |v|
    ensures Holds(size, s, p, v[..n])
  {
  }
}
