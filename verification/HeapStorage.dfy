/** The memory behind the heap's slots: chunks of `size` words each, the first
    one reached directly, the next `size` through a table, and the next `size`
    times `size` through a table of tables. */
module HeapStorage {
  import opened Arithmetic

  /** The high-water mark is `n * size` slots. `mem` is the chunks that are
      allocated, by address; the words of a table are addresses. */
  datatype Store = Store(n: nat, e1: nat, e2: nat, e3: nat, mem: map<nat, seq<nat>>)

  /** A chunk of slots, by the way to it. */
  datatype Leaf = One | Two(i: nat) | Three(i: nat, w: nat)

  /** What an allocated chunk is for. */
  datatype Role = Slots(leaf: Leaf) | Table2 | Table3 | Middle(i: nat)

  /** How far the levels are filled: whether there is a first leaf, how many are
      behind the second-level table, how many middle tables are full, and how
      many leaves the next one has. */
  datatype Shape = Shape(one: bool, two: nat, full: nat, more: nat)

  /** The shape that `n` leaves have. */
  predicate IsShape(size: nat, n: nat, h: Shape) {
    && h.more < size && (h.full < size || (h.full == size && h.more == 0))
    && (h.one <==> n > 0)
    && (n <= 1 + size ==> h.full == 0 == h.more && h.two == if n == 0 then 0 else n - 1)
    && (n > 1 + size ==> h.two == size && n == 1 + size + h.full * size + h.more)
  }

  predicate HasTable3(h: Shape) { h.full > 0 || h.more > 0 }

  predicate HasMiddle(h: Shape, i: nat) { i < h.full || (i == h.full && h.more > 0) }

  predicate Has(size: nat, h: Shape, l: Leaf) {
    match l
    case One => h.one
    case Two(i) => i < h.two
    case Three(i, w) => (i < h.full && w < size) || (i == h.full && w < h.more)
  }

  /** The tables that should be there are, with all their words. */
  predicate Tabled(size: nat, s: Store, h: Shape) {
    && h.two <= size && h.full <= size && (h.full == size ==> h.more == 0) && h.more <= size
    && (h.two > 0 ==> s.e2 in s.mem && |s.mem[s.e2]| == size)
    && (HasTable3(h) ==> s.e3 in s.mem && |s.mem[s.e3]| == size)
    && (forall i :: 0 <= i < size && HasMiddle(h, i) ==> MiddleOk(size, s, i))
  }

  predicate MiddleOk(size: nat, s: Store, i: nat) {
    && s.e3 in s.mem && i < |s.mem[s.e3]|
    && s.mem[s.e3][i] in s.mem && |s.mem[s.mem[s.e3][i]]| == size
  }

  function LeafAt(size: nat, s: Store, h: Shape, l: Leaf): nat
    requires Tabled(size, s, h) && Has(size, h, l)
  {
    match l
    case One => s.e1
    case Two(i) => s.mem[s.e2][i]
    case Three(i, w) => assert HasMiddle(h, i); s.mem[s.mem[s.e3][i]][w]
  }

  predicate RoleOk(size: nat, s: Store, h: Shape, a: nat, r: Role)
    requires Tabled(size, s, h)
  {
    match r
    case Slots(l) => Has(size, h, l) && LeafAt(size, s, h, l) == a
    case Table2 => h.two > 0 && s.e2 == a
    case Table3 => HasTable3(h) && s.e3 == a
    case Middle(i) => i < size && HasMiddle(h, i) && MiddleOk(size, s, i) && s.mem[s.e3][i] == a
  }

  /** Every allocated chunk has one role, and every role its chunk: nothing is
      shared and nothing is lost. */
  ghost predicate Roles(size: nat, s: Store, h: Shape, role: map<nat, Role>) {
    && Tabled(size, s, h) && role.Keys == s.mem.Keys
    && (forall l :: Has(size, h, l) ==> LeafAt(size, s, h, l) in role && role[LeafAt(size, s, h, l)] == Slots(l))
    && (h.two > 0 ==> role[s.e2] == Table2)
    && (HasTable3(h) ==> role[s.e3] == Table3)
    && (forall i :: 0 <= i < size && HasMiddle(h, i) ==> MiddleOk(size, s, i) && role[s.mem[s.e3][i]] == Middle(i))
    && (forall a :: a in role ==> |s.mem[a]| == size && RoleOk(size, s, h, a, role[a]))
  }

  ghost predicate Valid(size: nat, s: Store, h: Shape, role: map<nat, Role>) {
    size > 0 && IsShape(size, s.n, h) && Roles(size, s, h, role)
  }

  // ---------------------------------------------------------------- the address map

  /** The way to a slot. */
  function LeafOf(size: nat, idx: nat): Leaf
    requires size > 0
  {
    if idx < size then One
    else if idx - size < size * size then Two((idx - size) / size)
    else
      var i := idx - size - size * size;
      if size * size == 0 then One else Three(i / (size * size), i / size % size)
  }

  /** `cfs_binheap_pointer`: chunk and word of a slot. */
  function Pointer(size: nat, s: Store, h: Shape, idx: nat): (nat, nat)
    requires size > 0 && Tabled(size, s, h) && Has(size, h, LeafOf(size, idx))
  {
    (LeafAt(size, s, h, LeafOf(size, idx)), idx % size)
  }

  /** Slots that share a leaf and a word are the same. */
  lemma LeafOfInjective(size: nat, i: nat, j: nat)
    requires size > 0 && LeafOf(size, i) == LeafOf(size, j) && i % size == j % size
    ensures i == j
  {
    LeafNumber(size, i);
    LeafNumber(size, j);
    SameSplit(size, i, j);
  }

  /** How many leaves come before a leaf. */
  function Number(size: nat, l: Leaf): nat {
    match l
    case One => 0
    case Two(i) => 1 + i
    case Three(i, w) => 1 + size + i * size + w
  }

  lemma LeafNumber(size: nat, idx: nat)
    requires size > 0
    ensures idx / size == Number(size, LeafOf(size, idx))
    ensures LeafOf(size, idx).Two? ==> LeafOf(size, idx).i < size
    ensures LeafOf(size, idx).Three? ==> LeafOf(size, idx).w < size
  {
    if idx < size {
      DivUnique(idx, size, 0, idx);
    } else if idx - size < size * size {
      DropOne(idx, size, 1);
      DivBelow(idx - size, size, size);
    } else {
      ThirdLevel(size, idx);
    }
  }

  lemma ThirdLevel(size: nat, idx: nat)
    requires size > 0 && idx >= size + size * size
    ensures var i := idx - size - size * size;
            && size * size > 0 && i / size % size < size
            && idx / size == 1 + size + i / (size * size) * size + i / size % size
  {
    var i := idx - size - size * size;
    assert (1 + size) * size == size + size * size;
    DropOne(idx, size, 1 + size);
    DivTwice(i, size);
    QuotRem(i / size, size);
  }

  /** The slots below the high-water mark are those in leaves there are. */
  lemma BelowMark(size: nat, n: nat, h: Shape, idx: nat)
    requires size > 0 && IsShape(size, n, h)
    ensures idx < n * size <==> Has(size, h, LeafOf(size, idx))
  {
    var l := LeafOf(size, idx);
    LeafNumber(size, idx);
    DivBelow(idx, size, n);
    hide LeafOf;
    NumberBelow(size, n, h, l);
  }

  lemma NumberBelow(size: nat, n: nat, h: Shape, l: Leaf)
    requires size > 0 && IsShape(size, n, h) && (l.Two? ==> l.i < size) && (l.Three? ==> l.w < size)
    ensures Number(size, l) < n <==> Has(size, h, l)
  {
    if l.Three? {
      Product(l.i, size);
      Apart(size, l.i, h.full);
      Apart(size, h.full, l.i);
    } else {
      Product(h.full, size);
    }
  }

  /** Different slots are different words, each in an allocated leaf. */
  lemma PointerInjective(size: nat, s: Store, h: Shape, role: map<nat, Role>, i: nat, j: nat)
    requires Valid(size, s, h, role) && i < s.n * size && j < s.n * size
    ensures Has(size, h, LeafOf(size, i)) && Has(size, h, LeafOf(size, j))
    ensures Pointer(size, s, h, i) == Pointer(size, s, h, j) <==> i == j
    ensures var p := Pointer(size, s, h, i); p.0 in s.mem && p.1 < |s.mem[p.0]| && role[p.0] == Slots(LeafOf(size, i))
  {
    hide IsShape, LeafOf, LeafAt;
    BelowMark(size, s.n, h, i);
    BelowMark(size, s.n, h, j);
    SameSplit(size, i, j);
    assert LeafAt(size, s, h, LeafOf(size, i)) in role;
    assert LeafAt(size, s, h, LeafOf(size, j)) in role;
    if Pointer(size, s, h, i) == Pointer(size, s, h, j) {
      LeafOfInjective(size, i, j);
    }
  }

  // ---------------------------------------------------------------- growing

  /** A freshly allocated chunk. */
  function Chunk(size: nat): seq<nat> { seq(size, _ => 0) }

  function NextShape(size: nat, h: Shape): Shape {
    if !h.one then h.(one := true)
    else if h.two < size then h.(two := h.two + 1)
    else if h.more + 1 < size then h.(more := h.more + 1)
    else h.(full := h.full + 1, more := 0)
  }

  lemma NextIsShape(size: nat, n: nat, h: Shape)
    requires size > 0 && IsShape(size, n, h)
    ensures n < 1 + size + size * size <==> h.full < size
    ensures h.full < size ==> IsShape(size, n + 1, NextShape(size, h))
    ensures n > size ==> n - 1 - size == h.full * size + h.more
  {
    Apart(size, h.full, size);
    assert (h.full + 1) * size == h.full * size + size;
  }

  /** Leaves stay where they are and keep what they hold. */
  ghost predicate Extends(size: nat, s: Store, h: Shape, s': Store, h': Shape) {
    && Tabled(size, s, h) && Tabled(size, s', h')
    && forall l :: Has(size, h, l) ==>
         && Has(size, h', l) && LeafAt(size, s', h', l) == LeafAt(size, s, h, l)
         && var a := LeafAt(size, s, h, l); a in s.mem && a in s'.mem && s'.mem[a] == s.mem[a]
  }

  lemma Grown1Ok(size: nat, s: Store, h: Shape, role: map<nat, Role>, a: nat)
    requires Valid(size, s, h, role) && s.n == 0
    ensures var s', h' := s.(n := 1, e1 := a, mem := s.mem[a := Chunk(size)]), NextShape(size, h);
            Valid(size, s', h', role[a := Slots(One)]) && Extends(size, s, h, s', h')
  {
    forall b ensures b !in role {}
    NextIsShape(size, 0, h);
  }

  /** One more leaf behind the second-level table `t`, which may itself be new. */
  function Grown2(size: nat, s: Store, a: nat, t: nat, table: seq<nat>): Store
    requires 0 < s.n <= size == |table|
  {
    s.(n := s.n + 1, e2 := t, mem := s.mem[a := Chunk(size)][t := table[s.n - 1 := a]])
  }

  lemma Grown2Ok(size: nat, s: Store, h: Shape, role: map<nat, Role>, a: nat, t: nat, table: seq<nat>)
    requires Valid(size, s, h, role) && 0 < s.n <= size == |table| && a !in s.mem && a != t
    requires if s.n == 1 then t !in s.mem else t == s.e2 && table == s.mem[t]
    ensures var s', h' := Grown2(size, s, a, t, table), NextShape(size, h);
            Valid(size, s', h', role[a := Slots(Two(s.n - 1))][t := Table2]) && Extends(size, s, h, s', h')
  {
    var s', h' := Grown2(size, s, a, t, table), NextShape(size, h);
    var role' := role[a := Slots(Two(s.n - 1))][t := Table2];
    NextIsShape(size, s.n, h);
    assert Tabled(size, s', h');
    hide IsShape;
    forall l | Has(size, h, l) ensures
        && Has(size, h', l) && LeafAt(size, s', h', l) == LeafAt(size, s, h, l)
        && LeafAt(size, s, h, l) in s.mem && LeafAt(size, s, h, l) != t {
      assert role[LeafAt(size, s, h, l)] == Slots(l);
    }
    forall b | b in role' ensures |s'.mem[b]| == size && RoleOk(size, s', h', b, role'[b]) {
      if b != a && b != t {
        assert RoleOk(size, s, h, b, role[b]);
      }
    }
  }

  /** One more leaf behind the middle table `t`, which may itself be new and so may
      the table of tables `u`. */
  function Grown3(size: nat, s: Store, h: Shape, a: nat, t: nat, table: seq<nat>, u: nat, tables: seq<nat>): Store
    requires h.more < size == |table| == |tables| && h.full < size
  {
    s.(n := s.n + 1, e3 := u,
       mem := s.mem[a := Chunk(size)][u := tables[h.full := t]][t := table[h.more := a]])
  }

  /** What the code finds or makes before it adds a leaf at the third level. */
  predicate Ready3(size: nat, s: Store, h: Shape, a: nat, t: nat, table: seq<nat>, u: nat, tables: seq<nat>) {
    && h.more < size == |table| == |tables| && h.full < size && s.n > size
    && a !in s.mem && a != t && a != u && t != u
    && (if HasTable3(h) then u == s.e3 && u in s.mem && tables == s.mem[u] else u !in s.mem)
    && (if h.more == 0 then t !in s.mem
        else s.e3 in s.mem && h.full < |s.mem[s.e3]| && t == s.mem[s.e3][h.full] && t in s.mem && table == s.mem[t])
  }

  lemma Grown3Tabled(size: nat, s: Store, h: Shape, role: map<nat, Role>,
                     a: nat, t: nat, table: seq<nat>, u: nat, tables: seq<nat>)
    requires Roles(size, s, h, role) && h.one && h.two == size && Ready3(size, s, h, a, t, table, u, tables)
    ensures Tabled(size, Grown3(size, s, h, a, t, table, u, tables), NextShape(size, h))
    ensures var s' := Grown3(size, s, h, a, t, table, u, tables);
            && s'.mem[s'.e3][h.full] == t
            && forall i :: 0 <= i < size && HasMiddle(h, i) && i != h.full ==>
                 && HasMiddle(NextShape(size, h), i) && MiddleOk(size, s, i) && MiddleOk(size, s', i)
                 && s'.mem[s'.e3][i] == s.mem[s.e3][i] && s'.mem[s.mem[s.e3][i]] == s.mem[s.mem[s.e3][i]]
  {
    var s' := Grown3(size, s, h, a, t, table, u, tables);
    forall i | 0 <= i < size && HasMiddle(h, i)
      ensures MiddleOk(size, s, i) && s.mem[s.e3][i] != u && (i != h.full ==> s.mem[s.e3][i] != t)
    {
      assert role[s.mem[s.e3][i]] == Middle(i);
      assert h.more > 0 ==> HasMiddle(h, h.full);
    }
  }

  lemma Grown3Leaf(size: nat, s: Store, h: Shape, role: map<nat, Role>,
                   a: nat, t: nat, table: seq<nat>, u: nat, tables: seq<nat>, l: Leaf)
    requires Roles(size, s, h, role) && h.one && h.two == size && Ready3(size, s, h, a, t, table, u, tables)
    requires Tabled(size, Grown3(size, s, h, a, t, table, u, tables), NextShape(size, h)) && Has(size, h, l)
    ensures var s', h' := Grown3(size, s, h, a, t, table, u, tables), NextShape(size, h);
            && Has(size, h', l) && LeafAt(size, s', h', l) == LeafAt(size, s, h, l)
            && var b := LeafAt(size, s, h, l); b in s.mem && b in s'.mem && s'.mem[b] == s.mem[b] && b != t && b != u
  {
    Grown3Tabled(size, s, h, role, a, t, table, u, tables);
    assert role[LeafAt(size, s, h, l)] == Slots(l);
    if l.Three? {
      assert HasMiddle(h, l.i);
    } else {
      assert role[s.e2] == Table2;
    }
    assert h.more > 0 ==> HasMiddle(h, h.full) && MiddleOk(size, s, h.full);
  }

  function Role3(h: Shape, role: map<nat, Role>, a: nat, t: nat, u: nat): map<nat, Role> {
    role[a := Slots(Three(h.full, h.more))][u := Table3][t := Middle(h.full)]
  }

  lemma Grown3Role(size: nat, s: Store, h: Shape, role: map<nat, Role>,
                   a: nat, t: nat, table: seq<nat>, u: nat, tables: seq<nat>, b: nat)
    requires Roles(size, s, h, role) && h.one && h.two == size && Ready3(size, s, h, a, t, table, u, tables)
    requires Tabled(size, Grown3(size, s, h, a, t, table, u, tables), NextShape(size, h))
    requires b in Role3(h, role, a, t, u)
    ensures var s', h' := Grown3(size, s, h, a, t, table, u, tables), NextShape(size, h);
            b in s'.mem && |s'.mem[b]| == size && RoleOk(size, s', h', b, Role3(h, role, a, t, u)[b])
  {
    Grown3Tabled(size, s, h, role, a, t, table, u, tables);
    assert HasMiddle(NextShape(size, h), h.full);
    if b != a && b != t && b != u {
      assert RoleOk(size, s, h, b, role[b]);
      if role[b].Slots? {
        Grown3Leaf(size, s, h, role, a, t, table, u, tables, role[b].leaf);
      }
    }
  }

  lemma Grown3Extends(size: nat, s: Store, h: Shape, role: map<nat, Role>,
                      a: nat, t: nat, table: seq<nat>, u: nat, tables: seq<nat>)
    requires Roles(size, s, h, role) && h.one && h.two == size && Ready3(size, s, h, a, t, table, u, tables)
    ensures Extends(size, s, h, Grown3(size, s, h, a, t, table, u, tables), NextShape(size, h))
  {
    Grown3Tabled(size, s, h, role, a, t, table, u, tables);
    var s', h' := Grown3(size, s, h, a, t, table, u, tables), NextShape(size, h);
    forall l | Has(size, h, l) ensures
        && Has(size, h', l) && LeafAt(size, s', h', l) == LeafAt(size, s, h, l)
        && var b := LeafAt(size, s, h, l); b in s.mem && b in s'.mem && s'.mem[b] == s.mem[b] {
      Grown3Leaf(size, s, h, role, a, t, table, u, tables, l);
    }
  }

  /** A leaf of the grown store is an old one or the new one. */
  lemma Grown3Slots(size: nat, s: Store, h: Shape, role: map<nat, Role>,
                    a: nat, t: nat, table: seq<nat>, u: nat, tables: seq<nat>, l: Leaf)
    requires Roles(size, s, h, role) && h.one && h.two == size && Ready3(size, s, h, a, t, table, u, tables)
    requires Tabled(size, Grown3(size, s, h, a, t, table, u, tables), NextShape(size, h))
               && Has(size, NextShape(size, h), l)
    ensures var b := LeafAt(size, Grown3(size, s, h, a, t, table, u, tables), NextShape(size, h), l);
            b in Role3(h, role, a, t, u) && Role3(h, role, a, t, u)[b] == Slots(l)
  {
    if Has(size, h, l) {
      Grown3Leaf(size, s, h, role, a, t, table, u, tables, l);
    } else {
      assert l == Three(h.full, h.more);
    }
  }

  lemma Grown3Middle(size: nat, s: Store, h: Shape, role: map<nat, Role>,
                     a: nat, t: nat, table: seq<nat>, u: nat, tables: seq<nat>, i: nat)
    requires Roles(size, s, h, role) && h.one && h.two == size && Ready3(size, s, h, a, t, table, u, tables)
    requires i < size && HasMiddle(NextShape(size, h), i)
    ensures var s', role' := Grown3(size, s, h, a, t, table, u, tables), Role3(h, role, a, t, u);
            && role'.Keys == s'.mem.Keys && role'[s'.e2] == Table2 && role'[s'.e3] == Table3
            && MiddleOk(size, s', i) && role'[s'.mem[s'.e3][i]] == Middle(i)
  {
    Grown3Tabled(size, s, h, role, a, t, table, u, tables);
    assert h.more > 0 ==> HasMiddle(h, h.full);
    if i != h.full {
      assert HasMiddle(h, i) && role[s.mem[s.e3][i]] == Middle(i);
    }
  }

  lemma Grown3Ok(size: nat, s: Store, h: Shape, role: map<nat, Role>,
                 a: nat, t: nat, table: seq<nat>, u: nat, tables: seq<nat>)
    requires Valid(size, s, h, role) && Ready3(size, s, h, a, t, table, u, tables)
    ensures var s', h' := Grown3(size, s, h, a, t, table, u, tables), NextShape(size, h);
            Valid(size, s', h', Role3(h, role, a, t, u)) && Extends(size, s, h, s', h')
  {
    NextIsShape(size, s.n, h);
    assert h.one && h.two == size && HasMiddle(NextShape(size, h), h.full);
    Grown3Tabled(size, s, h, role, a, t, table, u, tables);
    Grown3Extends(size, s, h, role, a, t, table, u, tables);
    Grown3Middle(size, s, h, role, a, t, table, u, tables, h.full);
    var s', h' := Grown3(size, s, h, a, t, table, u, tables), NextShape(size, h);
    var role' := Role3(h, role, a, t, u);
    assert s'.n == s.n + 1;
    hide IsShape, LeafAt, Extends, RoleOk, Tabled, MiddleOk, Role3, Ready3, Grown3;
    forall l | Has(size, h', l) ensures LeafAt(size, s', h', l) in role' && role'[LeafAt(size, s', h', l)] == Slots(l) {
      Grown3Slots(size, s, h, role, a, t, table, u, tables, l);
    }
    forall i | 0 <= i < size && HasMiddle(h', i) ensures MiddleOk(size, s', i) && role'[s'.mem[s'.e3][i]] == Middle(i) {
      Grown3Middle(size, s, h, role, a, t, table, u, tables, i);
    }
    forall b | b in role' ensures b in s'.mem && |s'.mem[b]| == size && RoleOk(size, s', h', b, role'[b]) {
      Grown3Role(size, s, h, role, a, t, table, u, tables, b);
    }
  }

  /** Growing moves no slot. */
  lemma SlotsStay(size: nat, s: Store, h: Shape, role: map<nat, Role>, s': Store, h': Shape, idx: nat)
    requires Valid(size, s, h, role) && Extends(size, s, h, s', h') && idx < s.n * size
    ensures Has(size, h, LeafOf(size, idx)) && Has(size, h', LeafOf(size, idx))
    ensures Pointer(size, s', h', idx) == Pointer(size, s, h, idx)
    ensures var a := Pointer(size, s, h, idx).0; a in s.mem && a in s'.mem && s'.mem[a] == s.mem[a]
  {
    hide LeafOf, LeafAt;
    BelowMark(size, s.n, h, idx);
  }

  ghost predicate Unused(avail: seq<nat>, mem: map<nat, seq<nat>>) {
    && (forall a :: a in avail ==> a !in mem)
    && (forall i, j :: 0 <= i < j < |avail| ==> avail[i] != avail[j])
  }

  /** How many chunks it takes to add a leaf. */
  function Needed(size: nat, h: Shape): nat {
    if !h.one then 1
    else if h.two < size then (if h.two == 0 then 2 else 1)
    else 1 + (if h.more == 0 then 1 else 0) + (if HasTable3(h) then 0 else 1)
  }

  /** `cfs_binheap_grow`. `avail` are the chunks the allocator can still give. It
      succeeds exactly when the third level is not full and there is memory; then
      there is one leaf more and no slot has moved. Otherwise all is as before and
      what was allocated on the way is free again. */
  method Grow(size: nat, s: Store, ghost h: Shape, ghost role: map<nat, Role>, avail: seq<nat>)
    returns (ok: bool, s': Store, ghost h': Shape, ghost role': map<nat, Role>)
    requires Valid(size, s, h, role) && Unused(avail, s.mem)
    ensures Valid(size, s', h', role')
    ensures ok <==> s.n < 1 + size + size * size && Needed(size, h) <= |avail|
    ensures ok ==>
              && s'.n == s.n + 1 && Extends(size, s, h, s', h')
              && s'.mem.Keys == s.mem.Keys + set i | 0 <= i < Needed(size, h) :: avail[i]
    ensures !ok ==> s' == s && h' == h
  {
    ok, s', h', role' := false, s, h, role;
    NextIsShape(size, s.n, h);
    if |avail| == 0 {
      return;
    }
    if s.n == 0 {
      Grown1Ok(size, s, h, role, avail[0]);
      role' := role[avail[0] := Slots(One)];
      s' := s.(n := 1, e1 := avail[0], mem := s.mem[avail[0] := Chunk(size)]);
    } else if s.n - 1 < size {
      ok, s', role' := Grow2(size, s, h, role, avail);
      h' := if ok then NextShape(size, h) else h;
      return;
    } else {
      ok, s', role' := Grow3(size, s, h, role, avail);
      h' := if ok then NextShape(size, h) else h;
      return;
    }
    ok, h' := true, NextShape(size, h);
  }

  lemma ReadTable2(size: nat, s: Store, h: Shape, role: map<nat, Role>)
    requires Valid(size, s, h, role) && 0 < s.n <= size
    ensures h.two == s.n - 1 && h.one && h.full == 0 == h.more && (s.n > 1 ==> s.e2 in s.mem && |s.mem[s.e2]| == size)
  {
  }

  method Grow2(size: nat, s: Store, ghost h: Shape, ghost role: map<nat, Role>, avail: seq<nat>)
    returns (ok: bool, s': Store, ghost role': map<nat, Role>)
    requires Valid(size, s, h, role) && Unused(avail, s.mem) && 0 < s.n <= size && avail != []
    ensures ok <==> Needed(size, h) <= |avail|
    ensures !ok ==> s' == s && role' == role
    ensures ok ==>
              && s'.n == s.n + 1 && Valid(size, s', NextShape(size, h), role')
              && Extends(size, s, h, s', NextShape(size, h))
              && s'.mem.Keys == s.mem.Keys + set i | 0 <= i < Needed(size, h) :: avail[i]
  {
    hide Roles, Extends;
    ReadTable2(size, s, h, role);
    hide Valid;
    var hwm, frag2 := s.n - 1, avail[0];
    var mem := s.mem[frag2 := Chunk(size)];
    var e2 := s.e2;
    if hwm == 0 {
      if |avail| < 2 {
        mem := mem - {frag2};
        ok, s', role' := false, s.(mem := mem), role;
        return;
      }
      e2 := avail[1];
      mem := mem[e2 := Chunk(size)];
    }
    Grown2Ok(size, s, h, role, frag2, e2, mem[e2]);
    role' := role[frag2 := Slots(Two(s.n - 1))][e2 := Table2];
    s' := s.(n := s.n + 1, e2 := e2, mem := mem[e2 := mem[e2][hwm := frag2]]);
    assert s'.mem == Grown2(size, s, frag2, e2, mem[e2]).mem;
    ok := true;
  }

  method Grow3(size: nat, s: Store, ghost h: Shape, ghost role: map<nat, Role>, avail: seq<nat>)
    returns (ok: bool, s': Store, ghost role': map<nat, Role>)
    requires Valid(size, s, h, role) && Unused(avail, s.mem) && size < s.n && avail != []
    ensures ok <==> s.n < 1 + size + size * size && Needed(size, h) <= |avail|
    ensures !ok ==> s' == s && role' == role
    ensures ok ==>
              && s'.n == s.n + 1 && Valid(size, s', NextShape(size, h), role')
              && Extends(size, s, h, s', NextShape(size, h))
              && s'.mem.Keys == s.mem.Keys + set i | 0 <= i < Needed(size, h) :: avail[i]
  {
    ok, s', role' := false, s, role;
    var j := s.n - 1 - size;
    NextIsShape(size, s.n, h);
    if j >= size * size {
      return;
    }
    DivUnique(j, size, h.full, h.more);
    Product(h.full, size);
    Apart(size, 0, h.full);
    hide Roles;
    ok, s', role' := Grow3At(size, s, h, role, avail, j / size, j % size, j == 0);
  }

  /** The allocations of a growth at the third level, all or nothing. */
  method Alloc3(size: nat, mem: map<nat, seq<nat>>, avail: seq<nat>, middle: bool, first: bool)
    returns (ok: bool, mem': map<nat, seq<nat>>)
    requires Unused(avail, mem) && avail != [] && (first ==> middle)
    ensures ok <==> 1 + (if middle then 1 else 0) + (if first then 1 else 0) <= |avail|
    ensures !ok ==> mem' == mem
    ensures ok ==> mem' == Alloced(size, mem, avail, middle, first)
  {
    var frag2 := avail[0];
    mem' := mem[frag2 := Chunk(size)];
    if middle {
      if |avail| < 2 {
        mem' := mem' - {frag2};
        return false, mem';
      }
      mem' := mem'[avail[1] := Chunk(size)];
    }
    if first {
      if |avail| < 3 {
        mem' := mem' - {frag2} - {avail[1]};
        return false, mem';
      }
      mem' := mem'[avail[2] := Chunk(size)];
    }
    ok := true;
  }

  function Alloced(size: nat, mem: map<nat, seq<nat>>, avail: seq<nat>, middle: bool, first: bool): map<nat, seq<nat>>
    requires |avail| >= 1 + (if middle then 1 else 0) + (if first then 1 else 0) && (first ==> middle)
  {
    var m1 := mem[avail[0] := Chunk(size)];
    var m2 := if middle then m1[avail[1] := Chunk(size)] else m1;
    if first then m2[avail[2] := Chunk(size)] else m2
  }

  lemma AllocedKeys(size: nat, mem: map<nat, seq<nat>>, avail: seq<nat>, middle: bool, first: bool, n: nat)
    requires |avail| >= n == 1 + (if middle then 1 else 0) + (if first then 1 else 0) && (first ==> middle)
    ensures Alloced(size, mem, avail, middle, first).Keys == mem.Keys + set i | 0 <= i < n :: avail[i]
  {
  }

  /** Tables at hand before the leaf is added. */
  lemma Ready(size: nat, s: Store, h: Shape, role: map<nat, Role>, avail: seq<nat>, mem: map<nat, seq<nat>>, t: nat,
              u: nat)
    requires Valid(size, s, h, role) && Unused(avail, s.mem) && size < s.n && h.full < size
               && Needed(size, h) <= |avail|
    requires mem == Alloced(size, s.mem, avail, h.more == 0, !HasTable3(h))
    requires u == if HasTable3(h) then s.e3 else avail[2]
    requires h.more == 0 ==> t == avail[1]
    requires h.more > 0 ==> s.e3 in s.mem && h.full < |s.mem[s.e3]| && t == s.mem[s.e3][h.full]
    ensures u in mem && t in mem && Ready3(size, s, h, avail[0], t, mem[t], u, mem[u])
  {
    assert h.more > 0 ==> HasMiddle(h, h.full) && MiddleOk(size, s, h.full);
  }

  lemma ReadMiddle(size: nat, s: Store, h: Shape, role: map<nat, Role>)
    requires Valid(size, s, h, role) && size < s.n && h.more > 0
    ensures s.e3 in s.mem && h.full < |s.mem[s.e3]|
  {
    assert HasMiddle(h, h.full) && MiddleOk(size, s, h.full);
  }

  /** At word `w` of middle table `q`; `first` if there is no third level yet. */
  method Grow3At(size: nat, s: Store, ghost h: Shape, ghost role: map<nat, Role>, avail: seq<nat>, q: nat, w: nat,
                 first: bool)
    returns (ok: bool, s': Store, ghost role': map<nat, Role>)
    requires Valid(size, s, h, role) && h.one && h.two == size && Unused(avail, s.mem) && size < s.n && avail != []
    requires q == h.full < size && w == h.more && first == !HasTable3(h)
    ensures ok <==> Needed(size, h) <= |avail|
    ensures !ok ==> s' == s && role' == role
    ensures ok ==>
              && s'.n == s.n + 1 && Valid(size, s', NextShape(size, h), role')
              && Extends(size, s, h, s', NextShape(size, h))
              && s'.mem.Keys == s.mem.Keys + set i | 0 <= i < Needed(size, h) :: avail[i]
  {
    hide Valid, Extends, Unused;
    role' := role;
    var mem;
    ok, mem := Alloc3(size, s.mem, avail, w == 0, first);
    if !ok {
      return false, s.(mem := mem), role;
    }
    AllocedKeys(size, s.mem, avail, w == 0, first, Needed(size, h));
    var e3 := if first then avail[2] else s.e3;
    if w > 0 {
      ReadMiddle(size, s, h, role);
    }
    var frag1 := if w == 0 then avail[1] else s.mem[s.e3][q];
    Ready(size, s, h, role, avail, mem, frag1, e3);
    Grown3Ok(size, s, h, role, avail[0], frag1, mem[frag1], e3, mem[e3]);
    role' := Role3(h, role, avail[0], frag1, e3);
    s' := s.(n := s.n + 1, e3 := e3, mem := mem[e3 := mem[e3][q := frag1]][frag1 := mem[frag1][w := avail[0]]]);
    assert s'.mem == Grown3(size, s, h, avail[0], frag1, mem[frag1], e3, mem[e3]).mem;
  }

  // ---------------------------------------------------------------- the end

  /** How far `cfs_binheap_destroy` has come: what it has freed of leaves, up to
      leaf `w` of middle table `i`, and of tables. */
  datatype Done = Done(one: bool, two: nat, table2: bool, i: nat, w: nat, middles: nat, table3: bool)

  predicate IsGone(r: Role, d: Done) {
    match r
    case Slots(One) => d.one
    case Slots(Two(k)) => k < d.two
    case Slots(Three(k, w)) => k < d.i || (k == d.i && w < d.w)
    case Table2 => d.table2
    case Middle(k) => k < d.middles
    case Table3 => d.table3
  }

  ghost function Left(s: Store, role: map<nat, Role>, d: Done): map<nat, seq<nat>> {
    s.mem - set a | a in role && IsGone(role[a], d)
  }

  /** Freeing the chunk with the one role in which `d` and `d'` differ. */
  lemma FreeOne(size: nat, s: Store, h: Shape, role: map<nat, Role>, d: Done, d': Done, a: nat)
    requires Valid(size, s, h, role) && a in role && !IsGone(role[a], d) && IsGone(role[a], d')
    requires forall b :: b in role && role[b] != role[a] ==> (IsGone(role[b], d') <==> IsGone(role[b], d))
    ensures a in Left(s, role, d) && Left(s, role, d) - {a} == Left(s, role, d')
  {
    forall b | b in role && role[b] == role[a] ensures b == a {
      assert RoleOk(size, s, h, b, role[b]) && RoleOk(size, s, h, a, role[a]);
    }
    hide Valid;
  }

  method FreeChunk(mem: map<nat, seq<nat>>, a: nat) returns (mem': map<nat, seq<nat>>)
    requires a in mem
    ensures mem' == mem - {a}
  {
    mem' := mem - {a};
  }

  /** The leaf `l` is there to be freed. */
  lemma FreeLeaf(size: nat, s: Store, h: Shape, role: map<nat, Role>, d: Done, d': Done, l: Leaf)
    requires Valid(size, s, h, role) && Has(size, h, l) && !IsGone(Slots(l), d) && IsGone(Slots(l), d')
    requires forall r :: r != Slots(l) ==> (IsGone(r, d') <==> IsGone(r, d))
    ensures var a := LeafAt(size, s, h, l); a in Left(s, role, d) && Left(s, role, d) - {a} == Left(s, role, d')
  {
  }

  /** A chunk not yet freed is as it was. */
  lemma StillThere(s: Store, role: map<nat, Role>, d: Done, a: nat)
    requires role.Keys == s.mem.Keys && a in role && !IsGone(role[a], d)
    ensures a in s.mem && a in Left(s, role, d) && Left(s, role, d)[a] == s.mem[a]
  {
  }

  /** `cfs_binheap_destroy`: every chunk is freed, and each when it is still
      allocated, so once. */
  method Destroy(size: nat, s: Store, ghost h: Shape, ghost role: map<nat, Role>) returns (mem: map<nat, seq<nat>>)
    requires Valid(size, s, h, role)
    ensures mem == map[]
  {
    hide Roles, Left;
    NextIsShape(size, s.n, h);
    var n := s.n;
    mem := s.mem;
    ghost var d := Done(false, 0, false, 0, 0, 0, false);
    NothingGone(s, role);
    if n > 0 {
      FreeLeaf(size, s, h, role, d, d.(one := true), One);
      mem := FreeChunk(mem, s.e1);
      n := n - 1;
      d := d.(one := true);
    }
    if n > 0 {
      mem, n := Destroy2(size, s, h, role, mem, n);
      d := d.(two := h.two, table2 := true);
    }
    if n > 0 {
      ghost var i: nat;
      mem, i := Destroy3(size, s, h, role, mem, n);
      d := d.(i := i, middles := i, table3 := true);
    }
    AllGone(size, s, h, role, d);
  }

  lemma NothingGone(s: Store, role: map<nat, Role>)
    ensures Left(s, role, Done(false, 0, false, 0, 0, 0, false)) == s.mem
  {
  }

  lemma AllGone(size: nat, s: Store, h: Shape, role: map<nat, Role>, d: Done)
    requires Valid(size, s, h, role)
    requires (h.one ==> d.one) && d.two >= h.two && (h.two > 0 ==> d.table2)
    requires HasTable3(h) ==> d.i == d.middles >= h.full && !HasMiddle(h, d.i) && d.table3
    ensures Left(s, role, d) == map[]
  {
    forall a | a in role ensures IsGone(role[a], d) {
      assert RoleOk(size, s, h, a, role[a]);
    }
    assert (set a | a in role && IsGone(role[a], d)) == role.Keys;
  }

  lemma FreeTwo(size: nat, s: Store, h: Shape, role: map<nat, Role>, k: nat)
    requires Valid(size, s, h, role) && k < h.two
    ensures var d := Done(true, k, false, 0, 0, 0, false);
            var left := Left(s, role, d);
            && s.e2 in left && k < |left[s.e2]| && left[s.e2][k] in left
            && left - {left[s.e2][k]} == Left(s, role, d.(two := k + 1))
  {
    var d := Done(true, k, false, 0, 0, 0, false);
    assert role[s.e2] == Table2;
    StillThere(s, role, d, s.e2);
    FreeLeaf(size, s, h, role, d, d.(two := k + 1), Two(k));
  }

  lemma FreeThree(size: nat, s: Store, h: Shape, role: map<nat, Role>, i: nat, w: nat)
    requires Valid(size, s, h, role) && i < size && Has(size, h, Three(i, w))
    ensures var d := Between(h, i).(w := w);
            var left := Left(s, role, d);
            && s.e3 in left && i < |left[s.e3]| && left[s.e3][i] in left && w < |left[left[s.e3][i]]|
            && var a := left[left[s.e3][i]][w]; a in left && left - {a} == Left(s, role, d.(w := w + 1))
  {
    var d := Between(h, i).(w := w);
    assert HasMiddle(h, i) && MiddleOk(size, s, i) && role[s.e3] == Table3 && role[s.mem[s.e3][i]] == Middle(i);
    StillThere(s, role, d, s.e3);
    StillThere(s, role, d, s.mem[s.e3][i]);
    FreeLeaf(size, s, h, role, d, d.(w := w + 1), Three(i, w));
  }

  lemma FreeTable2(size: nat, s: Store, h: Shape, role: map<nat, Role>)
    requires Valid(size, s, h, role) && s.n > 1
    ensures h.two == if s.n <= 1 + size then s.n - 1 else size
    ensures var d := Done(true, h.two, false, 0, 0, 0, false);
            s.e2 in Left(s, role, d) && Left(s, role, d) - {s.e2} == Left(s, role, d.(table2 := true))
  {
    var d := Done(true, h.two, false, 0, 0, 0, false);
    assert role[s.e2] == Table2;
    FreeOne(size, s, h, role, d, d.(table2 := true), s.e2);
  }

  method Destroy2(size: nat, s: Store, ghost h: Shape, ghost role: map<nat, Role>, mem: map<nat, seq<nat>>, n: nat)
    returns (mem': map<nat, seq<nat>>, n': nat)
    requires Valid(size, s, h, role) && n == s.n - 1 > 0
    requires mem == Left(s, role, Done(true, 0, false, 0, 0, 0, false))
    ensures mem' == Left(s, role, Done(true, h.two, true, 0, 0, 0, false)) && n' == n - h.two
  {
    hide Valid, Left;
    FreeTable2(size, s, h, role);
    var idx0 := 0;
    mem', n' := mem, n;
    while idx0 < size && n' > 0
      invariant idx0 <= h.two && n' == n - idx0 && mem' == Left(s, role, Done(true, idx0, false, 0, 0, 0, false))
    {
      FreeTwo(size, s, h, role, idx0);
      mem' := FreeChunk(mem', mem'[s.e2][idx0]);
      n' := n' - 1;
      idx0 := idx0 + 1;
    }
    mem' := FreeChunk(mem', s.e2);
  }

  /** The state between two middle tables. */
  ghost function Between(h: Shape, i: nat): Done {
    Done(true, h.two, true, i, 0, i, false)
  }

  /** Leaves behind middle table `i` and those after it. */
  function Rest(size: nat, h: Shape, i: nat): nat {
    if i > h.full then 0 else Product(h.full - i, size); (h.full - i) * size + h.more
  }

  function Row(size: nat, h: Shape, i: nat): nat {
    if i < h.full then size else h.more
  }

  lemma RestIs(size: nat, h: Shape, i: nat)
    requires size > 0
    ensures Rest(size, h, i) > 0 <==> HasMiddle(h, i)
    ensures i <= h.full ==> Rest(size, h, i) == Row(size, h, i) + Rest(size, h, i + 1)
  {
  }

  method Destroy3(size: nat, s: Store, ghost h: Shape, ghost role: map<nat, Role>, mem: map<nat, seq<nat>>, n: nat)
    returns (mem': map<nat, seq<nat>>, ghost i: nat)
    requires Valid(size, s, h, role) && n == Rest(size, h, 0) > 0
    requires mem == Left(s, role, Between(h, 0))
    ensures i >= h.full && !HasMiddle(h, i)
    ensures mem' == Left(s, role, Between(h, i).(table3 := true))
  {
    RestIs(size, h, 0);
    assert s.e3 in role && role[s.e3] == Table3 && h.full <= size && (h.full == size ==> h.more == 0);
    hide Valid, Left, Rest;
    var idx0, left := 0, n;
    mem' := mem;
    while idx0 < size && left > 0
      invariant idx0 <= size && left == Rest(size, h, idx0) && mem' == Left(s, role, Between(h, idx0))
    {
      RestIs(size, h, idx0);
      mem', left := DestroyMiddle(size, s, h, role, mem', idx0, left);
      idx0 := idx0 + 1;
    }
    RestIs(size, h, idx0);
    i := idx0;
    FreeOne(size, s, h, role, Between(h, i), Between(h, i).(table3 := true), s.e3);
    mem' := FreeChunk(mem', s.e3);
  }

  lemma RowOf(size: nat, s: Store, h: Shape, role: map<nat, Role>, i: nat)
    requires Valid(size, s, h, role) && i < size && HasMiddle(h, i)
    ensures MiddleOk(size, s, i) && s.mem[s.e3][i] in role && role[s.mem[s.e3][i]] == Middle(i) && h.more < size
    ensures Rest(size, h, i) == Row(size, h, i) + Rest(size, h, i + 1) && (i == h.full ==> Rest(size, h, i + 1) == 0)
  {
    RestIs(size, h, i);
    RestIs(size, h, i + 1);
  }

  method DestroyMiddle(size: nat, s: Store, ghost h: Shape, ghost role: map<nat, Role>, mem: map<nat, seq<nat>>,
                       i: nat, n: nat)
    returns (mem': map<nat, seq<nat>>, n': nat)
    requires Valid(size, s, h, role) && i < size && HasMiddle(h, i) && n == Rest(size, h, i) && s.e3 in role
               && role[s.e3] == Table3
    requires mem == Left(s, role, Between(h, i))
    ensures mem' == Left(s, role, Between(h, i + 1)) && n' == Rest(size, h, i + 1)
  {
    hide Valid, Left, Rest;
    RowOf(size, s, h, role, i);
    ghost var t := s.mem[s.e3][i];
    var idx1 := 0;
    mem', n' := mem, n;
    while idx1 < size && n' > 0
      invariant idx1 <= Row(size, h, i) && n' == n - idx1 && mem' == Left(s, role, Between(h, i).(w := idx1))
    {
      FreeThree(size, s, h, role, i, idx1);
      mem' := FreeChunk(mem', mem'[mem'[s.e3][i]][idx1]);
      n' := n' - 1;
      idx1 := idx1 + 1;
    }
    MiddleEmptied(size, s, h, role, i, t);
    mem' := FreeChunk(mem', mem'[s.e3][i]);
  }

  lemma MiddleEmptied(size: nat, s: Store, h: Shape, role: map<nat, Role>, i: nat, t: nat)
    requires Valid(size, s, h, role) && HasMiddle(h, i) && t in role && role[t] == Middle(i)
    requires s.e3 in role && role[s.e3] == Table3 && MiddleOk(size, s, i) && t == s.mem[s.e3][i]
    ensures var left := Left(s, role, Between(h, i).(w := Row(size, h, i)));
            && s.e3 in left && i < |left[s.e3]| && left[s.e3][i] == t
            && t in left && left - {t} == Left(s, role, Between(h, i + 1))
  {
    StillThere(s, role, Between(h, i).(w := Row(size, h, i)), s.e3);
    forall b | b in role && role[b] != Middle(i) ensures
        IsGone(role[b], Between(h, i + 1)) <==> IsGone(role[b], Between(h, i).(w := Row(size, h, i))) {
      assert RoleOk(size, s, h, b, role[b]);
    }
    FreeOne(size, s, h, role, Between(h, i).(w := Row(size, h, i)), Between(h, i + 1), t);
  }
}
