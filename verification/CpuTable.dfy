/** The CPU partition table: which CPUs and which memory nodes each partition
    has, the way back from a CPU or a node to a partition, and the largest
    distance between the nodes of any two partitions, kept up to date as CPUs
    are added and removed. */
module CpuTable {

  /** The machine: its CPUs, the memory node of each, and node distances. */
  datatype Machine = Machine(ncpus: nat, nnodes: nat, node: nat -> nat, dist: (nat, nat) -> nat)

  ghost predicate ValidMachine(m: Machine) {
    forall c :: m.node(c) < m.nnodes
  }

  datatype Part = Part(cpus: set<nat>, nodes: set<nat>, distance: seq<int>)

  /** `struct cfs_cpt_table`; -1 is no partition, and a distance not yet known. */
  datatype Table = Table(
    parts: seq<Part>, cpu2cpt: seq<int>, cpus: set<nat>,
    nodes: set<nat>, node2cpt: seq<int>, distance: int)

  const ANY: int := -1

  /** The largest distance from a node in `a` to one in `b`, 0 if there is none. */
  ghost predicate IsMax(m: Machine, d: int, a: set<nat>, b: set<nat>) {
    && (forall x, y :: x in a && y in b ==> m.dist(x, y) <= d)
    && (d == 0 || exists x, y :: x in a && y in b && m.dist(x, y) == d)
    && d >= 0
  }

  lemma MaxUnique(m: Machine, d: int, e: int, a: set<nat>, b: set<nat>)
    requires IsMax(m, d, a, b) && IsMax(m, e, a, b)
    ensures d == e
  {
  }

  /** `cfs_cpt_distance_calculate`. */
  method DistanceCalculate(m: Machine, a: set<nat>, b: set<nat>) returns (d: nat)
    requires (forall x :: x in a ==> x < m.nnodes) && (forall y :: y in b ==> y < m.nnodes)
    ensures IsMax(m, d, a, b)
  {
    d := 0;
    var from := 0;
    while from < m.nnodes
      invariant from <= m.nnodes
      invariant forall x, y :: x in a && x < from && y in b ==> m.dist(x, y) <= d
      invariant d == 0 || exists x, y :: x in a && y in b && m.dist(x, y) == d
    {
      if from in a {
        d := FarthestFrom(m, a, b, from, d);
      }
      from := from + 1;
    }
  }

  method FarthestFrom(m: Machine, a: set<nat>, b: set<nat>, from: nat, was: nat) returns (d: nat)
    requires from in a && forall y :: y in b ==> y < m.nnodes
    requires was == 0 || exists x, y :: x in a && y in b && m.dist(x, y) == was
    ensures d >= was && forall y :: y in b ==> m.dist(from, y) <= d
    ensures d == 0 || exists x, y :: x in a && y in b && m.dist(x, y) == d
  {
    d := was;
    var to := 0;
    while to < m.nnodes
      invariant to <= m.nnodes && d >= was
      invariant forall y :: y in b && y < to ==> m.dist(from, y) <= d
      invariant d == 0 || exists x, y :: x in a && y in b && m.dist(x, y) == d
    {
      if to in b && d < m.dist(from, to) {
        d := m.dist(from, to);
      }
      to := to + 1;
    }
  }

  // ---------------------------------------------------------------- the invariant

  predicate Sized(m: Machine, t: Table) {
    && |t.cpu2cpt| == m.ncpus && |t.node2cpt| == m.nnodes
    && forall c :: 0 <= c < |t.parts| ==> |t.parts[c].distance| == |t.parts|
  }

  /** Partitions are disjoint and `cpu2cpt` is their inverse. */
  ghost predicate CpusOk(m: Machine, t: Table)
    requires Sized(m, t)
  {
    && (forall k :: 0 <= k < m.ncpus ==> -1 <= t.cpu2cpt[k] < |t.parts|)
    && (forall c, k: nat :: 0 <= c < |t.parts| ==> (k in t.parts[c].cpus <==> k < m.ncpus && t.cpu2cpt[k] == c))
    && (forall k: nat :: k in t.cpus <==> k < m.ncpus && t.cpu2cpt[k] >= 0)
  }

  lemma CpuIn(m: Machine, t: Table, c: nat, k: nat)
    requires Sized(m, t) && CpusOk(m, t) && c < |t.parts|
    ensures k in t.parts[c].cpus <==> k < m.ncpus && t.cpu2cpt[k] == c
    ensures k in t.cpus <==> k < m.ncpus && t.cpu2cpt[k] >= 0
    ensures k < m.ncpus ==> -1 <= t.cpu2cpt[k] < |t.parts|
  {
  }

  ghost function NodesOf(m: Machine, cpus: set<nat>): set<nat> {
    set k | k in cpus :: m.node(k)
  }

  /** Node masks are the nodes of the CPUs, and a node in use is in the partition
      that `node2cpt` names. */
  ghost predicate NodesOk(m: Machine, t: Table)
    requires Sized(m, t)
  {
    && (forall c :: 0 <= c < |t.parts| ==> t.parts[c].nodes == NodesOf(m, t.parts[c].cpus))
    && t.nodes == NodesOf(m, t.cpus)
    && (forall n :: 0 <= n < m.nnodes && n !in t.nodes ==> t.node2cpt[n] == -1)
    && (forall n :: 0 <= n < m.nnodes && n in t.nodes ==>
          0 <= t.node2cpt[n] < |t.parts| && n in t.parts[t.node2cpt[n]].nodes)
  }

  /** Cached distances are right for all pairs with a partition that ever had a
      CPU; the others are as they were made. */
  ghost predicate DistancesOk(m: Machine, t: Table, ever: set<nat>)
    requires Sized(m, t)
  {
    && (forall c, d :: 0 <= c < |t.parts| && 0 <= d < |t.parts| && (c in ever || d in ever) ==>
          IsMax(m, t.parts[c].distance[d], t.parts[c].nodes, t.parts[d].nodes))
    && (forall c :: 0 <= c < |t.parts| && c !in ever ==> t.parts[c].cpus == {})
    && (forall c, d :: 0 <= c < |t.parts| && 0 <= d < |t.parts| && c !in ever && d !in ever ==>
        t.parts[c].distance[d] == -1)
    && (ever != {} ==> IsMax(m, t.distance, t.nodes, t.nodes))
  }

  ghost predicate Inv(m: Machine, t: Table, ever: set<nat>) {
    Sized(m, t) && CpusOk(m, t) && NodesOk(m, t) && DistancesOk(m, t, ever)
  }

  // ---------------------------------------------------------------- distances

  /** The table with one distance changed. */
  function SetDistance(t: Table, c: nat, d: nat, x: int): Table
    requires c < |t.parts| && d < |t.parts[c].distance|
  {
    t.(parts := t.parts[c := t.parts[c].(distance := t.parts[c].distance[d := x])])
  }

  /** Only distances differ, and only those from or to partition `c`. */
  ghost predicate SameBut(t: Table, t': Table, c: nat) {
    && t' == t.(parts := t'.parts) && |t'.parts| == |t.parts|
    && forall a :: 0 <= a < |t.parts| ==>
         && t'.parts[a] == t.parts[a].(distance := t'.parts[a].distance)
         && |t'.parts[a].distance| == |t.parts[a].distance|
         && forall b :: 0 <= b < |t.parts[a].distance| && a != c && b != c ==>
             t'.parts[a].distance[b] == t.parts[a].distance[b]
  }

  ghost predicate Right(m: Machine, parts: seq<Part>, a: nat, b: nat)
    requires a < |parts| && b < |parts|
  {
    b < |parts[a].distance| && IsMax(m, parts[a].distance[b], parts[a].nodes, parts[b].nodes)
  }

  /** The loop over `cpt2` that recomputes the distances from and to `c`. */
  method Recompute(m: Machine, t: Table, c: nat) returns (t': Table)
    requires Sized(m, t) && c < |t.parts|
    requires forall a :: 0 <= a < |t.parts| ==> forall n :: n in t.parts[a].nodes ==> n < m.nnodes
    ensures SameBut(t, t', c) && forall a :: 0 <= a < |t.parts| ==> Right(m, t'.parts, c, a) && Right(m, t'.parts, a, c)
  {
    t' := t;
    var c2 := 0;
    while c2 < |t.parts|
      invariant c2 <= |t.parts| && SameBut(t, t', c)
      invariant forall a :: 0 <= a < c2 ==> Right(m, t'.parts, c, a) && Right(m, t'.parts, a, c)
    {
      ghost var was := t';
      t' := RecomputePair(m, t', c, c2);
      hide IsMax;
      forall a | 0 <= a < c2 ensures Right(m, t'.parts, c, a) && Right(m, t'.parts, a, c) {
        assert Right(m, was.parts, c, a) && Right(m, was.parts, a, c);
      }
      c2 := c2 + 1;
    }
  }

  /** The distances between `c` and `c2`, both ways. */
  method RecomputePair(m: Machine, t: Table, c: nat, c2: nat) returns (t': Table)
    requires c < |t.parts| && c2 < |t.parts| && forall a :: 0 <= a < |t.parts| ==> |t.parts[a].distance| == |t.parts|
    requires forall a :: 0 <= a < |t.parts| ==> forall n :: n in t.parts[a].nodes ==> n < m.nnodes
    ensures SameBut(t, t', c) && Right(m, t'.parts, c, c2) && Right(m, t'.parts, c2, c)
    ensures forall a :: 0 <= a < |t.parts| && a != c2 ==>
              t'.parts[c].distance[a] == t.parts[c].distance[a] && t'.parts[a].distance[c] == t.parts[a].distance[c]
  {
    var d := DistanceCalculate(m, t.parts[c].nodes, t.parts[c2].nodes);
    t' := SetDistance(t, c, c2, d);
    var e := DistanceCalculate(m, t'.parts[c2].nodes, t'.parts[c].nodes);
    t' := SetDistance(t', c2, c, e);
    if c == c2 {
      MaxUnique(m, d, e, t.parts[c].nodes, t.parts[c2].nodes);
    }
  }

  // ---------------------------------------------------------------- adding

  function AddCpu(t: Table, c: nat, k: nat): Table
    requires c < |t.parts| && k < |t.cpu2cpt|
  {
    t.(cpu2cpt := t.cpu2cpt[k := c], cpus := t.cpus + {k},
       parts := t.parts[c := t.parts[c].(cpus := t.parts[c].cpus + {k})])
  }

  predicate SameDistance(parts: seq<Part>, parts': seq<Part>, a: nat, b: nat)
    requires a < |parts| && a < |parts'|
  {
    b < |parts[a].distance| && b < |parts'[a].distance| && parts'[a].distance[b] == parts[a].distance[b]
  }

  /** The distances from and to `c` are right and no other has changed. */
  ghost predicate Fresh(m: Machine, parts: seq<Part>, parts': seq<Part>, c: nat) {
    && |parts'| == |parts| && c < |parts|
    && (forall a :: 0 <= a < |parts| ==> Right(m, parts', c, a) && Right(m, parts', a, c))
    && (forall a, b :: 0 <= a < |parts| && 0 <= b < |parts| && a != c && b != c ==> SameDistance(parts, parts', a, b))
  }

  /** `t'` is `t` with nodes `nodes` in partition `c`, and CPUs as they are. */
  ghost predicate NodesSet(t: Table, t': Table, c: nat, nodes: set<nat>) {
    && |t'.parts| == |t.parts| && t'.cpu2cpt == t.cpu2cpt && t'.cpus == t.cpus && |t'.node2cpt| == |t.node2cpt|
    && forall a :: 0 <= a < |t.parts| ==>
         && t'.parts[a].cpus == t.parts[a].cpus && |t'.parts[a].distance| == |t.parts[a].distance|
         && t'.parts[a].nodes == if a == c then nodes else t.parts[a].nodes
  }

  ghost predicate InRange(m: Machine, t: Table) {
    && (forall n :: n in t.nodes ==> n < m.nnodes)
    && forall a :: 0 <= a < |t.parts| ==> forall n :: n in t.parts[a].nodes ==> n < m.nnodes
  }

  /** `cfs_cpt_add_node`. */
  method AddNode(m: Machine, t: Table, c: nat, n: nat) returns (t': Table)
    requires Sized(m, t) && c < |t.parts| && n < m.nnodes && InRange(m, t)
    ensures Sized(m, t') && NodesSet(t, t', c, t.parts[c].nodes + {n})
    ensures t'.nodes == t.nodes + {n} && t'.node2cpt == if n in t.nodes then t.node2cpt else t.node2cpt[n := c]
    ensures if n in t.nodes then t'.distance == t.distance else IsMax(m, t'.distance, t'.nodes, t'.nodes)
    ensures if n in t.parts[c].nodes then t'.parts == t.parts else Fresh(m, t.parts, t'.parts, c)
  {
    t' := t;
    if n !in t.nodes {
      t' := t'.(nodes := t.nodes + {n}, node2cpt := t.node2cpt[n := c]);
      var d := DistanceCalculate(m, t'.nodes, t'.nodes);
      t' := t'.(distance := d);
    }
    if n !in t.parts[c].nodes {
      t' := t'.(parts := t'.parts[c := t'.parts[c].(nodes := t'.parts[c].nodes + {n})]);
      t' := Recompute(m, t', c);
    }
  }

  lemma AddedCpus(m: Machine, t: Table, c: nat, k: nat, t': Table, nodes: set<nat>)
    requires Sized(m, t) && CpusOk(m, t) && c < |t.parts| && k < m.ncpus && t.cpu2cpt[k] == -1
    requires Sized(m, t') && NodesSet(AddCpu(t, c, k), t', c, nodes)
    ensures CpusOk(m, t')
  {
  }

  lemma AddedNodes(m: Machine, t: Table, c: nat, k: nat, t': Table)
    requires Sized(m, t) && CpusOk(m, t) && NodesOk(m, t) && c < |t.parts| && k < m.ncpus && t.cpu2cpt[k] == -1
    requires Sized(m, t') && NodesSet(AddCpu(t, c, k), t', c, t.parts[c].nodes + {m.node(k)}) && m.node(k) < m.nnodes
    requires t'.nodes == t.nodes + {m.node(k)}
    requires t'.node2cpt == if m.node(k) in t.nodes then t.node2cpt else t.node2cpt[m.node(k) := c]
    ensures NodesOk(m, t')
  {
    assert NodesOf(m, t.parts[c].cpus + {k}) == NodesOf(m, t.parts[c].cpus) + {m.node(k)};
    assert NodesOf(m, t.cpus + {k}) == NodesOf(m, t.cpus) + {m.node(k)};
  }

  /** A node in use means a CPU was added once. */
  lemma InUse(m: Machine, t: Table, ever: set<nat>, n: nat)
    requires Sized(m, t) && CpusOk(m, t) && NodesOk(m, t) && DistancesOk(m, t, ever)
    ensures n in t.nodes ==> ever != {}
    ensures forall c :: 0 <= c < |t.parts| && n in t.parts[c].nodes ==> c in ever
  {
    if n in t.nodes {
      var k :| k in t.cpus && m.node(k) == n;
      CpuIn(m, t, t.cpu2cpt[k], k);
    }
  }

  /** Distances after a change of partition `c`, if it had one. */
  lemma DistancesAfter(m: Machine, t: Table, ever: set<nat>, c: nat, t': Table, nodes: set<nat>)
    requires Sized(m, t) && DistancesOk(m, t, ever) && c < |t.parts|
    requires Sized(m, t') && |t'.parts| == |t.parts|
    requires forall a :: 0 <= a < |t.parts| ==>
               && t'.parts[a].nodes == (if a == c then nodes else t.parts[a].nodes)
               && (a != c ==> t'.parts[a].cpus == t.parts[a].cpus)
    requires if c in ever && nodes == t.parts[c].nodes
             then forall a :: 0 <= a < |t.parts| ==> t'.parts[a].distance == t.parts[a].distance
             else Fresh(m, t.parts, t'.parts, c)
    requires IsMax(m, t'.distance, t'.nodes, t'.nodes)
    ensures DistancesOk(m, t', ever + {c})
  {
    hide IsMax;
    forall a, b | 0 <= a < |t.parts| && 0 <= b < |t.parts| && (a in ever + {c} || b in ever + {c})
      ensures IsMax(m, t'.parts[a].distance[b], t'.parts[a].nodes, t'.parts[b].nodes)
    {
      if !(c in ever && nodes == t.parts[c].nodes) {
        if a == c || b == c {
          assert Right(m, t'.parts, a, b);
        } else {
          assert SameDistance(t.parts, t'.parts, a, b);
        }
      }
    }
    forall a, b | 0 <= a < |t.parts| && 0 <= b < |t.parts| && a !in ever + {c} && b !in ever + {c}
      ensures t'.parts[a].distance[b] == -1
    {
      if !(c in ever && nodes == t.parts[c].nodes) {
        assert SameDistance(t.parts, t'.parts, a, b);
      }
    }
  }

  lemma FreshFrom(m: Machine, parts0: seq<Part>, parts: seq<Part>, parts': seq<Part>, c: nat)
    requires Fresh(m, parts0, parts', c) && |parts0| == |parts|
    requires forall a :: 0 <= a < |parts| ==> parts0[a].distance == parts[a].distance
    ensures Fresh(m, parts, parts', c)
  {
    forall a, b | 0 <= a < |parts| && 0 <= b < |parts| && a != c && b != c ensures SameDistance(parts, parts', a, b) {
      assert SameDistance(parts0, parts', a, b);
    }
  }

  lemma AddedDistances(m: Machine, t: Table, ever: set<nat>, c: nat, k: nat, t': Table)
    requires Sized(m, t) && CpusOk(m, t) && NodesOk(m, t) && DistancesOk(m, t, ever) && c < |t.parts| && k < m.ncpus
    requires Sized(m, t') && NodesSet(AddCpu(t, c, k), t', c, t.parts[c].nodes + {m.node(k)})
    requires t'.nodes == t.nodes + {m.node(k)}
    requires if m.node(k) in t.nodes then t'.distance == t.distance else IsMax(m, t'.distance, t'.nodes, t'.nodes)
    requires if m.node(k) in t.parts[c].nodes then t'.parts == AddCpu(t, c, k).parts
               else Fresh(m, AddCpu(t, c, k).parts, t'.parts, c)
    ensures DistancesOk(m, t', ever + {c})
  {
    var n := m.node(k);
    InUse(m, t, ever, n);
    assert n in t.nodes ==> t.nodes + {n} == t.nodes;
    assert n in t.parts[c].nodes ==> t.parts[c].nodes + {n} == t.parts[c].nodes;
    assert IsMax(m, t'.distance, t'.nodes, t'.nodes);
    hide IsMax, CpusOk, NodesOk, DistancesOk, Fresh;
    if n !in t.parts[c].nodes {
      FreshFrom(m, AddCpu(t, c, k).parts, t.parts, t'.parts, c);
    }
    DistancesAfter(m, t, ever, c, t', t.parts[c].nodes + {n});
  }

  /** `cfs_cpt_set_cpu`: only a CPU that is online just then and in no partition
      is added. */
  method SetCpu(m: Machine, t: Table, ghost ever: set<nat>, c: nat, k: int, online: bool) returns (ok: bool, t': Table)
    requires ValidMachine(m) && Inv(m, t, ever) && c < |t.parts|
    ensures ok <==> 0 <= k < m.ncpus && online && t.cpu2cpt[k] == -1
    ensures !ok ==> t' == t
    ensures ok ==> Inv(m, t', ever + {c}) && |t'.parts| == |t.parts| && t'.cpu2cpt == t.cpu2cpt[k := c]
  {
    ok, t' := false, t;
    if k < 0 || k >= m.ncpus || !online || t.cpu2cpt[k] != -1 || k in t.cpus || k in t.parts[c].cpus {
      return;
    }
    RangeOk(m, t);
    hide CpusOk, NodesOk, DistancesOk;
    t' := AddNode(m, AddCpu(t, c, k), c, m.node(k));
    AddedCpus(m, t, c, k, t', t.parts[c].nodes + {m.node(k)});
    AddedNodes(m, t, c, k, t');
    AddedDistances(m, t, ever, c, k, t');
    ok := true;
  }

  lemma IsSized(m: Machine, t: Table, ever: set<nat>)
    requires Inv(m, t, ever)
    ensures Sized(m, t)
  {
  }

  lemma RangeOk(m: Machine, t: Table)
    requires ValidMachine(m) && Sized(m, t) && NodesOk(m, t)
    ensures InRange(m, t)
  {
  }

  // ---------------------------------------------------------------- removing

  function DelCpu(t: Table, c: nat, k: nat): Table
    requires c < |t.parts| && k < |t.cpu2cpt|
  {
    t.(cpu2cpt := t.cpu2cpt[k := -1], cpus := t.cpus - {k},
       parts := t.parts[c := t.parts[c].(cpus := t.parts[c].cpus - {k})])
  }

  /** The search for another CPU of the node. */
  method AnyCpuOf(m: Machine, cpus: set<nat>, n: nat) returns (found: bool)
    requires forall k :: k in cpus ==> k < m.ncpus
    ensures found <==> n in NodesOf(m, cpus)
  {
    var cpu := 0;
    found := false;
    while cpu < m.ncpus
      invariant cpu <= m.ncpus && forall k :: k in cpus && k < cpu ==> m.node(k) != n
    {
      if cpu in cpus && m.node(cpu) == n {
        return true;
      }
      cpu := cpu + 1;
    }
  }

  /** The last partition that holds a node, or what was named before. */
  method Rename(t: Table, n: nat, was: int) returns (c: int)
    ensures c == was || (0 <= c < |t.parts| && n in t.parts[c].nodes)
    ensures (exists a :: 0 <= a < |t.parts| && n in t.parts[a].nodes) ==> 0 <= c < |t.parts| && n in t.parts[c].nodes
  {
    c := was;
    var c2 := 0;
    while c2 < |t.parts|
      invariant c2 <= |t.parts|
      invariant c == was || (0 <= c < |t.parts| && n in t.parts[c].nodes)
      invariant (exists a :: 0 <= a < c2 && n in t.parts[a].nodes) ==> 0 <= c < |t.parts| && n in t.parts[c].nodes
    {
      if n in t.parts[c2].nodes {
        c := c2;
      }
      c2 := c2 + 1;
    }
  }

  /** Whoever `node2cpt` names for `n` after `n` was taken from a partition. */
  ghost predicate Renamed(t: Table, t': Table, n: nat) {
    && n < |t.node2cpt| && |t'.node2cpt| == |t.node2cpt|
    && (forall x :: 0 <= x < |t.node2cpt| && x != n ==> t'.node2cpt[x] == t.node2cpt[x])
    && (n !in t'.nodes ==> t'.node2cpt[n] == -1)
    && (n in t'.nodes && (exists a :: 0 <= a < |t'.parts| && n in t'.parts[a].nodes) ==>
          0 <= t'.node2cpt[n] < |t'.parts| && n in t'.parts[t'.node2cpt[n]].nodes)
  }

  /** The part of `cfs_cpt_del_node` for a node the partition has no more CPU of. */
  method DelFromPart(m: Machine, t: Table, c: nat, n: nat) returns (t': Table)
    requires Sized(m, t) && c < |t.parts| && n < m.nnodes && InRange(m, t)
    ensures Sized(m, t') && NodesSet(t, t', c, t.parts[c].nodes - {n})
    ensures t' == t.(parts := t'.parts, node2cpt := t'.node2cpt) && Fresh(m, t.parts, t'.parts, c)
    ensures forall x :: 0 <= x < m.nnodes && x != n ==> t'.node2cpt[x] == t.node2cpt[x]
    ensures (exists a :: 0 <= a < |t'.parts| && n in t'.parts[a].nodes) ==>
              0 <= t'.node2cpt[n] < |t'.parts| && n in t'.parts[t'.node2cpt[n]].nodes
  {
    var t0 := t.(parts := t.parts[c := t.parts[c].(nodes := t.parts[c].nodes - {n})]);
    var named := Rename(t0, n, t0.node2cpt[n]);
    var t1 := t0.(node2cpt := t0.node2cpt[n := named]);
    t' := Recompute(m, t1, c);
    hide IsMax;
    assert forall a :: 0 <= a < |t'.parts| ==> t'.parts[a].nodes == t0.parts[a].nodes;
    forall a, b | 0 <= a < |t.parts| && 0 <= b < |t.parts| && a != c && b != c
      ensures SameDistance(t.parts, t'.parts, a, b)
    {
      assert t1.parts[a].distance == t.parts[a].distance;
    }
  }

  /** `cfs_cpt_del_node`. */
  method DelNode(m: Machine, t: Table, c: nat, n: nat) returns (t': Table)
    requires Sized(m, t) && c < |t.parts| && n < m.nnodes && InRange(m, t)
    requires (forall k :: k in t.cpus ==> k < m.ncpus) && forall k :: k in t.parts[c].cpus ==> k < m.ncpus
    requires n in t.parts[c].nodes && n in t.nodes
    requires n in NodesOf(m, t.parts[c].cpus) ==> n in NodesOf(m, t.cpus)
    ensures var stays := n in NodesOf(m, t.parts[c].cpus);
            && Sized(m, t') && NodesSet(t, t', c, if stays then t.parts[c].nodes else t.parts[c].nodes - {n})
            && t'.nodes == (if n in NodesOf(m, t.cpus) then t.nodes else t.nodes - {n})
            && (if n in NodesOf(m, t.cpus) then t'.distance == t.distance
                else IsMax(m, t'.distance, t'.nodes, t'.nodes))
            && (if stays then t' == t else Fresh(m, t.parts, t'.parts, c) && Renamed(t, t', n))
  {
    t' := t;
    var inPart := AnyCpuOf(m, t.parts[c].cpus, n);
    if !inPart {
      t' := DelFromPart(m, t', c, n);
    }
    hide NodesOf, IsMax, Fresh;
    var inTable := AnyCpuOf(m, t.cpus, n);
    if !inTable {
      t' := t'.(nodes := t'.nodes - {n}, node2cpt := t'.node2cpt[n := -1]);
      var d := DistanceCalculate(m, t'.nodes, t'.nodes);
      t' := t'.(distance := d);
    }
  }

  lemma RemovedCpus(m: Machine, t: Table, c: nat, k: nat, t': Table, nodes: set<nat>)
    requires Sized(m, t) && CpusOk(m, t) && c < |t.parts| && k < m.ncpus && t.cpu2cpt[k] == c
    requires Sized(m, t') && NodesSet(DelCpu(t, c, k), t', c, nodes)
    ensures CpusOk(m, t')
  {
  }

  lemma RemovedNodes(m: Machine, t: Table, c: nat, k: nat, t': Table)
    requires ValidMachine(m) && Sized(m, t) && CpusOk(m, t) && NodesOk(m, t) && c < |t.parts| && k < m.ncpus
               && t.cpu2cpt[k] == c
    requires Sized(m, t') && CpusOk(m, t')
    requires var n, t0 := m.node(k), DelCpu(t, c, k);
             var stays := n in NodesOf(m, t0.parts[c].cpus);
             && NodesSet(t0, t', c, if stays then t.parts[c].nodes else t.parts[c].nodes - {n})
             && t'.nodes == (if n in NodesOf(m, t0.cpus) then t.nodes else t.nodes - {n})
             && (if stays then t' == t0 else Renamed(t, t', n))
    ensures NodesOk(m, t')
  {
    var n, t0 := m.node(k), DelCpu(t, c, k);
    LessNodes(m, t.parts[c].cpus, k);
    LessNodes(m, t.cpus, k);
    forall a | 0 <= a < |t'.parts| ensures t'.parts[a].nodes == NodesOf(m, t'.parts[a].cpus) {}
    if n in NodesOf(m, t0.cpus) {
      var j :| j in t0.cpus && m.node(j) == n;
      CpuIn(m, t', t'.cpu2cpt[j], j);
      assert n in t'.parts[t'.cpu2cpt[j]].nodes;
    }
    OtherNodes(m, t, c, k, t');
  }

  lemma LessNodes(m: Machine, cpus: set<nat>, k: nat)
    requires k in cpus
    ensures NodesOf(m, cpus) == NodesOf(m, cpus - {k}) + {m.node(k)}
    ensures m.node(k) in NodesOf(m, cpus - {k}) ==> NodesOf(m, cpus - {k}) == NodesOf(m, cpus)
    ensures m.node(k) !in NodesOf(m, cpus - {k}) ==> NodesOf(m, cpus - {k}) == NodesOf(m, cpus) - {m.node(k)}
  {
  }

  /** Nodes other than that of the removed CPU are where they were. */
  lemma OtherNodes(m: Machine, t: Table, c: nat, k: nat, t': Table)
    requires ValidMachine(m) && Sized(m, t) && NodesOk(m, t) && c < |t.parts| && k < m.ncpus && Sized(m, t')
    requires var n, t0 := m.node(k), DelCpu(t, c, k);
             var stays := n in NodesOf(m, t0.parts[c].cpus);
             && NodesSet(t0, t', c, if stays then t.parts[c].nodes else t.parts[c].nodes - {n})
             && t'.nodes == (if n in NodesOf(m, t0.cpus) then t.nodes else t.nodes - {n})
             && (if stays then t' == t0 else Renamed(t, t', n))
    ensures forall x :: 0 <= x < m.nnodes && x != m.node(k) ==>
              && (x in t'.nodes <==> x in t.nodes) && t'.node2cpt[x] == t.node2cpt[x]
              && (x in t.nodes ==> x in t'.parts[t'.node2cpt[x]].nodes)
  {
  }

  lemma RemovedEver(m: Machine, t: Table, ever: set<nat>, c: nat, k: nat)
    requires Sized(m, t) && CpusOk(m, t) && NodesOk(m, t) && DistancesOk(m, t, ever) && c < |t.parts| && k < m.ncpus
               && t.cpu2cpt[k] == c
    ensures m.node(k) in t.parts[c].nodes && c in ever && IsMax(m, t.distance, t.nodes, t.nodes)
  {
  }

  lemma RemovedDistances(m: Machine, t: Table, ever: set<nat>, c: nat, k: nat, t': Table)
    requires Sized(m, t) && CpusOk(m, t) && NodesOk(m, t) && DistancesOk(m, t, ever) && c < |t.parts| && k < m.ncpus
               && t.cpu2cpt[k] == c
    requires Sized(m, t')
    requires var n, t0 := m.node(k), DelCpu(t, c, k);
             var stays := n in NodesOf(m, t0.parts[c].cpus);
             && NodesSet(t0, t', c, if stays then t.parts[c].nodes else t.parts[c].nodes - {n})
             && t'.nodes == (if n in NodesOf(m, t0.cpus) then t.nodes else t.nodes - {n})
             && (if n in NodesOf(m, t0.cpus) then t'.distance == t.distance
                 else IsMax(m, t'.distance, t'.nodes, t'.nodes))
             && (if stays then t' == t0 else Fresh(m, t0.parts, t'.parts, c))
    ensures DistancesOk(m, t', ever)
  {
    var n, t0 := m.node(k), DelCpu(t, c, k);
    RemovedEver(m, t, ever, c, k);
    assert ever + {c} == ever;
    hide IsMax, CpusOk, NodesOk, DistancesOk, Fresh, NodesOf;
    if n !in NodesOf(m, t0.parts[c].cpus) {
      FreshFrom(m, t0.parts, t.parts, t'.parts, c);
      DistancesAfter(m, t, ever, c, t', t.parts[c].nodes - {n});
    } else {
      DistancesAfter(m, t, ever, c, t', t.parts[c].nodes);
    }
  }

  /** `cfs_cpt_unset_cpu`: the CPU must be in the partition named, or in any when
      none is. */
  method UnsetCpu(m: Machine, t: Table, ghost ever: set<nat>, cpt: int, k: int) returns (t': Table)
    requires ValidMachine(m) && Inv(m, t, ever) && (cpt == ANY || 0 <= cpt < |t.parts|)
    ensures Inv(m, t', ever) && |t'.parts| == |t.parts|
    ensures var acts := 0 <= k < m.ncpus && t.cpu2cpt[k] >= 0 && (cpt == ANY || cpt == t.cpu2cpt[k]);
            if acts then t'.cpu2cpt == t.cpu2cpt[k := -1] else t' == t
  {
    t' := t;
    if k < 0 || k >= m.ncpus {
      return;
    }
    var c := cpt;
    if c == ANY {
      c := t.cpu2cpt[k];
      if c < 0 {
        return;
      }
    } else if c != t.cpu2cpt[k] {
      return;
    }
    RangeOk(m, t);
    RemovalReady(m, t, c, k);
    hide CpusOk, NodesOk, DistancesOk;
    t' := DelNode(m, DelCpu(t, c, k), c, m.node(k));
    RemovedCpus(m, t, c, k, t', t'.parts[c].nodes);
    RemovedNodes(m, t, c, k, t');
    RemovedDistances(m, t, ever, c, k, t');
  }

  lemma RemovalReady(m: Machine, t: Table, c: nat, k: nat)
    requires ValidMachine(m) && Sized(m, t) && CpusOk(m, t) && NodesOk(m, t) && k < m.ncpus
               && t.cpu2cpt[k] == c < |t.parts|
    ensures var t0, n := DelCpu(t, c, k), m.node(k);
            && InRange(m, t0) && n in t0.parts[c].nodes && n in t0.nodes
            && (forall j :: j in t0.cpus ==> j < m.ncpus)
            && (forall j :: j in t0.parts[c].cpus ==> j < m.ncpus && j in t0.cpus)
            && (n in NodesOf(m, t0.parts[c].cpus) ==> n in NodesOf(m, t0.cpus))
  {
    CpuIn(m, t, c, k);
    forall j | j in t.parts[c].cpus ensures j < m.ncpus && j in t.cpus {
      CpuIn(m, t, c, j);
    }
  }

  // ---------------------------------------------------------------- the table object

  datatype Op = Set(cpt: nat, cpu: int, online: bool) | Unset(from: int, cpu: int)

  /** The way back from CPUs to partitions after an operation: a CPU that is there,
      online and in no partition goes to the one named, and one that is in the
      partition named, or in any when none is, goes out of it. */
  function OpOn(m: Machine, cpu2cpt: seq<int>, op: Op): seq<int> {
    if !(0 <= op.cpu < m.ncpus && op.cpu < |cpu2cpt|) then cpu2cpt
    else
      var c := cpu2cpt[op.cpu];
      match op
      case Set(cpt, cpu, online) => if online && c == -1 then cpu2cpt[cpu := cpt] else cpu2cpt
      case Unset(from, cpu) => if c >= 0 && (from == ANY || from == c) then cpu2cpt[cpu := -1] else cpu2cpt
  }

  function OpsOn(m: Machine, cpu2cpt: seq<int>, ops: seq<Op>): seq<int> {
    if ops == [] then cpu2cpt else OpOn(m, OpsOn(m, cpu2cpt, ops[..|ops| - 1]), ops[|ops| - 1])
  }

  class CptTable {
    const m: Machine
    var t: Table
    /** Partitions that ever had a CPU. */
    ghost var ever: set<nat>

    ghost predicate Valid()
      reads this
    {
      ValidMachine(m) && Inv(m, t, ever)
    }

    /** A table of `n` empty partitions, no distance known. */
    constructor (m: Machine, n: nat)
      requires ValidMachine(m)
      ensures Valid() && |t.parts| == n && ever == {} && this.m == m
    {
      this.m := m;
      t := Table(seq(n, _ => Part({}, {}, seq(n, _ => -1))), seq(m.ncpus, _ => -1), {}, {}, seq(m.nnodes, _ => -1), -1);
      ever := {};
    }

    /** Any run of additions and removals puts each CPU where the operations say,
        and the table stays right. */
    method Run(ops: seq<Op>)
      requires Valid()
      requires forall i :: 0 <= i < |ops| ==>
                 if ops[i].Set? then ops[i].cpt < |t.parts| else ops[i].from == ANY || 0 <= ops[i].from < |t.parts|
      modifies this
      ensures Valid() && |t.parts| == |old(t).parts| && t.cpu2cpt == OpsOn(m, old(t).cpu2cpt, ops)
    {
      var cur := t;
      ghost var seen := ever;
      hide Inv;
      for i := 0 to |ops|
        invariant Inv(m, cur, seen) && |cur.parts| == |t.parts| && t == old(t)
        invariant cur.cpu2cpt == OpsOn(m, t.cpu2cpt, ops[..i])
      {
        IsSized(m, cur, seen);
        assert ops[..i + 1][..i] == ops[..i] && ops[..i + 1][i] == ops[i];
        if ops[i].Set? {
          var ok, next := SetCpu(m, cur, seen, ops[i].cpt, ops[i].cpu, ops[i].online);
          if ok {
            seen := seen + {ops[i].cpt};
          }
          cur := next;
        } else {
          cur := UnsetCpu(m, cur, seen, ops[i].from, ops[i].cpu);
        }
      }
      assert ops[..|ops|] == ops;
      t, ever := cur, seen;
    }

    /** `cfs_cpt_distance` between partitions: the largest distance between a CPU
        of the one and a CPU of the other. */
    method Distance(c: nat, d: nat) returns (x: int)
      requires Valid() && c < |t.parts| && d < |t.parts|
      ensures c in ever || d in ever ==> IsMax(m, x, NodesOf(m, t.parts[c].cpus), NodesOf(m, t.parts[d].cpus))
      ensures c !in ever && d !in ever ==> x == -1
    {
      x := t.parts[c].distance[d];
    }
  }

  /** Two partitions share no CPU, and each CPU in use is in the one that
      `cpu2cpt` names. */
  lemma Disjoint(m: Machine, t: Table, ever: set<nat>, c: nat, d: nat, k: nat)
    requires Inv(m, t, ever) && c < |t.parts| && d < |t.parts|
    ensures c != d ==> t.parts[c].cpus !! t.parts[d].cpus
    ensures k in t.parts[c].cpus <==> k < m.ncpus && t.cpu2cpt[k] == c
    ensures k in t.cpus <==> exists a :: 0 <= a < |t.parts| && k in t.parts[a].cpus
  {
    CpuIn(m, t, c, k);
    if k in t.cpus {
      CpuIn(m, t, t.cpu2cpt[k], k);
    }
    if a :| 0 <= a < |t.parts| && k in t.parts[a].cpus {
      CpuIn(m, t, a, k);
    }
    forall j | j in t.parts[c].cpus && j in t.parts[d].cpus ensures c == d {
      CpuIn(m, t, c, j);
      CpuIn(m, t, d, j);
    }
  }
}
