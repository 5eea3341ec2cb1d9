/** Choosing the gateway to a remote network.

    The best live route is the one with the lowest priority value, then the
    fewest hops, then the shortest send queue, then the most credits; among
    routes tied in all four the one used longest ago, which a sequence number
    tells. The number is a C `int` and its comparison a wrapping difference. */
module Route {
  import opened Queues
  import opened Options

  const UNDEFINED_HOPS: nat := 0xFFFF_FFFF

  /** `struct lnet_route` with what is read of its gateway. */
  datatype Route = Route(
    nid: nat, net: nat, gwAlive: bool, niStatus: bool, downis: nat,
    priority: nat, hops: nat, txqnob: int, txcredits: int, lrSeq: int)

  /** An integer cut to 32 bits, two's complement. */
  function AsInt(x: int): int {
    var y := x % 0x1_0000_0000;
    if y < 0x8000_0000 then y else y - 0x1_0000_0000
  }

  /** `lnet_is_route_alive`. */
  predicate Alive(r: Route) {
    r.gwAlive && (r.niStatus ==> r.downis == 0)
  }

  /** A route the search considers. */
  predicate Candidate(r: Route, net: Option<nat>) {
    Alive(r) && (net.Some? ==> r.net == net.value)
  }

  /** The router the caller asked for. */
  predicate Named(r: Route, net: Option<nat>, rtr: nat) {
    Candidate(r, net) && r.nid == rtr
  }

  function Hops(r: Route): int {
    if r.hops == UNDEFINED_HOPS then 1 else AsInt(r.hops)
  }

  /** `lnet_compare_peers`. */
  function ComparePeers(p: Route, q: Route): int {
    if p.txqnob < q.txqnob then 1
    else if p.txqnob > q.txqnob then -1
    else if p.txcredits > q.txcredits then 1
    else if p.txcredits < q.txcredits then -1
    else 0
  }

  /** `lnet_compare_routes`: 1 when `p` is to be taken rather than `q`. */
  function CompareRoutes(p: Route, q: Route): int {
    if p.priority < q.priority then 1
    else if p.priority > q.priority then -1
    else if Hops(p) < Hops(q) then 1
    else if Hops(p) > Hops(q) then -1
    else if ComparePeers(p, q) != 0 then ComparePeers(p, q)
    else if AsInt(p.lrSeq - q.lrSeq) <= 0 then 1
    else -1
  }

  /** `p` strictly beats `q` on priority, hops, queued bytes and credits. */
  predicate Beats(p: Route, q: Route) {
    || p.priority < q.priority
    || (p.priority == q.priority &&
        (|| Hops(p) < Hops(q)
         || (Hops(p) == Hops(q) &&
             (|| p.txqnob < q.txqnob
              || (p.txqnob == q.txqnob && p.txcredits > q.txcredits)))))
  }

  predicate Tied(p: Route, q: Route) { !Beats(p, q) && !Beats(q, p) }

  /** The comparison follows the four-fold order, and the numbers only in a tie. */
  lemma CompareIs(p: Route, q: Route)
    ensures CompareRoutes(p, q) > 0 <==> Beats(p, q) || (Tied(p, q) && AsInt(p.lrSeq - q.lrSeq) <= 0)
    ensures CompareRoutes(p, q) < 0 <==> Beats(q, p) || (Tied(p, q) && AsInt(p.lrSeq - q.lrSeq) > 0)
    ensures CompareRoutes(p, q) != 0
  {
  }

  /** Not being beaten is transitive. */
  lemma BeatsTransitive(p: Route, q: Route, r: Route)
    requires !Beats(q, p) && !Beats(r, q)
    ensures !Beats(r, p)
    ensures Tied(p, r) <==> Tied(p, q) && Tied(q, r)
  {
  }

  // ---------------------------------------------------------------- the search

  /** The best and the last used among the first `n` routes, as the loop has them. */
  function Scan(routes: seq<Route>, net: Option<nat>, n: nat): (s: Option<(nat, nat)>)
    requires n <= |routes|
    ensures s.Some? ==> s.value.0 < n && s.value.1 < n
  {
    if n == 0 then None
    else if !Candidate(routes[n - 1], net) then Scan(routes, net, n - 1)
    else Some(Better(routes, Scan(routes, net, n - 1), n - 1))
  }

  /** The best and the last used when candidate `i` is looked at. */
  function Better(routes: seq<Route>, s: Option<(nat, nat)>, i: nat): (b: (nat, nat))
    requires i < |routes| && (s.Some? ==> s.value.0 < i && s.value.1 < i)
    ensures b.0 <= i && b.1 <= i
  {
    if s.None? then (i, i)
    else (if CompareRoutes(routes[i], routes[s.value.0]) < 0 then s.value.0 else i,
          if AsInt(routes[s.value.1].lrSeq - routes[i].lrSeq) < 0 then i else s.value.1)
  }

  /** The route picked when no router is asked for by name. */
  function Picked(routes: seq<Route>, net: Option<nat>): Option<nat> {
    var s := Scan(routes, net, |routes|);
    if s.None? then None else Some(s.value.0)
  }

  /** The routes after that: the one picked is now the last used. */
  function Used(routes: seq<Route>, net: Option<nat>): seq<Route> {
    var s := Scan(routes, net, |routes|);
    if s.None? then routes
    else routes[s.value.0 := routes[s.value.0].(lrSeq := AsInt(routes[s.value.1].lrSeq + 1))]
  }

  /** `lnet_find_route_locked` on the routes of the remote network. */
  method FindRoute(routes: seq<Route>, net: Option<nat>, rtr: nat) returns (found: Option<nat>, routes': seq<Route>)
    ensures found.Some? ==> found.value < |routes| && Candidate(routes[found.value], net)
    ensures found.None? <==> forall i :: 0 <= i < |routes| ==> !Candidate(routes[i], net)
    ensures (exists i :: 0 <= i < |routes| && Named(routes[i], net, rtr)) ==>
              && routes' == routes && found.Some? && Named(routes[found.value], net, rtr)
              && forall i :: 0 <= i < found.value ==> !Named(routes[i], net, rtr)
    ensures (forall i :: 0 <= i < |routes| ==> !Named(routes[i], net, rtr)) ==>
              found == Picked(routes, net) && routes' == Used(routes, net)
  {
    hide AsInt, Candidate, Better, Beats;
    found, routes' := None, routes;
    var scanned: Option<(nat, nat)> := None;
    var i := 0;
    while i < |routes|
      invariant i <= |routes| && scanned == Scan(routes, net, i)
      invariant forall j :: 0 <= j < i ==> !Named(routes[j], net, rtr)
    {
      if Candidate(routes[i], net) {
        if routes[i].nid == rtr {
          found := Some(i);
          return;
        }
        var best, last := Consider(routes, scanned, i);
        scanned := Some((best, last));
      }
      i := i + 1;
    }
    NotBeaten(routes, net, |routes|);
    if scanned.Some? {
      var (best, last) := scanned.value;
      found := Some(best);
      routes' := routes[best := routes[best].(lrSeq := AsInt(routes[last].lrSeq + 1))];
    }
  }

  /** The body of its loop for a candidate. */
  method Consider(routes: seq<Route>, s: Option<(nat, nat)>, i: nat) returns (best: nat, last: nat)
    requires i < |routes| && (s.Some? ==> s.value.0 < i && s.value.1 < i)
    ensures (best, last) == Better(routes, s, i)
  {
    if s.None? {
      return i, i;
    }
    best, last := s.value.0, s.value.1;
    if AsInt(routes[last].lrSeq - routes[i].lrSeq) < 0 {
      last := i;
    }
    if CompareRoutes(routes[i], routes[best]) >= 0 {
      best := i;
    }
  }

  /** What the search picks is live and beaten by no live route, whatever the
      sequence numbers. */
  lemma {:induction false} NotBeaten(routes: seq<Route>, net: Option<nat>, n: nat)
    requires n <= |routes|
    ensures var s := Scan(routes, net, n);
            if s.None? then forall j :: 0 <= j < n ==> !Candidate(routes[j], net)
            else && s.value.0 < n && s.value.1 < n
                 && Candidate(routes[s.value.0], net) && Candidate(routes[s.value.1], net)
                 && forall j :: 0 <= j < n && Candidate(routes[j], net) ==> !Beats(routes[j], routes[s.value.0])
  {
    if n > 0 {
      NotBeaten(routes, net, n - 1);
      var s, r := Scan(routes, net, n - 1), routes[n - 1];
      if Candidate(r, net) && s.Some? {
        CompareIs(r, routes[s.value.0]);
        if CompareRoutes(r, routes[s.value.0]) >= 0 {
          forall j | 0 <= j < n && Candidate(routes[j], net) ensures !Beats(routes[j], r) {
            if j < n - 1 {
              BeatsTransitive(r, routes[s.value.0], routes[j]);
            }
          }
        }
      }
    }
  }

  // ---------------------------------------------------------------- round robin

  const HALF: int := 0x8000_0000

  /** The wrapping difference of two numbers has the sign of the difference
      exactly when that is less than half the range, whole ranges apart. */
  lemma DifferenceExact(a: int, b: int)
    ensures AsInt(AsInt(a) - AsInt(b)) == AsInt(a - b)
    ensures (AsInt(a - b) <= 0 <==> a <= b) <==>
              (if a <= b then (a - b) % (2 * HALF) == 0 || (a - b) % (2 * HALF) >= HALF
               else 0 < (a - b) % (2 * HALF) < HALF)
    ensures -HALF <= a - b < HALF ==> AsInt(a - b) == a - b
  {
  }

  /** The numbers the `int`s would be without wrapping. */
  ghost predicate Numbered(routes: seq<Route>, u: seq<int>) {
    |u| == |routes| && forall i :: 0 <= i < |routes| ==> routes[i].lrSeq == AsInt(u[i])
  }

  /** All candidates were used within less than half the range of numbers. */
  predicate Near(routes: seq<Route>, net: Option<nat>, u: seq<int>, room: nat)
    requires |u| == |routes|
  {
    forall i, j :: 0 <= i < |u| && 0 <= j < |u| && Candidate(routes[i], net) && Candidate(routes[j], net) ==>
      u[i] - u[j] + room < HALF
  }

  /** The best of the first `n` and least recently used of those tied with it, and
      the last used. */
  ghost predicate Leads(routes: seq<Route>, net: Option<nat>, u: seq<int>, n: nat, best: nat, last: nat) {
    && |u| == |routes| && best < n <= |routes| && last < n
    && forall j :: 0 <= j < n && Candidate(routes[j], net) ==>
         && u[j] <= u[last] && !Beats(routes[j], routes[best])
         && (Tied(routes[j], routes[best]) ==> u[best] <= u[j])
  }

  lemma LeadsOn(routes: seq<Route>, net: Option<nat>, u: seq<int>, n: nat, best: nat, last: nat)
    requires Leads(routes, net, u, n, best, last) && n < |routes|
    ensures var r := routes[n];
            var last' := if u[last] < u[n] then n else last;
            var best' := if Beats(routes[best], r) || (Tied(r, routes[best]) && u[n] > u[best]) then best else n;
            Leads(routes, net, u, n + 1, best', last')
  {
  }

  /** Then the pick is the least recently used of those tied for best, and the
      last used is the last used. */
  lemma {:induction false} ScanIs(routes: seq<Route>, net: Option<nat>, u: seq<int>, n: nat)
    requires Numbered(routes, u) && Near(routes, net, u, 0) && n <= |routes|
    ensures var s := Scan(routes, net, n);
            s.Some? ==> Leads(routes, net, u, n, s.value.0, s.value.1)
  {
    hide Leads, AsInt, Near, CompareRoutes, Beats, Tied, Candidate;
    if n > 0 {
      ScanIs(routes, net, u, n - 1);
      NotBeaten(routes, net, n - 1);
      var s, r := Scan(routes, net, n - 1), routes[n - 1];
      if Candidate(r, net) && s.Some? {
        Near2(routes, net, u, s.value.1, n - 1);
        Near2(routes, net, u, n - 1, s.value.0);
        CompareIs(r, routes[s.value.0]);
        LeadsOn(routes, net, u, n - 1, s.value.0, s.value.1);
      } else {
        LeadsSkip(routes, net, u, n);
      }
    }
  }

  lemma LeadsSkip(routes: seq<Route>, net: Option<nat>, u: seq<int>, n: nat)
    requires 0 < n <= |routes| == |u|
    requires !Candidate(routes[n - 1], net) || Scan(routes, net, n - 1).None?
    requires var s := Scan(routes, net, n - 1); s.Some? ==> Leads(routes, net, u, n - 1, s.value.0, s.value.1)
    ensures var s := Scan(routes, net, n); s.Some? ==> Leads(routes, net, u, n, s.value.0, s.value.1)
  {
    NotBeaten(routes, net, n - 1);
  }

  lemma Near2(routes: seq<Route>, net: Option<nat>, u: seq<int>, i: nat, j: nat)
    requires Numbered(routes, u) && Near(routes, net, u, 0) && i < |u| && j < |u|
    requires Candidate(routes[i], net) && Candidate(routes[j], net)
    ensures AsInt(routes[i].lrSeq - routes[j].lrSeq) == u[i] - u[j]
  {
    DifferenceExact(u[i], u[j]);
  }

  /** The numbers after a selection. */
  function NextNumbers(routes: seq<Route>, net: Option<nat>, u: seq<int>): seq<int>
    requires |u| == |routes|
  {
    var s := Scan(routes, net, |routes|);
    if s.None? then u else u[s.value.0 := u[s.value.1] + 1]
  }

  /** Candidates that no candidate beats. */
  ghost predicate Best(routes: seq<Route>, net: Option<nat>, i: nat) {
    && i < |routes| && Candidate(routes[i], net)
    && forall j :: 0 <= j < |routes| && Candidate(routes[j], net) ==> !Beats(routes[j], routes[i])
  }

  /** One turn: of the `tied`, `p` has the least number before and the greatest
      after, and the others keep theirs. */
  ghost predicate Turn(tied: set<nat>, u: seq<int>, p: nat, v: seq<int>) {
    && p in tied && p < |u| && p < |v|
    && forall j :: j in tied ==> j < |u| && j < |v| && u[p] <= u[j] < v[p] && (j != p ==> v[j] == u[j])
  }

  /** Selections one after another, and the numbers of the routes. Between them
      routes may change as they like so long as the same `tied` stay best; what the
      selections do to their numbers stays. */
  ghost predicate Selections(rs: seq<seq<Route>>, us: seq<seq<int>>, net: Option<nat>, tied: set<nat>) {
    && |us| == |rs| + 1
    && forall k :: 0 <= k < |rs| ==> Selection(rs[k], us[k], us[k + 1], net, tied)
  }

  ghost predicate Selection(routes: seq<Route>, u: seq<int>, v: seq<int>, net: Option<nat>, tied: set<nat>) {
    && Numbered(routes, u) && Near(routes, net, u, 0) && |v| == |u|
    && (forall i :: i in tied <==> Best(routes, net, i))
    && (forall i :: i in tied && i < |u| ==> v[i] == NextNumbers(routes, net, u)[i])
  }

  /** A selection takes the turn of the route used longest ago. */
  lemma SelectionTurns(routes: seq<Route>, u: seq<int>, v: seq<int>, net: Option<nat>, tied: set<nat>)
    requires Selection(routes, u, v, net, tied) && tied != {}
    ensures Picked(routes, net).Some? && Turn(tied, u, Picked(routes, net).value, v)
  {
    ScanIs(routes, net, u, |routes|);
    NotBeaten(routes, net, |routes|);
    var i :| i in tied;
    var s := Scan(routes, net, |routes|);
    assert Candidate(routes[i], net);
    assert Best(routes, net, s.value.0);
    forall j | j in tied ensures Tied(routes[j], routes[s.value.0]) {
      assert Best(routes, net, j);
    }
    hide Near, Beats, Tied, AsInt, Scan;
  }

  ghost predicate Turns(tied: set<nat>, us: seq<seq<int>>, ps: seq<nat>) {
    |us| == |ps| + 1 && forall k :: 0 <= k < |ps| ==> Turn(tied, us[k], ps[k], us[k + 1])
  }

  /** A number does not change until its turn, and then it grows. */
  lemma {:induction false} Meanwhile(tied: set<nat>, us: seq<seq<int>>, ps: seq<nat>, a: nat, b: nat, i: nat)
    requires Turns(tied, us, ps) && a <= b < |ps| && i in tied
    ensures i < |us[a]| && i < |us[b]| && us[a][i] <= us[b][i]
    ensures i !in ps[a..b] ==> us[b][i] == us[a][i]
    decreases b
  {
    assert Turn(tied, us[b], ps[b], us[b + 1]);
    if a < b {
      Meanwhile(tied, us, ps, a, b - 1, i);
      assert Turn(tied, us[b - 1], ps[b - 1], us[b]);
      assert ps[a..b] == ps[a..b - 1] + [ps[b - 1]];
    }
  }

  /** Before anyone's second turn all others have theirs. */
  lemma AllBetween(tied: set<nat>, us: seq<seq<int>>, ps: seq<nat>, a: nat, b: nat, i: nat)
    requires Turns(tied, us, ps) && a < b < |ps| && i in tied && ps[a] == ps[b]
    ensures i in ps[a..b]
  {
    assert ps[a] in ps[a..b];
    assert ps[a..b] == [ps[a]] + ps[a + 1..b];
    assert Turn(tied, us[a], ps[a], us[a + 1]) && Turn(tied, us[b], ps[b], us[b + 1]);
    Meanwhile(tied, us, ps, a + 1, b, i);
    Meanwhile(tied, us, ps, a + 1, b, ps[a]);
  }

  /** So as many turns as there are tied go to each once. */
  lemma OneTurnEach(tied: set<nat>, us: seq<seq<int>>, ps: seq<nat>)
    requires Turns(tied, us, ps) && |ps| == |tied|
    ensures Members(ps) == tied && NoDup(ps)
  {
    if !NoDup(ps) {
      var a, b := Repeat(ps);
      forall i | i in tied ensures i in Members(ps[a..b]) {
        AllBetween(tied, us, ps, a, b, i);
      }
      MembersAtMost(ps[a..b]);
      Subset(tied, Members(ps[a..b]));
      assert false;
    }
    NoDupSize(ps);
    forall p | p in ps ensures p in tied {
      var k :| 0 <= k < |ps| && ps[k] == p;
      assert Turn(tied, us[k], ps[k], us[k + 1]);
    }
    Subset(Members(ps), tied);
  }

  lemma {:induction false} Repeat(ps: seq<nat>) returns (a: nat, b: nat)
    requires !NoDup(ps)
    ensures a < b < |ps| && ps[a] == ps[b]
  {
    if ps[0] in ps[1..] {
      a, b :| a == 0 && 0 < b < |ps| && ps[b] == ps[0];
    } else {
      a, b := Repeat(ps[1..]);
      a, b := a + 1, b + 1;
    }
  }

  lemma {:induction false} MembersAtMost(q: seq<nat>)
    ensures |Members(q)| <= |q|
  {
    if q != [] {
      MembersAtMost(q[1..]);
      assert Members(q) == Members(q[1..]) + {q[0]};
    }
  }

  lemma Subset(x: set<nat>, y: set<nat>)
    requires x <= y
    ensures |x| <= |y| && (|x| == |y| ==> x == y)
  {
    assert y == x + (y - x);
  }

  /** Round robin: while the same `n` candidates stay tied for best, any `n`
      selections in a row pick each of them exactly once. */
  lemma RoundRobin(rs: seq<seq<Route>>, us: seq<seq<int>>, net: Option<nat>, tied: set<nat>, ps: seq<nat>)
    requires Selections(rs, us, net, tied) && |rs| == |tied| == |ps|
    requires forall k :: 0 <= k < |rs| ==> Picked(rs[k], net) == Some(ps[k])
    ensures Members(ps) == tied && NoDup(ps)
  {
    hide Selection, Picked, Turn;
    forall k | 0 <= k < |rs| ensures Turn(tied, us[k], ps[k], us[k + 1]) {
      assert Picked(rs[k], net) == Some(ps[k]);
      SelectionTurns(rs[k], us[k], us[k + 1], net, tied);
    }
    OneTurnEach(tied, us, ps);
  }

  /** The window of numbers moves by one with each selection, so it is enough to
      look at it beforehand. */
  lemma NearNext(routes: seq<Route>, u: seq<int>, net: Option<nat>, room: nat)
    requires Numbered(routes, u) && Near(routes, net, u, room + 1)
    ensures Numbered(Used(routes, net), NextNumbers(routes, net, u))
    ensures Near(Used(routes, net), net, NextNumbers(routes, net, u), room)
  {
    var s := Scan(routes, net, |routes|);
    if s.Some? {
      assert Near(routes, net, u, 0);
      hide AsInt, Beats, Tied;
      ScanIs(routes, net, u, |routes|);
      NotBeaten(routes, net, |routes|);
      SuccWraps(u[s.value.1]);
      hide Scan, Hops;
    }
  }

  lemma SuccWraps(x: int)
    ensures AsInt(AsInt(x) + 1) == AsInt(x + 1)
  {
  }

  /** A selection changes nothing but a sequence number, so who is best stays. */
  lemma BestStays(routes: seq<Route>, net: Option<nat>)
    ensures forall i :: Best(Used(routes, net), net, i) <==> Best(routes, net, i)
  {
  }

  lemma SameBut(routes: seq<Route>, used: seq<Route>, net: Option<nat>)
    requires |used| == |routes| && forall i :: 0 <= i < |routes| ==> used[i] == routes[i].(lrSeq := used[i].lrSeq)
    ensures forall i :: Best(used, net, i) <==> Best(routes, net, i)
  {
  }

  /** So a caller can tell beforehand: with nothing else changing, `n` selections
      go round robin when the numbers of all candidates are within 2^31 less `n`. */
  lemma {:induction false} Beforehand(rs: seq<seq<Route>>, u: seq<int>, net: Option<nat>, tied: set<nat>)
    returns (us: seq<seq<int>>)
    requires rs != [] && Numbered(rs[0], u) && Near(rs[0], net, u, |rs|)
    requires forall k :: 0 <= k < |rs| - 1 ==> rs[k + 1] == Used(rs[k], net)
    requires forall i :: i in tied <==> Best(rs[0], net, i)
    ensures Selections(rs, us, net, tied) && us[0] == u
    decreases |rs|
  {
    var v := NextNumbers(rs[0], net, u);
    assert Selection(rs[0], u, v, net, tied) by {
      assert Near(rs[0], net, u, 0);
    }
    if |rs| == 1 {
      us := [u, v];
    } else {
      NearNext(rs[0], u, net, |rs| - 1);
      BestStays(rs[0], net);
      hide Selection, Near, Numbered, Best;
      assert rs[0 + 1] == Used(rs[0], net);
      var rest := rs[1..];
      forall k | 0 <= k < |rest| - 1 ensures rest[k + 1] == Used(rest[k], net) {
        assert rs[(k + 1) + 1] == Used(rs[k + 1], net);
      }
      us := Beforehand(rest, v, net, tied);
      us := [u] + us;
      forall k | 0 <= k < |rs| ensures Selection(rs[k], us[k], us[k + 1], net, tied) {
        assert k > 0 ==> rs[k] == rest[k - 1];
      }
    }
  }

  // ---------------------------------------------------------------- how long it lasts

  /** With one candidate best there is no turn to take, and no number matters. */
  lemma OnlyBest(routes: seq<Route>, net: Option<nat>, i: nat)
    requires Best(routes, net, i) && forall j :: Best(routes, net, j) ==> j == i
    ensures Picked(routes, net) == Some(i)
  {
    NotBeaten(routes, net, |routes|);
    var s := Scan(routes, net, |routes|);
    assert s.Some? ==> Best(routes, net, s.value.0);
  }

  /** Nothing but selections, and all candidates tied. */
  ghost predicate Rolls(rs: seq<seq<Route>>, us: seq<seq<int>>, net: Option<nat>, tied: set<nat>) {
    && rs != [] && |us| == |rs| + 1 && Numbered(rs[0], us[0]) && tied != {}
    && (forall i :: i in tied <==> Best(rs[0], net, i))
    && (forall i :: 0 <= i < |rs[0]| && Candidate(rs[0][i], net) ==> i in tied)
    && (forall k :: 0 <= k < |rs| - 1 ==> rs[k + 1] == Used(rs[k], net))
    && (forall k :: 0 <= k < |rs| ==> |us[k]| == |rs[k]| && us[k + 1] == NextNumbers(rs[k], net, us[k]))
  }

  /** The tied have numbers from `low` to `high`, and one has `high`. */
  ghost predicate Within(tied: set<nat>, u: seq<int>, low: int, high: int) {
    && (forall i :: i in tied ==> i < |u| && low <= u[i] <= high)
    && exists i :: i in tied && i < |u| && u[i] == high
  }

  /** What stays the same from one selection to the next. */
  lemma {:induction false} RollsOn(rs: seq<seq<Route>>, us: seq<seq<int>>, net: Option<nat>, tied: set<nat>, k: nat)
    requires Rolls(rs, us, net, tied) && k < |rs|
    requires forall j :: 0 <= j < k ==> Near(rs[j], net, us[j], 0)
    ensures Numbered(rs[k], us[k])
    ensures forall i :: i in tied <==> Best(rs[k], net, i)
    ensures forall i :: 0 <= i < |rs[k]| && Candidate(rs[k][i], net) ==> i in tied
    decreases k
  {
    if k > 0 {
      RollsOn(rs, us, net, tied, k - 1);
      BestStays(rs[k - 1], net);
      assert rs[(k - 1) + 1] == Used(rs[k - 1], net) && us[(k - 1) + 1] == NextNumbers(rs[k - 1], net, us[k - 1]);
      var s := Scan(rs[k - 1], net, |rs[k - 1]|);
      if s.Some? {
        SuccWraps(us[k - 1][s.value.1]);
        hide AsInt, Best, Beats, Tied, Scan;
      }
    }
  }

  /** A selection then gives the route with the least number the next one up. */
  lemma TopRises(routes: seq<Route>, u: seq<int>, v: seq<int>, net: Option<nat>, tied: set<nat>, low: int, high: int)
    returns (p: nat)
    requires Numbered(routes, u) && Near(routes, net, u, 0) && Within(tied, u, low, high)
    requires v == NextNumbers(routes, net, u)
    requires forall i :: i in tied <==> Best(routes, net, i)
    requires forall i :: 0 <= i < |routes| && Candidate(routes[i], net) ==> i in tied
    ensures Picked(routes, net) == Some(p) && Turn(tied, u, p, v)
    ensures v[p] == high + 1 && Within(tied, v, low, high + 1)
  {
    SelectionTurns(routes, u, v, net, tied);
    ScanIs(routes, net, u, |routes|);
    NotBeaten(routes, net, |routes|);
    var s := Scan(routes, net, |routes|);
    p := s.value.0;
    var t :| t in tied && t < |u| && u[t] == high;
    assert Best(routes, net, t);
    assert u[s.value.1] == high;
  }

  /** The turns so far, each of which took the next number up from `high`. */
  ghost predicate Taken(tied: set<nat>, us: seq<seq<int>>, ps: seq<nat>, high: int) {
    && |ps| < |us|
    && forall j :: 0 <= j < |ps| ==> Turn(tied, us[j], ps[j], us[j + 1]) && us[j + 1][ps[j]] == high + j + 1
  }

  lemma {:induction false} Later(tied: set<nat>, us: seq<seq<int>>, ps: seq<nat>, high: int, a: nat, i: nat)
    requires Taken(tied, us, ps, high) && a <= |ps| && i in tied && i < |us[a]|
    ensures i < |us[|ps|]| && us[a][i] <= us[|ps|][i]
    decreases |ps| - a
  {
    if a < |ps| {
      assert Turn(tied, us[a], ps[a], us[a + 1]);
      Later(tied, us, ps, high, a + 1, i);
    }
  }

  /** So after as many turns as there are tied, their numbers are the last that
      many, however far apart they were at first. */
  lemma LastNumbers(tied: set<nat>, us: seq<seq<int>>, ps: seq<nat>, high: int, i: nat)
    requires Taken(tied, us, ps, high) && |tied| <= |ps| && i in tied
    ensures i < |us[|ps|]| && us[|ps|][i] >= high + |ps| - |tied| + 1
  {
    var k, n := |ps|, |tied|;
    var us', ps' := us[k - n..k + 1], ps[k - n..];
    forall j | 0 <= j < n ensures Turn(tied, us'[j], ps'[j], us'[j + 1]) {
      assert Turn(tied, us[k - n + j], ps[k - n + j], us[k - n + j + 1]);
    }
    OneTurnEach(tied, us', ps');
    assert i in Members(ps');
    var j :| 0 <= j < n && ps'[j] == i;
    assert ps[k - n + j] == i && Turn(tied, us[k - n + j], ps[k - n + j], us[(k - n + j) + 1]);
    hide Turn;
    Later(tied, us, ps, high, k - n + j + 1, i);
  }

  function Low(n: nat, low: int, high: int, k: nat): int {
    if k < n then low else high + k - n + 1
  }

  lemma LowRises(tied: set<nat>, us: seq<seq<int>>, ps: seq<nat>, low: int, high: int)
    requires Taken(tied, us, ps, high) && |ps| > 0
    requires Within(tied, us[|ps|], Low(|tied|, low, high, |ps| - 1), high + |ps|)
    ensures Within(tied, us[|ps|], Low(|tied|, low, high, |ps|), high + |ps|)
  {
    hide Turn;
    if |ps| >= |tied| {
      forall i | i in tied ensures i < |us[|ps|]| && us[|ps|][i] >= high + |ps| - |tied| + 1 {
        LastNumbers(tied, us, ps, high, i);
      }
    }
  }

  lemma NearWithin(routes: seq<Route>, u: seq<int>, net: Option<nat>, tied: set<nat>, low: int, high: int)
    requires |u| == |routes| && Within(tied, u, low, high) && high - low < HALF
    requires forall i :: 0 <= i < |routes| && Candidate(routes[i], net) ==> i in tied
    ensures Near(routes, net, u, 0)
  {
  }

  /** After `k` selections: the turns taken, and a window of numbers that never
      widens past the number of routes. */
  ghost predicate Rolled(rs: seq<seq<Route>>, us: seq<seq<int>>, net: Option<nat>, tied: set<nat>, low: int, high: int,
                         ps: seq<nat>) {
    && |ps| < |rs| < |us| && Taken(tied, us, ps, high)
    && Within(tied, us[|ps|], Low(|tied|, low, high, |ps|), high + |ps|)
    && forall j :: 0 <= j <= |ps| ==> |us[j]| == |rs[j]| && Near(rs[j], net, us[j], 0)
  }

  lemma RollStep(rs: seq<seq<Route>>, us: seq<seq<int>>, net: Option<nat>, tied: set<nat>, low: int, high: int,
                 ps: seq<nat>) returns (ps': seq<nat>)
    requires Rolls(rs, us, net, tied) && Rolled(rs, us, net, tied, low, high, ps) && high - low + |tied| < HALF
    requires |ps| + 1 < |rs| && low <= high
    ensures |ps'| == |ps| + 1 && Rolled(rs, us, net, tied, low, high, ps')
  {
    hide Best, Candidate, Near, Numbered, Turn, Within, NextNumbers, Used;
    var k := |ps|;
    RollsOn(rs, us, net, tied, k);
    assert us[k + 1] == NextNumbers(rs[k], net, us[k]);
    var p := TopRises(rs[k], us[k], us[k + 1], net, tied, Low(|tied|, low, high, k), high + k);
    ps' := ps + [p];
    assert Taken(tied, us, ps', high);
    LowRises(tied, us, ps', low, high);
    hide Taken;
    RollsOn(rs, us, net, tied, k + 1);
    NearWithin(rs[k + 1], us[k + 1], net, tied, Low(|tied|, low, high, k + 1), high + k + 1);
  }

  lemma {:induction false} Roll(rs: seq<seq<Route>>, us: seq<seq<int>>, net: Option<nat>, tied: set<nat>,
                                low: int, high: int, k: nat) returns (ps: seq<nat>)
    requires Rolls(rs, us, net, tied) && k < |rs|
    requires Within(tied, us[0], low, high) && high - low + |tied| < HALF
    ensures |ps| == k && Rolled(rs, us, net, tied, low, high, ps)
    decreases k
  {
    if k == 0 {
      NearWithin(rs[0], us[0], net, tied, low, high);
      ps := [];
      assert tied != {};
    } else {
      ps := Roll(rs, us, net, tied, low, high, k - 1);
      ps := RollStep(rs, us, net, tied, low, high, ps);
    }
  }

  /** The numbers the selections go through without wrapping. */
  function Unwrapped(rs: seq<seq<Route>>, net: Option<nat>, u: seq<int>): (us: seq<seq<int>>)
    requires rs != [] ==> |u| == |rs[0]|
    requires forall k :: 0 <= k < |rs| - 1 ==> |rs[k + 1]| == |rs[k]|
    ensures |us| == |rs| + 1 && us[0] == u
    ensures forall k :: 0 <= k < |rs| ==> |us[k]| == |rs[k]| && us[k + 1] == NextNumbers(rs[k], net, us[k])
  {
    if rs == [] then [u]
    else
      assert |rs| > 1 ==> |rs[0 + 1]| == |rs[0]|;
      [u] + Unwrapped(rs[1..], net, NextNumbers(rs[0], net, u))
  }

  /** All candidates tied, and their numbers close together. */
  ghost predicate AllTied(routes: seq<Route>, net: Option<nat>, u: seq<int>, tied: set<nat>) {
    && Numbered(routes, u) && tied != {}
    && (forall i :: i in tied <==> 0 <= i < |routes| && Candidate(routes[i], net))
    && (forall i, j :: i in tied && j in tied ==> Tied(routes[i], routes[j]))
    && (forall i, j :: i in tied && j in tied ==> u[i] - u[j] + |tied| < HALF)
  }

  lemma AllTiedRolls(rs: seq<seq<Route>>, us: seq<seq<int>>, net: Option<nat>, tied: set<nat>)
    requires rs != [] && |us| == |rs| + 1 && AllTied(rs[0], net, us[0], tied)
    requires forall k :: 0 <= k < |rs| - 1 ==> rs[k + 1] == Used(rs[k], net)
    requires forall k :: 0 <= k < |rs| ==> |us[k]| == |rs[k]| && us[k + 1] == NextNumbers(rs[k], net, us[k])
    ensures Rolls(rs, us, net, tied)
  {
    hide Used, NextNumbers, Beats, Candidate;
  }

  lemma {:induction false} Extremes(tied: set<nat>, u: seq<int>) returns (i: nat, j: nat)
    requires tied != {} && forall i :: i in tied ==> i < |u|
    ensures i in tied && j in tied && Within(tied, u, u[i], u[j])
    decreases |tied|
  {
    var t :| t in tied;
    i, j := t, t;
    if tied != {t} {
      var rest := tied - {t};
      assert tied == rest + {t};
      i, j := Extremes(rest, u);
      i, j := if u[t] < u[i] then t else i, if u[t] > u[j] then t else j;
    }
  }

  lemma RollsSelect(rs: seq<seq<Route>>, us: seq<seq<int>>, net: Option<nat>, tied: set<nat>)
    requires Rolls(rs, us, net, tied) && AllTied(rs[0], net, us[0], tied)
    ensures Selections(rs, us, net, tied)
  {
    var i, j := Extremes(tied, us[0]);
    var qs := Roll(rs, us, net, tied, us[0][i], us[0][j], |rs| - 1);
    assert forall k :: 0 <= k < |rs| ==> Near(rs[k], net, us[k], 0);
    hide AllTied, Rolled, Best, Candidate, Near, Numbered, NextNumbers, Used;
    forall k | 0 <= k < |rs| ensures Selection(rs[k], us[k], us[k + 1], net, tied) {
      RollsOn(rs, us, net, tied, k);
      assert us[k + 1] == NextNumbers(rs[k], net, us[k]);
      NextSize(rs[k], net, us[k]);
    }
  }

  lemma NextSize(routes: seq<Route>, net: Option<nat>, u: seq<int>)
    requires |u| == |routes|
    ensures |NextNumbers(routes, net, u)| == |u|
  {
  }

  lemma UsedSize(routes: seq<Route>, net: Option<nat>)
    ensures |Used(routes, net)| == |routes|
  {
  }

  lemma AllTiedSelect(rs: seq<seq<Route>>, u: seq<int>, net: Option<nat>, tied: set<nat>) returns (us: seq<seq<int>>)
    requires rs != [] && AllTied(rs[0], net, u, tied)
    requires forall k :: 0 <= k < |rs| - 1 ==> rs[k + 1] == Used(rs[k], net)
    ensures Selections(rs, us, net, tied)
  {
    assert |u| == |rs[0]|;
    hide Used, NextNumbers, AllTied, Rolls, Selection;
    forall k | 0 <= k < |rs| - 1 ensures |rs[k + 1]| == |rs[k]| {
      assert rs[k + 1] == Used(rs[k], net);
      UsedSize(rs[k], net);
    }
    us := Unwrapped(rs, net, u);
    AllTiedRolls(rs, us, net, tied);
    RollsSelect(rs, us, net, tied);
  }

  /** When all candidates are tied round robin never ends, wherever the numbers
      wrap: in any run of selections that starts with numbers close together, as
      those of routes just added are, any `n` selections in a row pick each of the
      `n` routes once. */
  lemma AllTiedForever(rs: seq<seq<Route>>, u: seq<int>, net: Option<nat>, tied: set<nat>, ps: seq<nat>, k: nat)
    requires rs != [] && AllTied(rs[0], net, u, tied)
    requires forall k :: 0 <= k < |rs| - 1 ==> rs[k + 1] == Used(rs[k], net)
    requires |ps| == |rs| && forall k :: 0 <= k < |rs| ==> Picked(rs[k], net) == Some(ps[k])
    requires k + |tied| <= |rs|
    ensures Members(ps[k..k + |tied|]) == tied && NoDup(ps[k..k + |tied|])
  {
    hide Used, Picked, Selection, AllTied;
    var us := AllTiedSelect(rs, u, net, tied);
    InARow(rs, us, net, tied, ps, k);
  }

  lemma Part(rs: seq<seq<Route>>, us: seq<seq<int>>, net: Option<nat>, tied: set<nat>, k: nat, n: nat)
    requires Selections(rs, us, net, tied) && k + n <= |rs|
    ensures Selections(rs[k..k + n], us[k..k + n + 1], net, tied)
  {
    hide Selection;
    var rs', us' := rs[k..k + n], us[k..k + n + 1];
    forall j | 0 <= j < n ensures Selection(rs'[j], us'[j], us'[j + 1], net, tied) {
      assert Selection(rs[k + j], us[k + j], us[(k + j) + 1], net, tied);
    }
  }

  /** With routes just added, however many are tied or worse and in whatever order,
      it lasts for fewer than 2^31 selections at least. */
  lemma FreshRounds(rs: seq<seq<Route>>, net: Option<nat>, tied: set<nat>, ps: seq<nat>, k: nat)
    requires rs != [] && |rs| < HALF && forall i :: 0 <= i < |rs[0]| ==> rs[0][i].lrSeq == 0
    requires forall k :: 0 <= k < |rs| - 1 ==> rs[k + 1] == Used(rs[k], net)
    requires forall i :: i in tied <==> Best(rs[0], net, i)
    requires |ps| == |rs| && forall k :: 0 <= k < |rs| ==> Picked(rs[k], net) == Some(ps[k])
    requires k + |tied| <= |rs|
    ensures Members(ps[k..k + |tied|]) == tied && NoDup(ps[k..k + |tied|])
  {
    var u := seq(|rs[0]|, _ => 0);
    assert Numbered(rs[0], u) && Near(rs[0], net, u, |rs|);
    hide Used, Picked, Selection, Best, Near, Numbered;
    var us := Beforehand(rs, u, net, tied);
    InARow(rs, us, net, tied, ps, k);
  }

  /** Any stretch of selections as long as there are tied. */
  lemma InARow(rs: seq<seq<Route>>, us: seq<seq<int>>, net: Option<nat>, tied: set<nat>, ps: seq<nat>, k: nat)
    requires Selections(rs, us, net, tied) && k + |tied| <= |rs|
    requires |ps| == |rs| && forall k :: 0 <= k < |rs| ==> Picked(rs[k], net) == Some(ps[k])
    ensures Members(ps[k..k + |tied|]) == tied && NoDup(ps[k..k + |tied|])
  {
    hide Picked, Selection;
    var n := |tied|;
    Part(rs, us, net, tied, k, n);
    var rs', ps' := rs[k..k + n], ps[k..k + n];
    forall j | 0 <= j < n ensures Picked(rs'[j], net) == Some(ps'[j]) {
      assert Picked(rs[k + j], net) == Some(ps[k + j]);
    }
    RoundRobin(rs', us[k..k + n + 1], net, tied, ps');
  }

  // ---------------------------------------------------------------- how it stops

  /** Two candidates tied for best, and after them one that is worse. */
  predicate TwoAndWorse(rs: seq<Route>, net: Option<nat>) {
    && |rs| == 3 && Candidate(rs[0], net) && Candidate(rs[1], net) && Candidate(rs[2], net)
    && Tied(rs[0], rs[1]) && Beats(rs[0], rs[2]) && Beats(rs[1], rs[2])
  }

  lemma TwoAndWorseScan(rs: seq<Route>, net: Option<nat>)
    requires TwoAndWorse(rs, net)
    ensures var a, b, w := rs[0].lrSeq, rs[1].lrSeq, rs[2].lrSeq;
            var x := if AsInt(a - b) < 0 then 1 else 0;
            Scan(rs, net, 3) ==
              Some((if AsInt(b - a) <= 0 then 1 else 0, if AsInt(rs[x].lrSeq - w) < 0 then 2 else x))
  {
    CompareIs(rs[1], rs[0]);
    CompareIs(rs[2], rs[0]);
    CompareIs(rs[2], rs[1]);
    hide AsInt, Beats, Tied, CompareRoutes, Candidate;
    assert Scan(rs, net, 1) == Some((0, 0));
  }

  /** The numbers of the two tied routes after a selection. */
  function NextPair(a: int, b: int, w: int): (int, int) {
    var x := if AsInt(a - b) < 0 then b else a;
    var v := AsInt((if AsInt(x - w) < 0 then w else x) + 1);
    if AsInt(b - a) <= 0 then (a, v) else (v, b)
  }

  lemma TwoAndWorseUsed(rs: seq<Route>, net: Option<nat>)
    requires TwoAndWorse(rs, net)
    ensures Picked(rs, net) == Some(if AsInt(rs[1].lrSeq - rs[0].lrSeq) <= 0 then 1 else 0)
    ensures TwoAndWorse(Used(rs, net), net) && Used(rs, net)[2] == rs[2]
    ensures (Used(rs, net)[0].lrSeq, Used(rs, net)[1].lrSeq) == NextPair(rs[0].lrSeq, rs[1].lrSeq, rs[2].lrSeq)
  {
    TwoAndWorseScan(rs, net);
    hide Scan, AsInt;
  }

  /** With the two tied numbers taken relative to the worse one: not exactly half
      the range apart, unless the first is the worse one's, and the newer of the
      two not just over half the range ahead of the worse one. */
  predicate Alternates(a: int, b: int) {
    if AsInt(b - a) == -HALF then AsInt(a) == 0
    else if AsInt(b - a) <= 0 then AsInt(a) > 1 - HALF
    else AsInt(b) > -HALF
  }

  /** That is exactly when two selections pick each of the two tied routes once. */
  lemma TwoTurns(rs: seq<Route>, net: Option<nat>)
    requires TwoAndWorse(rs, net)
    ensures Picked(rs, net) in {Some(0), Some(1)} && Picked(Used(rs, net), net) in {Some(0), Some(1)}
    ensures Picked(rs, net) != Picked(Used(rs, net), net) <==>
              Alternates(rs[0].lrSeq - rs[2].lrSeq, rs[1].lrSeq - rs[2].lrSeq)
  {
    TwoAndWorseUsed(rs, net);
    TwoAndWorseUsed(Used(rs, net), net);
    hide Picked, Used, TwoAndWorse, AsInt, Alternates;
    TwoTurnsNumbers(rs[0].lrSeq, rs[1].lrSeq, rs[2].lrSeq);
  }

  lemma AsIntNear(x: int)
    ensures -HALF <= x < HALF ==> AsInt(x) == x
    ensures HALF <= x < 3 * HALF ==> AsInt(x) == x - 2 * HALF
    ensures -3 * HALF <= x < -HALF ==> AsInt(x) == x + 2 * HALF
    ensures -HALF <= AsInt(x) < HALF
  {
  }

  lemma Wraps(x: int) returns (k: int)
    ensures x == AsInt(x) + k * (2 * HALF)
  {
    k := if x % (2 * HALF) < HALF then x / (2 * HALF) else x / (2 * HALF) + 1;
  }

  lemma SameInt(x: int, y: int, k: int)
    requires x == y + k * (2 * HALF)
    ensures AsInt(x) == AsInt(y)
  {
  }

  /** The same about the numbers alone. */
  lemma TwoTurnsNumbers(a: int, b: int, w: int)
    ensures var (a', b') := NextPair(a, b, w);
            (AsInt(b - a) <= 0) != (AsInt(b' - a') <= 0) <==> Alternates(a - w, b - w)
  {
    Relative(a, b, w);
    AsIntNear(a - w);
    AsIntNear(b - w);
    var a', b' := AsInt(a - w), AsInt(b - w);
    AsIntNear(a');
    AsIntNear(b');
    hide AsInt, NextPair;
    NearZero(a', b');
    assert (b - w) - (a - w) == b - a;
  }

  /** Only differences matter. */
  lemma Relative(a: int, b: int, w: int)
    ensures AsInt(b - a) == AsInt(AsInt(b - w) - AsInt(a - w))
    ensures var (p, q), (p', q') := NextPair(a, b, w), NextPair(AsInt(a - w), AsInt(b - w), 0);
            AsInt(q - p) == AsInt(q' - p')
  {
    hide AsInt;
    var ka := Wraps(a - w);
    var kb := Wraps(b - w);
    var a', b' := AsInt(a - w), AsInt(b - w);
    SameInt(a - b, a' - b', ka - kb);
    SameInt(b - a, b' - a', kb - ka);
    var (x, x', kx) := if AsInt(a - b) < 0 then (b, b', kb) else (a, a', ka);
    AsIntNear(x - w);
    AsIntNear(x');
    assert x' - 0 == x' && AsInt(x' - 0) == x';
    var v, v' := if x' < 0 then w + 1 else x + 1, if x' < 0 then 1 else x' + 1;
    var kv := Wraps(v);
    var kv' := Wraps(v');
    var k := (if x' < 0 then 0 else kx) - kv + kv';
    assert AsInt(v) == AsInt(v') + w + k * (2 * HALF);
    SameInt(AsInt(v) - a, AsInt(v') - a', k - ka);
    SameInt(b - AsInt(v), b' - AsInt(v'), kb - k);
  }

  lemma NearZero(a: int, b: int)
    requires -HALF <= a < HALF && -HALF <= b < HALF
    ensures var (a', b') := NextPair(a, b, 0);
            (AsInt(b - a) <= 0) != (AsInt(b' - a') <= 0) <==> Alternates(a, b)
  {
    hide AsInt;
    var x := if AsInt(a - b) < 0 then b else a;
    var v := (if x < 0 then 0 else x) + 1;
    AsIntNear(a - b);
    AsIntNear(b - a);
    AsIntNear(v);
    AsIntNear(AsInt(v) - a);
    AsIntNear(b - AsInt(v));
    AsIntNear(a);
    AsIntNear(b);
    assert a - 0 == a && b - 0 == b;
  }

  /** The numbers of the two tied routes after `k` selections from routes just
      added, which have number 0. */
  function FreshNumbers(k: nat): (int, int) {
    if k > HALF then (-HALF, 1)
    else if k % 2 == 0 then (AsInt(k), if k == 0 then 0 else k - 1)
    else (k - 1, k)
  }

  lemma FreshNext(k: nat)
    ensures var (a, b) := FreshNumbers(k); FreshNumbers(k + 1) == NextPair(a, b, 0)
  {
    hide AsInt;
    var (a, b) := FreshNumbers(k);
    AsIntNear(k);
    AsIntNear(a - b);
    AsIntNear(b - a);
    AsIntNear(a);
    AsIntNear(b);
    AsIntNear(1);
    AsIntNear(a + 1);
    AsIntNear(b + 1);
  }

  lemma {:induction false} FreshState(rs: seq<seq<Route>>, net: Option<nat>, k: nat)
    requires k < |rs| && TwoAndWorse(rs[0], net) && forall i :: 0 <= i < 3 ==> rs[0][i].lrSeq == 0
    requires forall k :: 0 <= k < |rs| - 1 ==> rs[k + 1] == Used(rs[k], net)
    ensures TwoAndWorse(rs[k], net) && rs[k][2].lrSeq == 0 && (rs[k][0].lrSeq, rs[k][1].lrSeq) == FreshNumbers(k)
    decreases k
  {
    if k > 0 {
      FreshState(rs, net, k - 1);
      assert rs[(k - 1) + 1] == Used(rs[k - 1], net);
      TwoAndWorseUsed(rs[k - 1], net);
      hide Used, TwoAndWorse, NextPair, FreshNumbers;
      FreshNext(k - 1);
    }
  }

  lemma FreshPick(k: nat)
    ensures var (a, b) := FreshNumbers(k); AsInt(b - a) <= 0 <==> !(k <= HALF && k % 2 == 1)
  {
    hide AsInt;
    AsIntNear(k);
    AsIntNear(FreshNumbers(k).1 - FreshNumbers(k).0);
  }

  /** In every run of selections from such routes the two tied ones take turns
      2^31 + 1 times, and from then on one of them gets everything. */
  lemma StopsForGood(rs: seq<seq<Route>>, net: Option<nat>, k: nat)
    requires k < |rs| && TwoAndWorse(rs[0], net) && forall i :: 0 <= i < 3 ==> rs[0][i].lrSeq == 0
    requires forall k :: 0 <= k < |rs| - 1 ==> rs[k + 1] == Used(rs[k], net)
    ensures Picked(rs[k], net) == Some(if k <= HALF && k % 2 == 1 then 0 else 1)
  {
    FreshState(rs, net, k);
    TwoAndWorseUsed(rs[k], net);
    hide Used, TwoAndWorse, Picked, AsInt, FreshNumbers;
    FreshPick(k);
  }

  // ---------------------------------------------------------------- the same in another order

  /** A worse candidate, and after it two tied for best. */
  predicate WorseAndTwo(rs: seq<Route>, net: Option<nat>) {
    && |rs| == 3 && Candidate(rs[0], net) && Candidate(rs[1], net) && Candidate(rs[2], net)
    && Tied(rs[1], rs[2]) && Beats(rs[1], rs[0]) && Beats(rs[2], rs[0])
  }

  /** The numbers of the two after a selection, that of the worse one being 0. */
  function WorseFirstPair(a: int, b: int): (int, int) {
    var x := if AsInt(0 - a) < 0 then a else 0;
    var v := AsInt((if AsInt(x - b) < 0 then b else x) + 1);
    if AsInt(b - a) <= 0 then (a, v) else (v, b)
  }

  lemma WorseAndTwoScan(rs: seq<Route>, net: Option<nat>)
    requires WorseAndTwo(rs, net)
    ensures var a, b, w := rs[1].lrSeq, rs[2].lrSeq, rs[0].lrSeq;
            var x := if AsInt(w - a) < 0 then 1 else 0;
            Scan(rs, net, 3) == Some((if AsInt(b - a) <= 0 then 2 else 1, if AsInt(rs[x].lrSeq - b) < 0 then 2 else x))
  {
    CompareIs(rs[1], rs[0]);
    CompareIs(rs[2], rs[1]);
    hide AsInt, Beats, Tied, CompareRoutes, Candidate;
    assert Scan(rs, net, 1) == Some((0, 0));
  }

  lemma WorseAndTwoUsed(rs: seq<Route>, net: Option<nat>)
    requires WorseAndTwo(rs, net) && rs[0].lrSeq == 0
    ensures Picked(rs, net) == Some(if AsInt(rs[2].lrSeq - rs[1].lrSeq) <= 0 then 2 else 1)
    ensures WorseAndTwo(Used(rs, net), net) && Used(rs, net)[0] == rs[0]
    ensures (Used(rs, net)[1].lrSeq, Used(rs, net)[2].lrSeq) == WorseFirstPair(rs[1].lrSeq, rs[2].lrSeq)
  {
    WorseAndTwoScan(rs, net);
    hide Scan, AsInt;
  }

  /** The numbers the two go through: up past half the range, where the worse one
      counts as the last used for once, and back to where they were at 2. */
  function CycleNumbers(i: nat): (int, int) {
    if i == HALF + 3 then (2 - HALF, 1)
    else if i % 2 == 0 then (AsInt(i), if i == 0 then 0 else AsInt(i - 1))
    else (AsInt(i - 1), AsInt(i))
  }

  lemma CycleNext(i: nat)
    requires i <= HALF + 3
    ensures var (a, b) := CycleNumbers(i);
            && WorseFirstPair(a, b) == CycleNumbers(if i == HALF + 3 then 2 else i + 1)
            && (AsInt(b - a) <= 0 <==> i % 2 == 0)
  {
    hide AsInt;
    var (a, b) := CycleNumbers(i);
    AsIntNear(i);
    AsIntNear(i - 1);
    AsIntNear(i + 1);
    AsIntNear(0 - a);
    AsIntNear(0 - b);
    AsIntNear(a - b);
    AsIntNear(b - a);
    AsIntNear(1);
    AsIntNear(2);
    AsIntNear(a + 1);
    AsIntNear(b + 1);
  }

  lemma CycleStep(rs: seq<Route>, net: Option<nat>, i: nat, k: nat) returns (i': nat)
    requires i <= HALF + 3 && i % 2 == k % 2
    requires WorseAndTwo(rs, net) && rs[0].lrSeq == 0 && (rs[1].lrSeq, rs[2].lrSeq) == CycleNumbers(i)
    ensures i' <= HALF + 3 && i' % 2 == (k + 1) % 2
    ensures var r := Used(rs, net);
            WorseAndTwo(r, net) && r[0].lrSeq == 0 && (r[1].lrSeq, r[2].lrSeq) == CycleNumbers(i')
  {
    WorseAndTwoUsed(rs, net);
    hide Used, WorseAndTwo, WorseFirstPair, CycleNumbers, AsInt, Picked;
    CycleNext(i);
    i' := CycleIndex(i, k);
  }

  lemma CycleIndex(i: nat, k: nat) returns (i': nat)
    requires i <= HALF + 3 && i % 2 == k % 2
    ensures i' == (if i == HALF + 3 then 2 else i + 1) && i' <= HALF + 3 && i' % 2 == (k + 1) % 2
  {
    i' := if i == HALF + 3 then 2 else i + 1;
  }

  lemma {:induction false} CycleState(rs: seq<seq<Route>>, net: Option<nat>, k: nat) returns (i: nat)
    requires k < |rs| && WorseAndTwo(rs[0], net) && forall i :: 0 <= i < 3 ==> rs[0][i].lrSeq == 0
    requires forall k :: 0 <= k < |rs| - 1 ==> rs[k + 1] == Used(rs[k], net)
    ensures i <= HALF + 3 && i % 2 == k % 2
    ensures WorseAndTwo(rs[k], net) && rs[k][0].lrSeq == 0 && (rs[k][1].lrSeq, rs[k][2].lrSeq) == CycleNumbers(i)
    decreases k
  {
    i := 0;
    if k > 0 {
      i := CycleState(rs, net, k - 1);
      assert rs[(k - 1) + 1] == Used(rs[k - 1], net);
      i := CycleStep(rs[k - 1], net, i, k - 1);
    }
  }

  /** With the worse route first on the list, instead, the two take turns for ever. */
  lemma WorseFirstForever(rs: seq<seq<Route>>, net: Option<nat>, k: nat)
    requires k < |rs| && WorseAndTwo(rs[0], net) && forall i :: 0 <= i < 3 ==> rs[0][i].lrSeq == 0
    requires forall k :: 0 <= k < |rs| - 1 ==> rs[k + 1] == Used(rs[k], net)
    ensures Picked(rs[k], net) == Some(if k % 2 == 0 then 2 else 1)
  {
    var i := CycleState(rs, net, k);
    WorseAndTwoUsed(rs[k], net);
    hide Used, WorseAndTwo, Picked, AsInt, CycleNumbers;
    CycleNext(i);
  }
}
