/** The portal object of `lib-ptl.c`, updated in place. Each method is one
    section under the portal lock and is proved to do exactly what the protocol
    step of the same name does to the portal's abstract state. */
module Portal {
  import opened MatchEntry
  import opened MatchTable
  import P = PortalProtocol
  import S = PortalSafety
  import R = PortalRuns
  import opened Options

  /** Removing from the middle of a sorted list. */
  lemma {:induction false} RemoveAt(maps: seq<nat>, r: nat)
    requires P.StrictlySorted(maps) && r < |maps|
    ensures P.RemoveSorted(maps, maps[r]) == maps[..r] + maps[r + 1..]
  {
    if r > 0 {
      var rest := maps[1..];
      RemoveAt(rest, r - 1);
      assert maps[0] < maps[r];
      assert [maps[0]] + rest[..r - 1] == maps[..r];
    }
  }

  lemma {:induction false} InsertAt(maps: seq<nat>, c: nat, i: nat)
    requires i <= |maps| && (i > 0 ==> maps[i - 1] < c)
    requires forall j :: i <= j < |maps| ==> maps[j] >= c
    ensures P.InsertSorted(maps, c) == maps[..i] + [c] + maps[i..]
  {
    if i < |maps| {
      var front := maps[..|maps| - 1];
      InsertAt(front, c, i);
      assert front[..i] == maps[..i] && front[i..] + [maps[|maps| - 1]] == maps[i..];
    }
  }

  class Portal {
    ghost const cfg: Config
    const ncpts: nat
    var kind: Kind
    var lazy: bool
    var tables: seq<Table>
    var maps: array<nat>
    var nmaps: nat
    var stealing: seq<nat>
    var delayed: seq<nat>
    var msgs: map<nat, P.Msg>

    ghost predicate Valid()
      reads this, maps
    {
      && ncpts == cfg.ncpts && maps.Length == ncpts && nmaps <= maps.Length
      && S.TablesOk(cfg, View()) && S.MapsOk(View())
    }

    ghost function View(): P.State
      reads this, maps
      requires nmaps <= maps.Length
    {
      P.State(kind, lazy, tables, maps[..nmaps], stealing, delayed, msgs)
    }

    /** The insertion loop of `lnet_ptl_enable_mt`. */
    static method InsertMap(maps: array<nat>, n: nat, cpt: nat)
      requires n < maps.Length
      modifies maps
      ensures maps[..n + 1] == P.InsertSorted(old(maps[..n]), cpt)
    {
      ghost var was := maps[..n];
      maps[n] := cpt;
      var i := n;
      while i > 0 && maps[i - 1] >= cpt
        invariant i <= n && maps[i] == cpt
        invariant forall j :: 0 <= j < i ==> maps[j] == was[j]
        invariant forall j :: i < j <= n ==> maps[j] == was[j - 1] >= cpt
      {
        maps[i] := maps[i - 1];
        maps[i - 1] := cpt;
        i := i - 1;
      }
      forall j | i <= j < n ensures was[j] >= cpt {
        assert maps[j + 1] == was[(j + 1) - 1];
      }
      InsertAt(was, cpt, i);
      assert maps[..n + 1] == was[..i] + [cpt] + was[i..];
    }

    /** The shifting loop of `lnet_ptl_disable_mt`, `cpt` being the `r`-th entry. */
    static method RemoveMap(maps: array<nat>, n: nat, cpt: nat, ghost r: nat)
      requires r < n <= maps.Length && P.StrictlySorted(maps[..n]) && maps[r] == cpt
      modifies maps
      ensures maps[..n - 1] == P.RemoveSorted(old(maps[..n]), cpt)
    {
      ghost var was := maps[..n];
      for i := 0 to n - 1
        invariant forall j :: 0 <= j < i ==> maps[j] == was[if j < r then j else j + 1]
        invariant forall j :: i <= j < n ==> maps[j] == was[j]
      {
        assert was[i] >= cpt <==> i >= r;
        if maps[i] >= cpt {
          maps[i] := maps[i + 1];
        }
      }
      RemoveAt(was, r);
      assert maps[..n - 1] == was[..r] + was[r + 1..];
    }

    /** `lnet_ptl_enable_mt`. */
    method EnableMt(cpt: nat)
      requires Valid() && cpt < ncpts && !tables[cpt].enabled && nmaps < ncpts
      modifies this`tables, this`nmaps, maps
      ensures nmaps <= maps.Length && View() == P.Enable(old(View()), cpt)
    {
      tables := tables[cpt := tables[cpt].(enabled := true)];
      InsertMap(maps, nmaps, cpt);
      nmaps := nmaps + 1;
    }

    /** `lnet_ptl_disable_mt`. */
    method DisableMt(cpt: nat)
      requires Valid() && cpt < ncpts && tables[cpt].enabled
      modifies this`tables, this`nmaps, maps
      ensures nmaps <= maps.Length && View() == P.Disable(cfg, old(View()), cpt)
    {
      if ncpts == 1 {
        return;
      }
      assert cpt in maps[..nmaps];
      ghost var r: nat :| r < nmaps && maps[..nmaps][r] == cpt;
      tables := tables[cpt := tables[cpt].(enabled := false)];
      RemoveMap(maps, nmaps, cpt, r);
      nmaps := nmaps - 1;
    }

    /** The loop of `lnet_mt_match_md` over one list. */
    static method ScanList(list: seq<Me>, info: Info, wildcard: bool) returns (r: Scan)
      ensures r == ScanFrom(list, info, 0, wildcard)
    {
      var exhausted := wildcard;
      var k := 0;
      while k < |list|
        invariant k <= |list|
        invariant ScanFrom(list, info, 0, wildcard) == ScanFrom(list, info, k, exhausted)
      {
        if list[k].md.Some? {
          var rc := TryMatch(list[k].crit, list[k].md.value, info);
          if !rc.TryNone? {
            return Hit(k);
          }
          exhausted := exhausted && rc.exhausted;
        }
        k := k + 1;
      }
      r := Miss(exhausted);
    }

    /** `lnet_mt_match_md`: at most two passes, the ignore-bits list first. */
    method MatchMd(cpt: nat, head: nat, info: Info) returns (f: Found)
      requires Valid() && cpt < ncpts && head == MatchHead(cfg, kind, info.id, info.mbits)
      ensures f == Search(cfg, kind, tables[cpt], info)
    {
      var t := tables[cpt];
      var bits := t.exhausted;
      var pos := if t.mhash[HASH_IGNORE] != [] then HASH_IGNORE else head;
      while true
        invariant |bits| == NLISTS && (pos == HASH_IGNORE || pos == head)
        invariant pos == HASH_IGNORE ==> t.mhash[HASH_IGNORE] != [] && bits == t.exhausted
        invariant pos == head ==> Search(cfg, kind, t, info) == Pass(kind, t, bits, head, info)
        decreases pos == HASH_IGNORE
      {
        var scan := ScanList(t.mhash[pos], info, kind.Wildcard?);
        if scan.Hit? {
          return At(pos, scan.k);
        }
        var exhausted := scan.spent;
        if exhausted {
          bits := bits[pos := true];
          exhausted := forall p :: 0 <= p < |bits| ==> bits[p];
        }
        if exhausted || pos != HASH_IGNORE {
          return Nowhere(exhausted, bits);
        }
        pos := head;
      }
    }

    /** The part of `lnet_ptl_match_md` and `lnet_ptl_match_delay` that matches
        in one table and disables it when it turns out to be exhausted. */
    method MatchIn(cpt: nat, head: nat, info: Info) returns (hit: bool, outcome: P.Outcome)
      requires Valid() && cpt < ncpts && head == MatchHead(cfg, kind, info.id, info.mbits)
      modifies this`tables, this`nmaps, maps
      ensures nmaps <= maps.Length && maps.Length == ncpts
      ensures View() == P.MatchIn(cfg, old(View()), cpt, info).s
      ensures hit <==> P.MatchIn(cfg, old(View()), cpt, info).Matched?
      ensures hit ==> outcome == P.MatchIn(cfg, old(View()), cpt, info).outcome
      ensures Valid()
    {
      S.MatchInOk(cfg, View(), cpt, info);
      SearchComplete(cfg, kind, cpt, tables[cpt], info);
      ghost var s0 := View();
      var t := tables[cpt];
      var f := MatchMd(cpt, head, info);
      if f.At? {
        var (t', o) := P.CommitHit(t, f.pos, f.k, info);
        tables := tables[cpt := t'];
        return true, o;
      }
      var t' := t.(exhausted := f.bits);
      assert forall any :: NoMatchIn(t, any) ==> NoMatchIn(t', any);
      S.ReplaceTable(cfg, s0, cpt, t');
      tables := tables[cpt := t'];
      assert View() == s0.(tables := s0.tables[cpt := t']);
      if f.exhausted && t.enabled {
        DisableMt(cpt);
      }
      return false, P.Discard;
    }

    /** `lnet_ptl_match_early` and `lnet_ptl_match_md` up to the delay. */
    method PtlMatchMd(m: nat, cpt: nat, head: nat)
      requires Valid() && m in msgs && cpt < ncpts && head == MatchHead(cfg, kind, msgs[m].info.id, msgs[m].info.mbits)
      modifies this`tables, this`nmaps, this`msgs, this`delayed, maps
      ensures nmaps <= maps.Length && View() == P.MatchFirst(cfg, old(View()), m, cpt)
    {
      if kind.Unset? {
        if lazy {
          if msgs[m].ready {
            msgs := msgs[m := msgs[m].(phase := P.Delayed)];
            delayed := delayed + [m];
          } else {
            msgs := msgs[m := msgs[m].(phase := P.NeedEager)];
          }
        } else {
          msgs := msgs[m := msgs[m].(phase := P.Done(P.Discard))];
        }
        return;
      }
      var hit, outcome := MatchIn(cpt, head, msgs[m].info);
      if hit {
        msgs := msgs[m := msgs[m].(phase := P.Done(outcome))];
      } else if !lazy {
        msgs := msgs[m := msgs[m].(phase := P.Done(P.Discard))];
      } else if !msgs[m].ready {
        msgs := msgs[m := msgs[m].(phase := P.NeedEager)];
      } else if kind.Unique? || ncpts == 1 {
        msgs := msgs[m := msgs[m].(phase := P.Delayed)];
        delayed := delayed + [m];
      } else {
        msgs := msgs[m := msgs[m].(phase := P.Entering)];
      }
    }

    /** One iteration of the loop in `lnet_ptl_match_delay`, the PUT being on
        the stealing list. */
    method StealRound(m: nat, first: nat, i: nat, head: nat)
      requires Valid() && m in msgs && head == MatchHead(cfg, kind, msgs[m].info.id, msgs[m].info.mbits)
      modifies this`tables, this`nmaps, this`msgs, this`delayed, this`stealing, maps
      ensures nmaps <= maps.Length && View() == P.Steal(cfg, old(View()), m, first, i)
    {
      var cpt := (first + i) % ncpts;
      var hit, outcome := MatchIn(cpt, head, msgs[m].info);
      if hit {
        stealing := P.Without(stealing, m);
        msgs := msgs[m := msgs[m].(phase := P.Done(outcome))];
      } else if !lazy {
        stealing := P.Without(stealing, m);
        msgs := msgs[m := msgs[m].(phase := P.Done(P.Discard))];
      } else if i == ncpts - 1 || nmaps == 0 || (nmaps == 1 && maps[0] == cpt) {
        stealing := P.Without(stealing, m);
        msgs := msgs[m := msgs[m].(phase := P.Delayed)];
        delayed := delayed + [m];
      } else {
        msgs := msgs[m := msgs[m].(phase := P.Stealing(first, i + 1))];
      }
    }

    /** The loop of `lnet_ptl_attach_md` over one list. */
    static method OfferAround(crit: Criteria, md: Md, q: seq<nat>, msgs: map<nat, P.Msg>)
      returns (r: P.Offer)
      requires forall m :: m in q ==> m in msgs
      ensures r == P.OfferTo(crit, md, q, msgs)
    {
      var kept: seq<nat> := [];
      var taken: map<nat, P.Outcome> := map[];
      var cur := md;
      var i := 0;
      while i < |q|
        invariant i <= |q|
        invariant cur.id == md.id
        invariant P.OfferTo(crit, md, q, msgs) == Joined(kept, taken, P.OfferTo(crit, cur, q[i..], msgs))
      {
        var m := q[i];
        assert q[i..][0] == m && q[i..][1..] == q[i + 1..];
        ghost var rest := P.OfferTo(crit, cur, q[i..], msgs);
        var rc := TryMatch(crit, cur, msgs[m].info);
        if rc.TryNone? {
          if rc.exhausted {
            return P.Offer(cur, kept + q[i..], taken, true);
          }
          JoinKept(kept, taken, m, P.OfferTo(crit, cur, q[i + 1..], msgs));
          kept := kept + [m];
        } else if rc.TryDrop? {
          JoinTaken(kept, taken, m, P.Discard, P.OfferTo(crit, cur, q[i + 1..], msgs));
          taken := map[m := P.Discard] + taken;
        } else {
          var out := P.Deliver(cur.id, rc.offset, rc.mlength);
          if rc.exhausted {
            r := P.Offer(rc.md, kept + q[i + 1..], map[m := out] + taken, true);
            return;
          }
          JoinTaken(kept, taken, m, out, P.OfferTo(crit, rc.md, q[i + 1..], msgs));
          cur := rc.md;
          taken := map[m := out] + taken;
        }
        i := i + 1;
      }
      r := P.Offer(cur, kept, taken, false);
    }

    /** `lnet_ptl_attach_md`. The early return, taken when both lists are empty
        and the exhausted bit is clear, skips work that would change nothing. */
    method AttachMd(cpt: nat, p: nat, k: nat, md: Md)
      requires Valid() && S.Inv(cfg, View())
      requires P.CanStep(cfg, View(), P.PostMd(cpt, p, k, md))
      modifies this`tables, this`nmaps, this`msgs, this`delayed, this`stealing, maps
      ensures nmaps <= maps.Length && View() == P.AttachMd(cfg, old(View()), cpt, p, k, md)
    {
      var t := tables[cpt];
      if stealing == [] && delayed == [] && !(kind.Wildcard? && t.exhausted[p]) {
        R.EarlyReturn(cfg, View(), cpt, p, k, md);
        tables := tables[cpt := t.(mhash := t.mhash[p := t.mhash[p][k := t.mhash[p][k].(md := Some(md))]])];
      } else {
        RoomForOne(cfg, View(), cpt);
        OfferAndStore(cpt, p, k, md);
      }
    }

    /** The part of `lnet_ptl_attach_md` under the portal lock. */
    method OfferAndStore(cpt: nat, p: nat, k: nat, md: Md)
      requires nmaps <= maps.Length && P.MeAt(cfg, View(), cpt, p, k) && P.QueuesKnown(View())
      requires !tables[cpt].enabled ==> nmaps < maps.Length
      modifies this`tables, this`nmaps, this`msgs, this`delayed, this`stealing, maps
      ensures nmaps <= maps.Length && View() == P.AttachMd(cfg, old(View()), cpt, p, k, md)
    {
      R.PostMdIs(cfg, View(), cpt, p, k, md);
      hide P.OfferTo, P.AttachMd, P.Resolve, R.AttachedTable, P.InsertSorted, Exhausted;
      var crit := tables[cpt].mhash[p][k].crit;
      var a, b := OfferBoth(crit, md, stealing, delayed, msgs);
      StoreMd(cpt, p, k, b.md, b.exhausted, b.exhausted && !Exhausted(md));
      stealing, delayed, msgs := a.kept, b.kept, P.Resolve(msgs, a.taken, b.taken);
    }

    /** The stealing list first, then, if the MD is not exhausted, the delayed one. */
    static method OfferBoth(crit: Criteria, md: Md, st: seq<nat>, de: seq<nat>, msgs: map<nat, P.Msg>)
      returns (a: P.Offer, b: P.Offer)
      requires (forall m :: m in st ==> m in msgs) && (forall m :: m in de ==> m in msgs)
      ensures a == P.OfferTo(crit, md, st, msgs)
      ensures b == if a.exhausted then P.Offer(a.md, de, map[], true) else P.OfferTo(crit, a.md, de, msgs)
    {
      hide P.OfferTo;
      a := OfferAround(crit, md, st, msgs);
      b := P.Offer(a.md, de, map[], true);
      if !a.exhausted {
        b := OfferAround(crit, a.md, de, msgs);
      }
    }

    /** The end of `lnet_ptl_attach_md`: a usable MD clears the exhausted bit
        and enables its table. */
    method StoreMd(cpt: nat, p: nat, k: nat, md: Md, exhausted: bool, usedUp: bool)
      requires nmaps <= maps.Length && cpt < |tables| && (!tables[cpt].enabled ==> nmaps < maps.Length)
      requires |tables[cpt].mhash| == |tables[cpt].exhausted| == NLISTS && p < NLISTS && k < |tables[cpt].mhash[p]|
      modifies this`tables, this`nmaps, maps
      ensures nmaps <= maps.Length
      ensures tables == old(tables)[cpt := R.AttachedTable(kind, old(tables[cpt]), p, k, md, exhausted, usedUp)]
      ensures maps[..nmaps] == if kind.Wildcard? && !exhausted && !old(tables[cpt].enabled)
                               then P.InsertSorted(old(maps[..nmaps]), cpt) else old(maps[..nmaps])
    {
      var t := tables[cpt];
      var t' := t.(mhash := t.mhash[p := P.Commit(t.mhash[p], k, md, usedUp)]);
      tables := tables[cpt := t'];
      if kind.Wildcard? && !exhausted {
        tables := tables[cpt := t'.(exhausted := t'.exhausted[p := false])];
        if !t.enabled {
          tables := tables[cpt := tables[cpt].(enabled := true)];
          InsertMap(maps, nmaps, cpt);
          nmaps := nmaps + 1;
        }
      }
    }
  }

  lemma {:induction false} SortedGap(q: seq<nat>, i: nat, j: nat)
    requires P.StrictlySorted(q) && i <= j < |q|
    ensures q[j] - q[i] >= j - i
  {
    if i < j {
      SortedGap(q, i, j - 1);
      assert q[j - 1] < q[j];
    }
  }

  /** A disabled table leaves room for one more entry in the list of enabled ones. */
  lemma RoomForOne(cfg: Config, s: P.State, c: nat)
    requires S.TablesOk(cfg, s) && S.MapsOk(s) && c < cfg.ncpts
    ensures !s.tables[c].enabled ==> |s.maps| < cfg.ncpts
  {
    var n := cfg.ncpts;
    if |s.maps| >= n {
      SortedGap(s.maps, 0, c);
      SortedGap(s.maps, c, n - 1);
      assert s.maps[n - 1] in s.maps;
      assert s.maps[c] == c;
      assert c in s.maps;
    }
  }

  /** What was decided for the front of a queue, put before the rest. */
  function Joined(kept: seq<nat>, taken: map<nat, P.Outcome>, rest: P.Offer): P.Offer {
    rest.(kept := kept + rest.kept, taken := rest.taken + taken)
  }

  lemma JoinKept(kept: seq<nat>, taken: map<nat, P.Outcome>, m: nat, rest: P.Offer)
    ensures Joined(kept, taken, rest.(kept := [m] + rest.kept)) == Joined(kept + [m], taken, rest)
  {
  }

  lemma JoinTaken(kept: seq<nat>, taken: map<nat, P.Outcome>, m: nat, out: P.Outcome, rest: P.Offer)
    ensures Joined(kept, taken, rest.(taken := rest.taken[m := out])) == Joined(kept, map[m := out] + taken, rest)
  {
  }
}
