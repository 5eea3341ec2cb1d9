/** The invariant of the portal protocol and what it gives for every run. */
module PortalSafety {
  import opened MatchEntry
  import opened MatchTable
  import opened PortalProtocol
  import opened Options
  import opened Queues

  // ---------------------------------------------------------------- the invariant

  ghost predicate TablesOk(cfg: Config, s: State) {
    && Shaped(cfg, s)
    && (forall c :: 0 <= c < cfg.ncpts ==> ValidTable(cfg, s.kind, c, s.tables[c]))
  }

  /** `ptl_mt_maps` is the strictly sorted list of the enabled tables. */
  ghost predicate MapsOk(s: State) {
    && StrictlySorted(s.maps)
    && (forall c: nat :: c in s.maps <==> c < |s.tables| && s.tables[c].enabled)
  }

  ghost predicate QueuesOk(s: State) {
    && NoDup(s.stealing) && NoDup(s.delayed)
    && (forall m :: m in s.stealing <==> m in s.msgs && s.msgs[m].phase.Stealing?)
    && (forall m :: m in s.delayed <==> m in s.msgs && s.msgs[m].phase.Delayed?)
  }

  /** No table of the first `i` a thread looks at holds a match. */
  ghost predicate Passed(cfg: Config, s: State, info: Info, first: nat, i: nat)
    requires Shaped(cfg, s)
  {
    forall j: nat :: j < i ==> NoMatchIn(s.tables[Turn(cfg, first, j)], info)
  }

  ghost predicate NoMatchAtAll(s: State, info: Info) {
    forall c :: 0 <= c < |s.tables| ==> NoMatchIn(s.tables[c], info)
  }

  ghost predicate MsgOk(cfg: Config, s: State, msg: Msg)
    requires Shaped(cfg, s)
  {
    && msg.info.op.Put?
    && (msg.phase.Entering? ==> s.kind.Wildcard? && cfg.ncpts > 1)
    && (msg.phase.Stealing? ==>
          && s.kind.Wildcard?
          && msg.phase.first < cfg.ncpts
          && 1 <= msg.phase.i < cfg.ncpts
          && Passed(cfg, s, msg.info, msg.phase.first, msg.phase.i))
    && (msg.phase.Delayed? ==> NoMatchAtAll(s, msg.info))
  }

  ghost predicate MsgsOk(cfg: Config, s: State)
    requires Shaped(cfg, s)
  {
    forall m :: m in s.msgs ==> MsgOk(cfg, s, s.msgs[m])
  }

  ghost predicate Inv(cfg: Config, s: State) {
    && TablesOk(cfg, s)
    && MapsOk(s)
    && QueuesOk(s)
    && MsgsOk(cfg, s)
    && (!s.lazy ==> s.delayed == [])
  }

  // ---------------------------------------------------------------- lists and tables only lose matches

  /** Whatever does not match before does not match after. */
  ghost predicate Shrinks(t: Table, t': Table) {
    forall info :: NoMatchIn(t, info) ==> NoMatchIn(t', info)
  }

  ghost predicate AllShrink(s: State, s': State) {
    && |s'.tables| == |s.tables|
    && (forall c :: 0 <= c < |s.tables| ==> Shrinks(s.tables[c], s'.tables[c]))
  }

  ghost predicate ListShrinks(l: seq<Me>, l': seq<Me>) {
    && (forall info :: NoMatchOn(l, info) ==> NoMatchOn(l', info))
    && (Spent(l) ==> Spent(l'))
  }

  ghost predicate ListPlaced(cfg: Config, kind: Kind, cpt: nat, p: nat, l: seq<Me>) {
    forall k :: 0 <= k < |l| ==> Placed(cfg, kind, cpt, p, l[k])
  }

  lemma RemoveKeeps(cfg: Config, kind: Kind, cpt: nat, p: nat, l: seq<Me>, k: nat)
    requires k < |l| && ListPlaced(cfg, kind, cpt, p, l)
    ensures ListShrinks(l, l[..k] + l[k + 1..]) && ListPlaced(cfg, kind, cpt, p, l[..k] + l[k + 1..])
  {
  }

  /** Replacing one ME by one that matches no more than it did. */
  lemma UpdateKeeps(cfg: Config, kind: Kind, cpt: nat, p: nat, l: seq<Me>, k: nat, me: Me)
    requires k < |l| && ListPlaced(cfg, kind, cpt, p, l)
    requires me.crit == l[k].crit && (me.md.Some? ==> WellFormed(me.md.value))
    requires forall info :: LiveMatch(me, info) ==> LiveMatch(l[k], info)
    requires l[k].md.Some? && (Exhausted(l[k].md.value) && me.md.Some? ==> Exhausted(me.md.value))
    ensures ListShrinks(l, l[k := me]) && ListPlaced(cfg, kind, cpt, p, l[k := me])
  {
  }

  lemma UnlinkKeeps(cfg: Config, kind: Kind, cpt: nat, p: nat, l: seq<Me>, k: nat)
    requires k < |l| && ListPlaced(cfg, kind, cpt, p, l) && l[k].md.Some?
    ensures ListShrinks(l, Unlink(l, k)) && ListPlaced(cfg, kind, cpt, p, Unlink(l, k))
  {
  }

  lemma CommitKeeps(cfg: Config, kind: Kind, cpt: nat, p: nat, l: seq<Me>, k: nat, info: Info)
    requires k < |l| && ListPlaced(cfg, kind, cpt, p, l) && l[k].md.Some?
    requires TryMatch(l[k].crit, l[k].md.value, info).TryOk?
    ensures var r := TryMatch(l[k].crit, l[k].md.value, info);
            var l' := Commit(l, k, r.md, r.exhausted);
            ListShrinks(l, l') && ListPlaced(cfg, kind, cpt, p, l')
  {
    var md := l[k].md.value;
    var r := TryMatch(l[k].crit, md, info);
    assert Placed(cfg, kind, cpt, p, l[k]);
    TryMatchKeeps(l[k].crit, md, info);
    if r.exhausted && r.md.autoUnlink {
      UnlinkKeeps(cfg, kind, cpt, p, l, k);
    } else {
      var me := l[k].(md := Some(r.md));
      forall other | LiveMatch(me, other) ensures LiveMatch(l[k], other) {
        assert Accepts(me.crit, r.md, other) == Accepts(me.crit, md, other);
      }
      UpdateKeeps(cfg, kind, cpt, p, l, k, me);
    }
  }

  /** A table in which one list shrank is still a valid table. */
  lemma ReplaceKeeps(cfg: Config, kind: Kind, cpt: nat, t: Table, p: nat, l: seq<Me>)
    requires ValidTable(cfg, kind, cpt, t) && p < NLISTS
    requires ListShrinks(t.mhash[p], l) && ListPlaced(cfg, kind, cpt, p, l)
    ensures var t' := t.(mhash := t.mhash[p := l]); ValidTable(cfg, kind, cpt, t') && Shrinks(t, t')
  {
  }

  lemma PlacedList(cfg: Config, kind: Kind, cpt: nat, t: Table, p: nat)
    requires ValidTable(cfg, kind, cpt, t) && p < NLISTS
    ensures ListPlaced(cfg, kind, cpt, p, t.mhash[p])
  {
  }

  // ---------------------------------------------------------------- matching in one table

  ghost predicate SameButTables(s: State, s': State) {
    s' == s.(tables := s'.tables, maps := s'.maps)
  }

  lemma ReplaceTable(cfg: Config, s: State, c: nat, t: Table)
    requires TablesOk(cfg, s) && MapsOk(s) && c < cfg.ncpts
    requires ValidTable(cfg, s.kind, c, t) && Shrinks(s.tables[c], t)
    requires t.enabled == s.tables[c].enabled
    ensures var s' := s.(tables := s.tables[c := t]); TablesOk(cfg, s') && MapsOk(s') && AllShrink(s, s')
  {
  }

  lemma DisableOk(cfg: Config, s: State, c: nat)
    requires TablesOk(cfg, s) && MapsOk(s) && c < cfg.ncpts && AllSet(s.tables[c].exhausted)
    ensures var s' := Disable(cfg, s, c);
            TablesOk(cfg, s') && MapsOk(s') && AllShrink(s, s') && SameButTables(s, s')
  {
    RemoveSortedCorrect(s.maps, c);
    var s' := Disable(cfg, s, c);
    assert s'.tables[c].mhash == s.tables[c].mhash;
    var t, t' := s.tables[c], s'.tables[c];
    assert AllPlaced(cfg, s.kind, c, t');
    assert s.kind.Wildcard? ==> Truthful(t', t'.exhausted);
    assert forall info :: NoMatchIn(t, info) ==> NoMatchIn(t', info);
  }

  lemma CommitHitOk(cfg: Config, kind: Kind, c: nat, t: Table, p: nat, k: nat, info: Info)
    requires ValidTable(cfg, kind, c, t)
    requires p < NLISTS && k < |t.mhash[p]| && t.mhash[p][k].md.Some?
    ensures var t' := CommitHit(t, p, k, info).0;
            ValidTable(cfg, kind, c, t') && Shrinks(t, t') && t'.enabled == t.enabled
  {
    var me := t.mhash[p][k];
    var r := TryMatch(me.crit, me.md.value, info);
    if r.TryOk? {
      PlacedList(cfg, kind, c, t, p);
      CommitKeeps(cfg, kind, c, p, t.mhash[p], k, info);
      ReplaceKeeps(cfg, kind, c, t, p, Commit(t.mhash[p], k, r.md, r.exhausted));
    }
  }

  /** Matching in one table keeps the tables and `ptl_mt_maps` in order, only
      takes matches away, and reports nothing only if there was nothing. */
  lemma MatchInOk(cfg: Config, s: State, c: nat, info: Info)
    requires TablesOk(cfg, s) && MapsOk(s) && c < cfg.ncpts
    ensures var r := MatchIn(cfg, s, c, info);
            && TablesOk(cfg, r.s) && MapsOk(r.s) && AllShrink(s, r.s) && SameButTables(s, r.s)
            && (r.Unmatched? ==> NoMatchIn(r.s.tables[c], info))
  {
    var t := s.tables[c];
    SearchComplete(cfg, s.kind, c, t, info);
    var f := Search(cfg, s.kind, t, info);
    if f.At? {
      CommitHitOk(cfg, s.kind, c, t, f.pos, f.k, info);
      ReplaceTable(cfg, s, c, CommitHit(t, f.pos, f.k, info).0);
    } else {
      var t' := t.(exhausted := f.bits);
      assert forall any :: NoMatchIn(t, any) ==> NoMatchIn(t', any);
      ReplaceTable(cfg, s, c, t');
      var s' := s.(tables := s.tables[c := t']);
      if f.exhausted && t.enabled {
        DisableOk(cfg, s', c);
      }
      assert NoMatchIn(t', info);
    }
  }

  // ---------------------------------------------------------------- messages follow

  lemma ModOnce(x: nat, n: nat)
    requires 0 < n <= x < 2 * n
    ensures x % n == x - n
  {
  }

  lemma TurnIs(cfg: Config, first: nat, i: nat)
    requires first < cfg.ncpts && i < cfg.ncpts
    ensures Turn(cfg, first, i) == if first + i < cfg.ncpts then first + i else first + i - cfg.ncpts
  {
    if first + i >= cfg.ncpts {
      ModOnce(first + i, cfg.ncpts);
    }
  }

  /** After `ncpts` rounds every table has had its turn. */
  lemma AllTurns(cfg: Config, s: State, info: Info, first: nat)
    requires Shaped(cfg, s) && first < cfg.ncpts && Passed(cfg, s, info, first, cfg.ncpts)
    ensures NoMatchAtAll(s, info)
  {
    forall c | 0 <= c < |s.tables| ensures NoMatchIn(s.tables[c], info) {
      var i: nat := if c >= first then c - first else c - first + cfg.ncpts;
      TurnIs(cfg, first, i);
      assert Turn(cfg, first, i) == c;
    }
  }

  /** If only table `c` is enabled, only table `c` can hold a match. */
  lemma OnlyEnabled(cfg: Config, s: State, info: Info, c: nat)
    requires TablesOk(cfg, s) && MapsOk(s) && s.kind.Wildcard? && c < cfg.ncpts
    requires s.maps == [] || s.maps == [c]
    requires NoMatchIn(s.tables[c], info)
    ensures NoMatchAtAll(s, info)
  {
  }

  lemma DisabledNoMatch(cfg: Config, s: State, info: Info, c: nat)
    requires TablesOk(cfg, s) && s.kind.Wildcard? && c < cfg.ncpts && !s.tables[c].enabled
    ensures NoMatchIn(s.tables[c], info)
  {
  }

  lemma MsgFollows(cfg: Config, s: State, s': State, msg: Msg)
    requires Shaped(cfg, s) && Shaped(cfg, s') && AllShrink(s, s') && s'.kind == s.kind
    requires MsgOk(cfg, s, msg)
    ensures MsgOk(cfg, s', msg)
  {
  }

  lemma MsgsFollow(cfg: Config, s: State, s': State)
    requires Shaped(cfg, s) && Shaped(cfg, s') && AllShrink(s, s') && s'.kind == s.kind && s'.msgs == s.msgs
    requires MsgsOk(cfg, s)
    ensures MsgsOk(cfg, s')
  {
  }

  // ---------------------------------------------------------------- queues

  lemma {:induction false} WithoutIs(q: seq<nat>, m: nat)
    requires NoDup(q)
    ensures NoDup(Without(q, m))
    ensures forall x :: x in Without(q, m) <==> x in q && x != m
  {
    if q != [] {
      var rest := q[1..];
      assert q == [q[0]] + rest;
      assert q[0] !in rest;
      WithoutIs(rest, m);
    }
  }

  lemma {:induction false} OutsideIs(q: seq<nat>, hit: set<nat>)
    requires NoDup(q)
    ensures NoDup(Outside(q, hit))
    ensures forall x :: x in Outside(q, hit) <==> x in q && x !in hit
  {
    if q != [] {
      var rest := q[1..];
      assert q == [q[0]] + rest;
      assert q[0] !in rest;
      OutsideIs(rest, hit);
    }
  }

  /** What an offer does to the queue and to the MD. */
  ghost predicate OfferOk(crit: Criteria, md: Md, q: seq<nat>, msgs: map<nat, Msg>, r: Offer) {
    && NoDup(r.kept)
    && (forall m :: m in q <==> m in r.kept || m in r.taken)
    && (forall m :: m in r.taken ==> m !in r.kept)
    && WellFormed(r.md)
    && r.md == md.(offset := r.md.offset, threshold := r.md.threshold)
    && (r.exhausted ==> Exhausted(r.md))
    && (forall m :: m in r.kept && m in msgs && !Exhausted(r.md) ==> !Accepts(crit, r.md, msgs[m].info))
  }

  /** Every message that stays queued is one the MD does not take. */
  lemma {:induction false} OfferToOk(crit: Criteria, md: Md, q: seq<nat>, msgs: map<nat, Msg>)
    requires (forall m :: m in q ==> m in msgs) && NoDup(q) && WellFormed(md)
    ensures OfferOk(crit, md, q, msgs, OfferTo(crit, md, q, msgs))
    decreases q
  {
    if q != [] {
      var m, rest := q[0], q[1..];
      assert q == [m] + rest;
      assert m !in rest;
      var t := TryMatch(crit, md, msgs[m].info);
      var md' := if t.TryOk? then t.md else md;
      TryMatchKeeps(crit, md, msgs[m].info);
      if !((t.TryNone? || t.TryOk?) && t.exhausted) {
        OfferToOk(crit, md', rest, msgs);
        var r := OfferTo(crit, md', rest, msgs);
        if t.TryNone? {
          OfferKept(crit, md, q, msgs, r);
        } else {
          OfferTaken(crit, md, md', q, msgs, r, if t.TryOk? then Deliver(md.id, t.offset, t.mlength) else Discard);
        }
        hide OfferOk;
      }
    }
  }

  /** The first message stays queued. */
  lemma OfferKept(crit: Criteria, md: Md, q: seq<nat>, msgs: map<nat, Msg>, r: Offer)
    requires q != [] && NoDup(q) && q[0] in msgs && OfferOk(crit, md, q[1..], msgs, r)
    requires !Accepts(crit, md, msgs[q[0]].info)
    ensures OfferOk(crit, md, q, msgs, r.(kept := [q[0]] + r.kept))
  {
    assert q == [q[0]] + q[1..];
    assert ([q[0]] + r.kept)[1..] == r.kept;
    assert Accepts(crit, r.md, msgs[q[0]].info) == Accepts(crit, md, msgs[q[0]].info);
  }

  /** The first message is dealt with. */
  lemma OfferTaken(crit: Criteria, md: Md, md': Md, q: seq<nat>, msgs: map<nat, Msg>, r: Offer, out: Outcome)
    requires q != [] && NoDup(q) && OfferOk(crit, md', q[1..], msgs, r)
    requires md' == md.(offset := md'.offset, threshold := md'.threshold)
    ensures OfferOk(crit, md, q, msgs, r.(taken := r.taken[q[0] := out]))
  {
    assert q == [q[0]] + q[1..];
    hide Accepts, WellFormed, Exhausted;
  }
}
