/** Every step of the portal protocol keeps the invariant, so every run does. */
module PortalRuns {
  import opened MatchEntry
  import opened MatchTable
  import opened PortalProtocol
  import opened PortalSafety
  import opened Options
  import opened Queues

  // ---------------------------------------------------------------- matcher steps

  /** A message in its thread's hands: on neither list. */
  predicate InHand(phase: Phase) {
    !phase.Stealing? && !phase.Delayed?
  }

  lemma MoveInHand(cfg: Config, s: State, m: nat, phase: Phase)
    requires Inv(cfg, s) && m in s.msgs && InHand(s.msgs[m].phase) && InHand(phase)
    requires MsgOk(cfg, s, s.msgs[m].(phase := phase))
    ensures Inv(cfg, SetPhase(s, m, phase))
  {
    var s' := SetPhase(s, m, phase);
    forall x | x in s'.msgs ensures MsgOk(cfg, s', s'.msgs[x]) {
      if x != m { assert MsgOk(cfg, s, s.msgs[x]); }
    }
    assert TablesOk(cfg, s') && MapsOk(s');
  }

  lemma DelayOk(cfg: Config, s: State, m: nat)
    requires Inv(cfg, s) && m in s.msgs && InHand(s.msgs[m].phase) && s.lazy
    requires NoMatchAtAll(s, s.msgs[m].info)
    ensures Inv(cfg, Delay(s, m))
  {
    var s' := Delay(s, m);
    forall x | x in s'.msgs ensures MsgOk(cfg, s', s'.msgs[x]) {
      assert MsgOk(cfg, s, s.msgs[x]);
    }
    assert TablesOk(cfg, s') && MapsOk(s');
    NoDupAppend(s.delayed, m);
  }

  /** Matching one request leaves everything else in order. */
  lemma MatchInInv(cfg: Config, s: State, c: nat, info: Info)
    requires Inv(cfg, s) && c < cfg.ncpts
    ensures Inv(cfg, MatchIn(cfg, s, c, info).s)
  {
    MatchInOk(cfg, s, c, info);
    MsgsFollow(cfg, s, MatchIn(cfg, s, c, info).s);
  }

  /** An unset portal holds no MEs at all. */
  lemma UnsetIsEmpty(cfg: Config, s: State, info: Info)
    requires TablesOk(cfg, s) && s.kind.Unset?
    ensures NoMatchAtAll(s, info)
  {
  }

  /** A miss in the right table of a unique portal, or in the only table, is a
      miss everywhere. */
  lemma MissIsFinal(cfg: Config, s: State, c: nat, info: Info)
    requires TablesOk(cfg, s) && RightTable(cfg, s.kind, info.id.nid, c)
    requires s.kind.Unique? || cfg.ncpts == 1
    requires NoMatchIn(s.tables[c], info)
    ensures NoMatchAtAll(s, info)
  {
  }

  lemma FirstOk(cfg: Config, s: State, m: nat, c: nat)
    requires Inv(cfg, s) && CanStep(cfg, s, First(m, c))
    ensures Inv(cfg, MatchFirst(cfg, s, m, c))
  {
    var info := s.msgs[m].info;
    assert MsgOk(cfg, s, s.msgs[m]);
    if s.kind.Unset? {
      if s.lazy && s.msgs[m].ready {
        UnsetIsEmpty(cfg, s, info);
        DelayOk(cfg, s, m);
      } else {
        MoveInHand(cfg, s, m, if s.lazy then NeedEager else Done(Discard));
      }
    } else {
      MatchInInv(cfg, s, c, info);
      MatchInOk(cfg, s, c, info);
      var r := MatchIn(cfg, s, c, info);
      assert MsgOk(cfg, r.s, r.s.msgs[m]);
      if r.Unmatched? && r.s.lazy && r.s.msgs[m].ready && (r.s.kind.Unique? || cfg.ncpts == 1) {
        MissIsFinal(cfg, r.s, c, info);
        DelayOk(cfg, r.s, m);
      } else {
        var phase := if r.Matched? then Done(r.outcome)
                     else if !r.s.lazy then Done(Discard)
                     else if !r.s.msgs[m].ready then NeedEager
                     else Entering;
        MoveInHand(cfg, r.s, m, phase);
      }
    }
  }

  /** The state with `m` off the stealing list. */
  function OffStealing(s: State, m: nat, phase: Phase): State
    requires m in s.msgs
  {
    SetPhase(s, m, phase).(stealing := Without(s.stealing, m))
  }

  /** Everything but `m` is in order, and `m` is on the stealing list. */
  ghost predicate AlmostInv(cfg: Config, s: State, m: nat) {
    && TablesOk(cfg, s) && MapsOk(s) && m in s.msgs
    && NoDup(s.stealing) && NoDup(s.delayed)
    && (forall x :: x in s.stealing <==> x == m || (x in s.msgs && s.msgs[x].phase.Stealing?))
    && (forall x :: x in s.delayed <==> x != m && x in s.msgs && s.msgs[x].phase.Delayed?)
    && (forall x :: x in s.msgs && x != m ==> MsgOk(cfg, s, s.msgs[x]))
    && s.msgs[m].info.op.Put?
    && (!s.lazy ==> s.delayed == [])
  }

  lemma LeaveStealing(cfg: Config, s: State, m: nat, phase: Phase)
    requires AlmostInv(cfg, s, m) && InHand(phase) && !phase.Entering?
    ensures Inv(cfg, OffStealing(s, m, phase))
  {
    WithoutIs(s.stealing, m);
    var s' := OffStealing(s, m, phase);
    forall x | x in s'.msgs ensures MsgOk(cfg, s', s'.msgs[x]) {
      if x != m { assert MsgOk(cfg, s, s.msgs[x]); }
    }
    assert TablesOk(cfg, s') && MapsOk(s');
  }

  lemma StealToDelayed(cfg: Config, s: State, m: nat)
    requires AlmostInv(cfg, s, m) && s.lazy && NoMatchAtAll(s, s.msgs[m].info)
    ensures Inv(cfg, Delay(s, m).(stealing := Without(s.stealing, m)))
  {
    WithoutIs(s.stealing, m);
    var s' := Delay(s, m).(stealing := Without(s.stealing, m));
    forall x | x in s'.msgs ensures MsgOk(cfg, s', s'.msgs[x]) {
      if x != m { assert MsgOk(cfg, s, s.msgs[x]); }
    }
    assert TablesOk(cfg, s') && MapsOk(s');
    NoDupAppend(s.delayed, m);
  }

  lemma KeepStealing(cfg: Config, s: State, m: nat, phase: Phase)
    requires AlmostInv(cfg, s, m) && phase.Stealing?
    requires MsgOk(cfg, s, s.msgs[m].(phase := phase))
    ensures Inv(cfg, SetPhase(s, m, phase))
  {
    var s' := SetPhase(s, m, phase);
    forall x | x in s'.msgs ensures MsgOk(cfg, s', s'.msgs[x]) {
      if x != m { assert MsgOk(cfg, s, s.msgs[x]); }
    }
    assert TablesOk(cfg, s') && MapsOk(s');
  }

  lemma AlmostFollows(cfg: Config, s: State, s': State, m: nat)
    requires AlmostInv(cfg, s, m)
    requires TablesOk(cfg, s') && MapsOk(s') && AllShrink(s, s') && SameButTables(s, s')
    ensures AlmostInv(cfg, s', m)
  {
    forall x | x in s'.msgs && x != m ensures MsgOk(cfg, s', s'.msgs[x]) {
      MsgFollows(cfg, s, s', s.msgs[x]);
    }
  }

  /** One round of the stealing loop: the PUT is delayed only when no table can
      hold a buffer for it. */
  lemma StealOk(cfg: Config, s: State, m: nat, first: nat, i: nat)
    requires AlmostInv(cfg, s, m) && s.kind.Wildcard?
    requires first < cfg.ncpts && i < cfg.ncpts && Passed(cfg, s, s.msgs[m].info, first, i)
    ensures Inv(cfg, Steal(cfg, s, m, first, i))
  {
    var c, info := Turn(cfg, first, i), s.msgs[m].info;
    MatchInOk(cfg, s, c, info);
    var r := MatchIn(cfg, s, c, info);
    AlmostFollows(cfg, s, r.s, m);
    if r.Matched? {
      LeaveStealing(cfg, r.s, m, Done(r.outcome));
    } else if !r.s.lazy {
      LeaveStealing(cfg, r.s, m, Done(Discard));
    } else {
      forall j: nat | j < i + 1 ensures NoMatchIn(r.s.tables[Turn(cfg, first, j)], info) {
        if j < i { assert NoMatchIn(s.tables[Turn(cfg, first, j)], info); }
      }
      if i == cfg.ncpts - 1 {
        AllTurns(cfg, r.s, info, first);
        StealToDelayed(cfg, r.s, m);
      } else if r.s.maps == [] || r.s.maps == [c] {
        OnlyEnabled(cfg, r.s, info, c);
        StealToDelayed(cfg, r.s, m);
      } else {
        KeepStealing(cfg, r.s, m, Stealing(first, i + 1));
      }
    }
  }

  lemma EnterOk(cfg: Config, s: State, m: nat, first: nat)
    requires Inv(cfg, s) && CanStep(cfg, s, Enter(m, first))
    ensures Inv(cfg, Next(cfg, s, Enter(m, first)))
  {
    var s0 := s.(stealing := s.stealing + [m]);
    assert MsgOk(cfg, s, s.msgs[m]);
    forall x | x in s0.msgs && x != m ensures MsgOk(cfg, s0, s0.msgs[x]) {
      assert MsgOk(cfg, s, s.msgs[x]);
    }
    assert TablesOk(cfg, s0) && MapsOk(s0);
    NoDupAppend(s.stealing, m);
    StealOk(cfg, s0, m, first, 0);
  }

  lemma AlmostOf(cfg: Config, s: State, m: nat)
    requires Inv(cfg, s) && m in s.msgs && s.msgs[m].phase.Stealing?
    ensures AlmostInv(cfg, s, m)
  {
  }

  lemma VisitOk(cfg: Config, s: State, m: nat)
    requires Inv(cfg, s) && CanStep(cfg, s, Visit(m))
    ensures Inv(cfg, Next(cfg, s, Visit(m)))
  {
    assert MsgOk(cfg, s, s.msgs[m]);
    AlmostOf(cfg, s, m);
    StealOk(cfg, s, m, s.msgs[m].phase.first, s.msgs[m].phase.i);
  }

  /** Skipping a disabled table is as good as looking through it. */
  lemma SkipMsg(cfg: Config, s: State, msg: Msg)
    requires TablesOk(cfg, s) && MsgOk(cfg, s, msg) && msg.phase.Stealing? && msg.phase.i < cfg.ncpts - 1
    requires !s.tables[Turn(cfg, msg.phase.first, msg.phase.i)].enabled
    ensures MsgOk(cfg, s, msg.(phase := Stealing(msg.phase.first, msg.phase.i + 1)))
  {
  }

  lemma SkipOk(cfg: Config, s: State, m: nat)
    requires Inv(cfg, s) && CanStep(cfg, s, Skip(m))
    ensures Inv(cfg, Next(cfg, s, Skip(m)))
  {
    var msg := s.msgs[m];
    AlmostOf(cfg, s, m);
    assert MsgOk(cfg, s, msg);
    SkipMsg(cfg, s, msg);
    KeepStealing(cfg, s, m, Stealing(msg.phase.first, msg.phase.i + 1));
  }

  // ---------------------------------------------------------------- poster steps

  /** The list after attaching `md` to its `k`-th ME and offering it around:
      it matches a message only if it did before or the new MD does. */
  lemma AttachList(cfg: Config, kind: Kind, cpt: nat, p: nat, l: seq<Me>, k: nat, md: Md,
                   exhausted: bool, usedUp: bool)
    requires k < |l| && ListPlaced(cfg, kind, cpt, p, l) && l[k].md.None?
    requires WellFormed(md) && (exhausted ==> Exhausted(md)) && (usedUp ==> exhausted)
    ensures var l' := Commit(l, k, md, usedUp);
            && ListPlaced(cfg, kind, cpt, p, l')
            && (exhausted && Spent(l) ==> Spent(l'))
            && (forall info :: NoMatchOn(l, info) && (Exhausted(md) || !Accepts(l[k].crit, md, info)) ==>
                NoMatchOn(l', info))
  {
  }

  /** The table after the attach. */
  function AttachedTable(kind: Kind, t: Table, p: nat, k: nat, md: Md, exhausted: bool, usedUp: bool): Table
    requires |t.mhash| == NLISTS && |t.exhausted| == NLISTS && p < NLISTS && k < |t.mhash[p]|
  {
    var t' := t.(mhash := t.mhash[p := Commit(t.mhash[p], k, md, usedUp)]);
    if kind.Wildcard? && !exhausted then t'.(exhausted := t'.exhausted[p := false], enabled := true) else t'
  }

  lemma AttachTable(cfg: Config, kind: Kind, cpt: nat, t: Table, p: nat, k: nat, md: Md,
                    exhausted: bool, usedUp: bool)
    requires ValidTable(cfg, kind, cpt, t) && p < NLISTS && k < |t.mhash[p]| && t.mhash[p][k].md.None?
    requires WellFormed(md) && (exhausted ==> Exhausted(md)) && (usedUp ==> exhausted)
    ensures var t' := AttachedTable(kind, t, p, k, md, exhausted, usedUp);
            && ValidTable(cfg, kind, cpt, t')
            && (forall info :: NoMatchIn(t, info) && (Exhausted(md) || !Accepts(t.mhash[p][k].crit, md, info)) ==>
                NoMatchIn(t', info))
  {
    PlacedList(cfg, kind, cpt, t, p);
    AttachList(cfg, kind, cpt, p, t.mhash[p], k, md, exhausted, usedUp);
    var t' := AttachedTable(kind, t, p, k, md, exhausted, usedUp);
    forall q, j | 0 <= q < NLISTS && 0 <= j < |t'.mhash[q]| ensures Placed(cfg, kind, cpt, q, t'.mhash[q][j]) {
      if q != p { assert Placed(cfg, kind, cpt, q, t.mhash[q][j]); }
    }
    if kind.Wildcard? {
      forall q | 0 <= q < NLISTS && t'.exhausted[q] ensures Spent(t'.mhash[q]) {
        assert Spent(t.mhash[q]);
      }
    }
    forall info | NoMatchIn(t, info) && (Exhausted(md) || !Accepts(t.mhash[p][k].crit, md, info))
      ensures NoMatchIn(t', info)
    {
      forall q | 0 <= q < NLISTS ensures NoMatchOn(t'.mhash[q], info) {
        assert NoMatchOn(t.mhash[q], info);
      }
    }
  }

  /** The two offers of `lnet_ptl_attach_md`, stealing list first. */
  function Offers(crit: Criteria, md: Md, s: State): (Offer, Offer)
    requires QueuesKnown(s)
  {
    var a := OfferTo(crit, md, s.stealing, s.msgs);
    (a, if a.exhausted then Offer(a.md, s.delayed, map[], true) else OfferTo(crit, a.md, s.delayed, s.msgs))
  }

  /** After both offers the MD takes none of the messages that stay queued. */
  lemma OffersOk(crit: Criteria, md: Md, s: State)
    requires QueuesOk(s) && WellFormed(md)
    ensures var (a, b) := Offers(crit, md, s);
            && OfferOk(crit, md, s.stealing, s.msgs, a)
            && NoDup(b.kept)
            && (forall m :: m in s.delayed <==> m in b.kept || m in b.taken)
            && (forall m :: m in b.taken ==> m !in b.kept)
            && WellFormed(b.md) && (b.exhausted ==> Exhausted(b.md))
            && (forall m :: (m in a.kept || m in b.kept) && m in s.msgs ==>
                  Exhausted(b.md) || !Accepts(crit, b.md, s.msgs[m].info))
  {
    var a := OfferTo(crit, md, s.stealing, s.msgs);
    OfferToOk(crit, md, s.stealing, s.msgs);
    if !a.exhausted {
      var b := OfferTo(crit, a.md, s.delayed, s.msgs);
      OfferToOk(crit, a.md, s.delayed, s.msgs);
      if !Exhausted(b.md) {
        if Exhausted(a.md) {
          SpentOffer(crit, a.md, s.delayed, s.msgs);
        }
        forall m | m in a.kept && m in s.msgs ensures !Accepts(crit, b.md, s.msgs[m].info) {
          assert Accepts(crit, b.md, s.msgs[m].info) == Accepts(crit, a.md, s.msgs[m].info);
        }
      }
    }
  }

  /** Offering an exhausted MD changes nothing. */
  lemma SpentOffer(crit: Criteria, md: Md, q: seq<nat>, msgs: map<nat, Msg>)
    requires (forall m :: m in q ==> m in msgs) && Exhausted(md)
    ensures OfferTo(crit, md, q, msgs).md == md
  {
  }

  lemma PostMdIs(cfg: Config, s: State, c: nat, p: nat, k: nat, md: Md)
    requires MeAt(cfg, s, c, p, k) && QueuesKnown(s)
    ensures var (a, b) := Offers(s.tables[c].mhash[p][k].crit, md, s);
            var s' := AttachMd(cfg, s, c, p, k, md);
            && s'.tables == s.tables[c := AttachedTable(s.kind, s.tables[c], p, k, b.md, b.exhausted,
                                                       b.exhausted && !Exhausted(md))]
            && s'.maps == (if s.kind.Wildcard? && !b.exhausted && !s.tables[c].enabled
                           then InsertSorted(s.maps, c) else s.maps)
            && s' == s.(tables := s'.tables, maps := s'.maps, stealing := a.kept, delayed := b.kept,
                        msgs := Resolve(s.msgs, a.taken, b.taken))
  {
  }

  /** With nothing queued and the bit clear, attaching is just storing the MD. */
  lemma EarlyReturn(cfg: Config, s: State, c: nat, p: nat, k: nat, md: Md)
    requires TablesOk(cfg, s) && CanStep(cfg, s, PostMd(c, p, k, md))
    requires s.stealing == [] && s.delayed == [] && !(s.kind.Wildcard? && s.tables[c].exhausted[p])
    ensures var t := s.tables[c];
            AttachMd(cfg, s, c, p, k, md) ==
            s.(tables := s.tables[c := t.(mhash := t.mhash[p := t.mhash[p][k := t.mhash[p][k].(md := Some(md))]])])
  {
    var t := s.tables[c];
    assert ValidTable(cfg, s.kind, c, t);
    assert Resolve(s.msgs, map[], map[]) == s.msgs;
    if s.kind.Wildcard? {
      assert t.enabled;
      assert t.exhausted[p := false] == t.exhausted;
    }
  }

  lemma PostMdTables(cfg: Config, s: State, c: nat, p: nat, k: nat, md: Md)
    requires Inv(cfg, s) && CanStep(cfg, s, PostMd(c, p, k, md))
    ensures TablesOk(cfg, AttachMd(cfg, s, c, p, k, md))
  {
    var t := s.tables[c];
    var (a, b) := Offers(t.mhash[p][k].crit, md, s);
    OffersOk(t.mhash[p][k].crit, md, s);
    PostMdIs(cfg, s, c, p, k, md);
    assert ValidTable(cfg, s.kind, c, t);
    AttachTable(cfg, s.kind, c, t, p, k, b.md, b.exhausted, b.exhausted && !Exhausted(md));
  }

  lemma PostMdMaps(cfg: Config, s: State, c: nat, p: nat, k: nat, md: Md)
    requires Inv(cfg, s) && CanStep(cfg, s, PostMd(c, p, k, md))
    ensures MapsOk(AttachMd(cfg, s, c, p, k, md))
  {
    PostMdIs(cfg, s, c, p, k, md);
    if !s.tables[c].enabled { InsertSortedCorrect(s.maps, c); }
  }

  /** A message that the new MD does not take is as well off as before. */
  lemma QueuedMsg(cfg: Config, s: State, s': State, c: nat, msg: Msg)
    requires Shaped(cfg, s) && Shaped(cfg, s') && c < cfg.ncpts && s'.kind == s.kind
    requires s'.tables == s.tables[c := s'.tables[c]]
    requires NoMatchIn(s.tables[c], msg.info) ==> NoMatchIn(s'.tables[c], msg.info)
    requires MsgOk(cfg, s, msg)
    ensures MsgOk(cfg, s', msg)
  {
  }

  lemma PostMdMsg(cfg: Config, s: State, c: nat, p: nat, k: nat, md: Md, m: nat)
    requires Inv(cfg, s) && CanStep(cfg, s, PostMd(c, p, k, md))
    requires Shaped(cfg, AttachMd(cfg, s, c, p, k, md)) && m in s.msgs
    ensures var s' := AttachMd(cfg, s, c, p, k, md); m in s'.msgs && MsgOk(cfg, s', s'.msgs[m])
  {
    var t := s.tables[c];
    var crit := t.mhash[p][k].crit;
    var (a, b) := Offers(crit, md, s);
    OffersOk(crit, md, s);
    PostMdIs(cfg, s, c, p, k, md);
    var msg := s.msgs[m];
    assert MsgOk(cfg, s, msg);
    if m !in a.taken && m !in b.taken && !InHand(msg.phase) {
      assert ValidTable(cfg, s.kind, c, t);
      AttachTable(cfg, s.kind, c, t, p, k, b.md, b.exhausted, b.exhausted && !Exhausted(md));
      QueuedMsg(cfg, s, AttachMd(cfg, s, c, p, k, md), c, msg);
    }
  }

  /** Attaching a buffer: whoever is still queued afterwards cannot use it. */
  lemma PostMdOk(cfg: Config, s: State, c: nat, p: nat, k: nat, md: Md)
    requires Inv(cfg, s) && CanStep(cfg, s, PostMd(c, p, k, md))
    ensures Inv(cfg, AttachMd(cfg, s, c, p, k, md))
  {
    var s' := AttachMd(cfg, s, c, p, k, md);
    PostMdTables(cfg, s, c, p, k, md);
    PostMdMaps(cfg, s, c, p, k, md);
    OffersOk(s.tables[c].mhash[p][k].crit, md, s);
    PostMdIs(cfg, s, c, p, k, md);
    forall m | m in s'.msgs ensures MsgOk(cfg, s', s'.msgs[m]) {
      PostMdMsg(cfg, s, c, p, k, md, m);
    }
    if s.delayed == [] {
      var (a, b) := Offers(s.tables[c].mhash[p][k].crit, md, s);
      SomeMember(b.kept);
    }
  }

  lemma SomeMember(q: seq<nat>)
    ensures q != [] ==> exists m :: m in q
  {
    if q != [] { assert q[0] in q; }
  }

  function WithMe(t: Table, p: nat, me: Me, tail: bool): Table
    requires p < |t.mhash|
  {
    t.(mhash := t.mhash[p := if tail then t.mhash[p] + [me] else [me] + t.mhash[p]])
  }

  lemma AddMe(cfg: Config, kind: Kind, cpt: nat, t: Table, p: nat, me: Me, tail: bool)
    requires ValidTable(cfg, kind, cpt, t) && p < NLISTS && Placed(cfg, kind, cpt, p, me) && me.md.None?
    ensures ValidTable(cfg, kind, cpt, WithMe(t, p, me, tail)) && Shrinks(t, WithMe(t, p, me, tail))
  {
    var t' := WithMe(t, p, me, tail);
    forall q, k | 0 <= q < NLISTS && 0 <= k < |t'.mhash[q]|
      ensures Placed(cfg, kind, cpt, q, t'.mhash[q][k])
    {
      if q == p && !tail && k > 0 {
        assert t'.mhash[q][k] == t.mhash[q][k - 1];
      }
    }
    if kind.Wildcard? {
      forall q | 0 <= q < NLISTS && t'.exhausted[q] ensures Spent(t'.mhash[q]) {
        assert Spent(t.mhash[q]);
      }
    }
    forall info | NoMatchIn(t, info) ensures NoMatchIn(t', info) {
      forall q | 0 <= q < NLISTS ensures NoMatchOn(t'.mhash[q], info) {
        assert NoMatchOn(t.mhash[q], info);
      }
    }
  }

  /** Choosing the portal's kind: there are no MEs to be misplaced yet. */
  lemma KindChosen(cfg: Config, kind: Kind, cpt: nat, t: Table)
    requires ValidTable(cfg, Unset, cpt, t)
    ensures ValidTable(cfg, kind, cpt, t)
  {
  }

  /** A new ME holds no MD yet, so nothing matches that did not before. */
  lemma PostMeOk(cfg: Config, s: State, c: nat, me: Me, tail: bool)
    requires Inv(cfg, s) && CanStep(cfg, s, PostMe(c, me, tail))
    ensures Inv(cfg, AttachMe(cfg, s, c, me, tail))
  {
    var s' := AttachMe(cfg, s, c, me, tail);
    var p := AttachPos(cfg, s'.kind, me.crit);
    forall d | 0 <= d < cfg.ncpts
      ensures ValidTable(cfg, s'.kind, d, s'.tables[d]) && Shrinks(s.tables[d], s'.tables[d])
    {
      assert ValidTable(cfg, s.kind, d, s.tables[d]);
      if s.kind.Unset? {
        KindChosen(cfg, s'.kind, d, s.tables[d]);
      }
      if d == c {
        AddMe(cfg, s'.kind, c, s.tables[c], p, me, tail);
      }
    }
    forall m | m in s'.msgs ensures MsgOk(cfg, s', s'.msgs[m]) {
      var msg := s.msgs[m];
      assert MsgOk(cfg, s, msg);
      if s.kind == s'.kind {
        MsgFollows(cfg, s, s', msg);
      } else if msg.phase.Delayed? {
        forall d | 0 <= d < |s'.tables| ensures NoMatchIn(s'.tables[d], msg.info) {
          assert NoMatchIn(s.tables[d], msg.info);
        }
      }
    }
  }

  lemma ReplaceListOk(cfg: Config, s: State, c: nat, p: nat, l: seq<Me>)
    requires Inv(cfg, s) && c < cfg.ncpts && p < NLISTS
    requires ListShrinks(s.tables[c].mhash[p], l) && ListPlaced(cfg, s.kind, c, p, l)
    ensures Inv(cfg, ReplaceList(cfg, s, c, p, l))
  {
    var t := s.tables[c];
    assert ValidTable(cfg, s.kind, c, t);
    ReplaceKeeps(cfg, s.kind, c, t, p, l);
    ReplaceTable(cfg, s, c, t.(mhash := t.mhash[p := l]));
    MsgsFollow(cfg, s, ReplaceList(cfg, s, c, p, l));
  }

  lemma UnlinkOk(cfg: Config, s: State, step: Step)
    requires Inv(cfg, s) && CanStep(cfg, s, step) && (step.UnlinkMd? || step.UnlinkMe?)
    ensures Inv(cfg, Next(cfg, s, step))
  {
    var l := s.tables[step.c].mhash[step.p];
    assert ValidTable(cfg, s.kind, step.c, s.tables[step.c]);
    PlacedList(cfg, s.kind, step.c, s.tables[step.c], step.p);
    if step.UnlinkMd? {
      UnlinkKeeps(cfg, s.kind, step.c, step.p, l, step.k);
      ReplaceListOk(cfg, s, step.c, step.p, Unlink(l, step.k));
    } else {
      RemoveKeeps(cfg, s.kind, step.c, step.p, l, step.k);
      ReplaceListOk(cfg, s, step.c, step.p, l[..step.k] + l[step.k + 1..]);
    }
  }

  lemma ClearQueues(s: State, only: Option<nat>)
    requires QueuesOk(s) && s.lazy
    ensures QueuesOk(ClearLazy(s, only))
    ensures only.None? ==> ClearLazy(s, only).delayed == []
  {
    var hit := set m | m in s.delayed && (only.None? || s.msgs[m].ni == only.value);
    OutsideIs(s.delayed, hit);
    SomeMember(ClearLazy(s, only).delayed);
  }

  /** Turning the lazy attribute off drops every delayed message. */
  lemma ClearOk(cfg: Config, s: State, only: Option<nat>)
    requires Inv(cfg, s)
    ensures Inv(cfg, ClearLazy(s, only))
    ensures only.None? ==> ClearLazy(s, only).delayed == []
  {
    if s.lazy {
      ClearQueues(s, only);
      var s' := ClearLazy(s, only);
      assert s'.tables == s.tables && s'.kind == s.kind && s'.maps == s.maps;
      assert TablesOk(cfg, s') && MapsOk(s');
      forall m | m in s'.msgs ensures MsgOk(cfg, s', s'.msgs[m]) {
        assert MsgOk(cfg, s, s.msgs[m]);
      }
    }
  }

  lemma ArriveOk(cfg: Config, s: State, m: nat, msg: Msg)
    requires Inv(cfg, s) && m !in s.msgs && msg.phase.Arriving? && msg.info.op.Put?
    ensures Inv(cfg, s.(msgs := s.msgs[m := msg]))
  {
    var s' := s.(msgs := s.msgs[m := msg]);
    forall x | x in s'.msgs ensures MsgOk(cfg, s', s'.msgs[x]) {
      if x != m { assert MsgOk(cfg, s, s.msgs[x]); }
    }
    assert TablesOk(cfg, s') && MapsOk(s');
  }

  lemma EagerOk(cfg: Config, s: State, m: nat, ok: bool)
    requires Inv(cfg, s) && CanStep(cfg, s, Eager(m, ok))
    ensures Inv(cfg, Next(cfg, s, Eager(m, ok)))
  {
    assert MsgOk(cfg, s, s.msgs[m]);
    if ok {
      var s' := Next(cfg, s, Eager(m, ok));
      forall x | x in s'.msgs ensures MsgOk(cfg, s', s'.msgs[x]) {
        if x != m { assert MsgOk(cfg, s, s.msgs[x]); }
      }
      assert TablesOk(cfg, s') && MapsOk(s');
    } else {
      MoveInHand(cfg, s, m, Done(Discard));
    }
  }

  lemma PickUpOk(cfg: Config, s: State, m: nat)
    requires Inv(cfg, s) && CanStep(cfg, s, PickUp(m))
    ensures Inv(cfg, Next(cfg, s, PickUp(m)))
  {
    assert MsgOk(cfg, s, s.msgs[m]);
    MoveInHand(cfg, s, m, Done(s.msgs[m].phase.outcome));
  }

  lemma SetLazyOk(cfg: Config, s: State)
    requires Inv(cfg, s)
    ensures Inv(cfg, s.(lazy := true))
  {
  }

  // ---------------------------------------------------------------- all runs

  /** Every step keeps the invariant. */
  lemma StepOk(cfg: Config, s: State, step: Step)
    requires Inv(cfg, s) && CanStep(cfg, s, step)
    ensures Inv(cfg, Next(cfg, s, step))
  {
    match step
    case First(m, c) => FirstOk(cfg, s, m, c);
    case Enter(m, first) => EnterOk(cfg, s, m, first);
    case Skip(m) => SkipOk(cfg, s, m);
    case Visit(m) => VisitOk(cfg, s, m);
    case GetRequest(c, info) => MatchInInv(cfg, s, c, info);
    case PostMe(c, me, tail) => PostMeOk(cfg, s, c, me, tail);
    case PostMd(c, p, k, md) => PostMdOk(cfg, s, c, p, k, md);
    case UnlinkMd(_, _, _) => UnlinkOk(cfg, s, step);
    case UnlinkMe(_, _, _) => UnlinkOk(cfg, s, step);
    case Clear(only) => ClearOk(cfg, s, only);
    case Arrive(m, info, ready, ni) => ArriveOk(cfg, s, m, Msg(info, ready, ni, Arriving));
    case Eager(m, ok) => EagerOk(cfg, s, m, ok);
    case PickUp(m) => PickUpOk(cfg, s, m);
    case SetLazy => SetLazyOk(cfg, s);
  }

  /** `lnet_ptl_setup`: empty lists, every exhausted bit set, nothing enabled. */
  function Init(cfg: Config): State {
    var t := Table(seq(NLISTS, _ => []), seq(NLISTS, _ => true), false);
    State(Unset, false, seq(cfg.ncpts, _ => t), [], [], [], map[])
  }

  lemma InitOk(cfg: Config)
    requires ValidConfig(cfg)
    ensures Inv(cfg, Init(cfg))
  {
  }

  /** The state after a sequence of steps; a step that cannot be taken is a no-op. */
  ghost function Run(cfg: Config, s: State, steps: seq<Step>): State
    requires Inv(cfg, s)
    decreases steps
  {
    if steps == [] then s
    else if CanStep(cfg, s, steps[0]) then
      StepOk(cfg, s, steps[0]);
      Run(cfg, Next(cfg, s, steps[0]), steps[1..])
    else Run(cfg, s, steps[1..])
  }

  lemma {:induction false} RunOk(cfg: Config, s: State, steps: seq<Step>)
    requires Inv(cfg, s)
    ensures Inv(cfg, Run(cfg, s, steps))
    decreases steps
  {
    if steps != [] {
      if CanStep(cfg, s, steps[0]) {
        StepOk(cfg, s, steps[0]);
        RunOk(cfg, Next(cfg, s, steps[0]), steps[1..]);
      } else {
        RunOk(cfg, s, steps[1..]);
      }
    }
  }

  /** No lost wake-up. In every run of a freshly set up portal, whatever the
      interleaving: no PUT is on the delayed list while any attached MD of any
      table would take it, and the two lists hold exactly the PUTs that are
      stealing and delayed, each once. A portal that is not lazy delays nothing. */
  lemma NoLostWakeup(cfg: Config, steps: seq<Step>, m: nat, c: nat, p: nat, k: nat)
    requires ValidConfig(cfg)
    ensures Inv(cfg, Init(cfg))
    ensures var s := Run(cfg, Init(cfg), steps);
            && Shaped(cfg, s)
            && (m in s.delayed && MeAt(cfg, s, c, p, k) ==>
                  m in s.msgs && !LiveMatch(s.tables[c].mhash[p][k], s.msgs[m].info))
            && NoDup(s.stealing) && NoDup(s.delayed)
            && (m in s.stealing <==> m in s.msgs && s.msgs[m].phase.Stealing?)
            && (m in s.delayed <==> m in s.msgs && s.msgs[m].phase.Delayed?)
            && (!s.lazy ==> s.delayed == [])
  {
    InitOk(cfg);
    RunOk(cfg, Init(cfg), steps);
    var s := Run(cfg, Init(cfg), steps);
    if m in s.delayed && MeAt(cfg, s, c, p, k) {
      assert MsgOk(cfg, s, s.msgs[m]);
      assert NoMatchIn(s.tables[c], s.msgs[m].info);
      assert NoMatchOn(s.tables[c].mhash[p], s.msgs[m].info);
    }
  }

  /** In every run the enabled tables are listed in order and a disabled table,
      or a list whose bit is set, has no usable buffer left. */
  lemma ExhaustedBitsTruthful(cfg: Config, steps: seq<Step>, c: nat, p: nat)
    requires ValidConfig(cfg) && c < cfg.ncpts && p < NLISTS
    ensures Inv(cfg, Init(cfg))
    ensures var s := Run(cfg, Init(cfg), steps);
            && Shaped(cfg, s)
            && StrictlySorted(s.maps)
            && (c in s.maps <==> s.tables[c].enabled)
            && (s.kind.Wildcard? && (s.tables[c].exhausted[p] || !s.tables[c].enabled) ==> Spent(s.tables[c].mhash[p]))
  {
    InitOk(cfg);
    RunOk(cfg, Init(cfg), steps);
    var s := Run(cfg, Init(cfg), steps);
    assert ValidTable(cfg, s.kind, c, s.tables[c]);
  }

  /** Settled is settled: no step touches a PUT that was delivered or dropped,
      none makes a PUT disappear, and a request never changes. */
  lemma SettledForGood(cfg: Config, s: State, step: Step, m: nat)
    requires Inv(cfg, s) && CanStep(cfg, s, step) && m in s.msgs
    ensures var s' := Next(cfg, s, step);
            && m in s'.msgs && s'.msgs[m].info == s.msgs[m].info
            && (s.msgs[m].phase.Done? ==> s'.msgs[m] == s.msgs[m])
  {
    hide NoDup, MsgOk, Search, OfferTo, InsertSorted;
    match step
    case First(x, c) => if !s.kind.Unset? { MatchInOk(cfg, s, c, s.msgs[x].info); }
    case Enter(x, first) => StealKeepsOthers(cfg, s.(stealing := s.stealing + [x]), x, first, 0);
    case Visit(x) => StealKeepsOthers(cfg, s, x, s.msgs[x].phase.first, s.msgs[x].phase.i);
    case GetRequest(c, info) => MatchInOk(cfg, s, c, info);
    case PostMd(c, p, k, md) =>
      PostMdIs(cfg, s, c, p, k, md);
      OffersOk(s.tables[c].mhash[p][k].crit, md, s);
    case _ =>
  }

  lemma StealKeepsOthers(cfg: Config, s: State, m: nat, first: nat, i: nat)
    requires TablesOk(cfg, s) && MapsOk(s) && m in s.msgs
    ensures var s' := Steal(cfg, s, m, first, i);
            m in s'.msgs && s'.msgs == s.msgs[m := s.msgs[m].(phase := s'.msgs[m].phase)]
  {
    MatchInOk(cfg, s, Turn(cfg, first, i), s.msgs[m].info);
  }

  /** The stealing loop ends: its last round never leaves the PUT stealing. */
  lemma LastRoundSettles(cfg: Config, s: State, m: nat, first: nat)
    requires TablesOk(cfg, s) && MapsOk(s) && m in s.msgs
    ensures var s' := Steal(cfg, s, m, first, cfg.ncpts - 1);
            m in s'.msgs && (s'.msgs[m].phase.Delayed? || s'.msgs[m].phase.Done?)
  {
  }
}
