/** How long a memory descriptor (MD) lives.

    An MD is linked by `LNetMDAttach` or `LNetMDBind`, used by messages, and
    unlinked by its owner, through its match entry (ME), or by itself when it is
    exhausted. An unlinked MD that messages still use lingers as a zombie and is
    freed when the last of them is done. Its event queue (EQ) hears of every
    message, and with the last event that the MD is gone.

    Each step is one section under the resource lock. A step that would follow a
    pointer to something freed, or fail an assertion of the code, makes the state
    `bad`; that this never happens is part of what is proved. */
module MdLifecycle {
  import opened MatchEntry
  import opened Options

  /** `struct lnet_libmd`; its size, threshold and offset are in `core`. */
  datatype LibMd = LibMd(
    core: Md, refcount: nat, zombie: bool, aborted: bool,
    eq: Option<nat>, cpt: nat, me: Option<nat>)

  /** `struct lnet_me`, `unlink` if it goes with its MD. */
  datatype MatchEnt = MatchEnt(unlink: bool, md: Option<nat>)

  /** The events an MD has caused: whether each said the MD was unlinked. */
  datatype Log = Log(withEq: bool, flags: seq<bool>)

  /** Everything is named by a number that is not used twice. `msgs` gives the MD
      of each message, `eqs` the reference counts of each EQ by CPU partition;
      `logs` and `frees` record what happened to MDs. */
  datatype State = State(
    mds: map<nat, LibMd>, mes: map<nat, MatchEnt>, msgs: map<nat, nat>, eqs: map<nat, seq<int>>,
    logs: map<nat, Log>, frees: multiset<nat>, bad: bool)

  function Bad(s: State): State { s.(bad := true) }

  function SetMd(s: State, d: nat, x: LibMd): State { s.(mds := s.mds[d := x]) }

  /** `lnet_eq_enqueue_event`, as far as the MD goes. */
  function Notify(s: State, d: nat, unlinked: bool): State
    requires d in s.mds
  {
    if s.mds[d].eq.None? then s
    else if s.mds[d].eq.value !in s.eqs || d !in s.logs then Bad(s)
    else s.(logs := s.logs[d := s.logs[d].(flags := s.logs[d].flags + [unlinked])])
  }

  /** `lnet_ptl_detach_md`. */
  function Unhook(s: State, e: nat, d: nat): State
    requires d in s.mds
  {
    if e in s.mes && s.mes[e].md == Some(d) && s.mds[d].me == Some(e) then
      s.(mes := s.mes[e := s.mes[e].(md := None)], mds := s.mds[d := s.mds[d].(me := None)])
    else Bad(s)
  }

  /** What `lnet_md_unlink` does the first time, up to the test of `refcount`. */
  function Disown(s: State, d: nat): State
    requires d in s.mds
  {
    var x := s.mds[d];
    if x.zombie then s
    else if x.me.None? then SetMd(s, d, x.(zombie := true))
    else
      var u := Unhook(SetMd(s, d, x.(zombie := true)), x.me.value, d);
      if u.bad then u
      else if u.mes[x.me.value].unlink then u.(mes := u.mes - {x.me.value})
      else u
  }

  /** The rest of it once nobody uses the MD. */
  function Free(s: State, d: nat): State
    requires d in s.mds
  {
    var x := s.mds[d];
    var s' := s.(mds := s.mds - {d}, frees := s.frees + multiset{d});
    if x.eq.None? then s'
    else if x.eq.value !in s.eqs || x.cpt >= |s.eqs[x.eq.value]| || s.eqs[x.eq.value][x.cpt] <= 0 then Bad(s')
    else
      var refs := s.eqs[x.eq.value];
      s'.(eqs := s.eqs[x.eq.value := refs[x.cpt := refs[x.cpt] - 1]])
  }

  /** `lnet_md_unlink`. */
  function Unlink(s: State, d: nat): State
    requires d in s.mds
  {
    var s' := Disown(s, d);
    if s'.mds[d].refcount != 0 then s' else Free(s', d)
  }

  /** `lnet_msg_attach_md`. */
  function AttachMsg(s: State, m: nat, d: nat, offset: nat): State
    requires d in s.mds
  {
    var x := s.mds[d];
    var t := x.core.threshold;
    var core := x.core.(offset := offset, threshold := if t != THRESH_INF then t - 1 else t);
    SetMd(s, d, x.(refcount := x.refcount + 1, core := core)).(msgs := s.msgs[m := d])
  }

  predicate Unlinkable(x: LibMd) {
    x.refcount == 0 && (x.zombie || (x.core.autoUnlink && Exhausted(x.core)))
  }

  /** Message `m` drops its reference to MD `d`. */
  function Released(s: State, m: nat, d: nat): State
    requires d in s.mds && s.mds[d].refcount > 0
  {
    SetMd(s, d, s.mds[d].(refcount := s.mds[d].refcount - 1)).(msgs := s.msgs - {m})
  }

  /** `lnet_msg_detach_md`. */
  function DetachMsg(s: State, m: nat): State
    requires m in s.msgs
  {
    var d := s.msgs[m];
    if d !in s.mds || s.mds[d].refcount == 0 then Bad(s)
    else
      var s1 := Released(s, m, d);
      var unlink := Unlinkable(s1.mds[d]);
      var s2 := Notify(s1, d, unlink);
      if unlink then Unlink(s2, d) else s2
  }

  /** `lnet_md_link`. */
  function LinkMd(s: State, d: nat, core: Md, eq: Option<nat>, cpt: nat, me: Option<nat>): State
    requires eq.Some? ==> eq.value in s.eqs
  {
    var s' := SetMd(s, d, LibMd(core, 0, false, false, eq, cpt, me)).(logs := s.logs[d := Log(eq.Some?, [])]);
    if eq.None? then s'
    else if cpt >= |s.eqs[eq.value]| then Bad(s)
    else
      var refs := s.eqs[eq.value];
      s'.(eqs := s.eqs[eq.value := refs[cpt := refs[cpt] + 1]])
  }

  /** The common part of the owner's two ways to unlink: the MD is flagged, and
      the queue told if this is the end of it. */
  function Aborted(s: State, d: nat): State
    requires d in s.mds
  {
    var s1 := SetMd(s, d, s.mds[d].(aborted := true));
    if s.mds[d].refcount == 0 then Notify(s1, d, true) else s1
  }

  /** `LNetMDUnlink`, given that the handle is good. */
  function OwnerUnlink(s: State, d: nat): State
    requires d in s.mds
  {
    Unlink(Aborted(s, d), d)
  }

  /** `LNetMEUnlink`. */
  function UnlinkMe(s: State, e: nat): State
    requires e in s.mes
  {
    var d := s.mes[e].md;
    if d.None? then s.(mes := s.mes - {e})
    else if d.value !in s.mds then Bad(s)
    else
      var s' := Unlink(Unhook(Aborted(s, d.value), e, d.value), d.value);
      s'.(mes := s'.mes - {e})
  }

  /** What the world can do. */
  datatype Step =
    | EqAlloc(eq: nat)
    | EqFree(eq: nat)
    | MeAttach(me: nat, unlink: bool)
    | MdAttach(md: nat, core: Md, at: nat, to: Option<nat>, cpt: nat)
    | MdBind(md: nat, core: Md, to: Option<nat>, cpt: nat)
    | Match(msg: nat, md: nat, offset: nat)
    | Use(msg: nat, md: nat)
    | Reply(msg: nat, get: nat)
    | Detach(msg: nat)
    | MdUnlink(md: nat)
    | MeUnlink(me: nat)

  /** `lnet_handle2md` finds it. */
  predicate Valid(s: State, d: nat) { d in s.mds && !s.mds[d].zombie }

  /** Names are new; a message is not attached twice; a match is with an MD
      attached to an ME and a use by handle with one that is not. */
  predicate CanStep(ncpts: nat, s: State, e: Step) {
    match e
    case EqAlloc(q) => q !in s.eqs
    case MeAttach(i, _) => i !in s.mes
    case MdAttach(d, _, _, _, c) => d !in s.logs && c < ncpts
    case MdBind(d, _, _, c) => d !in s.logs && c < ncpts
    case Match(m, d, _) => m !in s.msgs && d in s.mds && s.mds[d].me.Some? && !Exhausted(s.mds[d].core)
    case Use(m, d) => m !in s.msgs && Valid(s, d) && s.mds[d].me.None? && s.mds[d].core.threshold != 0
    case Reply(m, g) => m !in s.msgs && g in s.msgs
    case Detach(m) => m in s.msgs
    case _ => true
  }

  function Next(ncpts: nat, s: State, e: Step): State
    requires CanStep(ncpts, s, e)
  {
    match e
    case EqAlloc(q) => s.(eqs := s.eqs[q := seq(ncpts, _ => 0)])
    case EqFree(q) =>
      if q in s.eqs && forall c :: 0 <= c < |s.eqs[q]| ==> s.eqs[q][c] == 0 then s.(eqs := s.eqs - {q}) else s
    case MeAttach(i, unlink) => s.(mes := s.mes[i := MatchEnt(unlink, None)])
    case MdAttach(d, core, i, q, cpt) =>
      if i !in s.mes || s.mes[i].md.Some? || (q.Some? && q.value !in s.eqs) then s
      else LinkMd(s.(mes := s.mes[i := s.mes[i].(md := Some(d))]), d, core, q, cpt, Some(i))
    case MdBind(d, core, q, cpt) =>
      if q.Some? && q.value !in s.eqs then s
      else LinkMd(s, d, core, q, cpt, None)
    case Match(m, d, offset) =>
      var s' := AttachMsg(s, m, d, offset);
      if Exhausted(s'.mds[d].core) && s'.mds[d].core.autoUnlink then Unlink(s', d) else s'
    case Use(m, d) => AttachMsg(s, m, d, s.mds[d].core.offset)
    case Reply(m, g) =>
      var d := s.msgs[g];
      if d !in s.mds then Bad(s)
      else if s.mds[d].core.threshold == 0 then s
      else AttachMsg(s, m, d, s.mds[d].core.offset)
    case Detach(m) => DetachMsg(s, m)
    case MdUnlink(d) => if Valid(s, d) then OwnerUnlink(s, d) else s
    case MeUnlink(i) => if i in s.mes then UnlinkMe(s, i) else s
  }

  // ---------------------------------------------------------------- the invariant

  /** The messages that use an MD. */
  ghost function Users(msgs: map<nat, nat>, d: nat): set<nat> {
    set m | m in msgs && msgs[m] == d
  }

  /** The linked MDs that report to an EQ from one CPU partition. */
  ghost function Reporters(mds: map<nat, LibMd>, q: nat, c: nat): set<nat> {
    set d | d in mds && mds[d].eq == Some(q) && mds[d].cpt == c
  }

  /** Reference counts of EQs. */
  ghost predicate EqsOk(ncpts: nat, s: State) {
    && (forall d :: d in s.mds && s.mds[d].eq.Some? ==> s.mds[d].eq.value in s.eqs && s.mds[d].cpt < ncpts)
    && (forall q :: q in s.eqs ==> |s.eqs[q]| == ncpts)
    && (forall q, c :: q in s.eqs && 0 <= c < ncpts ==> s.eqs[q][c] == |Reporters(s.mds, q, c)|)
  }

  /** Reference counts of MDs. */
  ghost predicate UsersOk(s: State) {
    && (forall m :: m in s.msgs ==> s.msgs[m] in s.mds)
    && (forall d :: d in s.mds ==> s.mds[d].refcount == |Users(s.msgs, d)|)
  }

  /** An MD and its ME point at each other. */
  ghost predicate LinksOk(s: State) {
    && (forall d :: d in s.mds && s.mds[d].me.Some? ==>
        s.mds[d].me.value in s.mes && s.mes[s.mds[d].me.value].md == Some(d))
    && (forall e :: e in s.mes && s.mes[e].md.Some? ==>
        s.mes[e].md.value in s.mds && s.mds[s.mes[e].md.value].me == Some(e))
  }

  predicate NoneTrue(flags: seq<bool>) {
    forall i :: 0 <= i < |flags| ==> !flags[i]
  }

  /** No event yet says unlinked. */
  predicate Going(l: Log) { NoneTrue(l.flags) && (!l.withEq ==> l.flags == []) }

  /** Exactly one event says unlinked, and it is the last. */
  predicate Ended(l: Log) {
    if l.withEq then l.flags != [] && l.flags[|l.flags| - 1] && NoneTrue(l.flags[..|l.flags| - 1])
    else l.flags == []
  }

  /** What is known of MD `d`, linked or freed. */
  ghost predicate StatusOk(s: State, d: nat) {
    if d in s.mds then
      && d in s.logs && Going(s.logs[d]) && s.logs[d].withEq == s.mds[d].eq.Some? && s.frees[d] == 0
      && (s.mds[d].zombie ==> s.mds[d].refcount > 0 && s.mds[d].me.None?)
      && (s.mds[d].aborted ==> s.mds[d].zombie)
    else if d in s.logs then Ended(s.logs[d]) && s.frees[d] == 1
    else s.frees[d] == 0
  }

  ghost predicate Base(ncpts: nat, s: State) {
    !s.bad && EqsOk(ncpts, s) && UsersOk(s) && LinksOk(s)
  }

  ghost predicate Statuses(s: State) {
    forall d :: StatusOk(s, d)
  }

  ghost predicate Inv(ncpts: nat, s: State) {
    Base(ncpts, s) && Statuses(s)
  }

  // ---------------------------------------------------------------- pieces of steps

  /** Nothing but MD `d` changes its fate. */
  ghost predicate Only(s: State, s': State, d: nat) {
    forall k :: k != d ==>
      && (k in s'.mds <==> k in s.mds) && (k in s.mds ==> s'.mds[k] == s.mds[k])
      && (k in s'.logs <==> k in s.logs) && (k in s.logs ==> s'.logs[k] == s.logs[k])
      && s'.frees[k] == s.frees[k]
  }

  lemma OnlyThen(s: State, s1: State, s2: State, d: nat)
    requires Only(s, s1, d) && Only(s1, s2, d)
    ensures Only(s, s2, d)
  {
  }

  lemma Others(s: State, s': State, d: nat)
    requires Statuses(s) && Only(s, s', d) && StatusOk(s', d)
    ensures Statuses(s')
  {
    forall k ensures StatusOk(s', k) {
      assert StatusOk(s, k);
    }
  }

  lemma ReportersSame(mds: map<nat, LibMd>, mds': map<nat, LibMd>, q: nat, c: nat)
    requires mds'.Keys == mds.Keys && forall d :: d in mds ==> mds'[d].eq == mds[d].eq && mds'[d].cpt == mds[d].cpt
    ensures Reporters(mds', q, c) == Reporters(mds, q, c)
  {
  }

  /** Where an MD reports to does not change while it is linked. */
  lemma EqsKept(ncpts: nat, s: State, s': State)
    requires EqsOk(ncpts, s) && s'.eqs == s.eqs && s'.mds.Keys == s.mds.Keys
    requires forall d :: d in s.mds ==> s'.mds[d].eq == s.mds[d].eq && s'.mds[d].cpt == s.mds[d].cpt
    ensures EqsOk(ncpts, s')
  {
    forall q, c | q in s'.eqs && 0 <= c < ncpts ensures s'.eqs[q][c] == |Reporters(s'.mds, q, c)| {
      ReportersSame(s.mds, s'.mds, q, c);
    }
  }

  lemma UsersKept(s: State, s': State)
    requires UsersOk(s) && s'.msgs == s.msgs && s'.mds.Keys == s.mds.Keys
    requires forall d :: d in s.mds ==> s'.mds[d].refcount == s.mds[d].refcount
    ensures UsersOk(s')
  {
    forall d | d in s'.mds ensures s'.mds[d].refcount == |Users(s'.msgs, d)| {
      assert Users(s'.msgs, d) == Users(s.msgs, d);
    }
  }

  /** Flags, size and offset of an MD are nobody else's business. */
  lemma SetMdBase(ncpts: nat, s: State, d: nat, x: LibMd)
    requires Base(ncpts, s) && d in s.mds
    requires x == s.mds[d].(core := x.core, zombie := x.zombie, aborted := x.aborted)
    ensures Base(ncpts, SetMd(s, d, x))
  {
    EqsKept(ncpts, s, SetMd(s, d, x));
    UsersKept(s, SetMd(s, d, x));
  }

  lemma NotifyBase(ncpts: nat, s: State, d: nat, unlinked: bool)
    requires Base(ncpts, s) && d in s.mds && d in s.logs
    ensures var s', l := Notify(s, d, unlinked), s.logs[d];
            && Base(ncpts, s') && s' == s.(logs := s'.logs) && Only(s, s', d)
            && s'.logs == s.logs[d := if s.mds[d].eq.Some? then l.(flags := l.flags + [unlinked]) else l]
  {
    EqsKept(ncpts, s, Notify(s, d, unlinked));
    UsersKept(s, Notify(s, d, unlinked));
    assert s.logs[d := s.logs[d]] == s.logs;
  }

  lemma UnhookBase(ncpts: nat, s: State, e: nat, d: nat)
    requires Base(ncpts, s) && d in s.mds && s.mds[d].me == Some(e)
    ensures var s' := Unhook(s, e, d);
            && Base(ncpts, s') && s' == s.(mes := s'.mes, mds := s.mds[d := s.mds[d].(me := None)])
            && e in s'.mes && s'.mes[e].md.None? && Only(s, s', d)
  {
    EqsKept(ncpts, s, Unhook(s, e, d));
    UsersKept(s, Unhook(s, e, d));
  }

  lemma DropMeBase(ncpts: nat, s: State, e: nat)
    requires Base(ncpts, s) && e in s.mes && s.mes[e].md.None?
    ensures Base(ncpts, s.(mes := s.mes - {e}))
  {
    EqsKept(ncpts, s, s.(mes := s.mes - {e}));
    UsersKept(s, s.(mes := s.mes - {e}));
  }

  /** Unlinking parts an MD from its ME. */
  lemma DisownBase(ncpts: nat, s: State, d: nat)
    requires Base(ncpts, s) && d in s.mds && (s.mds[d].zombie ==> s.mds[d].me.None?)
    ensures var s' := Disown(s, d);
            && Base(ncpts, s') && s' == s.(mes := s'.mes, mds := s.mds[d := s.mds[d].(zombie := true, me := None)])
            && (s.mds[d].me.None? ==> s'.mes == s.mes)
  {
    hide EqsOk, UsersOk, LinksOk;
    var x := s.mds[d];
    if x.zombie {
      assert s.mds[d := x.(zombie := true, me := None)] == s.mds;
    } else {
      SetMdBase(ncpts, s, d, x.(zombie := true));
      if x.me.Some? {
        UnhookBase(ncpts, SetMd(s, d, x.(zombie := true)), x.me.value, d);
        DropMeBase(ncpts, Unhook(SetMd(s, d, x.(zombie := true)), x.me.value, d), x.me.value);
        assert s.mds[d := x.(zombie := true)][d := x.(zombie := true, me := None)]
            == s.mds[d := x.(zombie := true, me := None)];
      }
    }
  }

  lemma ReportersMinus(mds: map<nat, LibMd>, d: nat, q: nat, c: nat)
    requires d in mds
    ensures Reporters(mds - {d}, q, c) == Reporters(mds, q, c) - {d}
    ensures |Reporters(mds - {d}, q, c)| ==
            |Reporters(mds, q, c)| - (if mds[d].eq == Some(q) && mds[d].cpt == c then 1 else 0)
  {
    forall k ensures k in Reporters(mds - {d}, q, c) <==> k in Reporters(mds, q, c) && k != d {}
  }

  lemma FreeEqs(ncpts: nat, s: State, d: nat)
    requires EqsOk(ncpts, s) && d in s.mds && !s.bad
    ensures EqsOk(ncpts, Free(s, d)) && !Free(s, d).bad
  {
    var x, s' := s.mds[d], Free(s, d);
    if x.eq.Some? {
      assert d in Reporters(s.mds, x.eq.value, x.cpt);
    }
    forall q, c | q in s'.eqs && 0 <= c < ncpts ensures s'.eqs[q][c] == |Reporters(s'.mds, q, c)| {
      ReportersMinus(s.mds, d, q, c);
    }
  }

  /** An MD nobody uses can go. */
  lemma FreeBase(ncpts: nat, s: State, d: nat)
    requires Base(ncpts, s) && d in s.mds && s.mds[d].refcount == 0 && s.mds[d].me.None?
    ensures var s' := Free(s, d);
            Base(ncpts, s') && s' == s.(mds := s.mds - {d}, frees := s.frees + multiset{d}, eqs := s'.eqs)
  {
    var s' := Free(s, d);
    FreeEqs(ncpts, s, d);
    forall m | m in s.msgs ensures s.msgs[m] != d {
      assert s.msgs[m] == d ==> m in Users(s.msgs, d);
    }
    forall k | k in s'.mds ensures s'.mds[k].refcount == |Users(s'.msgs, k)| {
      assert Users(s'.msgs, k) == Users(s.msgs, k);
    }
  }

  lemma UsersWith(msgs: map<nat, nat>, m: nat, d: nat, k: nat)
    requires m !in msgs
    ensures |Users(msgs[m := d], k)| == |Users(msgs, k)| + (if k == d then 1 else 0)
  {
    var msgs' := msgs[m := d];
    if k == d {
      assert Users(msgs', k) == Users(msgs, k) + {m};
    } else {
      assert Users(msgs', k) == Users(msgs, k);
    }
  }

  lemma UsersWithout(msgs: map<nat, nat>, m: nat, k: nat)
    requires m in msgs
    ensures |Users(msgs - {m}, k)| == |Users(msgs, k)| - (if k == msgs[m] then 1 else 0)
  {
    assert Users(msgs - {m}, k) == Users(msgs, k) - {m};
  }

  lemma UsersPlus(s: State, s': State, m: nat, d: nat)
    requires UsersOk(s) && d in s.mds && m !in s.msgs && s'.msgs == s.msgs[m := d] && s'.mds.Keys == s.mds.Keys
    requires forall k :: k in s.mds ==> s'.mds[k].refcount == s.mds[k].refcount + (if k == d then 1 else 0)
    ensures UsersOk(s')
  {
    forall k | k in s'.mds ensures s'.mds[k].refcount == |Users(s'.msgs, k)| {
      UsersWith(s.msgs, m, d, k);
    }
  }

  lemma UsersMinus(s: State, s': State, m: nat, d: nat)
    requires UsersOk(s) && d in s.mds && m in s.msgs && s.msgs[m] == d && s'.msgs == s.msgs - {m}
               && s'.mds.Keys == s.mds.Keys
    requires forall k :: k in s.mds ==> s'.mds[k].refcount == s.mds[k].refcount - (if k == d then 1 else 0)
    ensures UsersOk(s')
  {
    forall k | k in s'.mds ensures s'.mds[k].refcount == |Users(s'.msgs, k)| {
      UsersWithout(s.msgs, m, k);
    }
  }

  lemma AttachBase(ncpts: nat, s: State, m: nat, d: nat, offset: nat)
    requires Base(ncpts, s) && d in s.mds && m !in s.msgs
    ensures Base(ncpts, AttachMsg(s, m, d, offset))
  {
    hide EqsOk, UsersOk;
    EqsKept(ncpts, s, AttachMsg(s, m, d, offset));
    UsersPlus(s, AttachMsg(s, m, d, offset), m, d);
  }

  lemma ReleaseBase(ncpts: nat, s: State, m: nat, d: nat)
    requires Base(ncpts, s) && m in s.msgs && s.msgs[m] == d
    ensures d in s.mds && s.mds[d].refcount > 0 && Base(ncpts, Released(s, m, d))
  {
    UsersCount(s, m, d);
    hide EqsOk, UsersOk;
    EqsKept(ncpts, s, Released(s, m, d));
    UsersMinus(s, Released(s, m, d), m, d);
  }

  lemma UsersCount(s: State, m: nat, d: nat)
    requires UsersOk(s) && m in s.msgs && s.msgs[m] == d
    ensures d in s.mds && s.mds[d].refcount > 0
  {
    assert m in Users(s.msgs, d);
  }

  /** What unlinking comes to. */
  lemma UnlinkBase(ncpts: nat, s: State, d: nat)
    requires Base(ncpts, s) && d in s.mds && (s.mds[d].zombie ==> s.mds[d].me.None?)
    ensures var s' := Unlink(s, d);
            && Base(ncpts, s') && s'.logs == s.logs && s'.msgs == s.msgs && Only(s, s', d)
            && (s.mds[d].refcount == 0 ==> d !in s'.mds && s'.frees[d] == s.frees[d] + 1)
            && (s.mds[d].refcount > 0 ==>
                  d in s'.mds && s'.mds[d] == s.mds[d].(zombie := true, me := None) && s'.frees == s.frees)
            && (s.mds[d].me.None? ==> s'.mes == s.mes)
  {
    hide Base, Disown, Free;
    DisownBase(ncpts, s, d);
    if s.mds[d].refcount == 0 {
      FreeBase(ncpts, Disown(s, d), d);
    }
  }

  lemma EndedBy(l: Log)
    requires Going(l)
    ensures Ended(if l.withEq then l.(flags := l.flags + [true]) else l)
    ensures Going(if l.withEq then l.(flags := l.flags + [false]) else l)
  {
    assert (l.flags + [true])[..|l.flags|] == l.flags;
  }

  // ---------------------------------------------------------------- every step keeps it

  lemma AbortedOk(ncpts: nat, s: State, d: nat)
    requires Base(ncpts, s) && Valid(s, d) && StatusOk(s, d)
    ensures var s', x := Aborted(s, d), s.mds[d];
            && Base(ncpts, s') && Only(s, s', d) && s'.mes == s.mes && s'.frees == s.frees
            && d in s'.mds && s'.mds[d] == x.(aborted := true)
            && d in s'.logs && s'.logs[d].withEq == s.logs[d].withEq
            && (if x.refcount == 0 then Ended(s'.logs[d]) else Going(s'.logs[d]))
  {
    var x := s.mds[d].(aborted := true);
    EndedBy(s.logs[d]);
    hide Base, Notify, Ended, Going;
    SetMdBase(ncpts, s, d, x);
    NotifyBase(ncpts, SetMd(s, d, x), d, true);
  }

  lemma OwnerUnlinkOk(ncpts: nat, s: State, d: nat)
    requires Inv(ncpts, s) && Valid(s, d)
    ensures Inv(ncpts, OwnerUnlink(s, d))
  {
    assert StatusOk(s, d);
    hide Base, Statuses, Unlink, Aborted, Only;
    AbortedOk(ncpts, s, d);
    UnlinkBase(ncpts, Aborted(s, d), d);
    OnlyThen(s, Aborted(s, d), OwnerUnlink(s, d), d);
    Others(s, OwnerUnlink(s, d), d);
  }

  lemma LoneMeOk(ncpts: nat, s: State, e: nat)
    requires Inv(ncpts, s) && e in s.mes && s.mes[e].md.None?
    ensures Inv(ncpts, UnlinkMe(s, e))
  {
    assert StatusOk(s, 0);
    hide Base;
    DropMeBase(ncpts, s, e);
    Others(s, UnlinkMe(s, e), 0);
  }

  /** Unlinking an ME unlinks its MD like the MD's owner would. */
  lemma UnlinkMeOk(ncpts: nat, s: State, e: nat)
    requires Inv(ncpts, s) && e in s.mes && s.mes[e].md.Some?
    ensures Inv(ncpts, UnlinkMe(s, e))
  {
    var d := s.mes[e].md.value;
    assert d in s.mds && s.mds[d].me == Some(e) && StatusOk(s, d);
    hide Base, Statuses, Unlink, Aborted, Unhook, Only;
    AbortedOk(ncpts, s, d);
    var s2 := Aborted(s, d);
    UnhookBase(ncpts, s2, e, d);
    var s3 := Unhook(s2, e, d);
    UnlinkBase(ncpts, s3, d);
    var s4 := Unlink(s3, d);
    DropMeBase(ncpts, s4, e);
    OnlyThen(s, s2, s3, d);
    OnlyThen(s, s3, s4, d);
    OnlyMds(s, s4, UnlinkMe(s, e), d);
    Others(s, UnlinkMe(s, e), d);
  }

  lemma OnlyMds(s: State, s1: State, s2: State, d: nat)
    requires Only(s, s1, d) && s2 == s1.(mes := s2.mes)
    ensures Only(s, s2, d)
  {
  }

  lemma DetachOk(ncpts: nat, s: State, m: nat)
    requires Inv(ncpts, s) && m in s.msgs
    ensures Inv(ncpts, DetachMsg(s, m))
  {
    var d := s.msgs[m];
    ReleaseBase(ncpts, s, m, d);
    assert StatusOk(s, d);
    var s1 := Released(s, m, d);
    assert Only(s, s1, d);
    hide Base, Statuses, Unlink, Notify, Only, Ended, Going;
    var unlink := Unlinkable(s1.mds[d]);
    NotifyBase(ncpts, s1, d, unlink);
    EndedBy(s.logs[d]);
    OnlyThen(s, s1, Notify(s1, d, unlink), d);
    if unlink {
      UnlinkBase(ncpts, Notify(s1, d, true), d);
      OnlyThen(s, Notify(s1, d, unlink), DetachMsg(s, m), d);
    }
    Others(s, DetachMsg(s, m), d);
  }

  lemma AttachOk(ncpts: nat, s: State, m: nat, d: nat, offset: nat)
    requires Inv(ncpts, s) && d in s.mds && m !in s.msgs
    ensures Inv(ncpts, AttachMsg(s, m, d, offset)) && Only(s, AttachMsg(s, m, d, offset), d)
  {
    assert StatusOk(s, d);
    hide Base;
    AttachBase(ncpts, s, m, d, offset);
    Others(s, AttachMsg(s, m, d, offset), d);
  }

  lemma MatchOk(ncpts: nat, s: State, m: nat, d: nat, offset: nat)
    requires Inv(ncpts, s) && CanStep(ncpts, s, Match(m, d, offset))
    ensures Inv(ncpts, Next(ncpts, s, Match(m, d, offset)))
  {
    AttachOk(ncpts, s, m, d, offset);
    var s1 := AttachMsg(s, m, d, offset);
    assert StatusOk(s1, d);
    hide Base, Statuses, Unlink, Only;
    UnlinkBase(ncpts, s1, d);
    Others(s1, Unlink(s1, d), d);
  }

  lemma ReportersPlus(mds: map<nat, LibMd>, d: nat, x: LibMd, q: nat, c: nat)
    requires d !in mds
    ensures |Reporters(mds[d := x], q, c)| == |Reporters(mds, q, c)| + (if x.eq == Some(q) && x.cpt == c then 1 else 0)
  {
    var mds' := mds[d := x];
    if x.eq == Some(q) && x.cpt == c {
      assert Reporters(mds', q, c) == Reporters(mds, q, c) + {d};
    } else {
      assert Reporters(mds', q, c) == Reporters(mds, q, c);
    }
  }

  lemma LinkEqs(ncpts: nat, s: State, d: nat, core: Md, eq: Option<nat>, cpt: nat, me: Option<nat>)
    requires EqsOk(ncpts, s) && d !in s.mds && (eq.Some? ==> eq.value in s.eqs) && cpt < ncpts
    ensures EqsOk(ncpts, LinkMd(s, d, core, eq, cpt, me)) && LinkMd(s, d, core, eq, cpt, me).bad == s.bad
  {
    var s' := LinkMd(s, d, core, eq, cpt, me);
    forall q, c | q in s'.eqs && 0 <= c < ncpts ensures s'.eqs[q][c] == |Reporters(s'.mds, q, c)| {
      ReportersPlus(s.mds, d, s'.mds[d], q, c);
    }
  }

  lemma LinkUsers(s: State, d: nat, s': State)
    requires UsersOk(s) && d !in s.mds && s'.msgs == s.msgs && s'.mds.Keys == s.mds.Keys + {d}
    requires s'.mds[d].refcount == 0 && forall k :: k in s.mds ==> s'.mds[k].refcount == s.mds[k].refcount
    ensures UsersOk(s')
  {
    assert Users(s.msgs, d) == {};
  }

  /** Linking a new MD, attached to ME `me` if there is one. */
  lemma LinkOk(ncpts: nat, s: State, s0: State, d: nat, core: Md, eq: Option<nat>, cpt: nat, me: Option<nat>)
    requires Inv(ncpts, s) && d !in s.logs && (eq.Some? ==> eq.value in s.eqs) && cpt < ncpts
    requires me.Some? ==> me.value in s.mes && s.mes[me.value].md.None?
    requires s0 == if me.None? then s else s.(mes := s.mes[me.value := s.mes[me.value].(md := Some(d))])
    ensures Inv(ncpts, LinkMd(s0, d, core, eq, cpt, me))
  {
    LinkStatus(s, s0, d, core, eq, cpt, me);
    hide EqsOk, UsersOk, LinksOk, Statuses;
    var s' := LinkMd(s0, d, core, eq, cpt, me);
    EqsSameState(ncpts, s, s0);
    LinkEqs(ncpts, s0, d, core, eq, cpt, me);
    LinkUsers(s, d, s');
    LinkLinks(s, s', d, me);
  }

  lemma LinkStatus(s: State, s0: State, d: nat, core: Md, eq: Option<nat>, cpt: nat, me: Option<nat>)
    requires Statuses(s) && d !in s.logs && s0 == s.(mes := s0.mes)
    requires eq.Some? ==> eq.value in s.eqs && cpt < |s.eqs[eq.value]|
    ensures d !in s.mds && Statuses(LinkMd(s0, d, core, eq, cpt, me))
  {
    assert StatusOk(s, d);
    hide Statuses;
    Others(s, LinkMd(s0, d, core, eq, cpt, me), d);
  }

  lemma EqsSameState(ncpts: nat, s: State, s': State)
    requires EqsOk(ncpts, s) && s'.eqs == s.eqs && s'.mds == s.mds
    ensures EqsOk(ncpts, s')
  {
  }

  lemma LinkLinks(s: State, s': State, d: nat, me: Option<nat>)
    requires LinksOk(s) && d !in s.mds && d in s'.mds && s'.mds[d].me == me && s'.mds == s.mds[d := s'.mds[d]]
    requires me.Some? ==> me.value in s.mes && s.mes[me.value].md.None?
    requires s'.mes == if me.None? then s.mes else s.mes[me.value := s.mes[me.value].(md := Some(d))]
    ensures LinksOk(s')
  {
  }

  lemma EqAllocOk(ncpts: nat, s: State, q: nat)
    requires Inv(ncpts, s) && q !in s.eqs
    ensures Inv(ncpts, Next(ncpts, s, EqAlloc(q)))
  {
    var s' := Next(ncpts, s, EqAlloc(q));
    assert StatusOk(s, 0);
    Others(s, s', 0);
    forall c ensures Reporters(s'.mds, q, c) == {} {}
    hide Statuses, Reporters;
  }

  /** An EQ's counts are all nothing exactly when no linked MD reports to it. */
  lemma Unreferenced(ncpts: nat, s: State, q: nat)
    requires EqsOk(ncpts, s) && q in s.eqs
    ensures (forall c :: 0 <= c < |s.eqs[q]| ==> s.eqs[q][c] == 0) <==>
              !exists d :: d in s.mds && s.mds[d].eq == Some(q)
  {
    if d :| d in s.mds && s.mds[d].eq == Some(q) {
      assert d in Reporters(s.mds, q, s.mds[d].cpt);
    }
    if c :| 0 <= c < |s.eqs[q]| && s.eqs[q][c] != 0 {
      assert Reporters(s.mds, q, c) != {};
      var d :| d in Reporters(s.mds, q, c);
    }
  }

  /** So an EQ is freed exactly when no linked MD reports to it. */
  lemma EqFreeExact(ncpts: nat, s: State, q: nat)
    requires Inv(ncpts, s) && q in s.eqs
    ensures Inv(ncpts, Next(ncpts, s, EqFree(q)))
    ensures q in Next(ncpts, s, EqFree(q)).eqs <==> exists d :: d in s.mds && s.mds[d].eq == Some(q)
  {
    var s' := Next(ncpts, s, EqFree(q));
    Unreferenced(ncpts, s, q);
    hide UsersOk, LinksOk, Statuses, StatusOk;
    if q !in s'.eqs {
      EqGone(ncpts, s, q);
    }
  }

  /** Nothing but an event queue that nobody reports to goes. */
  lemma EqGone(ncpts: nat, s: State, q: nat)
    requires Inv(ncpts, s) && forall d :: d in s.mds ==> s.mds[d].eq != Some(q)
    ensures Inv(ncpts, s.(eqs := s.eqs - {q}))
  {
    var s' := s.(eqs := s.eqs - {q});
    assert StatusOk(s, 0);
    Others(s, s', 0);
    UsersKept(s, s');
    hide Statuses, StatusOk, UsersOk;
  }

  lemma MeAttachOk(ncpts: nat, s: State, i: nat, unlink: bool)
    requires Inv(ncpts, s) && i !in s.mes
    ensures Inv(ncpts, Next(ncpts, s, MeAttach(i, unlink)))
  {
    var s' := Next(ncpts, s, MeAttach(i, unlink));
    assert StatusOk(s, 0);
    Others(s, s', 0);
    EqsSameState(ncpts, s, s');
    UsersKept(s, s');
    hide Statuses, EqsOk, UsersOk;
  }

  lemma StepOk(ncpts: nat, s: State, e: Step)
    requires Inv(ncpts, s) && CanStep(ncpts, s, e)
    ensures Inv(ncpts, Next(ncpts, s, e))
  {
    InUse(ncpts, s);
    hide Inv, OwnerUnlink, UnlinkMe, DetachMsg, AttachMsg, LinkMd, Unlink;
    match e
    case EqAlloc(q) => EqAllocOk(ncpts, s, q);
    case EqFree(q) => if q in s.eqs { EqFreeExact(ncpts, s, q); }
    case MeAttach(i, unlink) => MeAttachOk(ncpts, s, i, unlink);
    case MdAttach(d, core, i, q, cpt) =>
      if !(i !in s.mes || s.mes[i].md.Some? || (q.Some? && q.value !in s.eqs)) {
        LinkOk(ncpts, s, s.(mes := s.mes[i := s.mes[i].(md := Some(d))]), d, core, q, cpt, Some(i));
      }
    case MdBind(d, core, q, cpt) =>
      if !(q.Some? && q.value !in s.eqs) {
        LinkOk(ncpts, s, s, d, core, q, cpt, None);
      }
    case Match(m, d, offset) => MatchOk(ncpts, s, m, d, offset);
    case Use(m, d) => AttachOk(ncpts, s, m, d, s.mds[d].core.offset);
    case Reply(m, g) =>
      var d := s.msgs[g];
      if s.mds[d].core.threshold != 0 { AttachOk(ncpts, s, m, d, s.mds[d].core.offset); }
    case Detach(m) => DetachOk(ncpts, s, m);
    case MdUnlink(d) => if Valid(s, d) { OwnerUnlinkOk(ncpts, s, d); }
    case MeUnlink(i) =>
      if i in s.mes {
        if s.mes[i].md.None? { LoneMeOk(ncpts, s, i); } else { UnlinkMeOk(ncpts, s, i); }
      }
  }

  /** A message's MD is linked. */
  lemma InUse(ncpts: nat, s: State)
    requires Inv(ncpts, s)
    ensures forall m :: m in s.msgs ==> s.msgs[m] in s.mds
  {
  }

  // ---------------------------------------------------------------- runs

  predicate Initial(s: State) {
    s == State(map[], map[], map[], map[], map[], multiset{}, false)
  }

  ghost predicate Run(ncpts: nat, states: seq<State>, steps: seq<Step>) {
    && |states| == |steps| + 1 && Initial(states[0])
    && forall i :: 0 <= i < |steps| ==>
        CanStep(ncpts, states[i], steps[i]) && states[i + 1] == Next(ncpts, states[i], steps[i])
  }

  lemma {:induction false} RunOk(ncpts: nat, states: seq<State>, steps: seq<Step>, i: nat)
    requires Run(ncpts, states, steps) && i <= |steps|
    ensures Inv(ncpts, states[i])
  {
    if i > 0 {
      RunOk(ncpts, states, steps, i - 1);
      StepOk(ncpts, states[i - 1], steps[i - 1]);
    }
  }

  /** In any run no freed MD, ME or EQ is touched and no reference count goes
      wrong. An MD is freed at most once, and while it is linked or even a single
      message uses it, not at all. Its EQ is told that it is unlinked once, with
      the last event, and not before it is freed. */
  lemma Lifecycle(ncpts: nat, states: seq<State>, steps: seq<Step>, i: nat, d: nat)
    requires Run(ncpts, states, steps) && i <= |steps| && d in states[i].logs
    ensures var s, l := states[i], states[i].logs[d];
            && !s.bad
            && s.frees[d] == (if d in s.mds then 0 else 1)
            && (Users(s.msgs, d) != {} ==> d in s.mds)
            && (if d in s.mds then NoneTrue(l.flags)
                else l.withEq ==> l.flags != [] && l.flags[|l.flags| - 1] && NoneTrue(l.flags[..|l.flags| - 1]))
  {
    RunOk(ncpts, states, steps, i);
    assert StatusOk(states[i], d);
  }

  /** The EQ of a linked MD exists, and counts it. */
  lemma EqOutlivesMds(ncpts: nat, states: seq<State>, steps: seq<Step>, i: nat, d: nat)
    requires Run(ncpts, states, steps) && i <= |steps| && d in states[i].mds && states[i].mds[d].eq.Some?
    ensures var s, x := states[i], states[i].mds[d];
            && x.eq.value in s.eqs && x.cpt < ncpts == |s.eqs[x.eq.value]|
            && s.eqs[x.eq.value][x.cpt] == |Reporters(s.mds, x.eq.value, x.cpt)| > 0
  {
    RunOk(ncpts, states, steps, i);
    assert d in Reporters(states[i].mds, states[i].mds[d].eq.value, states[i].mds[d].cpt);
  }

  /** A zombie cannot be found again, by handle or by matching, and goes with the
      last message that uses it. */
  lemma ZombieEnds(ncpts: nat, states: seq<State>, steps: seq<Step>, i: nat, d: nat, m: nat)
    requires Run(ncpts, states, steps) && i <= |steps| && d in states[i].mds && states[i].mds[d].zombie
    ensures var s := states[i];
            && s.mds[d].me.None? && !Valid(s, d) && Users(s.msgs, d) != {}
            && (forall e :: e in s.mes ==> s.mes[e].md != Some(d))
            && (Users(s.msgs, d) == {m} ==> d !in DetachMsg(s, m).mds)
  {
    RunOk(ncpts, states, steps, i);
    var s := states[i];
    assert StatusOk(s, d);
    if Users(s.msgs, d) == {m} {
      assert m in Users(s.msgs, d);
      hide Statuses;
      LastUser(ncpts, s, m, d);
    }
  }

  lemma LastUser(ncpts: nat, s: State, m: nat, d: nat)
    requires Base(ncpts, s) && m in s.msgs && s.msgs[m] == d && d in s.logs
    requires d in s.mds && s.mds[d].refcount == 1 && s.mds[d].zombie && s.mds[d].me.None?
    ensures d !in DetachMsg(s, m).mds
  {
    ReleaseBase(ncpts, s, m, d);
    hide Base, Unlink, Notify;
    NotifyBase(ncpts, Released(s, m, d), d, true);
    UnlinkBase(ncpts, Notify(Released(s, m, d), d, true), d);
  }
}
