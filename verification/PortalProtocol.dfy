/** The portal as a concurrent protocol. Matcher threads bring PUTs in, posters
    attach buffers; each section under the portal lock is one step, and steps of
    different threads come in any order.

    A PUT that finds no buffer in the table it tried first is put on the
    portal's stealing list while its thread tries the other tables one by one,
    and only then on the delayed list. A poster offers a new buffer to both
    lists. The claim is that no wake-up is lost: a PUT is never left delayed
    while some attached buffer would take it. */
module PortalProtocol {
  import opened MatchEntry
  import opened MatchTable
  import opened Options

  /** What became of a PUT. */
  datatype Outcome = Deliver(md: nat, offset: nat, length: nat) | Discard

  /** Where a PUT is. `Stealing` carries the loop variables of the thread that
      is trying to steal a buffer for it; `Taken` is a PUT that a poster took off
      the stealing list and whose thread has not noticed yet. */
  datatype Phase =
    | Arriving
    | NeedEager
    | Entering
    | Stealing(first: nat, i: nat)
    | Taken(outcome: Outcome)
    | Delayed
    | Done(outcome: Outcome)

  datatype Msg = Msg(info: Info, ready: bool, ni: nat, phase: Phase)

  datatype State = State(
    kind: Kind, lazy: bool,
    tables: seq<Table>,
    maps: seq<nat>,
    stealing: seq<nat>, delayed: seq<nat>,
    msgs: map<nat, Msg>)

  // ---------------------------------------------------------------- enabled tables

  /** `lnet_ptl_enable_mt`: insertion from the right end. */
  function InsertSorted(maps: seq<nat>, c: nat): seq<nat> {
    if maps == [] || maps[|maps| - 1] < c then maps + [c]
    else InsertSorted(maps[..|maps| - 1], c) + [maps[|maps| - 1]]
  }

  /** `lnet_ptl_disable_mt`: everything from `c` on moves down by one. */
  function RemoveSorted(maps: seq<nat>, c: nat): seq<nat> {
    if maps == [] then []
    else if maps[0] == c then maps[1..]
    else [maps[0]] + RemoveSorted(maps[1..], c)
  }

  predicate StrictlySorted(maps: seq<nat>) {
    forall i, j :: 0 <= i < j < |maps| ==> maps[i] < maps[j]
  }

  lemma {:induction false} InsertSortedCorrect(maps: seq<nat>, c: nat)
    requires StrictlySorted(maps) && c !in maps
    ensures StrictlySorted(InsertSorted(maps, c))
    ensures forall x :: x in InsertSorted(maps, c) <==> x in maps || x == c
  {
    if maps != [] && maps[|maps| - 1] > c {
      var front, last := maps[..|maps| - 1], maps[|maps| - 1];
      InsertSortedCorrect(front, c);
      var r := InsertSorted(front, c);
      assert maps == front + [last];
      forall i | 0 <= i < |r| ensures r[i] < last {
        assert r[i] in r;
        assert r[i] in front || r[i] == c;
      }
    }
  }

  lemma {:induction false} RemoveSortedCorrect(maps: seq<nat>, c: nat)
    requires StrictlySorted(maps)
    ensures StrictlySorted(RemoveSorted(maps, c))
    ensures forall x :: x in RemoveSorted(maps, c) <==> x in maps && x != c
  {
    if maps != [] {
      var rest := maps[1..];
      assert maps == [maps[0]] + rest;
      if maps[0] == c {
        assert forall x :: x in rest ==> x > c;
      } else {
        RemoveSortedCorrect(rest, c);
        var r := RemoveSorted(rest, c);
        forall i | 0 <= i < |r| ensures maps[0] < r[i] {
          assert r[i] in r;
          assert r[i] in rest;
        }
      }
    }
  }

  // ---------------------------------------------------------------- one table

  /** The list after the MD of its `k`-th ME became `md`, used up by a match or not.
      One used up that unlinks itself is detached at once, and takes the ME along
      if the ME was created that way. */
  function Commit(list: seq<Me>, k: nat, md: Md, usedUp: bool): seq<Me>
    requires k < |list|
  {
    if usedUp && md.autoUnlink then Unlink(list, k)
    else list[k := list[k].(md := Some(md))]
  }

  function Unlink(list: seq<Me>, k: nat): seq<Me>
    requires k < |list|
  {
    if list[k].unlink then list[..k] + list[k + 1..] else list[k := list[k].(md := None)]
  }

  function CommitHit(t: Table, p: nat, k: nat, info: Info): (r: (Table, Outcome))
    requires p < |t.mhash| && k < |t.mhash[p]| && t.mhash[p][k].md.Some?
  {
    var me := t.mhash[p][k];
    match TryMatch(me.crit, me.md.value, info)
    case TryOk(offset, mlength, md, exhausted) =>
      (t.(mhash := t.mhash[p := Commit(t.mhash[p], k, md, exhausted)]), Deliver(md.id, offset, mlength))
    case _ => (t, Discard)
  }

  /** Result of running `lnet_mt_match_md` on the table of partition `c`,
      including the disabling that the callers do under the portal lock. */
  datatype MatchResult = Matched(s: State, outcome: Outcome) | Unmatched(s: State)

  function Disable(cfg: Config, s: State, c: nat): State
    requires c < |s.tables|
  {
    if cfg.ncpts == 1 then s
    else s.(tables := s.tables[c := s.tables[c].(enabled := false)], maps := RemoveSorted(s.maps, c))
  }

  function Enable(s: State, c: nat): State
    requires c < |s.tables|
  {
    s.(tables := s.tables[c := s.tables[c].(enabled := true)], maps := InsertSorted(s.maps, c))
  }

  ghost predicate Shaped(cfg: Config, s: State) {
    && ValidConfig(cfg)
    && |s.tables| == cfg.ncpts
    && (forall c :: 0 <= c < cfg.ncpts ==> |s.tables[c].mhash| == NLISTS && |s.tables[c].exhausted| == NLISTS)
  }

  function MatchIn(cfg: Config, s: State, c: nat, info: Info): MatchResult
    requires Shaped(cfg, s) && c < cfg.ncpts
  {
    var t := s.tables[c];
    match Search(cfg, s.kind, t, info)
    case At(p, k) =>
      var (t', outcome) := CommitHit(t, p, k, info);
      Matched(s.(tables := s.tables[c := t']), outcome)
    case Nowhere(exhausted, bits) =>
      var s' := s.(tables := s.tables[c := t.(exhausted := bits)]);
      Unmatched(if exhausted && t.enabled then Disable(cfg, s', c) else s')
  }

  // ---------------------------------------------------------------- matcher threads

  function SetPhase(s: State, m: nat, phase: Phase): State
    requires m in s.msgs
  {
    s.(msgs := s.msgs[m := s.msgs[m].(phase := phase)])
  }

  function Delay(s: State, m: nat): State
    requires m in s.msgs
  {
    SetPhase(s, m, Delayed).(delayed := s.delayed + [m])
  }

  function Without(q: seq<nat>, m: nat): seq<nat> {
    if q == [] then []
    else if q[0] == m then Without(q[1..], m)
    else [q[0]] + Without(q[1..], m)
  }

  /** `lnet_ptl_match_early` and the first table of `lnet_ptl_match_md`. */
  function MatchFirst(cfg: Config, s: State, m: nat, c: nat): State
    requires Shaped(cfg, s) && c < cfg.ncpts && m in s.msgs
  {
    if s.kind.Unset? then
      if !s.lazy then SetPhase(s, m, Done(Discard))
      else if s.msgs[m].ready then Delay(s, m)
      else SetPhase(s, m, NeedEager)
    else
      match MatchIn(cfg, s, c, s.msgs[m].info)
      case Matched(s', outcome) => SetPhase(s', m, Done(outcome))
      case Unmatched(s') =>
        if !s'.lazy then SetPhase(s', m, Done(Discard))
        else if !s'.msgs[m].ready then SetPhase(s', m, NeedEager)
        else if s'.kind.Unique? || cfg.ncpts == 1 then Delay(s', m)
        else SetPhase(s', m, Entering)
  }

  /** The table a stealing thread looks at in round `i`. */
  function Turn(cfg: Config, first: nat, i: nat): nat
    requires cfg.ncpts > 0
  {
    (first + i) % cfg.ncpts
  }

  /** Under both locks in `lnet_ptl_match_delay`, with the PUT on the stealing list. */
  function Steal(cfg: Config, s: State, m: nat, first: nat, i: nat): State
    requires Shaped(cfg, s) && m in s.msgs
  {
    var c := Turn(cfg, first, i);
    match MatchIn(cfg, s, c, s.msgs[m].info)
    case Matched(s', outcome) => SetPhase(s', m, Done(outcome)).(stealing := Without(s'.stealing, m))
    case Unmatched(s') =>
      if !s'.lazy then SetPhase(s', m, Done(Discard)).(stealing := Without(s'.stealing, m))
      else if i == cfg.ncpts - 1 || s'.maps == [] || s'.maps == [c] then
        Delay(s', m).(stealing := Without(s'.stealing, m))
      else SetPhase(s', m, Stealing(first, i + 1))
  }

  // ---------------------------------------------------------------- posters

  /** Offering an MD to the messages of one queue, first come first served. */
  datatype Offer = Offer(md: Md, kept: seq<nat>, taken: map<nat, Outcome>, exhausted: bool)

  function OfferTo(crit: Criteria, md: Md, q: seq<nat>, msgs: map<nat, Msg>): (r: Offer)
    requires forall m :: m in q ==> m in msgs
    decreases q
  {
    if q == [] then Offer(md, [], map[], false)
    else
      var m := q[0];
      match TryMatch(crit, md, msgs[m].info)
      case TryNone(exhausted) =>
        if exhausted then Offer(md, q, map[], true)
        else
          var rest := OfferTo(crit, md, q[1..], msgs);
          rest.(kept := [m] + rest.kept)
      case TryDrop =>
        var rest := OfferTo(crit, md, q[1..], msgs);
        rest.(taken := rest.taken[m := Discard])
      case TryOk(offset, mlength, md', exhausted) =>
        var out := Deliver(md.id, offset, mlength);
        if exhausted then Offer(md', q[1..], map[m := out], true)
        else
          var rest := OfferTo(crit, md', q[1..], msgs);
          rest.(taken := rest.taken[m := out])
  }

  function Resolve(msgs: map<nat, Msg>, stolen: map<nat, Outcome>, resumed: map<nat, Outcome>): map<nat, Msg> {
    map m | m in msgs ::
      if m in stolen then msgs[m].(phase := Taken(stolen[m]))
      else if m in resumed then msgs[m].(phase := Done(resumed[m]))
      else msgs[m]
  }

  ghost predicate QueuesKnown(s: State) {
    && (forall m :: m in s.stealing ==> m in s.msgs)
    && (forall m :: m in s.delayed ==> m in s.msgs)
  }

  ghost predicate MeAt(cfg: Config, s: State, c: nat, p: nat, k: nat) {
    Shaped(cfg, s) && c < cfg.ncpts && p < NLISTS && k < |s.tables[c].mhash[p]|
  }

  /** `lnet_ptl_attach_md`. An MD that unlinks itself does so when a match exhausts
      it, not when it was posted exhausted. */
  function AttachMd(cfg: Config, s: State, c: nat, p: nat, k: nat, md: Md): State
    requires MeAt(cfg, s, c, p, k) && QueuesKnown(s)
  {
    var t := s.tables[c];
    var crit := t.mhash[p][k].crit;
    var a := OfferTo(crit, md, s.stealing, s.msgs);
    var b := if a.exhausted then Offer(a.md, s.delayed, map[], true) else OfferTo(crit, a.md, s.delayed, s.msgs);
    var t' := t.(mhash := t.mhash[p := Commit(t.mhash[p], k, b.md, b.exhausted && !Exhausted(md))]);
    var s' := s.(tables := s.tables[c := t'],
                 stealing := a.kept, delayed := b.kept,
                 msgs := Resolve(s.msgs, a.taken, b.taken));
    if s.kind.Wildcard? && !b.exhausted then
      var s2 := s'.(tables := s'.tables[c := t'.(exhausted := t'.exhausted[p := false])]);
      if t.enabled then s2 else Enable(s2, c)
    else s'
  }

  function KindFor(s: State, crit: Criteria): Kind {
    if !s.kind.Unset? then s.kind else if IsUniqueCriteria(crit) then Unique else Wildcard
  }

  /** `LNetMEAttach`, with the table chosen by `lnet_mt_of_attach`. */
  function AttachMe(cfg: Config, s: State, c: nat, me: Me, tail: bool): State
    requires Shaped(cfg, s) && c < cfg.ncpts
  {
    var kind := KindFor(s, me.crit);
    var p := AttachPos(cfg, kind, me.crit);
    var t := s.tables[c];
    var list := if tail then t.mhash[p] + [me] else [me] + t.mhash[p];
    s.(kind := kind, tables := s.tables[c := t.(mhash := t.mhash[p := list])])
  }

  function ReplaceList(cfg: Config, s: State, c: nat, p: nat, list: seq<Me>): State
    requires Shaped(cfg, s) && c < cfg.ncpts && p < NLISTS
  {
    s.(tables := s.tables[c := s.tables[c].(mhash := s.tables[c].mhash[p := list])])
  }

  /** `lnet_clear_lazy_portal`: all delayed messages, or those of one NI. */
  function ClearLazy(s: State, ni: Option<nat>): State
    requires QueuesKnown(s)
  {
    if !s.lazy then s
    else
      var hit := set m | m in s.delayed && (ni.None? || s.msgs[m].ni == ni.value);
      s.(lazy := ni.Some?,
         delayed := Outside(s.delayed, hit),
         msgs := map m | m in s.msgs :: if m in hit then s.msgs[m].(phase := Done(Discard)) else s.msgs[m])
  }

  function Outside(q: seq<nat>, hit: set<nat>): seq<nat> {
    if q == [] then []
    else if q[0] in hit then Outside(q[1..], hit)
    else [q[0]] + Outside(q[1..], hit)
  }

  // ---------------------------------------------------------------- steps and runs

  datatype Step =
    | Arrive(m: nat, info: Info, ready: bool, ni: nat)
    | First(m: nat, c: nat)
    | Eager(m: nat, ok: bool)
    | Enter(m: nat, first: nat)
    | Skip(m: nat)
    | Visit(m: nat)
    | PickUp(m: nat)
    | GetRequest(c: nat, info: Info)
    | PostMe(c: nat, me: Me, tail: bool)
    | PostMd(c: nat, p: nat, k: nat, md: Md)
    | UnlinkMd(c: nat, p: nat, k: nat)
    | UnlinkMe(c: nat, p: nat, k: nat)
    | SetLazy
    | Clear(only: Option<nat>)

  /** The table a request may try first: on a unique portal the one its NID
      hashes to, otherwise any (the source picks it without a lock). */
  ghost predicate RightTable(cfg: Config, kind: Kind, nid: nat, c: nat) {
    c < cfg.ncpts && (kind.Unique? ==> c == cfg.cptOfNid(nid))
  }

  ghost predicate CanStep(cfg: Config, s: State, step: Step)
    requires Shaped(cfg, s)
  {
    match step
    case Arrive(m, info, ready, ni) => m !in s.msgs && info.op.Put?
    case First(m, c) => m in s.msgs && s.msgs[m].phase.Arriving? && RightTable(cfg, s.kind, s.msgs[m].info.id.nid, c)
    case Eager(m, ok) => m in s.msgs && s.msgs[m].phase.NeedEager?
    case Enter(m, first) => m in s.msgs && s.msgs[m].phase.Entering? && first < cfg.ncpts
    case Skip(m) =>
      && m in s.msgs && s.msgs[m].phase.Stealing?
      && s.msgs[m].phase.i < cfg.ncpts - 1
      && !s.tables[Turn(cfg, s.msgs[m].phase.first, s.msgs[m].phase.i)].enabled
    case Visit(m) => m in s.msgs && s.msgs[m].phase.Stealing?
    case PickUp(m) => m in s.msgs && s.msgs[m].phase.Taken?
    case GetRequest(c, info) => info.op.Get? && !s.kind.Unset? && RightTable(cfg, s.kind, info.id.nid, c)
    case PostMe(c, me, tail) =>
      && me.md.None?
      && (KindFor(s, me.crit).Unique? <==> IsUniqueCriteria(me.crit))
      && RightTable(cfg, KindFor(s, me.crit), me.crit.id.nid, c)
    case PostMd(c, p, k, md) =>
      MeAt(cfg, s, c, p, k) && s.tables[c].mhash[p][k].md.None? && WellFormed(md) && QueuesKnown(s)
    case UnlinkMd(c, p, k) => MeAt(cfg, s, c, p, k) && s.tables[c].mhash[p][k].md.Some?
    case UnlinkMe(c, p, k) => MeAt(cfg, s, c, p, k)
    case SetLazy => true
    case Clear(only) => QueuesKnown(s)
  }

  ghost function Next(cfg: Config, s: State, step: Step): State
    requires Shaped(cfg, s) && CanStep(cfg, s, step)
  {
    match step
    case Arrive(m, info, ready, ni) => s.(msgs := s.msgs[m := Msg(info, ready, ni, Arriving)])
    case First(m, c) => MatchFirst(cfg, s, m, c)
    case Eager(m, ok) =>
      if ok then s.(msgs := s.msgs[m := s.msgs[m].(phase := Arriving, ready := true)])
      else SetPhase(s, m, Done(Discard))
    case Enter(m, first) => Steal(cfg, s.(stealing := s.stealing + [m]), m, first, 0)
    case Skip(m) => SetPhase(s, m, Stealing(s.msgs[m].phase.first, s.msgs[m].phase.i + 1))
    case Visit(m) => Steal(cfg, s, m, s.msgs[m].phase.first, s.msgs[m].phase.i)
    case PickUp(m) => SetPhase(s, m, Done(s.msgs[m].phase.outcome))
    case GetRequest(c, info) => MatchIn(cfg, s, c, info).s
    case PostMe(c, me, tail) => AttachMe(cfg, s, c, me, tail)
    case PostMd(c, p, k, md) => AttachMd(cfg, s, c, p, k, md)
    case UnlinkMd(c, p, k) => ReplaceList(cfg, s, c, p, Unlink(s.tables[c].mhash[p], k))
    case UnlinkMe(c, p, k) =>
      ReplaceList(cfg, s, c, p, s.tables[c].mhash[p][..k] + s.tables[c].mhash[p][k + 1..])
    case SetLazy => s.(lazy := true)
    case Clear(only) => ClearLazy(s, only)
  }
}
