/** The one look a poster takes at the portal's lists without the portal lock.

    `lnet_ptl_attach_md` does no more than store the MD when both lists are empty
    and the list's exhausted bit is clear, and it tests that holding only the lock
    of its own table. A stealing thread that has found nothing takes its PUT off
    the stealing list and then puts it on the delayed list; it holds the portal
    lock and the lock of the table it searched last, and in between the PUT is on
    neither list. Here that moment is a state, and what needs neither lock can
    happen in it. */
module PortalWindow {
  import opened MatchEntry
  import opened MatchTable
  import opened PortalProtocol
  import opened PortalSafety
  import opened PortalRuns
  import opened Options

  /** The PUT on its way from list to list, and the table its thread has locked. */
  datatype Moving = Nobody | Moving(m: nat, at: nat)

  datatype Window = Window(s: State, moving: Moving)

  datatype WStep = Whole(step: Step) | TakeOff(m: nat, first: nat) | PutOn

  // ---------------------------------------------------------------- steps

  /** What a stealing thread searches: the table of its next round, after joining
      the stealing list if this is the first. */
  function Round(s: State, m: nat, first: nat): (State, nat, nat)
    requires m in s.msgs
  {
    if s.msgs[m].phase.Stealing? then (s, s.msgs[m].phase.first, s.msgs[m].phase.i)
    else (s.(stealing := s.stealing + [m]), first, 0)
  }

  /** The same round as one step. */
  function RoundStep(s: State, m: nat, first: nat): Step
    requires m in s.msgs
  {
    if s.msgs[m].phase.Stealing? then Visit(m) else Enter(m, first)
  }

  /** It finds nothing, and that is the end of the search. */
  ghost predicate CanTakeOff(cfg: Config, s: State, m: nat, first: nat)
    requires Shaped(cfg, s)
  {
    && m in s.msgs && CanStep(cfg, s, RoundStep(s, m, first))
    && var (s0, f, i) := Round(s, m, first);
       var r := MatchIn(cfg, s0, Turn(cfg, f, i), s.msgs[m].info);
       r.Unmatched? && r.s.lazy && (i == cfg.ncpts - 1 || r.s.maps == [] || r.s.maps == [Turn(cfg, f, i)])
  }

  ghost function TakenOff(cfg: Config, s: State, m: nat, first: nat): Window
    requires Shaped(cfg, s) && CanTakeOff(cfg, s, m, first)
  {
    var (s0, f, i) := Round(s, m, first);
    var s' := MatchIn(cfg, s0, Turn(cfg, f, i), s.msgs[m].info).s;
    Window(SetPhase(s', m, Entering).(stealing := Without(s'.stealing, m)), Moving(m, Turn(cfg, f, i)))
  }

  /** What takes neither the portal lock nor the lock of table `at`. Posting an MD
      is among it when the poster's look finds nothing to do. */
  ghost predicate Quiet(cfg: Config, s: State, at: nat, step: Step)
    requires Shaped(cfg, s) && CanStep(cfg, s, step)
  {
    match step
    case Arrive(_, _, _, _) => true
    case Eager(_, _) => true
    case Skip(_) => true
    case First(x, c) =>
      && c != at && !s.kind.Unset?
      && MatchFirst(cfg, s, x, c).maps == s.maps && MatchFirst(cfg, s, x, c).delayed == s.delayed
    case GetRequest(c, info) => c != at && MatchIn(cfg, s, c, info).s.maps == s.maps
    case PostMe(c, _, _) => c != at && !s.kind.Unset?
    case PostMd(c, p, _, _) =>
      c != at && s.stealing == [] && s.delayed == [] && !(s.kind.Wildcard? && s.tables[c].exhausted[p])
    case UnlinkMd(c, _, _) => c != at
    case UnlinkMe(c, _, _) => c != at
    case _ => false
  }

  ghost predicate CanW(cfg: Config, w: Window, e: WStep) {
    && Shaped(cfg, w.s)
    && match e
       case Whole(step) => CanStep(cfg, w.s, step) && (w.moving.Moving? ==> Quiet(cfg, w.s, w.moving.at, step))
       case TakeOff(m, first) => w.moving.Nobody? && CanTakeOff(cfg, w.s, m, first)
       case PutOn => w.moving.Moving? && w.moving.m in w.s.msgs
  }

  ghost function NextW(cfg: Config, w: Window, e: WStep): Window
    requires CanW(cfg, w, e)
  {
    match e
    case Whole(step) => Window(Next(cfg, w.s, step), w.moving)
    case TakeOff(m, first) => TakenOff(cfg, w.s, m, first)
    case PutOn => Window(Delay(w.s, w.moving.m), Nobody)
  }

  // ---------------------------------------------------------------- what is lost

  /** A poster's quiet look while a PUT that the new MD would take is on the move. */
  ghost predicate Harmful(w: Window, e: WStep) {
    && w.moving.Moving? && w.moving.m in w.s.msgs && e.Whole? && e.step.PostMd?
    && var st := e.step;
       && st.c < |w.s.tables| && st.p < |w.s.tables[st.c].mhash| && st.k < |w.s.tables[st.c].mhash[st.p]|
       && !Exhausted(st.md) && Accepts(w.s.tables[st.c].mhash[st.p][st.k].crit, st.md, w.s.msgs[w.moving.m].info)
  }

  /** The state the window closes to. */
  function Settled(w: Window): State {
    if w.moving.Moving? && w.moving.m in w.s.msgs then Delay(w.s, w.moving.m) else w.s
  }

  ghost predicate WInv(cfg: Config, w: Window) {
    && Inv(cfg, Settled(w))
    && (w.moving.Moving? ==>
          && w.moving.m in w.s.msgs && w.s.msgs[w.moving.m].phase.Entering? && w.moving.m !in w.s.delayed
          && w.s.lazy && w.s.kind.Wildcard?)
  }

  lemma TakeOffIs(cfg: Config, s: State, m: nat, first: nat)
    requires Shaped(cfg, s) && CanTakeOff(cfg, s, m, first)
    ensures Settled(TakenOff(cfg, s, m, first)) == Next(cfg, s, RoundStep(s, m, first))
  {
    var (s0, f, i) := Round(s, m, first);
    var s' := MatchIn(cfg, s0, Turn(cfg, f, i), s.msgs[m].info).s;
    assert s'.msgs == s.msgs;
    assert s'.msgs[m := s'.msgs[m].(phase := Entering)][m := s'.msgs[m].(phase := Delayed)]
        == s'.msgs[m := s'.msgs[m].(phase := Delayed)];
  }

  // ---------------------------------------------------------------- quiet steps on either side of the move

  /** A search sees nothing of the lists. */
  lemma MatchInElsewhere(cfg: Config, s: State, m: nat, c: nat, info: Info)
    requires Shaped(cfg, s) && c < cfg.ncpts && m in s.msgs
    ensures Shaped(cfg, Delay(s, m))
    ensures var r, r' := MatchIn(cfg, s, c, info), MatchIn(cfg, Delay(s, m), c, info);
            && (r.Matched? <==> r'.Matched?) && (r.Matched? ==> r'.outcome == r.outcome)
            && r.s.msgs == s.msgs && r.s.delayed == s.delayed && r'.s == Delay(r.s, m)
  {
  }

  lemma TwoMsgs(msgs: map<nat, Msg>, m: nat, a: Msg, x: nat, b: Msg)
    requires x != m
    ensures msgs[m := a][x := b] == msgs[x := b][m := a]
  {
  }

  lemma FirstCommutes(cfg: Config, s: State, m: nat, at: nat, x: nat, c: nat)
    requires Shaped(cfg, s) && m in s.msgs && s.msgs[m].phase.Entering? && CanStep(cfg, s, First(x, c))
    requires Quiet(cfg, s, at, First(x, c))
    ensures Shaped(cfg, Delay(s, m)) && CanStep(cfg, Delay(s, m), First(x, c))
    ensures MatchFirst(cfg, Delay(s, m), x, c) == Delay(MatchFirst(cfg, s, x, c), m)
    ensures m in MatchFirst(cfg, s, x, c).msgs && MatchFirst(cfg, s, x, c).msgs[m] == s.msgs[m]
  {
    MatchInElsewhere(cfg, s, m, c, s.msgs[x].info);
    var r := MatchIn(cfg, s, c, s.msgs[x].info);
    var x' := MatchFirst(cfg, s, x, c).msgs[x];
    TwoMsgs(s.msgs, m, s.msgs[m].(phase := Delayed), x, x');
    hide Search;
  }

  lemma OfferOne(crit: Criteria, md: Md, m: nat, msgs: map<nat, Msg>)
    requires m in msgs && (Exhausted(md) || !Accepts(crit, md, msgs[m].info))
    ensures OfferTo(crit, md, [m], msgs) == Offer(md, [m], map[], Exhausted(md))
  {
    assert [m][1..] == [];
    assert OfferTo(crit, md, [], msgs) == Offer(md, [], map[], false);
  }

  /** An MD that the PUT does not take is stored just the same when the PUT is on
      the delayed list. */
  lemma PostMdCommutes(cfg: Config, s: State, m: nat, at: nat, c: nat, p: nat, k: nat, md: Md)
    requires TablesOk(cfg, s) && m in s.msgs && CanStep(cfg, s, PostMd(c, p, k, md))
    requires Quiet(cfg, s, at, PostMd(c, p, k, md))
    requires Exhausted(md) || !Accepts(s.tables[c].mhash[p][k].crit, md, s.msgs[m].info)
    ensures CanStep(cfg, Delay(s, m), PostMd(c, p, k, md))
    ensures AttachMd(cfg, Delay(s, m), c, p, k, md) == Delay(AttachMd(cfg, s, c, p, k, md), m)
  {
    EarlyReturn(cfg, s, c, p, k, md);
    var d := Delay(s, m);
    var crit := s.tables[c].mhash[p][k].crit;
    assert d.delayed == [m] && d.delayed[1..] == [];
    OfferOne(crit, md, m, d.msgs);
    var b := OfferTo(crit, md, [m], d.msgs);
    assert Resolve(d.msgs, map[], map[]) == d.msgs;
    var t := s.tables[c];
    assert ValidTable(cfg, s.kind, c, t);
    if s.kind.Wildcard? {
      assert t.enabled;
      assert t.exhausted[p := false] == t.exhausted;
    }
  }

  /** Steps of threads that have their PUT in hand. */
  lemma InHandCommutes(cfg: Config, s: State, m: nat, step: Step)
    requires Shaped(cfg, s) && m in s.msgs && s.msgs[m].phase.Entering? && CanStep(cfg, s, step)
    requires step.Arrive? || step.Eager? || step.Skip?
    ensures m in Next(cfg, s, step).msgs && Next(cfg, s, step).msgs[m] == s.msgs[m]
    ensures Shaped(cfg, Delay(s, m)) && CanStep(cfg, Delay(s, m), step)
    ensures Next(cfg, Delay(s, m), step) == Delay(Next(cfg, s, step), m)
  {
    TwoMsgs(s.msgs, m, s.msgs[m].(phase := Delayed), step.m, Next(cfg, s, step).msgs[step.m]);
  }

  lemma QuietCommutes(cfg: Config, s: State, m: nat, at: nat, step: Step)
    requires TablesOk(cfg, s) && m in s.msgs && s.msgs[m].phase.Entering? && CanStep(cfg, s, step)
    requires Quiet(cfg, s, at, step) && !Harmful(Window(s, Moving(m, at)), Whole(step))
    ensures m in Next(cfg, s, step).msgs && Next(cfg, s, step).msgs[m] == s.msgs[m]
    ensures Shaped(cfg, Delay(s, m)) && CanStep(cfg, Delay(s, m), step)
    ensures Next(cfg, Delay(s, m), step) == Delay(Next(cfg, s, step), m)
  {
    hide Search, MatchIn, MatchFirst, AttachMd;
    match step
    case First(x, c) => FirstCommutes(cfg, s, m, at, x, c);
    case GetRequest(c, info) => MatchInElsewhere(cfg, s, m, c, info);
    case PostMd(c, p, k, md) => PostMdCommutes(cfg, s, m, at, c, p, k, md); EarlyReturn(cfg, s, c, p, k, md);
    case Arrive(_, _, _, _) => InHandCommutes(cfg, s, m, step);
    case Eager(_, _) => InHandCommutes(cfg, s, m, step);
    case Skip(_) => InHandCommutes(cfg, s, m, step);
    case _ =>
  }

  // ---------------------------------------------------------------- what holds all the same

  /** With the window closed, a harmless step is a step of the portal protocol or
      none. */
  lemma Refines(cfg: Config, w: Window, e: WStep) returns (plain: Option<Step>)
    requires WInv(cfg, w) && CanW(cfg, w, e) && !Harmful(w, e)
    ensures Shaped(cfg, Settled(w)) && (plain.Some? ==> CanStep(cfg, Settled(w), plain.value))
    ensures Settled(NextW(cfg, w, e)) == if plain.None? then Settled(w) else Next(cfg, Settled(w), plain.value)
    ensures WInv(cfg, NextW(cfg, w, e))
  {
    match e
    case PutOn => plain := None;
    case TakeOff(m, first) =>
      plain := Some(RoundStep(w.s, m, first));
      TakeOffIs(cfg, w.s, m, first);
      StepOk(cfg, w.s, plain.value);
      TakenOffOk(cfg, w.s, m, first);
    case Whole(step) =>
      plain := Some(step);
      StepOkSettled(cfg, w, step);
  }

  lemma StepOkSettled(cfg: Config, w: Window, step: Step)
    requires WInv(cfg, w) && CanW(cfg, w, Whole(step)) && !Harmful(w, Whole(step))
    ensures Shaped(cfg, Settled(w)) && CanStep(cfg, Settled(w), step)
    ensures var w' := NextW(cfg, w, Whole(step));
            Settled(w') == Next(cfg, Settled(w), step) && WInv(cfg, w')
  {
    if w.moving.Moving? {
      QuietCommutes(cfg, w.s, w.moving.m, w.moving.at, step);
      QuietKeeps(cfg, w.s, w.moving.at, step);
    }
    hide CanStep, Next, Quiet, Harmful;
    StepOk(cfg, Settled(w), step);
  }

  lemma QuietKeeps(cfg: Config, s: State, at: nat, step: Step)
    requires TablesOk(cfg, s) && CanStep(cfg, s, step) && Quiet(cfg, s, at, step)
    ensures var s' := Next(cfg, s, step);
            s'.lazy == s.lazy && s'.delayed == s.delayed && (!s.kind.Unset? ==> s'.kind == s.kind)
  {
    hide Search;
    if step.PostMd? {
      EarlyReturn(cfg, s, step.c, step.p, step.k, step.md);
    }
  }

  lemma TakenOffOk(cfg: Config, s: State, m: nat, first: nat)
    requires Inv(cfg, s) && CanTakeOff(cfg, s, m, first)
    ensures var w := TakenOff(cfg, s, m, first);
            && m in w.s.msgs && w.s.msgs[m].phase.Entering? && m !in w.s.delayed && w.s.lazy && w.s.kind.Wildcard?
  {
    hide Search;
    assert MsgOk(cfg, s, s.msgs[m]);
  }

  /** A run of the portal with its windows, from a portal just set up. */
  ghost predicate WRun(cfg: Config, ws: seq<Window>, es: seq<WStep>) {
    && ValidConfig(cfg) && |ws| == |es| + 1 && ws[0] == Window(Init(cfg), Nobody)
    && forall i :: 0 <= i < |es| ==> CanW(cfg, ws[i], es[i]) && ws[i + 1] == NextW(cfg, ws[i], es[i])
  }

  lemma {:induction false} WRunOk(cfg: Config, ws: seq<Window>, es: seq<WStep>, i: nat)
    requires WRun(cfg, ws, es) && i <= |es| && forall j :: 0 <= j < i ==> !Harmful(ws[j], es[j])
    ensures WInv(cfg, ws[i])
  {
    if i == 0 {
      InitOk(cfg);
    } else {
      WRunOk(cfg, ws, es, i - 1);
      hide WInv, CanW, NextW, Harmful;
      var _ := Refines(cfg, ws[i - 1], es[i - 1]);
      assert ws[(i - 1) + 1] == NextW(cfg, ws[i - 1], es[i - 1]);
    }
  }

  /** No lost wake-up, the unlocked look included: as long as no poster looks while
      a PUT that its MD would take is on the move, no PUT is on the delayed list
      while any attached MD would take it. */
  lemma NoLostWakeupUnlocked(cfg: Config, ws: seq<Window>, es: seq<WStep>, i: nat, m: nat, c: nat, p: nat, k: nat)
    requires WRun(cfg, ws, es) && i <= |es| && forall j :: 0 <= j < i ==> !Harmful(ws[j], es[j])
    ensures var s := ws[i].s;
            m in s.delayed && MeAt(cfg, s, c, p, k) ==>
              m in s.msgs && !LiveMatch(s.tables[c].mhash[p][k], s.msgs[m].info)
  {
    WRunOk(cfg, ws, es, i);
    var s, d := ws[i].s, Settled(ws[i]);
    if m in s.delayed && MeAt(cfg, s, c, p, k) {
      assert m in d.delayed;
      assert MsgOk(cfg, d, d.msgs[m]);
      assert NoMatchIn(d.tables[c], d.msgs[m].info);
      assert NoMatchOn(d.tables[c].mhash[p], d.msgs[m].info);
    }
  }

  /** An attached MD that would take the delayed PUT. */
  ghost predicate Lost(cfg: Config, s: State, m: nat, c: nat, p: nat, k: nat) {
    && m in s.msgs && m in s.delayed && MeAt(cfg, s, c, p, k)
    && LiveMatch(s.tables[c].mhash[p][k], s.msgs[m].info)
  }

  /** And exactly such a look loses one: whatever quiet step comes while a PUT is on
      the move, once the PUT is on the delayed list some MD would take it if and
      only if the step was a poster's look with an MD that would. */
  lemma LostExactly(cfg: Config, w: Window, step: Step)
    requires WInv(cfg, w) && w.moving.Moving? && CanW(cfg, w, Whole(step))
    ensures var w' := NextW(cfg, w, Whole(step));
            && CanW(cfg, w', PutOn)
            && (Harmful(w, Whole(step)) <==>
                  exists c: nat, p: nat, k: nat :: Lost(cfg, NextW(cfg, w', PutOn).s, w.moving.m, c, p, k))
  {
    var m := w.moving.m;
    var w' := NextW(cfg, w, Whole(step));
    if Harmful(w, Whole(step)) {
      EarlyReturn(cfg, w.s, step.c, step.p, step.k, step.md);
      assert Lost(cfg, NextW(cfg, w', PutOn).s, m, step.c, step.p, step.k);
    } else {
      StepOkSettled(cfg, w, step);
      var s := Settled(w');
      forall c: nat, p: nat, k: nat ensures !Lost(cfg, s, m, c, p, k) {
        if MeAt(cfg, s, c, p, k) {
          assert MsgOk(cfg, s, s.msgs[m]);
          assert NoMatchIn(s.tables[c], s.msgs[m].info);
          assert NoMatchOn(s.tables[c].mhash[p], s.msgs[m].info);
        }
      }
    }
  }
}
