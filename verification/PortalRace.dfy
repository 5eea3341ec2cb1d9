/** A run in which a wake-up is lost: two tables, a PUT that has found nothing in
    either, and a buffer posted to the first while the PUT goes from the stealing
    list to the delayed one. */
module PortalRace {
  import opened MatchEntry
  import opened MatchTable
  import opened PortalProtocol
  import opened PortalSafety
  import opened PortalRuns
  import opened PortalWindow
  import opened Options

  function TwoCpts(): Config { Config(2, _ => 0, (_, _) => 0) }

  /** Matches PUTs of NID 7 only, and anybody's. */
  const OTHERS: Criteria := Criteria(ProcessId(7, PID_ANY), 0, 1)
  const ANYBODY: Criteria := Criteria(ProcessId(NID_ANY, PID_ANY), 0, 1)

  const BUFFER: Md := Md(0, true, false, false, true, false, None, 4096, 0, THRESH_INF)

  const REQUEST: Info := Info(ProcessId(5, 0), Put, 0, 10, 0)

  function Entry(crit: Criteria, md: Option<Md>): Me { Me(0, crit, false, md) }

  /** A table with nothing but its list of entries with ignore bits. */
  function Tab(list: seq<Me>, empty: bool): Table {
    Table(seq(NLISTS, p => if p == HASH_IGNORE then list else []), seq(NLISTS, p => p != HASH_IGNORE || empty), !empty)
  }

  const ONLY_OTHERS: seq<Me> := [Entry(OTHERS, Some(BUFFER))]

  const ROOM_FOR_ANYBODY: seq<Me> := [Entry(OTHERS, Some(BUFFER)), Entry(ANYBODY, None)]

  /** In each table a buffer for others, and in the first room for anybody's. */
  function Ready(stealing: seq<nat>, msgs: map<nat, Msg>): State {
    State(Wildcard, true, [Tab(ROOM_FOR_ANYBODY, false), Tab(ONLY_OTHERS, false)], [0, 1], stealing, [], msgs)
  }

  lemma BitsDo()
    ensures BitsMatch(ANYBODY, 0) && (1 as bv64) != 0
  {
  }

  lemma Buffers()
    ensures WellFormed(BUFFER) && !Exhausted(BUFFER)
    ensures Accepts(ANYBODY, BUFFER, REQUEST) && !Accepts(OTHERS, BUFFER, REQUEST)
  {
    BitsDo();
  }

  /** The search finds nothing and leaves the table as it is. */
  lemma SearchMisses(list: seq<Me>)
    requires list == ONLY_OTHERS || list == ROOM_FOR_ANYBODY
    ensures var t := Tab(list, false); Search(TwoCpts(), Wildcard, t, REQUEST) == Nowhere(false, t.exhausted)
  {
    Buffers();
    var t := Tab(list, false);
    hide BitsMatch, Accepts, Exhausted;
    assert NoMatchOn(list, REQUEST);
    assert list[0..] == list;
    assert !Spent(list) by {
      assert list[0].md == Some(BUFFER);
    }
    var first := Pass(Wildcard, t, t.exhausted, HASH_IGNORE, REQUEST);
    assert first == Nowhere(false, t.exhausted);
    assert !AllSet(t.exhausted) by {
      assert !t.exhausted[HASH_IGNORE];
    }
    var own := WildcardPos(REQUEST.mbits);
    assert t.mhash[own] == [];
    assert t.exhausted[own := true] == t.exhausted;
  }

  /** So does a round of the stealing loop, or the first attempt. */
  lemma MatchMisses(s: State, c: nat, list: seq<Me>)
    requires Shaped(TwoCpts(), s) && s.kind.Wildcard? && c < 2 && s.tables[c] == Tab(list, false)
    requires list == ONLY_OTHERS || list == ROOM_FOR_ANYBODY
    ensures MatchIn(TwoCpts(), s, c, REQUEST) == Unmatched(s)
  {
    SearchMisses(list);
    hide Search;
    assert s.tables[c := s.tables[c]] == s.tables;
  }

  ghost predicate Harmless(ws: seq<Window>, es: seq<WStep>) {
    |ws| == |es| + 1 && WRun(TwoCpts(), ws, es) && forall j :: 0 <= j < |es| ==> !Harmful(ws[j], es[j])
  }

  lemma More(ws: seq<Window>, es: seq<WStep>, e: WStep, w: Window) returns (ws': seq<Window>, es': seq<WStep>)
    requires Harmless(ws, es) && ws[|es|].moving.Nobody?
    requires CanW(TwoCpts(), ws[|es|], e) && w == NextW(TwoCpts(), ws[|es|], e)
    ensures Harmless(ws', es') && |ws'| == |es'| + 1 && ws'[|es'|] == w
  {
    hide CanW, NextW;
    ws', es' := ws + [w], es + [e];
  }

  lemma MoreWhole(ws: seq<Window>, es: seq<WStep>, s: State, step: Step, s': State)
    returns (ws': seq<Window>, es': seq<WStep>)
    requires Harmless(ws, es) && |ws| == |es| + 1 && ws[|es|] == Window(s, Nobody)
    requires Shaped(TwoCpts(), s) && CanStep(TwoCpts(), s, step) && s' == Next(TwoCpts(), s, step)
    ensures Harmless(ws', es') && |ws'| == |es'| + 1 && ws'[|es'|] == Window(s', Nobody)
  {
    hide Harmless, CanStep, Next;
    ws', es' := More(ws, es, Whole(step), Window(s', Nobody));
  }

  lemma ListPut(list: seq<Me>, list': seq<Me>, empty: bool)
    ensures Tab(list, empty).(mhash := Tab(list, empty).mhash[HASH_IGNORE := list']) == Tab(list', empty)
    ensures Tab(list, empty).exhausted[HASH_IGNORE := false] == Tab(list, false).exhausted
    ensures |Tab(list, empty).mhash| == |Tab(list, empty).exhausted| == NLISTS
              && Tab(list, empty).mhash[HASH_IGNORE] == list
  {
  }

  /** Adding an entry to a table of a portal with nothing queued. */
  lemma PostMeIs(s: State, c: nat, list: seq<Me>, empty: bool, crit: Criteria)
    requires Shaped(TwoCpts(), s) && c < 2 && s.tables[c] == Tab(list, empty) && crit.ignore != 0 && !s.kind.Unique?
    ensures var step := PostMe(c, Entry(crit, None), true);
            && CanStep(TwoCpts(), s, step)
            && Next(TwoCpts(), s, step) ==
                 s.(kind := Wildcard, tables := s.tables[c := Tab(list + [Entry(crit, None)], empty)])
  {
    ListPut(list, list + [Entry(crit, None)], empty);
    hide Tab;
  }

  /** And giving it a buffer. */
  lemma PostMdIs(s: State, c: nat, list: seq<Me>, empty: bool, k: nat)
    requires Shaped(TwoCpts(), s) && c < 2 && s.tables[c] == Tab(list, empty) && s.kind.Wildcard?
    requires s.stealing == [] && s.delayed == [] && s.msgs == map[] && k < |list| && list[k].md.None?
    ensures var step := PostMd(c, HASH_IGNORE, k, BUFFER);
            && CanStep(TwoCpts(), s, step)
            && Next(TwoCpts(), s, step) ==
                 s.(tables := s.tables[c := Tab(list[k := list[k].(md := Some(BUFFER))], false)],
                    maps := if empty then InsertSorted(s.maps, c) else s.maps)
  {
    Buffers();
    var list' := list[k := list[k].(md := Some(BUFFER))];
    ListPut(list, list', empty);
    ListPut(list', list', empty);
    assert Tab(list', empty).(exhausted := Tab(list', false).exhausted, enabled := true) == Tab(list', false);
    assert Resolve(s.msgs, map[], map[]) == s.msgs;
    hide WellFormed, Exhausted;
  }

  function Posting(kind: Kind, a: seq<Me>, noA: bool, b: seq<Me>, noB: bool, maps: seq<nat>): State {
    State(kind, true, [Tab(a, noA), Tab(b, noB)], maps, [], [], map[])
  }

  lemma PostingShaped(kind: Kind, a: seq<Me>, noA: bool, b: seq<Me>, noB: bool, maps: seq<nat>)
    ensures Shaped(TwoCpts(), Posting(kind, a, noA, b, noB, maps))
  {
    ListPut(a, a, noA);
    ListPut(b, b, noB);
  }

  lemma LazyIs()
    ensures Shaped(TwoCpts(), Init(TwoCpts())) && CanStep(TwoCpts(), Init(TwoCpts()), SetLazy)
    ensures Next(TwoCpts(), Init(TwoCpts()), SetLazy) == Posting(Unset, [], true, [], true, [])
  {
    assert Tab([], true) == Table(seq(NLISTS, _ => []), seq(NLISTS, _ => true), false);
    assert Init(TwoCpts()).tables == [Tab([], true), Tab([], true)];
  }

  lemma FirstTable() returns (ws: seq<Window>, es: seq<WStep>)
    ensures Harmless(ws, es) && |ws| == |es| + 1
    ensures ws[|es|] == Window(Posting(Wildcard, ONLY_OTHERS, false, [], true, [0]), Nobody)
  {
    var s0, s1 := Init(TwoCpts()), Posting(Unset, [], true, [], true, []);
    ws, es := [Window(s0, Nobody)], [];
    assert Harmless(ws, es);
    LazyIs();
    hide Tab, CanStep, Next, Harmless, Shaped, Init, TwoCpts;
    ws, es := MoreWhole(ws, es, s0, SetLazy, s1);
    var e := [Entry(OTHERS, None)];
    var s2 := Posting(Wildcard, e, true, [], true, []);
    PostingShaped(Unset, [], true, [], true, []);
    PostMeIs(s1, 0, [], true, OTHERS);
    assert [] + e == e && s1.tables[0 := Tab(e, true)] == s2.tables;
    ws, es := MoreWhole(ws, es, s1, PostMe(0, Entry(OTHERS, None), true), s2);
    var s3 := Posting(Wildcard, ONLY_OTHERS, false, [], true, [0]);
    PostingShaped(Wildcard, e, true, [], true, []);
    PostMdIs(s2, 0, e, true, 0);
    assert e[0 := e[0].(md := Some(BUFFER))] == ONLY_OTHERS && InsertSorted([], 0) == [0];
    assert s2.tables[0 := Tab(ONLY_OTHERS, false)] == s3.tables;
    ws, es := MoreWhole(ws, es, s2, PostMd(0, HASH_IGNORE, 0, BUFFER), s3);
  }

  /** The portal made ready. */
  lemma GetReady() returns (ws: seq<Window>, es: seq<WStep>)
    ensures Harmless(ws, es) && |ws| == |es| + 1 && ws[|es|] == Window(Ready([], map[]), Nobody)
  {
    hide Tab, CanStep, Next, Harmless, Shaped, Init, TwoCpts;
    ws, es := FirstTable();
    var s3, e := Posting(Wildcard, ONLY_OTHERS, false, [], true, [0]), [Entry(OTHERS, None)];
    var s4 := Posting(Wildcard, ROOM_FOR_ANYBODY, false, [], true, [0]);
    PostingShaped(Wildcard, ONLY_OTHERS, false, [], true, [0]);
    PostMeIs(s3, 0, ONLY_OTHERS, false, ANYBODY);
    assert ONLY_OTHERS + [Entry(ANYBODY, None)] == ROOM_FOR_ANYBODY;
    assert s3.tables[0 := Tab(ROOM_FOR_ANYBODY, false)] == s4.tables;
    ws, es := MoreWhole(ws, es, s3, PostMe(0, Entry(ANYBODY, None), true), s4);
    var s5 := Posting(Wildcard, ROOM_FOR_ANYBODY, false, e, true, [0]);
    PostingShaped(Wildcard, ROOM_FOR_ANYBODY, false, [], true, [0]);
    PostMeIs(s4, 1, [], true, OTHERS);
    assert [] + e == e && s4.tables[1 := Tab(e, true)] == s5.tables;
    ws, es := MoreWhole(ws, es, s4, PostMe(1, Entry(OTHERS, None), true), s5);
    PostingShaped(Wildcard, ROOM_FOR_ANYBODY, false, e, true, [0]);
    PostMdIs(s5, 1, e, true, 0);
    assert e[0 := e[0].(md := Some(BUFFER))] == ONLY_OTHERS && InsertSorted([0], 1) == [0, 1];
    assert s5.tables[1 := Tab(ONLY_OTHERS, false)] == Ready([], map[]).tables;
    ws, es := MoreWhole(ws, es, s5, PostMd(1, HASH_IGNORE, 0, BUFFER), Ready([], map[]));
  }

  function Asking(phase: Phase): map<nat, Msg> { map[9 := Msg(REQUEST, true, 0, phase)] }

  lemma ReadyShaped(stealing: seq<nat>, msgs: map<nat, Msg>)
    ensures Shaped(TwoCpts(), Ready(stealing, msgs))
  {
    ListPut(ROOM_FOR_ANYBODY, [], false);
    ListPut(ONLY_OTHERS, [], false);
  }

  /** The PUT comes, finds nothing in the first table, and goes on stealing. */
  lemma Asked()
    ensures var s := Ready([], map[]);
            Shaped(TwoCpts(), s) && CanStep(TwoCpts(), s, Arrive(9, REQUEST, true, 0))
            && Next(TwoCpts(), s, Arrive(9, REQUEST, true, 0)) == Ready([], Asking(Arriving))
    ensures var s := Ready([], Asking(Arriving));
            Shaped(TwoCpts(), s) && CanStep(TwoCpts(), s, First(9, 0))
            && Next(TwoCpts(), s, First(9, 0)) == Ready([], Asking(Entering))
    ensures var s := Ready([], Asking(Entering));
            Shaped(TwoCpts(), s) && CanStep(TwoCpts(), s, Enter(9, 0))
            && Next(TwoCpts(), s, Enter(9, 0)) == Ready([9], Asking(Stealing(0, 1)))
  {
    ReadyShaped([], map[]);
    ReadyShaped([], Asking(Arriving));
    ReadyShaped([], Asking(Entering));
    ReadyShaped([9], Asking(Entering));
    MatchMisses(Ready([], Asking(Arriving)), 0, ROOM_FOR_ANYBODY);
    MatchMisses(Ready([9], Asking(Entering)), 0, ROOM_FOR_ANYBODY);
    hide Tab, MatchIn;
  }

  /** In the last round it finds nothing either and comes off the stealing list. */
  lemma OnTheMove()
    ensures var s := Ready([9], Asking(Stealing(0, 1)));
            Shaped(TwoCpts(), s) && CanTakeOff(TwoCpts(), s, 9, 0)
            && TakenOff(TwoCpts(), s, 9, 0) == Window(Ready([], Asking(Entering)), Moving(9, 1))
  {
    ReadyShaped([9], Asking(Stealing(0, 1)));
    MatchMisses(Ready([9], Asking(Stealing(0, 1))), 1, ONLY_OTHERS);
    hide Tab, MatchIn;
    assert [9][1..] == [];
  }

  /** A run to a poster's look with a buffer that the PUT on the move would take. */
  lemma Race() returns (ws: seq<Window>, es: seq<WStep>, e: WStep)
    ensures WRun(TwoCpts(), ws, es) && CanW(TwoCpts(), ws[|es|], e) && Harmful(ws[|es|], e)
    ensures forall j :: 0 <= j < |es| ==> !Harmful(ws[j], es[j])
  {
    ws, es := GetReady();
    Asked();
    OnTheMove();
    e := Whole(PostMd(0, HASH_IGNORE, 1, BUFFER));
    LookIsQuiet();
    hide Tab, CanStep, Next, Shaped, TwoCpts, Quiet, CanTakeOff, TakenOff;
    ws, es := MoreWhole(ws, es, Ready([], map[]), Arrive(9, REQUEST, true, 0), Ready([], Asking(Arriving)));
    ws, es := MoreWhole(ws, es, Ready([], Asking(Arriving)), First(9, 0), Ready([], Asking(Entering)));
    ws, es := MoreWhole(ws, es, Ready([], Asking(Entering)), Enter(9, 0), Ready([9], Asking(Stealing(0, 1))));
    ws, es := More(ws, es, TakeOff(9, 0), Window(Ready([], Asking(Entering)), Moving(9, 1)));
  }

  lemma LookIsQuiet()
    ensures var w, e := Window(Ready([], Asking(Entering)), Moving(9, 1)), Whole(PostMd(0, HASH_IGNORE, 1, BUFFER));
            CanW(TwoCpts(), w, e) && Harmful(w, e)
  {
    Buffers();
    ReadyShaped([], Asking(Entering));
    ListPut(ROOM_FOR_ANYBODY, [], false);
    assert !Tab(ROOM_FOR_ANYBODY, false).exhausted[HASH_IGNORE];
    hide Tab, BitsMatch, WellFormed, Exhausted, Accepts;
  }
}
