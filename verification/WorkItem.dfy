/** The work-item scheduler: threads take items off the run queue and run their
    actions; an item that is scheduled while its action runs waits on the rerun
    queue and goes to the end of the run queue when the action returns.

    Each step is one section under the scheduler's lock. A step that would fail an
    assertion of the code makes the state `bad`. Two obligations are the caller's:
    an action returns non-zero exactly when it has called `cfs_wi_exit`, and from
    then on nobody schedules or deschedules the item. */
module WorkItem {
  import opened Queues

  /** `exited` is what the caller is to remember, not a field of the code's. */
  datatype Item = Item(scheduled: bool, running: bool, exited: bool)

  datatype State = State(
    items: map<nat, Item>, runq: seq<nat>, rerunq: seq<nat>, nscheduled: int,
    threads: map<nat, nat>, bad: bool)

  datatype Step =
    | New(w: nat)
    | Schedule(w: nat)
    | Deschedule(w: nat)
    | Start(t: nat)
    | Exit(t: nat)
    | Return(t: nat)

  predicate Live(s: State, w: nat) { w in s.items && !s.items[w].exited }

  predicate CanStep(s: State, e: Step) {
    match e
    case New(w) => w !in s.items
    case Schedule(w) => Live(s, w)
    case Deschedule(w) => Live(s, w)
    case Start(t) => t !in s.threads && s.runq != []
    case Exit(t) => t in s.threads && Live(s, s.threads[t])
    case Return(t) => t in s.threads && s.threads[t] in s.items
  }

  function Without(q: seq<nat>, w: nat): seq<nat> {
    if q == [] then [] else if q[0] == w then q[1..] else [q[0]] + Without(q[1..], w)
  }

  predicate OnList(s: State, w: nat) { w in s.runq || w in s.rerunq }

  /** `list_del_init` from whichever queue the item is on. */
  function Unlist(s: State, w: nat): State {
    s.(runq := Without(s.runq, w), rerunq := Without(s.rerunq, w))
  }

  function SetItem(s: State, w: nat, x: Item): State { s.(items := s.items[w := x]) }

  function Check(s: State, ok: bool): State { if ok then s else s.(bad := true) }

  /** `cfs_wi_schedule`. */
  function DoSchedule(s: State, w: nat): State
    requires w in s.items
  {
    var x := s.items[w];
    if x.scheduled then Check(s, OnList(s, w))
    else
      var s1 := Check(SetItem(s, w, x.(scheduled := true)).(nscheduled := s.nscheduled + 1), !OnList(s, w));
      if x.running then s1.(rerunq := [w] + s1.rerunq) else s1.(runq := s1.runq + [w])
  }

  /** The cancelling that `cfs_wi_deschedule` and `cfs_wi_exit` share. */
  function Cancel(s: State, w: nat): State
    requires w in s.items
  {
    if s.items[w].scheduled then
      var s' := Check(Unlist(s, w).(nscheduled := s.nscheduled - 1), OnList(s, w) && s.nscheduled > 0);
      Check(s', !OnList(s', w))
    else Check(s, !OnList(s, w))
  }

  function DoDeschedule(s: State, w: nat): State
    requires w in s.items
  {
    SetItem(Cancel(s, w), w, s.items[w].(scheduled := false))
  }

  function DoExit(s: State, w: nat): State
    requires w in s.items
  {
    SetItem(Check(Cancel(s, w), s.items[w].running), w, s.items[w].(scheduled := true, exited := true))
  }

  /** A scheduler thread takes the first item. */
  function DoStart(s: State, t: nat): State
    requires s.runq != []
  {
    var w := s.runq[0];
    if w !in s.items then s.(bad := true)
    else
      var x := s.items[w];
      Check(SetItem(s, w, x.(running := true, scheduled := false)), x.scheduled && !x.running && s.nscheduled > 0)
      .(runq := s.runq[1..], nscheduled := s.nscheduled - 1, threads := s.threads[t := w])
  }

  /** Its action has returned. */
  function DoReturn(s: State, t: nat): State
    requires t in s.threads && s.threads[t] in s.items
  {
    var w := s.threads[t];
    var s1 := s.(threads := s.threads - {t});
    if s.items[w].exited then s1.(items := s.items - {w})
    else
      var s2 := SetItem(s1, w, s.items[w].(running := false));
      if !OnList(s2, w) then s2
      else Check(Unlist(s2, w).(runq := Without(s2.runq, w) + [w]), s.items[w].scheduled)
  }

  function Next(s: State, e: Step): State
    requires CanStep(s, e)
  {
    match e
    case New(w) => SetItem(s, w, Item(false, false, false))
    case Schedule(w) => DoSchedule(s, w)
    case Deschedule(w) => DoDeschedule(s, w)
    case Start(t) => DoStart(s, t)
    case Exit(t) => DoExit(s, s.threads[t])
    case Return(t) => DoReturn(s, t)
  }

  // ---------------------------------------------------------------- the invariant

  lemma {:induction false} WithoutIs(q: seq<nat>, w: nat)
    requires NoDup(q)
    ensures NoDup(Without(q, w)) && (forall k :: k in Without(q, w) <==> k in q && k != w)
    ensures |Without(q, w)| == |q| - (if w in q then 1 else 0)
    ensures w !in q ==> Without(q, w) == q
  {
    if q != [] {
      assert q == [q[0]] + q[1..];
      if q[0] != w {
        WithoutIs(q[1..], w);
        assert Without(q, w)[1..] == Without(q[1..], w);
      }
    }
  }

  /** The queue an item is on, decided by its flags. */
  ghost predicate QueuesOk(s: State) {
    && NoDup(s.runq) && NoDup(s.rerunq) && s.nscheduled == |s.runq| + |s.rerunq|
    && (forall w :: w in s.runq <==> Live(s, w) && s.items[w].scheduled && !s.items[w].running)
    && (forall w :: w in s.rerunq <==> Live(s, w) && s.items[w].scheduled && s.items[w].running)
  }

  /** An item runs on one thread or none. */
  ghost predicate ThreadsOk(s: State) {
    && (forall t :: t in s.threads ==> s.threads[t] in s.items && s.items[s.threads[t]].running)
    && (forall t, u :: t in s.threads && u in s.threads && s.threads[t] == s.threads[u] ==> t == u)
    && (forall w :: w in s.items && s.items[w].running ==> exists t :: t in s.threads && s.threads[t] == w)
    && (forall w :: w in s.items && s.items[w].exited ==> s.items[w].running && s.items[w].scheduled)
  }

  ghost predicate Inv(s: State) {
    !s.bad && QueuesOk(s) && ThreadsOk(s)
  }

  /** Who runs where does not depend on the other flags. */
  lemma ThreadsKept(s: State, s': State, w: nat)
    requires ThreadsOk(s) && w in s.items && w in s'.items && s'.threads == s.threads
               && s'.items == s.items[w := s'.items[w]]
    requires s'.items[w].running == s.items[w].running
    requires s'.items[w].exited ==> s'.items[w].running && s'.items[w].scheduled
    ensures ThreadsOk(s')
  {
  }

  lemma ScheduleOk(s: State, w: nat)
    requires Inv(s) && Live(s, w)
    ensures Inv(DoSchedule(s, w))
  {
    hide ThreadsOk;
    ThreadsKept(s, DoSchedule(s, w), w);
    if !s.items[w].scheduled {
      NoDupAppend(s.runq, w);
      assert ([w] + s.rerunq)[1..] == s.rerunq;
    }
  }

  lemma CancelIs(s: State, w: nat)
    requires !s.bad && QueuesOk(s) && Live(s, w)
    ensures var s' := Cancel(s, w);
            && !s'.bad && s' == s.(runq := s'.runq, rerunq := s'.rerunq, nscheduled := s'.nscheduled)
            && NoDup(s'.runq) && NoDup(s'.rerunq) && s'.nscheduled == |s'.runq| + |s'.rerunq|
            && (forall k :: k in s'.runq <==> k in s.runq && k != w)
            && (forall k :: k in s'.rerunq <==> k in s.rerunq && k != w)
            && s'.runq == Without(s.runq, w)
  {
    WithoutIs(s.runq, w);
    WithoutIs(s.rerunq, w);
    assert OnList(s, w) ==> |s.runq| + |s.rerunq| > 0;
  }

  /** An item that is taken off its queue and is no longer live and scheduled. */
  lemma CancelledQueues(s: State, s': State, w: nat)
    requires !s.bad && QueuesOk(s) && Live(s, w) && w in s'.items && s'.items == s.items[w := s'.items[w]]
    requires var c := Cancel(s, w); s'.runq == c.runq && s'.rerunq == c.rerunq && s'.nscheduled == c.nscheduled
    requires s'.items[w].exited || !s'.items[w].scheduled
    ensures QueuesOk(s')
  {
    hide Cancel, Without;
    CancelIs(s, w);
  }

  lemma DescheduleOk(s: State, w: nat)
    requires Inv(s) && Live(s, w)
    ensures Inv(DoDeschedule(s, w))
  {
    hide ThreadsOk, QueuesOk;
    CancelIs(s, w);
    CancelledQueues(s, DoDeschedule(s, w), w);
    ThreadsKept(s, DoDeschedule(s, w), w);
  }

  lemma ExitOk(s: State, t: nat)
    requires Inv(s) && CanStep(s, Exit(t))
    ensures Inv(DoExit(s, s.threads[t]))
  {
    var w := s.threads[t];
    assert s.items[w].running;
    hide ThreadsOk, QueuesOk;
    CancelIs(s, w);
    CancelledQueues(s, DoExit(s, w), w);
    ThreadsKept(s, DoExit(s, w), w);
  }

  lemma StartOk(s: State, t: nat)
    requires Inv(s) && CanStep(s, Start(t))
    ensures Inv(DoStart(s, t))
  {
    var w, s' := s.runq[0], DoStart(s, t);
    assert w in s.runq;
    assert forall k :: k in s.runq <==> k == w || k in s.runq[1..];
    forall k | k in s'.items && s'.items[k].running ensures exists u :: u in s'.threads && s'.threads[u] == k {
      if k == w {
        assert s'.threads[t] == k;
      } else {
        var u :| u in s.threads && s.threads[u] == k;
        assert s'.threads[u] == k;
      }
    }
  }

  lemma CheckKeeps(s: State, t: nat)
    requires CanStep(s, Return(t))
    ensures var s', w := DoReturn(s, t), s.threads[t];
            && s'.threads == s.threads - {t}
            && s'.items == if s.items[w].exited then s.items - {w} else s.items[w := s.items[w].(running := false)]
  {
  }

  lemma ReturnThreads(s: State, t: nat)
    requires ThreadsOk(s) && CanStep(s, Return(t))
    ensures ThreadsOk(DoReturn(s, t))
  {
    CheckKeeps(s, t);
    hide DoReturn;
    var s' := DoReturn(s, t);
    forall k | k in s'.items && s'.items[k].running ensures exists u :: u in s'.threads && s'.threads[u] == k {
      var u :| u in s.threads && s.threads[u] == k;
      assert u in s'.threads;
    }
  }

  lemma ReturnQueues(s: State, t: nat)
    requires !s.bad && QueuesOk(s) && CanStep(s, Return(t)) && s.items[s.threads[t]].running
    ensures QueuesOk(DoReturn(s, t)) && !DoReturn(s, t).bad
  {
    var w := s.threads[t];
    WithoutIs(s.runq, w);
    WithoutIs(s.rerunq, w);
    NoDupAppend(s.runq, w);
  }

  lemma ReturnOk(s: State, t: nat)
    requires Inv(s) && CanStep(s, Return(t))
    ensures Inv(DoReturn(s, t))
  {
    ReturnThreads(s, t);
    ReturnQueues(s, t);
  }

  lemma NewOk(s: State, w: nat)
    requires Inv(s) && w !in s.items
    ensures Inv(Next(s, New(w)))
  {
  }

  lemma StepOk(s: State, e: Step)
    requires Inv(s) && CanStep(s, e)
    ensures Inv(Next(s, e))
  {
    hide Inv;
    match e
    case New(w) => NewOk(s, w);
    case Schedule(w) => ScheduleOk(s, w);
    case Deschedule(w) => DescheduleOk(s, w);
    case Start(t) => StartOk(s, t);
    case Exit(t) => ExitOk(s, t);
    case Return(t) => ReturnOk(s, t);
  }

  // ---------------------------------------------------------------- runs

  predicate Initial(s: State) { s == State(map[], [], [], 0, map[], false) }

  ghost predicate Run(states: seq<State>, steps: seq<Step>) {
    && |states| == |steps| + 1 && Initial(states[0])
    && forall i :: 0 <= i < |steps| ==> CanStep(states[i], steps[i]) && states[i + 1] == Next(states[i], steps[i])
  }

  lemma {:induction false} RunOk(states: seq<State>, steps: seq<Step>, i: nat)
    requires Run(states, steps) && i <= |steps|
    ensures Inv(states[i])
  {
    if i > 0 {
      RunOk(states, steps, i - 1);
      StepOk(states[i - 1], steps[i - 1]);
    }
  }

  /** At any moment of any run: no assertion of the code has failed, an item is on
      the run queue exactly when it is scheduled and not running, on the rerun
      queue exactly when it is scheduled, running and has not exited; it runs on
      one thread at most; and the count is that of the two queues. */
  lemma Scheduling(states: seq<State>, steps: seq<Step>, i: nat, w: nat)
    requires Run(states, steps) && i <= |steps| && w in states[i].items
    ensures var s, x := states[i], states[i].items[w];
            && !s.bad && s.nscheduled == |s.runq| + |s.rerunq|
            && (w in s.runq <==> x.scheduled && !x.running)
            && (w in s.rerunq <==> x.scheduled && x.running && !x.exited)
            && (x.running <==> exists t :: t in s.threads && s.threads[t] == w)
            && (forall t, u :: t in s.threads && u in s.threads && s.threads[t] == w == s.threads[u] ==> t == u)
  {
    RunOk(states, steps, i);
  }

  /** The step starts item `w`. */
  predicate StartsItem(s: State, e: Step, w: nat) { e.Start? && s.runq != [] && s.runq[0] == w }

  /** It starts it or cancels it. */
  predicate Settles(s: State, e: Step, w: nat) {
    || StartsItem(s, e, w) || e == Deschedule(w)
    || (e.Exit? && e.t in s.threads && s.threads[e.t] == w)
  }

  lemma StillQueued(s: State, e: Step, w: nat)
    requires Inv(s) && CanStep(s, e) && OnList(s, w) && !Settles(s, e, w)
    ensures OnList(Next(s, e), w)
  {
    match e
    case Deschedule(k) => CancelIs(s, k);
    case Exit(t) => CancelIs(s, s.threads[t]);
    case Return(t) => WithoutIs(s.runq, s.threads[t]); WithoutIs(s.rerunq, s.threads[t]);
    case Start(t) => assert s.runq[0] in s.runq && s.runq == [s.runq[0]] + s.runq[1..];
    case _ =>
  }

  /** No accepted schedule is lost: from the call on the item is on a queue until
      it starts or is cancelled. */
  lemma {:induction false} NoLostSchedule(states: seq<State>, steps: seq<Step>, i: nat, j: nat, w: nat)
    requires Run(states, steps) && i < j <= |steps| && steps[i] == Schedule(w)
    requires forall k :: i < k < j ==> !Settles(states[k], steps[k], w)
    ensures OnList(states[j], w)
  {
    RunOk(states, steps, j - 1);
    if j == i + 1 {
      ScheduleListed(states[i], w);
    } else {
      NoLostSchedule(states, steps, i, j - 1, w);
      StillQueued(states[j - 1], steps[j - 1], w);
    }
  }

  lemma ScheduleListed(s: State, w: nat)
    requires Inv(s) && Live(s, w)
    ensures OnList(DoSchedule(s, w), w)
  {
  }

  /** How many items are started by steps `i` to `j`. */
  ghost function Starts(steps: seq<Step>, i: nat, j: nat): nat
    requires i <= j <= |steps|
    decreases j
  {
    if i == j then 0 else Starts(steps, i, j - 1) + (if steps[j - 1].Start? then 1 else 0)
  }

  lemma {:induction false} WithoutAt(q: seq<nat>, w: nat, p: nat) returns (p': nat)
    requires p < |q| && q[p] != w
    ensures p' <= p && p' < |Without(q, w)| && Without(q, w)[p'] == q[p]
  {
    if q[0] == w {
      p' := p - 1;
    } else if p == 0 {
      p' := 0;
    } else {
      p' := WithoutAt(q[1..], w, p - 1);
      p' := p' + 1;
    }
  }

  /** An item moves up by one with every start, and never back. */
  lemma MovesUp(s: State, e: Step, p: nat) returns (p': nat)
    requires Inv(s) && CanStep(s, e) && p < |s.runq| && !StartsItem(s, e, s.runq[p]) && e != Deschedule(s.runq[p])
    ensures p' < |Next(s, e).runq| && Next(s, e).runq[p'] == s.runq[p]
    ensures p' <= p - (if e.Start? then 1 else 0)
  {
    var w := s.runq[p];
    assert w in s.runq;
    match e
    case Deschedule(k) => CancelIs(s, k); p' := WithoutAt(s.runq, k, p);
    case Exit(t) => assert w != s.threads[t]; CancelIs(s, s.threads[t]); p' := WithoutAt(s.runq, s.threads[t], p);
    case Return(t) => assert w != s.threads[t]; WithoutIs(s.runq, s.threads[t]); p' := p;
    case Start(t) => assert s.runq[0] in s.runq; p' := p - 1;
    case _ => p' := p;
  }

  /** An item at position `p` of the run queue starts within `p` further starts:
      as long as it has not, and is not cancelled, its position and the starts
      since then do not add up to more than `p`. */
  lemma {:induction false} StartsWithin(states: seq<State>, steps: seq<Step>, i: nat, j: nat, p: nat) returns (p': nat)
    requires Run(states, steps) && i <= j <= |steps| && p < |states[i].runq|
    requires var w := states[i].runq[p];
             forall k :: i <= k < j ==> !StartsItem(states[k], steps[k], w) && steps[k] != Deschedule(w)
    ensures p' < |states[j].runq| && states[j].runq[p'] == states[i].runq[p]
    ensures p' + Starts(steps, i, j) <= p
  {
    if i == j {
      p' := p;
    } else {
      p' := StartsWithin(states, steps, i, j - 1, p);
      RunOk(states, steps, j - 1);
      p' := MovesUp(states[j - 1], steps[j - 1], p');
    }
  }

  // ---------------------------------------------------------------- the scheduler object

  class WiSched {
    var items: map<nat, Item>
    var runq: seq<nat>
    var rerunq: seq<nat>
    var nscheduled: int
    var threads: map<nat, nat>

    ghost function St(): State
      reads this
    {
      State(items, runq, rerunq, nscheduled, threads, false)
    }

    /** `list_del_init`. */
    method Remove(w: nat)
      modifies `runq, `rerunq
      ensures St() == Unlist(old(St()), w)
    {
      runq := Without(runq, w);
      rerunq := Without(rerunq, w);
    }

    /** `cfs_wi_schedule`. */
    method ScheduleItem(w: nat)
      requires Inv(St()) && Live(St(), w)
      modifies this
      ensures Inv(St()) && St() == DoSchedule(old(St()), w)
    {
      ScheduleOk(St(), w);
      if !items[w].scheduled {
        items := items[w := items[w].(scheduled := true)];
        nscheduled := nscheduled + 1;
        if !items[w].running {
          runq := runq + [w];
        } else {
          rerunq := [w] + rerunq;
        }
      }
      assert St() == DoSchedule(old(St()), w);
      hide Inv;
    }

    /** `cfs_wi_deschedule`: the item is on no queue, and the result is true exactly
        when no thread runs it. */
    method DescheduleItem(w: nat) returns (idle: bool)
      requires Inv(St()) && Live(St(), w)
      modifies this
      ensures Inv(St()) && St() == DoDeschedule(old(St()), w)
      ensures !OnList(St(), w) && (idle <==> forall t :: t in threads ==> threads[t] != w)
    {
      DescheduleOk(St(), w);
      CancelIs(St(), w);
      assert forall t :: t in threads ==> items[threads[t]].running;
      hide Inv;
      idle := !items[w].running;
      if items[w].scheduled {
        Remove(w);
        nscheduled := nscheduled - 1;
      }
      items := items[w := items[w].(scheduled := false)];
    }

    /** `cfs_wi_exit`, called by the action of the item on thread `t`. */
    method ExitItem(t: nat)
      requires Inv(St()) && CanStep(St(), Exit(t))
      modifies this
      ensures Inv(St()) && St() == DoExit(old(St()), old(threads)[t])
    {
      ExitOk(St(), t);
      CancelIs(St(), threads[t]);
      hide Inv;
      var w := threads[t];
      if items[w].scheduled {
        Remove(w);
        nscheduled := nscheduled - 1;
      }
      items := items[w := items[w].(scheduled := true, exited := true)];
    }

    /** The head of the loop in `cfs_wi_scheduler`, up to the call of the action. */
    method TakeNext(t: nat) returns (w: nat)
      requires Inv(St()) && t !in threads && runq != []
      modifies this
      ensures Inv(St()) && St() == DoStart(old(St()), t)
      ensures w == old(runq)[0] && t in threads && threads[t] == w
    {
      StartOk(St(), t);
      assert runq[0] in runq && Live(St(), runq[0]);
      w := runq[0];
      runq := runq[1..];
      nscheduled := nscheduled - 1;
      items := items[w := items[w].(running := true, scheduled := false)];
      threads := threads[t := w];
      assert St() == DoStart(old(St()), t);
      hide Inv;
    }

    /** The rest of the loop's body; `rc` is what the action returned. */
    method ActionDone(t: nat, rc: int)
      requires Inv(St()) && CanStep(St(), Return(t)) && (rc != 0 <==> items[threads[t]].exited)
      modifies this
      ensures Inv(St()) && St() == DoReturn(old(St()), t)
    {
      ReturnOk(St(), t);
      hide Inv;
      var w := threads[t];
      threads := threads - {t};
      if rc != 0 {
        items := items - {w};
        return;
      }
      items := items[w := items[w].(running := false)];
      if w in runq || w in rerunq {
        Remove(w);
        runq := runq + [w];
      }
    }
  }
}
