/** A pool of router buffers of one size in one CPU partition.

    A routed message takes a credit of the pool and a free buffer, or waits. The
    number of buffers can be changed at any time: asking for fewer only lowers
    `req`, and buffers are thrown away as they come back; asking for more
    allocates outside the lock, joins the new buffers to the pool and hands them
    to waiting messages one at a time, letting go of the lock after each. Such
    changes come one after another, since every caller holds the API mutex. */
module RouterPool {
  import opened Queues

  /** Where the thread inside `lnet_rtrpool_adjust_bufs`, if there is one, has let
      go of the lock: while it allocates, or after it has handed out a buffer. */
  datatype Adjuster = Idle | Allocating(oldReq: nat, num: nat) | Serving

  /** `owned` is the buffer each message has. */
  datatype Pool = Pool(
    credits: int, req: nat, nbuffers: int,
    bufs: seq<nat>, msgs: seq<nat>, owned: map<nat, nat>,
    adjuster: Adjuster)

  datatype Step =
    | Recv(m: nat)
    | Return(m: nat)
    | Adjust(nbufs: nat)
    | AllocFailed
    | Join(added: seq<nat>)
    | ServeMore

  predicate CanStep(p: Pool, e: Step) {
    match e
    case Recv(m) => m !in p.owned && m !in p.msgs
    case Return(m) => m in p.owned
    case Adjust(_) => p.adjuster.Idle?
    case AllocFailed => p.adjuster.Allocating?
    case Join(added) =>
      && p.adjuster.Allocating? && |added| == p.adjuster.num
      && NoDup(added) && forall b :: b in added ==> b !in p.bufs && b !in p.owned.Values
    case ServeMore => p.adjuster.Serving?
  }

  /** The end of `lnet_post_routed_recv_locked`: the message gets the first buffer. */
  function TakeBuf(p: Pool, m: nat): Pool
    requires p.bufs != []
  {
    p.(bufs := p.bufs[1..], owned := p.owned[m := p.bufs[0]])
  }

  /** `lnet_post_routed_recv_locked` once past the peer's gate. The code asserts
      that a credit means a buffer; `PoolConservation` shows that it does. */
  function PostRecv(p: Pool, m: nat): Pool {
    var q := p.(credits := p.credits - 1);
    if q.credits < 0 then q.(msgs := q.msgs + [m])
    else if q.bufs != [] then TakeBuf(q, m)
    else q
  }

  /** `lnet_schedule_blocked_locked`. */
  function ScheduleBlocked(p: Pool): Pool
    requires p.bufs != []
  {
    if p.msgs == [] then p else TakeBuf(p.(msgs := p.msgs[1..]), p.msgs[0])
  }

  predicate Discards(p: Pool) { p.credits >= p.req }

  /** `lnet_return_rx_credits_locked` with routing on. */
  function ReturnBuf(p: Pool, m: nat): Pool
    requires m in p.owned
  {
    var b, q := p.owned[m], p.(owned := p.owned - {m});
    if Discards(p) then q.(nbuffers := p.nbuffers - 1)
    else
      var r := q.(bufs := [b] + q.bufs, credits := q.credits + 1);
      if r.credits <= 0 then ScheduleBlocked(r) else r
  }

  /** The first section of `lnet_rtrpool_adjust_bufs`. */
  function AdjustReq(p: Pool, nbufs: nat): Pool {
    var q := p.(req := nbufs);
    if nbufs <= p.req || nbufs - p.nbuffers <= 0 then q
    else q.(adjuster := Allocating(p.req, nbufs - p.nbuffers))
  }

  /** No buffer idle while a message waits. */
  predicate Settled(p: Pool) { p.bufs == [] || p.msgs == [] }

  /** The loop that hands out buffers, from one test to the next: the lock is let
      go only after a buffer has been handed out. */
  function ServeOne(p: Pool): Pool {
    if Settled(p) then p.(adjuster := Idle) else ScheduleBlocked(p.(adjuster := Serving))
  }

  function JoinBufs(p: Pool, added: seq<nat>): Pool {
    p.(bufs := p.bufs + added, nbuffers := p.nbuffers + |added|, credits := p.credits + |added|)
  }

  function Next(p: Pool, e: Step): Pool
    requires CanStep(p, e)
  {
    match e
    case Recv(m) => PostRecv(p, m)
    case Return(m) => ReturnBuf(p, m)
    case Adjust(nbufs) => AdjustReq(p, nbufs)
    case AllocFailed => p.(req := p.adjuster.oldReq, adjuster := Idle)
    case Join(added) => ServeOne(JoinBufs(p, added))
    case ServeMore => ServeOne(p)
  }

  // ---------------------------------------------------------------- the invariant

  /** A buffer is free or owned by one message; a message waits or owns. */
  ghost predicate Apart(p: Pool) {
    && NoDup(p.bufs) && NoDup(p.msgs)
    && (forall m :: m in p.owned ==> p.owned[m] !in p.bufs && m !in p.msgs)
    && (forall m, k :: m in p.owned && k in p.owned && p.owned[m] == p.owned[k] ==> m == k)
  }

  predicate Counted(p: Pool) {
    p.credits == |p.bufs| - |p.msgs| && p.nbuffers == |p.bufs| + |p.owned|
  }

  /** While buffers are being added, those there are and those to come make up the
      number requested. */
  predicate Pending(p: Pool) {
    match p.adjuster
    case Idle => true
    case Allocating(_, num) => p.nbuffers + num == p.req
    case Serving => p.nbuffers == p.req
  }

  ghost predicate Inv(p: Pool) {
    Counted(p) && Apart(p) && Pending(p) && (Settled(p) || p.adjuster.Serving?)
  }

  lemma OwnedSize(owned: map<nat, nat>, m: nat, b: nat)
    ensures |owned[m := b]| == |owned| + (if m in owned then 0 else 1)
    ensures m in owned ==> |owned - {m}| == |owned| - 1
  {
  }

  lemma TakeBufOk(p: Pool, m: nat)
    requires Apart(p) && p.bufs != [] && m !in p.owned && m !in p.msgs
    ensures Apart(TakeBuf(p, m)) && |TakeBuf(p, m).owned| == |p.owned| + 1
  {
  }

  lemma ScheduleOk(p: Pool)
    requires Apart(p) && Counted(p) && p.bufs != []
    ensures Apart(ScheduleBlocked(p)) && Counted(ScheduleBlocked(p))
  {
  }

  lemma RecvOk(p: Pool, m: nat)
    requires Inv(p) && CanStep(p, Recv(m))
    ensures Inv(PostRecv(p, m))
  {
    if p.credits > 0 {
      TakeBufOk(p, m);
    } else {
      NoDupAppend(p.msgs, m);
    }
  }

  /** Nothing is thrown away while somebody waits or buffers are being added. */
  lemma Keeps(p: Pool, m: nat)
    requires Inv(p) && m in p.owned
    ensures Discards(p) ==> p.msgs == [] && p.adjuster.Idle? && |p.bufs| >= p.req
  {
    OwnedSize(p.owned, m, 0);
  }

  lemma ReturnOk(p: Pool, m: nat)
    requires Inv(p) && CanStep(p, Return(m))
    ensures Inv(ReturnBuf(p, m))
  {
    Keeps(p, m);
    OwnedSize(p.owned, m, 0);
    var b, q := p.owned[m], p.(owned := p.owned - {m});
    if !Discards(p) {
      var r := q.(bufs := [b] + q.bufs, credits := q.credits + 1);
      assert r.bufs[1..] == q.bufs;
      if r.credits <= 0 {
        ScheduleOk(r);
      }
    }
  }

  lemma ServeOk(p: Pool)
    requires Counted(p) && Apart(p) && p.nbuffers == p.req
    ensures Inv(ServeOne(p))
  {
    if !Settled(p) {
      ScheduleOk(p.(adjuster := Serving));
    }
  }

  lemma JoinOk(p: Pool, added: seq<nat>)
    requires Inv(p) && CanStep(p, Join(added))
    ensures Inv(Next(p, Join(added)))
  {
    NoDupConcat(p.bufs, added);
    var q := JoinBufs(p, added);
    forall m | m in q.owned ensures q.owned[m] !in q.bufs {
      assert p.owned[m] in p.owned.Values;
    }
    ServeOk(q);
  }

  lemma StepOk(p: Pool, e: Step)
    requires Inv(p) && CanStep(p, e)
    ensures Inv(Next(p, e))
  {
    match e
    case Recv(m) => RecvOk(p, m);
    case Return(m) => ReturnOk(p, m);
    case Join(added) => JoinOk(p, added);
    case ServeMore => ServeOk(p);
    case _ =>
  }

  /** The pool as `lnet_rtrpool_init` leaves it. */
  predicate Initial(p: Pool) {
    p == Pool(0, 0, 0, [], [], map[], Idle)
  }

  ghost predicate Run(pools: seq<Pool>, steps: seq<Step>) {
    && |pools| == |steps| + 1 && Initial(pools[0])
    && forall i :: 0 <= i < |steps| ==> CanStep(pools[i], steps[i]) && pools[i + 1] == Next(pools[i], steps[i])
  }

  lemma {:induction false} RunOk(pools: seq<Pool>, steps: seq<Step>, i: nat)
    requires Run(pools, steps) && i <= |steps|
    ensures Inv(pools[i])
  {
    if i > 0 {
      RunOk(pools, steps, i - 1);
      StepOk(pools[i - 1], steps[i - 1]);
    }
  }

  // ---------------------------------------------------------------- what it means

  /** At any moment of any run credits are free buffers less waiting messages,
      and buffers are free or owned; when no thread is handing out new buffers,
      one of free and waiting is nil, so that the sign of the credits says which. */
  lemma PoolConservation(pools: seq<Pool>, steps: seq<Step>, i: nat)
    requires Run(pools, steps) && i <= |steps|
    ensures var p := pools[i];
            && p.credits == |p.bufs| - |p.msgs|
            && p.nbuffers == |p.bufs| + |p.owned| && |p.owned.Values| == |p.owned|
            && (!p.adjuster.Serving? ==>
                  Settled(p) && (p.credits > 0 <==> p.bufs != []) && (p.credits < 0 <==> p.msgs != []))
  {
    RunOk(pools, steps, i);
    OwnersDistinct(pools[i].owned);
  }

  lemma {:induction false} OwnersDistinct(owned: map<nat, nat>)
    requires forall m, k :: m in owned && k in owned && owned[m] == owned[k] ==> m == k
    ensures |owned.Values| == |owned|
    decreases |owned|
  {
    if owned == map[] {
      assert owned.Values == {};
    } else {
      var m :| m in owned;
      var rest := owned - {m};
      OwnedSize(owned, m, 0);
      OwnersDistinct(rest);
      assert owned.Values == rest.Values + {owned[m]} by {
        forall b | b in owned.Values ensures b in rest.Values + {owned[m]} {
          var k :| k in owned && owned[k] == b;
          assert k == m || (k in rest && rest[k] == b);
        }
      }
    }
  }

  /** At any moment of any run a returned buffer is thrown away only when nobody
      waits, no buffers are being added and as many are free as are requested.
      Else it goes to the first who waits, if there are more waiting than free
      buffers, or on the free list, which never grows past the requested number. */
  lemma ReturnedWell(pools: seq<Pool>, steps: seq<Step>, i: nat, m: nat)
    requires Run(pools, steps) && i <= |steps| && m in pools[i].owned
    ensures var p, q := pools[i], ReturnBuf(pools[i], m);
            && (q.nbuffers < p.nbuffers <==> Discards(p))
            && (Discards(p) ==> p.msgs == [] && p.adjuster.Idle? && |p.bufs| >= p.req)
            && (|p.msgs| > |p.bufs| ==>
                  q.bufs == p.bufs && q.msgs == p.msgs[1..]
                  && q.owned == (p.owned - {m})[p.msgs[0] := p.owned[m]])
            && (!Discards(p) && |p.msgs| <= |p.bufs| ==>
                  q.bufs == [p.owned[m]] + p.bufs && |q.bufs| <= p.req
                  && q.msgs == p.msgs && q.owned == p.owned - {m})
  {
    RunOk(pools, steps, i);
    Keeps(pools[i], m);
    OwnedSize(pools[i].owned, m, 0);
  }

  // ---------------------------------------------------------------- the assertion that can fail

  /** What `lnet_return_rx_credits_locked` asserts before it takes a buffer back. */
  predicate SignTells(p: Pool) { (p.credits > 0) == (p.bufs != []) }

  /** It fails exactly while buffers are free but no more than messages wait, and
      so only while a thread is handing out new buffers. */
  lemma SignTellsExact(pools: seq<Pool>, steps: seq<Step>, i: nat)
    requires Run(pools, steps) && i <= |steps|
    ensures !SignTells(pools[i]) <==> 0 < |pools[i].bufs| <= |pools[i].msgs|
    ensures !SignTells(pools[i]) ==> pools[i].adjuster.Serving? && pools[i].nbuffers == pools[i].req
  {
    RunOk(pools, steps, i);
  }

  /** The pool after joining `added` and handing out `k` of them with nobody else
      coming in between. */
  function HandedOut(p: Pool, added: seq<nat>, k: nat): Pool
    requires CanStep(p, Join(added))
    decreases k
  {
    if k == 0 then JoinBufs(p, added) else ServeOne(HandedOut(p, added, k - 1))
  }

  lemma {:induction false} HandedOutSizes(p: Pool, added: seq<nat>, k: nat)
    requires Settled(p) && p.msgs != [] && CanStep(p, Join(added)) && k <= |added| && k <= |p.msgs|
    ensures var q := HandedOut(p, added, k);
            q.bufs == added[k..] && q.msgs == p.msgs[k..] && q.credits == p.credits + |added|
    ensures k > 0 ==> HandedOut(p, added, k).adjuster.Serving?
    decreases k
  {
    if k > 0 {
      HandedOutSizes(p, added, k - 1);
    }
  }

  /** So whoever adds `n` buffers while `w` messages wait passes through such a
      moment exactly when `2 <= n <= w`: namely after each hand-out but the last. */
  lemma WhileAdding(p: Pool, added: seq<nat>, k: nat)
    requires Inv(p) && CanStep(p, Join(added)) && p.msgs != [] && 0 < k <= |added| && k <= |p.msgs|
    ensures !SignTells(HandedOut(p, added, k)) <==> k < |added| <= |p.msgs|
  {
    HandedOutSizes(p, added, k);
  }

  /** A run to such a moment: three buffers asked for, one there and two added,
      with two messages waiting and two that could give a buffer back. */
  lemma SignMisleads() returns (pools: seq<Pool>, steps: seq<Step>)
    ensures Run(pools, steps)
    ensures var p := pools[|steps|];
            && !SignTells(p) && p.owned.Keys == {1, 2}
            && p.credits == 0 && p.bufs == [102] && p.msgs == [3]
  {
    pools, steps := TwoWaiting();
    pools, steps := RunMore(pools, steps, Adjust(3));
    assert pools[|steps|] == Pool(-2, 3, 1, [], [2, 3], map[1 := 100], Allocating(1, 2));
    pools, steps := RunMore(pools, steps, Join([101, 102]));
    assert pools[|steps|] == Pool(0, 3, 3, [102], [3], map[1 := 100, 2 := 101], Serving);
  }

  /** One buffer, taken, and two messages waiting. */
  lemma TwoWaiting() returns (pools: seq<Pool>, steps: seq<Step>)
    ensures Run(pools, steps) && pools[|steps|] == Pool(-2, 1, 1, [], [2, 3], map[1 := 100], Idle)
  {
    pools, steps := [Pool(0, 0, 0, [], [], map[], Idle)], [];
    assert Run(pools, steps);
    hide Run;
    pools, steps := RunMore(pools, steps, Adjust(1));
    assert pools[|steps|] == Pool(0, 1, 0, [], [], map[], Allocating(0, 1));
    pools, steps := RunMore(pools, steps, Join([100]));
    assert pools[|steps|] == Pool(1, 1, 1, [100], [], map[], Idle);
    pools, steps := RunMore(pools, steps, Recv(1));
    pools, steps := RunMore(pools, steps, Recv(2));
    pools, steps := RunMore(pools, steps, Recv(3));
  }

  lemma RunMore(pools: seq<Pool>, steps: seq<Step>, e: Step) returns (pools': seq<Pool>, steps': seq<Step>)
    requires Run(pools, steps) && CanStep(pools[|steps|], e)
    ensures Run(pools', steps') && |pools'| == |steps'| + 1 && pools'[|steps'|] == Next(pools[|steps|], e)
  {
    pools', steps' := pools + [Next(pools[|steps|], e)], steps + [e];
  }

  // ---------------------------------------------------------------- which pool

  const LNET_MTU: nat := 1048576

  /** `lnet_msg2bufpool`: the first pool, and so with the sizes in ascending order
      the smallest, whose buffers hold the message. That the pools go up to the
      largest message keeps the loop from running off. */
  method MsgToPool(len: nat, npages: seq<nat>, pageSize: nat) returns (i: nat)
    requires len <= LNET_MTU && npages != [] && LNET_MTU <= npages[|npages| - 1] * pageSize
    ensures i < |npages| && len <= npages[i] * pageSize
    ensures forall j :: 0 <= j < i ==> len > npages[j] * pageSize
  {
    i := 0;
    while len > npages[i] * pageSize
      invariant i < |npages|
      invariant forall j :: 0 <= j < i ==> len > npages[j] * pageSize
      decreases |npages| - i
    {
      i := i + 1;
    }
  }

  /** The page count of the largest pool does. */
  lemma LargePagesSuffice(pageSize: nat)
    requires pageSize > 0
    ensures LNET_MTU <= (LNET_MTU + pageSize - 1) / pageSize * pageSize
  {
  }

  // ---------------------------------------------------------------- the pool object

  /** The messages at the head of the queue with the buffers they are given. */
  function Handed(owned: map<nat, nat>, msgs: seq<nat>, bufs: seq<nat>): map<nat, nat>
    requires |msgs| == |bufs|
    decreases |msgs|
  {
    if msgs == [] then owned else Handed(owned[msgs[0] := bufs[0]], msgs[1..], bufs[1..])
  }

  lemma {:induction false} HandedMore(owned: map<nat, nat>, msgs: seq<nat>, bufs: seq<nat>, m: nat, b: nat)
    requires |msgs| == |bufs|
    ensures Handed(owned, msgs + [m], bufs + [b]) == Handed(owned, msgs, bufs)[m := b]
    decreases |msgs|
  {
    if msgs == [] {
      assert msgs + [m] == [m] && bufs + [b] == [b];
    } else {
      HandedMore(owned[msgs[0] := bufs[0]], msgs[1..], bufs[1..], m, b);
      assert (msgs + [m])[1..] == msgs[1..] + [m] && (bufs + [b])[1..] == bufs[1..] + [b];
    }
  }

  class RtrBufPool {
    var credits: int
    var req: nat
    var nbuffers: int
    var bufs: seq<nat>
    var msgs: seq<nat>
    var owned: map<nat, nat>
    var adjuster: Adjuster

    ghost function St(): Pool
      reads this
    {
      Pool(credits, req, nbuffers, bufs, msgs, owned, adjuster)
    }

    method GetBuf(m: nat)
      requires bufs != []
      modifies this
      ensures St() == TakeBuf(old(St()), m)
    {
      var rb := bufs[0];
      bufs := bufs[1..];
      owned := owned[m := rb];
    }

    /** True when the message has its buffer, false when it waits. */
    method PostRoutedRecv(m: nat) returns (ok: bool)
      requires Inv(St()) && CanStep(St(), Recv(m))
      modifies this
      ensures St() == PostRecv(old(St()), m) && Inv(St())
      ensures ok == (m in owned) == (m !in msgs)
    {
      RecvOk(St(), m);
      hide Inv;
      credits := credits - 1;
      if credits < 0 {
        msgs := msgs + [m];
        return false;
      }
      GetBuf(m);
      ok := true;
    }

    method ScheduleNext()
      requires bufs != []
      modifies this
      ensures St() == ScheduleBlocked(old(St()))
    {
      if msgs == [] {
        return;
      }
      var m := msgs[0];
      msgs := msgs[1..];
      GetBuf(m);
    }

    method ReturnRxCredits(m: nat)
      requires Inv(St()) && m in owned
      modifies this
      ensures St() == ReturnBuf(old(St()), m) && Inv(St())
    {
      ReturnOk(St(), m);
      hide Inv, ScheduleBlocked, NoDup;
      var rb := owned[m];
      owned := owned - {m};
      if credits >= req {
        nbuffers := nbuffers - 1;
      } else {
        bufs := [rb] + bufs;
        credits := credits + 1;
        if credits <= 0 {
          ScheduleNext();
        }
      }
    }

    /** `lnet_rtrpool_adjust_bufs` with no other thread about. `avail` are the
        buffers the allocator can still give. Too few, and the pool is as it was;
        enough, and nobody waits while there is a buffer. */
    method AdjustBufs(nbufs: nat, avail: seq<nat>) returns (ok: bool)
      requires Inv(St()) && adjuster.Idle?
      requires NoDup(avail) && forall b :: b in avail ==> b !in bufs && b !in owned.Values
      modifies this
      ensures Inv(St()) && adjuster.Idle? && Settled(St())
      ensures var num := if nbufs <= old(req) then 0 else nbufs - old(nbuffers);
              && ok == (num <= |avail|)
              && req == (if ok then nbufs else old(req))
              && nbuffers == old(nbuffers) + (if ok && num > 0 then num else 0)
              && (!ok ==> St() == old(St()))
    {
      var num := nbufs - nbuffers;
      if nbufs <= req || num <= 0 {
        req := nbufs;
        return true;
      }
      var oldReq := req;
      req := nbufs;
      var rbs := [];
      while |rbs| < num
        invariant |rbs| <= num && |rbs| <= |avail| && rbs == avail[..|rbs|]
        invariant St() == old(St()).(req := nbufs)
      {
        if |rbs| == |avail| {
          req := oldReq;
          return false;
        }
        rbs := rbs + [avail[|rbs|]];
      }
      bufs := bufs + rbs;
      nbuffers := nbuffers + num;
      credits := credits + num;
      NoDupPrefix(avail, num);
      NoDupConcat(old(bufs), rbs);
      Serve();
      ok := true;
    }

    /** Hands free buffers to waiting messages, in order, until one runs out. */
    method Serve()
      requires Counted(St()) && Apart(St())
      modifies this
      ensures var k := if |old(bufs)| < |old(msgs)| then |old(bufs)| else |old(msgs)|;
              && bufs == old(bufs)[k..] && msgs == old(msgs)[k..]
              && owned == Handed(old(owned), old(msgs)[..k], old(bufs)[..k])
      ensures Counted(St()) && Apart(St()) && Settled(St())
      ensures St() == old(St()).(bufs := bufs, msgs := msgs, owned := owned)
    {
      hide Apart, NoDup;
      var k := 0;
      while bufs != [] && msgs != []
        invariant k <= |old(bufs)| && k <= |old(msgs)|
        invariant bufs == old(bufs)[k..] && msgs == old(msgs)[k..]
        invariant owned == Handed(old(owned), old(msgs)[..k], old(bufs)[..k])
        invariant Counted(St()) && Apart(St())
        invariant St() == old(St()).(bufs := bufs, msgs := msgs, owned := owned)
        decreases |bufs|
      {
        ScheduleOk(St());
        hide Handed;
        HandedMore(old(owned), old(msgs)[..k], old(bufs)[..k], msgs[0], bufs[0]);
        assert old(msgs)[..k + 1] == old(msgs)[..k] + [msgs[0]];
        assert old(bufs)[..k + 1] == old(bufs)[..k] + [bufs[0]];
        ScheduleNext();
        k := k + 1;
      }
    }
  }
}
