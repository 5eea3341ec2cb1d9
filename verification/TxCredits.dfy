/** Transmit credits: a message passes the gate of its peer, then the gate of
    its transmit queue, taking a credit at each or waiting there.

    A send is posted by `lnet_post_send_locked` and the credits go back in
    `lnet_return_tx_credits_locked`. The peer is guarded by its own lock and a
    transmit queue by the lock of its CPU partition, so each of the two halves
    of each function is a step of its own, and the steps of different messages
    interleave freely. A message here is one attempt to send: a resend is a new
    message. */
module TxCredits {
  import opened Queues

  datatype Gate = Peer(peer: nat) | Txq(ni: nat, cpt: nat)

  /** Where a message is going and how long it is. */
  datatype Info = Info(peer: nat, ni: nat, cpt: nat, len: nat)

  datatype Net = Net(info: nat -> Info, grant: Gate -> nat)

  /** `sizeof(struct lnet_hdr)`. */
  const HDR_SIZE: nat := 72

  datatype Phase =
    | Posting       // at the start of lnet_post_send_locked
    | PastPeer      // between the two gates
    | Waiting(gate: Gate)
    | Cleared       // handed to the network driver, or about to be
    | Refused       // peer dead or memory descriptor aborted
    | Returning     // the queue's credit is back, the peer's is not
    | Done

  datatype Msg = Msg(peertxcredit: bool, txcredit: bool, txDelayed: bool, phase: Phase)

  /** Credits left (negative: so many waiting) and the waiting messages. `arrived`
      and `passed` record the order in which messages came to the gate and went
      through it. */
  datatype Turnstile = Turnstile(credits: int, queue: seq<nat>, arrived: seq<nat>, passed: seq<nat>)

  datatype State = State(msgs: map<nat, Msg>, gates: map<Gate, Turnstile>, txqnob: map<nat, int>)

  function PeerOf(net: Net, m: nat): Gate { Peer(net.info(m).peer) }

  function TxqOf(net: Net, m: nat): Gate { Txq(net.info(m).ni, net.info(m).cpt) }

  // ---------------------------------------------------------------- the steps

  /** Taking a credit, or a place in the queue. */
  function Enter(t: Turnstile, m: nat): Turnstile {
    if t.credits > 0 then t.(credits := t.credits - 1, arrived := t.arrived + [m], passed := t.passed + [m])
    else t.(credits := t.credits - 1, arrived := t.arrived + [m], queue := t.queue + [m])
  }

  /** Giving a credit back, to the message at the head of the queue if any. */
  function Leave(t: Turnstile): Turnstile {
    if t.credits < 0 && t.queue != [] then
      t.(credits := t.credits + 1, queue := t.queue[1..], passed := t.passed + [t.queue[0]])
    else t.(credits := t.credits + 1)
  }

  datatype Step =
    | New(m: nat)
    | Post(m: nat, refused: bool)
    | PostTxq(m: nat)
    | GiveTxq(m: nat)
    | GivePeer(m: nat)

  predicate Active(s: State, m: nat, p: Phase) {
    m in s.msgs && s.msgs[m].phase == p
  }

  predicate CanStep(net: Net, s: State, e: Step) {
    match e
    case New(m) =>
      m !in s.msgs && PeerOf(net, m) in s.gates && TxqOf(net, m) in s.gates && net.info(m).peer in s.txqnob
    case Post(m, _) => Active(s, m, Posting)
    case PostTxq(m) => Active(s, m, PastPeer)
    case GiveTxq(m) => Active(s, m, Cleared) || Active(s, m, Refused)
    case GivePeer(m) => Active(s, m, Returning)
  }

  /** The gates and the byte counter a message uses exist. */
  predicate Known(net: Net, s: State) {
    forall m :: m in s.msgs ==>
      PeerOf(net, m) in s.gates && TxqOf(net, m) in s.gates && net.info(m).peer in s.txqnob
  }

  function SetMsg(s: State, m: nat, x: Msg): State {
    s.(msgs := s.msgs[m := x])
  }

  /** The first half of `lnet_post_send_locked`. */
  function PostPeer(net: Net, s: State, m: nat, refused: bool): State
    requires Known(net, s) && Active(s, m, Posting)
  {
    var x, g, p := s.msgs[m], PeerOf(net, m), net.info(m).peer;
    if refused then SetMsg(s, m, x.(phase := Refused))
    else if x.peertxcredit then SetMsg(s, m, x.(phase := PastPeer))
    else
      var t := Enter(s.gates[g], m);
      var x' := x.(peertxcredit := true);
      SetMsg(s, m, if t.credits < 0 then x'.(txDelayed := true, phase := Waiting(g)) else x'.(phase := PastPeer))
      .(gates := s.gates[g := t], txqnob := s.txqnob[p := s.txqnob[p] + net.info(m).len + HDR_SIZE])
  }

  /** The second half. */
  function PostQueue(net: Net, s: State, m: nat): State
    requires Known(net, s) && Active(s, m, PastPeer)
  {
    var x, g := s.msgs[m], TxqOf(net, m);
    if x.txcredit then SetMsg(s, m, x.(txDelayed := false, phase := Cleared))
    else
      var t := Enter(s.gates[g], m);
      var x' := x.(txcredit := true);
      SetMsg(s, m, if t.credits < 0 then x'.(txDelayed := true, phase := Waiting(g))
                   else x'.(txDelayed := false, phase := Cleared))
      .(gates := s.gates[g := t])
  }

  /** Whom a returned credit lets through. */
  function Wake(s: State, g: Gate): State
    requires g in s.gates
  {
    var t := s.gates[g];
    var s' := s.(gates := s.gates[g := Leave(t)]);
    if t.credits < 0 && t.queue != [] && t.queue[0] in s.msgs then
      SetMsg(s', t.queue[0], s.msgs[t.queue[0]].(phase := Posting))
    else s'
  }

  /** The first half of `lnet_return_tx_credits_locked`. */
  function ReturnQueue(net: Net, s: State, m: nat): State
    requires Known(net, s) && (Active(s, m, Cleared) || Active(s, m, Refused))
  {
    var x := s.msgs[m];
    var s' := SetMsg(s, m, x.(txcredit := false, phase := Returning));
    if x.txcredit then Wake(s', TxqOf(net, m)) else s'
  }

  /** The second half. */
  function ReturnPeer(net: Net, s: State, m: nat): State
    requires Known(net, s) && Active(s, m, Returning)
  {
    var x, p := s.msgs[m], net.info(m).peer;
    var s' := SetMsg(s, m, x.(peertxcredit := false, phase := Done));
    if x.peertxcredit then
      Wake(s'.(txqnob := s.txqnob[p := s.txqnob[p] - (net.info(m).len + HDR_SIZE)]), PeerOf(net, m))
    else s'
  }

  function Next(net: Net, s: State, e: Step): State
    requires Known(net, s) && CanStep(net, s, e)
  {
    match e
    case New(m) => SetMsg(s, m, Msg(false, false, false, Posting))
    case Post(m, refused) => PostPeer(net, s, m, refused)
    case PostTxq(m) => PostQueue(net, s, m)
    case GiveTxq(m) => ReturnQueue(net, s, m)
    case GivePeer(m) => ReturnPeer(net, s, m)
  }

  // ---------------------------------------------------------------- the invariant

  predicate Holds(net: Net, m: nat, x: Msg, g: Gate) {
    (g == PeerOf(net, m) && x.peertxcredit) || (g == TxqOf(net, m) && x.txcredit)
  }

  /** The messages that hold a credit of a gate, or wait for theirs. */
  ghost function Holders(net: Net, msgs: map<nat, Msg>, g: Gate): set<nat> {
    set m | m in msgs && Holds(net, m, msgs[m], g)
  }

  ghost function Bytes(net: Net, q: set<nat>): nat {
    if q == {} then 0 else
      var m :| m in q;
      net.info(m).len + HDR_SIZE + Bytes(net, q - {m})
  }

  ghost predicate GateOk(net: Net, s: State, g: Gate)
    requires g in s.gates
  {
    var t := s.gates[g];
    && t.credits + |Holders(net, s.msgs, g)| == net.grant(g)
    && |t.queue| == (if t.credits < 0 then -t.credits else 0)
    && t.arrived == t.passed + t.queue
    && QueueOk(s, g, t.queue)
  }

  ghost predicate QueueOk(s: State, g: Gate, q: seq<nat>) {
    NoDup(q) && forall m :: m in q <==> Active(s, m, Waiting(g))
  }

  predicate MsgOk(net: Net, m: nat, x: Msg) {
    match x.phase
    case Posting => x.txcredit ==> x.peertxcredit
    case PastPeer => x.peertxcredit
    case Waiting(g) =>
      && x.peertxcredit && x.txDelayed
      && (if x.txcredit then g == TxqOf(net, m) else g == PeerOf(net, m))
    case Cleared => x.peertxcredit && x.txcredit && !x.txDelayed
    case Refused => x.txcredit ==> x.peertxcredit
    case Returning => !x.txcredit
    case Done => !x.peertxcredit && !x.txcredit
  }

  ghost predicate Gates(net: Net, s: State) {
    forall g :: g in s.gates ==> GateOk(net, s, g)
  }

  ghost predicate Msgs(net: Net, s: State) {
    forall m :: m in s.msgs ==> MsgOk(net, m, s.msgs[m])
  }

  ghost predicate Nobs(net: Net, s: State) {
    forall p :: p in s.txqnob ==> s.txqnob[p] == Bytes(net, Holders(net, s.msgs, Peer(p)))
  }

  ghost predicate Inv(net: Net, s: State) {
    Known(net, s) && Gates(net, s) && Msgs(net, s) && Nobs(net, s)
  }

  // ---------------------------------------------------------------- every step keeps it

  predicate Waits(x: Msg) { x.phase.Waiting? }

  /** From `x` to `x'` message `m` changes what it holds of gate `g` at most. */
  ghost predicate Elsewhere(net: Net, m: nat, x: Msg, x': Msg, g: Gate) {
    forall h :: h != g ==> (Holds(net, m, x, h) <==> Holds(net, m, x', h))
  }

  lemma HoldersAre(net: Net, msgs: map<nat, Msg>, m: nat, x: Msg, g: Gate)
    requires m in msgs
    ensures Holders(net, msgs[m := x], g) ==
            (if Holds(net, m, x, g) then Holders(net, msgs, g) + {m} else Holders(net, msgs, g) - {m})
    ensures m in Holders(net, msgs, g) <==> Holds(net, m, msgs[m], g)
  {
    var msgs' := msgs[m := x];
    forall k ensures k in Holders(net, msgs', g) <==>
                     k in (if Holds(net, m, x, g) then Holders(net, msgs, g) + {m} else Holders(net, msgs, g) - {m}) {}
  }

  /** A gate with no part in a step. */
  lemma Bystander(net: Net, s: State, m: nat, x: Msg, s': State, h: Gate)
    requires m in s.msgs && h in s.gates && GateOk(net, s, h) && !Active(s, m, Waiting(h)) && x.phase != Waiting(h)
    requires s'.msgs == s.msgs[m := x] && h in s'.gates && s'.gates[h] == s.gates[h]
    requires Holds(net, m, s.msgs[m], h) <==> Holds(net, m, x, h)
    ensures GateOk(net, s', h)
  {
    HoldersAre(net, s.msgs, m, x, h);
    assert Holders(net, s'.msgs, h) == Holders(net, s.msgs, h);
  }

  /** A message neither takes nor gives. */
  lemma PlainGates(net: Net, s: State, m: nat, x: Msg)
    requires Gates(net, s) && m in s.msgs && !Waits(s.msgs[m]) && !Waits(x)
    requires forall h :: Holds(net, m, s.msgs[m], h) <==> Holds(net, m, x, h)
    ensures Gates(net, SetMsg(s, m, x))
  {
    forall h | h in s.gates ensures GateOk(net, SetMsg(s, m, x), h) {
      Bystander(net, s, m, x, SetMsg(s, m, x), h);
    }
  }

  /** The gate at which a message arrives. */
  lemma EnterOk(net: Net, s: State, m: nat, x: Msg, s': State, g: Gate)
    requires g in s.gates && GateOk(net, s, g) && m in s.msgs && !Waits(s.msgs[m])
    requires !Holds(net, m, s.msgs[m], g) && Holds(net, m, x, g)
    requires s'.msgs == s.msgs[m := x] && g in s'.gates && s'.gates[g] == Enter(s.gates[g], m)
    requires if s.gates[g].credits > 0 then !Waits(x) else x.phase == Waiting(g)
    ensures GateOk(net, s', g)
  {
    HoldersAre(net, s.msgs, m, x, g);
    var t, t' := s.gates[g], s'.gates[g];
    assert m !in t.queue;
    if t.credits > 0 {
      assert t.arrived + [m] == (t.passed + [m]) + [];
    } else {
      NoDupAppend(t.queue, m);
      assert t.arrived + [m] == t.passed + (t.queue + [m]);
    }
  }

  lemma EnterGates(net: Net, s: State, m: nat, x: Msg, s': State, g: Gate)
    requires Gates(net, s) && g in s.gates && m in s.msgs && !Waits(s.msgs[m])
    requires !Holds(net, m, s.msgs[m], g) && Holds(net, m, x, g) && Elsewhere(net, m, s.msgs[m], x, g)
    requires s'.msgs == s.msgs[m := x] && s'.gates == s.gates[g := Enter(s.gates[g], m)]
    requires if s.gates[g].credits > 0 then !Waits(x) else x.phase == Waiting(g)
    ensures Gates(net, s')
  {
    forall h | h in s'.gates ensures GateOk(net, s', h) {
      if h == g {
        EnterOk(net, s, m, x, s', g);
      } else {
        Bystander(net, s, m, x, s', h);
      }
    }
  }

  lemma WokenQueue(s: State, g: Gate, q: seq<nat>)
    requires QueueOk(s, g, q) && q != [] && q[0] in s.msgs
    ensures QueueOk(SetMsg(s, q[0], s.msgs[q[0]].(phase := Posting)), g, q[1..])
  {
    forall k ensures k in q <==> k == q[0] || k in q[1..] {}
  }

  /** Waking a message leaves the credits as they are. */
  lemma WokenHolders(net: Net, s: State, g: Gate)
    requires g in s.gates
    ensures Holders(net, Wake(s, g).msgs, g) == Holders(net, s.msgs, g)
  {
    var t := s.gates[g];
    if t.credits < 0 && t.queue != [] && t.queue[0] in s.msgs {
      HoldersAre(net, s.msgs, t.queue[0], s.msgs[t.queue[0]].(phase := Posting), g);
    }
  }

  /** The gate a message gives its credit back to. */
  lemma LeaveOk(net: Net, s: State, m: nat, x: Msg, g: Gate)
    requires g in s.gates && GateOk(net, s, g) && m in s.msgs && !Waits(s.msgs[m]) && !Waits(x)
    requires Holds(net, m, s.msgs[m], g) && !Holds(net, m, x, g)
    ensures GateOk(net, Wake(SetMsg(s, m, x), g), g)
  {
    HoldersAre(net, s.msgs, m, x, g);
    var t, s0 := s.gates[g], SetMsg(s, m, x);
    WokenHolders(net, s0, g);
    assert QueueOk(s0, g, t.queue) && (t.queue != [] ==> t.queue[0] in t.queue);
    hide QueueOk, Holders;
    if t.credits < 0 {
      WokenQueue(s0, g, t.queue);
      assert t.passed + t.queue == (t.passed + [t.queue[0]]) + t.queue[1..];
    }
  }

  lemma LeaveGates(net: Net, s: State, m: nat, x: Msg, g: Gate)
    requires Gates(net, s) && g in s.gates && m in s.msgs && !Waits(s.msgs[m]) && !Waits(x)
    requires Holds(net, m, s.msgs[m], g) && !Holds(net, m, x, g) && Elsewhere(net, m, s.msgs[m], x, g)
    ensures Gates(net, Wake(SetMsg(s, m, x), g))
  {
    var t, s0 := s.gates[g], SetMsg(s, m, x);
    var s' := Wake(s0, g);
    forall h | h in s'.gates ensures GateOk(net, s', h) {
      if h == g {
        LeaveOk(net, s, m, x, g);
      } else {
        Bystander(net, s, m, x, s0, h);
        if t.credits < 0 {
          var w := t.queue[0];
          assert w in t.queue;
          Bystander(net, s0, w, s0.msgs[w].(phase := Posting), s', h);
        }
      }
    }
  }

  // ---------------------------------------------------------------- queued bytes

  lemma {:induction false} BytesWithout(net: Net, q: set<nat>, m: nat)
    requires m in q
    ensures Bytes(net, q) == net.info(m).len + HDR_SIZE + Bytes(net, q - {m})
  {
    var k :| k in q && Bytes(net, q) == net.info(k).len + HDR_SIZE + Bytes(net, q - {k});
    if k != m {
      BytesWithout(net, q - {k}, m);
      BytesWithout(net, q - {m}, k);
      assert q - {k} - {m} == q - {m} - {k};
    }
  }

  /** What a message holds of its peer decides its share of the queued bytes. */
  lemma NobAfter(net: Net, s: State, m: nat, x: Msg, p: nat)
    requires Nobs(net, s) && m in s.msgs && p in s.txqnob
    ensures var was, now := Holds(net, m, s.msgs[m], Peer(p)), Holds(net, m, x, Peer(p));
            var size := net.info(m).len + HDR_SIZE;
            Bytes(net, Holders(net, s.msgs[m := x], Peer(p))) ==
              s.txqnob[p] + (if now && !was then size else if was && !now then -size else 0)
  {
    HoldersAre(net, s.msgs, m, x, Peer(p));
    var q := Holders(net, s.msgs, Peer(p));
    if Holds(net, m, x, Peer(p)) {
      BytesWithout(net, q + {m}, m);
      assert q + {m} - {m} == q - {m};
    }
    if m in q {
      BytesWithout(net, q, m);
      assert q + {m} == q;
    } else {
      assert q - {m} == q;
    }
  }

  lemma WokenNobs(net: Net, s: State, g: Gate)
    requires g in s.gates && Nobs(net, s)
    ensures Nobs(net, Wake(s, g))
  {
    var t, s' := s.gates[g], Wake(s, g);
    if t.credits < 0 && t.queue != [] && t.queue[0] in s.msgs {
      forall p | p in s.txqnob ensures s.txqnob[p] == Bytes(net, Holders(net, s'.msgs, Peer(p))) {
        NobAfter(net, s, t.queue[0], s.msgs[t.queue[0]].(phase := Posting), p);
      }
    }
  }

  /** The byte counter of the message's peer is adjusted by what it takes or gives. */
  lemma NobsKept(net: Net, s: State, m: nat, x: Msg, s': State)
    requires Nobs(net, s) && m in s.msgs && s'.msgs == s.msgs[m := x]
    requires s'.txqnob.Keys == s.txqnob.Keys
    requires forall p :: p in s.txqnob && p != net.info(m).peer ==> s'.txqnob[p] == s.txqnob[p]
    requires net.info(m).peer in s.txqnob
    requires var p, size := net.info(m).peer, net.info(m).len + HDR_SIZE;
             s'.txqnob[p] == s.txqnob[p] + (if x.peertxcredit && !s.msgs[m].peertxcredit then size
                                            else if !x.peertxcredit && s.msgs[m].peertxcredit then -size else 0)
    ensures Nobs(net, s')
  {
    forall p | p in s'.txqnob ensures s'.txqnob[p] == Bytes(net, Holders(net, s'.msgs, Peer(p))) {
      NobAfter(net, s, m, x, p);
    }
  }

  // ---------------------------------------------------------------- runs

  lemma NewHolders(net: Net, s: State, m: nat, g: Gate)
    requires m !in s.msgs
    ensures Holders(net, s.msgs[m := Msg(false, false, false, Posting)], g) == Holders(net, s.msgs, g)
  {
    var msgs' := s.msgs[m := Msg(false, false, false, Posting)];
    forall k ensures k in Holders(net, msgs', g) <==> k in Holders(net, s.msgs, g) {}
  }

  lemma NewGate(net: Net, s: State, m: nat, g: Gate)
    requires m !in s.msgs && g in s.gates && GateOk(net, s, g)
    ensures GateOk(net, SetMsg(s, m, Msg(false, false, false, Posting)), g)
  {
    NewHolders(net, s, m, g);
    hide Holders;
    forall k
      ensures Active(SetMsg(s, m, Msg(false, false, false, Posting)), k, Waiting(g)) <==> Active(s, k, Waiting(g)) {}
  }

  lemma NewOk(net: Net, s: State, m: nat)
    requires Inv(net, s) && CanStep(net, s, New(m))
    ensures Inv(net, Next(net, s, New(m)))
  {
    hide Holders, GateOk;
    forall g ensures Holders(net, Next(net, s, New(m)).msgs, g) == Holders(net, s.msgs, g) {
      NewHolders(net, s, m, g);
    }
    forall g | g in s.gates ensures GateOk(net, Next(net, s, New(m)), g) {
      NewGate(net, s, m, g);
    }
  }

  lemma PostOk(net: Net, s: State, m: nat, refused: bool)
    requires Inv(net, s) && CanStep(net, s, Post(m, refused))
    ensures Inv(net, Next(net, s, Post(m, refused)))
  {
    hide Gates, Nobs;
    var s', g := Next(net, s, Post(m, refused)), PeerOf(net, m);
    assert MsgOk(net, m, s.msgs[m]);
    if refused || s.msgs[m].peertxcredit {
      PlainGates(net, s, m, s'.msgs[m]);
    } else {
      EnterGates(net, s, m, s'.msgs[m], s', g);
    }
    NobsKept(net, s, m, s'.msgs[m], s');
  }

  lemma PostTxqOk(net: Net, s: State, m: nat)
    requires Inv(net, s) && CanStep(net, s, PostTxq(m))
    ensures Inv(net, Next(net, s, PostTxq(m)))
  {
    hide Gates, Nobs;
    var s', g := Next(net, s, PostTxq(m)), TxqOf(net, m);
    assert MsgOk(net, m, s.msgs[m]);
    if s.msgs[m].txcredit {
      PlainGates(net, s, m, s'.msgs[m]);
    } else {
      EnterGates(net, s, m, s'.msgs[m], s', g);
    }
    NobsKept(net, s, m, s'.msgs[m], s');
  }

  /** The head of a queue waits there. */
  predicate HeadWaits(s: State, g: Gate)
    requires g in s.gates
  {
    s.gates[g].queue != [] ==> Active(s, s.gates[g].queue[0], Waiting(g))
  }

  lemma HeadOk(net: Net, s: State, g: Gate)
    requires Gates(net, s) && g in s.gates
    ensures HeadWaits(s, g)
  {
    assert GateOk(net, s, g);
    assert s.gates[g].queue != [] ==> s.gates[g].queue[0] in s.gates[g].queue;
  }

  /** A woken message was waiting with the credits of its gate. */
  lemma WokenMsgs(net: Net, s: State, m: nat, x: Msg, g: Gate)
    requires g in s.gates && HeadWaits(s, g) && Msgs(net, s) && Known(net, s)
    requires m in s.msgs && !Waits(s.msgs[m]) && MsgOk(net, m, x)
    ensures Msgs(net, Wake(SetMsg(s, m, x), g)) && Known(net, Wake(SetMsg(s, m, x), g))
  {
  }

  lemma GiveTxqOk(net: Net, s: State, m: nat)
    requires Inv(net, s) && CanStep(net, s, GiveTxq(m))
    ensures Inv(net, Next(net, s, GiveTxq(m)))
  {
    hide Gates, Nobs;
    var g := TxqOf(net, m);
    var x := s.msgs[m].(txcredit := false, phase := Returning);
    NobsKept(net, s, m, x, SetMsg(s, m, x));
    if s.msgs[m].txcredit {
      LeaveGates(net, s, m, x, g);
      HeadOk(net, s, g);
      WokenNobs(net, SetMsg(s, m, x), g);
      WokenMsgs(net, s, m, x, g);
    } else {
      PlainGates(net, s, m, x);
    }
  }

  /** The byte counters play no part at the gates. */
  lemma GatesIgnoreNob(net: Net, s: State, nob: map<nat, int>)
    requires Gates(net, s)
    ensures Gates(net, s.(txqnob := nob))
  {
    forall g | g in s.gates ensures GateOk(net, s.(txqnob := nob), g) {
      assert GateOk(net, s, g);
      forall k ensures Active(s.(txqnob := nob), k, Waiting(g)) <==> Active(s, k, Waiting(g)) {}
    }
  }

  lemma GivePeerOk(net: Net, s: State, m: nat)
    requires Inv(net, s) && CanStep(net, s, GivePeer(m))
    ensures Inv(net, Next(net, s, GivePeer(m)))
  {
    hide Gates, Nobs;
    var g, p := PeerOf(net, m), net.info(m).peer;
    var x := s.msgs[m].(peertxcredit := false, phase := Done);
    assert MsgOk(net, m, s.msgs[m]);
    if s.msgs[m].peertxcredit {
      var nob := s.txqnob[p := s.txqnob[p] - (net.info(m).len + HDR_SIZE)];
      var s1 := s.(txqnob := nob);
      NobsKept(net, s, m, x, SetMsg(s1, m, x));
      GatesIgnoreNob(net, s, nob);
      LeaveGates(net, s1, m, x, g);
      HeadOk(net, s1, g);
      WokenNobs(net, SetMsg(s1, m, x), g);
      WokenMsgs(net, s1, m, x, g);
    } else {
      NobsKept(net, s, m, x, SetMsg(s, m, x));
      PlainGates(net, s, m, x);
    }
  }

  lemma StepOk(net: Net, s: State, e: Step)
    requires Known(net, s) && Inv(net, s) && CanStep(net, s, e)
    ensures Inv(net, Next(net, s, e)) && Next(net, s, e).gates.Keys == s.gates.Keys
  {
    hide Inv;
    match e
    case New(m) => NewOk(net, s, m);
    case Post(m, refused) => PostOk(net, s, m, refused);
    case PostTxq(m) => PostTxqOk(net, s, m);
    case GiveTxq(m) => GiveTxqOk(net, s, m);
    case GivePeer(m) => GivePeerOk(net, s, m);
  }

  /** No message yet, every gate with its full grant. */
  ghost predicate Initial(net: Net, s: State) {
    && s.msgs == map[]
    && (forall g :: g in s.gates ==> s.gates[g] == Turnstile(net.grant(g), [], [], []))
    && (forall p :: p in s.txqnob ==> s.txqnob[p] == 0)
  }

  /** `states` is a run: it starts empty-handed and each state follows from the
      one before by some step. */
  ghost predicate Run(net: Net, states: seq<State>, steps: seq<Step>) {
    && |states| == |steps| + 1 && Initial(net, states[0])
    && forall i :: 0 <= i < |steps| ==>
         && Known(net, states[i]) && CanStep(net, states[i], steps[i])
         && states[i + 1] == Next(net, states[i], steps[i])
  }

  lemma {:induction false} RunOk(net: Net, states: seq<State>, steps: seq<Step>, i: nat)
    requires Run(net, states, steps) && i <= |steps|
    ensures Inv(net, states[i]) && states[i].gates.Keys == states[0].gates.Keys
  {
    if i == 0 {
      forall g ensures Holders(net, states[0].msgs, g) == {} {}
    } else {
      RunOk(net, states, steps, i - 1);
      StepOk(net, states[i - 1], steps[i - 1]);
    }
  }

  // ---------------------------------------------------------------- what it means

  /** Credit conservation at any moment of any run: credits left and credits out
      make the grant; so many wait as credits are overdrawn; no more than the
      grant are past the gate; and messages go through it in the order in which
      they came, nobody overtaking those who wait. */
  lemma Conservation(net: Net, states: seq<State>, steps: seq<Step>, i: nat, g: Gate)
    requires Run(net, states, steps) && i <= |steps| && g in states[0].gates
    ensures g in states[i].gates
    ensures var t, out := states[i].gates[g], Holders(net, states[i].msgs, g);
            && t.credits + |out| == net.grant(g)
            && |t.queue| == (if t.credits < 0 then -t.credits else 0)
            && |out - Members(t.queue)| <= net.grant(g)
            && (t.queue != [] ==> |out - Members(t.queue)| == net.grant(g))
            && t.passed <= t.arrived && t.arrived == t.passed + t.queue
  {
    RunOk(net, states, steps, i);
    var s := states[i];
    var q := s.gates[g].queue;
    NoDupSize(q);
    assert Members(q) <= Holders(net, s.msgs, g) by {
      forall m | m in q ensures m in Holders(net, s.msgs, g) {
        assert Active(s, m, Waiting(g)) && MsgOk(net, m, s.msgs[m]);
      }
    }
    CountRest(Holders(net, s.msgs, g), Members(q));
  }

  lemma CountRest(a: set<nat>, b: set<nat>)
    requires b <= a
    ensures |a - b| == |a| - |b|
  {
    assert a == b + (a - b);
  }

  /** A message handed to the driver holds both credits and waits nowhere; a
      waiting message waits at one gate only, the one whose credit it took last. */
  lemma ClearedHoldsBoth(net: Net, states: seq<State>, steps: seq<Step>, i: nat, m: nat)
    requires Run(net, states, steps) && i <= |steps| && m in states[i].msgs
    ensures var s, x := states[i], states[i].msgs[m];
            && PeerOf(net, m) in s.gates && TxqOf(net, m) in s.gates
            && (x.phase == Cleared ==>
                  && m in Holders(net, s.msgs, PeerOf(net, m)) && m in Holders(net, s.msgs, TxqOf(net, m))
                  && forall g :: g in s.gates ==> m !in s.gates[g].queue)
            && (forall g :: g in s.gates && m in s.gates[g].queue ==>
                  g == if x.txcredit then TxqOf(net, m) else PeerOf(net, m))
            && (x.phase == Done ==> forall g :: m !in Holders(net, s.msgs, g))
  {
    RunOk(net, states, steps, i);
    assert MsgOk(net, m, states[i].msgs[m]);
    forall g | g in states[i].gates && m in states[i].gates[g].queue
      ensures states[i].msgs[m].phase == Waiting(g)
    {
      assert GateOk(net, states[i], g);
    }
  }

  /** The bytes charged to a peer are those of the messages that hold or await
      its credits, so the counter is never negative and ends at nothing. */
  lemma QueuedBytes(net: Net, states: seq<State>, steps: seq<Step>, i: nat, p: nat)
    requires Run(net, states, steps) && i <= |steps| && p in states[i].txqnob
    ensures states[i].txqnob[p] == Bytes(net, Holders(net, states[i].msgs, Peer(p))) >= 0
  {
    RunOk(net, states, steps, i);
  }

  /** When every message is done, every credit is home. */
  lemma Drained(net: Net, states: seq<State>, steps: seq<Step>, i: nat)
    requires Run(net, states, steps) && i <= |steps|
    requires forall m :: m in states[i].msgs ==> states[i].msgs[m].phase == Done
    ensures forall g :: g in states[i].gates ==>
              states[i].gates[g].credits == net.grant(g) && states[i].gates[g].queue == []
    ensures forall p :: p in states[i].txqnob ==> states[i].txqnob[p] == 0
  {
    RunOk(net, states, steps, i);
    var s := states[i];
    forall g ensures Holders(net, s.msgs, g) == {} {
      forall m | m in s.msgs ensures !Holds(net, m, s.msgs[m], g) {
        assert MsgOk(net, m, s.msgs[m]);
      }
    }
    forall g | g in s.gates ensures s.gates[g].credits == net.grant(g) && s.gates[g].queue == [] {
      assert GateOk(net, s, g);
    }
  }

  // ---------------------------------------------------------------- no deadlock

  predicate Movable(s: State, m: nat) {
    m in s.msgs && !Waits(s.msgs[m]) && s.msgs[m].phase != Done
  }

  /** Someone past a gate at which others wait. */
  lemma SomeonePast(net: Net, s: State, g: Gate) returns (m: nat)
    requires Inv(net, s) && g in s.gates && s.gates[g].queue != [] && net.grant(g) > 0
    ensures m in Holders(net, s.msgs, g) && m !in s.gates[g].queue
  {
    var q, out := s.gates[g].queue, Holders(net, s.msgs, g);
    assert GateOk(net, s, g);
    NoDupSize(q);
    if out <= Members(q) {
      CountRest(Members(q), out);
      assert false;
    }
    m :| m in out && m !in Members(q);
  }

  lemma PastTxqMoves(net: Net, s: State, g: Gate) returns (m: nat)
    requires Inv(net, s) && g in s.gates && g.Txq? && s.gates[g].queue != [] && net.grant(g) > 0
    ensures Movable(s, m)
  {
    m := SomeonePast(net, s, g);
    assert MsgOk(net, m, s.msgs[m]) && GateOk(net, s, g);
  }

  /** As long as anyone waits, someone who does not can move: the two gates are
      always taken in the same order, so the waiting is never circular. */
  lemma NoDeadlock(net: Net, states: seq<State>, steps: seq<Step>, i: nat, m: nat) returns (e: Step)
    requires Run(net, states, steps) && i <= |steps|
    requires m in states[i].msgs && Waits(states[i].msgs[m])
    requires forall g :: g in states[i].gates ==> net.grant(g) > 0
    ensures CanStep(net, states[i], e) && !e.New?
  {
    RunOk(net, states, steps, i);
    var s := states[i];
    var g := s.msgs[m].phase.gate;
    assert MsgOk(net, m, s.msgs[m]);
    assert GateOk(net, s, g) && m in s.gates[g].queue;
    var k: nat;
    if g.Txq? {
      k := PastTxqMoves(net, s, g);
    } else {
      k := SomeonePast(net, s, g);
      assert MsgOk(net, k, s.msgs[k]);
      if Waits(s.msgs[k]) {
        var h := s.msgs[k].phase.gate;
        assert GateOk(net, s, h) && k in s.gates[h].queue;
        k := PastTxqMoves(net, s, h);
      }
    }
    match s.msgs[k].phase
    case Posting => e := Post(k, false);
    case PastPeer => e := PostTxq(k);
    case Returning => e := GivePeer(k);
    case _ => e := GiveTxq(k);
  }
}
