/** The two functions of the transmit path as they run, each a sequence of the
    steps of the credit protocol. */
module TxPath {
  import opened TxCredits

  /** What `lnet_post_send_locked` returns. */
  datatype Code = CreditOk | CreditWait | HostUnreachable | Canceled

  /** `s'` comes from `s` by these steps. */
  ghost predicate Path(net: Net, s: State, steps: seq<Step>, s': State)
    decreases |steps|
  {
    if steps == [] then s' == s
    else Known(net, s) && CanStep(net, s, steps[0]) && Path(net, Next(net, s, steps[0]), steps[1..], s')
  }

  lemma {:induction false} PathThen(net: Net, s: State, a: seq<Step>, s1: State, b: seq<Step>, s2: State)
    requires Path(net, s, a, s1) && Path(net, s1, b, s2)
    ensures Path(net, s, a + b, s2)
    decreases |a|
  {
    hide Next, CanStep, Known;
    if a == [] {
      assert a + b == b;
    } else {
      PathThen(net, Next(net, s, a[0]), a[1..], s1, b, s2);
      assert (a + b)[1..] == a[1..] + b;
    }
  }

  lemma {:induction false} PathOk(net: Net, s: State, steps: seq<Step>, s': State)
    requires Inv(net, s) && Path(net, s, steps, s')
    ensures Inv(net, s')
    decreases |steps|
  {
    hide Inv, Next, CanStep;
    if steps != [] {
      StepOk(net, s, steps[0]);
      PathOk(net, Next(net, s, steps[0]), steps[1..], s');
    }
  }

  /** What the code asserts before it gives a credit back. */
  predicate CanGive(s: State, g: Gate) {
    g in s.gates && HeadWaits(s, g) && (s.gates[g].credits < 0 <==> s.gates[g].queue != [])
  }

  class TxPath {
    const net: Net
    var msgs: map<nat, Msg>
    var gates: map<Gate, Turnstile>
    var txqnob: map<nat, int>

    ghost function St(): State
      reads this
    {
      State(msgs, gates, txqnob)
    }

    /** Takes a credit of a gate; says whether the message has to wait there. */
    method TakeCredit(g: Gate, m: nat) returns (blocked: bool)
      requires g in gates
      modifies `gates
      ensures gates == old(gates)[g := Enter(old(gates)[g], m)]
      ensures blocked == (gates[g].credits < 0)
    {
      var t := gates[g];
      t := t.(credits := t.credits - 1, arrived := t.arrived + [m]);
      blocked := t.credits < 0;
      if blocked {
        t := t.(queue := t.queue + [m]);
      } else {
        t := t.(passed := t.passed + [m]);
      }
      gates := gates[g := t];
    }

    /** `lnet_post_send_locked`. */
    method PostSend(m: nat, alive: bool, aborted: bool) returns (rc: Code, ghost steps: seq<Step>)
      requires Known(net, St()) && Active(St(), m, Posting)
      modifies this
      ensures Path(net, old(St()), steps, St())
      ensures m in msgs && msgs == old(msgs)[m := msgs[m]]
      ensures match rc
              case CreditOk => alive && !aborted && msgs[m].phase == Cleared
              case CreditWait => alive && !aborted && msgs[m].phase.Waiting?
              case HostUnreachable => !alive && msgs[m].phase == Refused
              case Canceled => alive && aborted && msgs[m].phase == Refused
    {
      steps := [Post(m, !alive || aborted)];
      PostToPeer(m, !alive || aborted);
      if !alive || aborted {
        rc := if !alive then HostUnreachable else Canceled;
      } else if msgs[m].phase == PastPeer {
        rc := PostToQueue(m);
        steps := steps + [PostTxq(m)];
        assert steps[1..] == [PostTxq(m)];
      } else {
        rc := CreditWait;
      }
    }

    method PostToPeer(m: nat, refused: bool)
      requires Known(net, St()) && Active(St(), m, Posting)
      modifies this
      ensures St() == PostPeer(net, old(St()), m, refused)
    {
      if refused {
        msgs := msgs[m := msgs[m].(phase := Refused)];
        return;
      }
      if !msgs[m].peertxcredit {
        var p := net.info(m).peer;
        txqnob := txqnob[p := txqnob[p] + net.info(m).len + HDR_SIZE];
        msgs := msgs[m := msgs[m].(peertxcredit := true)];
        var blocked := TakeCredit(PeerOf(net, m), m);
        if blocked {
          msgs := msgs[m := msgs[m].(txDelayed := true, phase := Waiting(PeerOf(net, m)))];
          return;
        }
      }
      msgs := msgs[m := msgs[m].(phase := PastPeer)];
    }

    method PostToQueue(m: nat) returns (rc: Code)
      requires Known(net, St()) && Active(St(), m, PastPeer)
      modifies this
      ensures St() == PostQueue(net, old(St()), m)
      ensures rc == if msgs[m].phase == Cleared then CreditOk else CreditWait
    {
      if !msgs[m].txcredit {
        msgs := msgs[m := msgs[m].(txcredit := true)];
        var blocked := TakeCredit(TxqOf(net, m), m);
        if blocked {
          msgs := msgs[m := msgs[m].(txDelayed := true, phase := Waiting(TxqOf(net, m)))];
          return CreditWait;
        }
      }
      msgs := msgs[m := msgs[m].(txDelayed := false, phase := Cleared)];
      rc := CreditOk;
    }

    /** Gives a credit of a gate back; names the message this lets through. */
    method GiveCredit(g: Gate) returns (blocked: bool, m2: nat)
      requires CanGive(St(), g)
      modifies this
      ensures St() == Wake(old(St()), g)
      ensures blocked ==> Active(St(), m2, Posting)
    {
      var t := gates[g];
      t := t.(credits := t.credits + 1);
      blocked, m2 := t.credits <= 0, 0;
      if blocked {
        m2 := t.queue[0];
        t := t.(queue := t.queue[1..], passed := t.passed + [m2]);
        msgs := msgs[m2 := msgs[m2].(phase := Posting)];
      }
      gates := gates[g := t];
    }

    /** `lnet_return_tx_credits_locked`. Whether a message it lets through finds
        its peer alive is decided elsewhere. */
    method ReturnTxCredits(m: nat, alive: nat -> bool, aborted: nat -> bool) returns (ghost steps: seq<Step>)
      requires Inv(net, St()) && (Active(St(), m, Cleared) || Active(St(), m, Refused))
      modifies this
      ensures Path(net, old(St()), steps, St()) && Inv(net, St())
      ensures m in msgs && msgs[m].phase == Done
    {
      hide Inv, Path;
      ghost var first := ReturnTxq(m, alive, aborted);
      ghost var s1 := St();
      ghost var second := ReturnToPeer(m, alive, aborted);
      PathThen(net, old(St()), first, s1, second, St());
      steps := first + second;
    }

    method ReturnTxq(m: nat, alive: nat -> bool, aborted: nat -> bool) returns (ghost steps: seq<Step>)
      requires Inv(net, St()) && (Active(St(), m, Cleared) || Active(St(), m, Refused))
      modifies this
      ensures Path(net, old(St()), steps, St()) && Inv(net, St()) && Active(St(), m, Returning)
    {
      hide Inv, ReturnQueue, ReturnPeer;
      steps := [GiveTxq(m)];
      Ready(net, St(), m, TxqOf(net, m));
      StepOk(net, St(), steps[0]);
      var blocked, m2 := GiveQueueCredit(m);
      if blocked {
        steps := Repost(old(St()), steps[0], m2, alive(m2), aborted(m2));
      }
    }

    method GiveQueueCredit(m: nat) returns (blocked: bool, m2: nat)
      requires Known(net, St()) && (Active(St(), m, Cleared) || Active(St(), m, Refused))
      requires CanGive(St(), TxqOf(net, m))
      modifies this
      ensures St() == ReturnQueue(net, old(St()), m) && Known(net, St()) && Active(St(), m, Returning)
      ensures blocked ==> Active(St(), m2, Posting)
    {
      blocked, m2 := false, 0;
      var returning := msgs[m].txcredit;
      msgs := msgs[m := msgs[m].(txcredit := false, phase := Returning)];
      if returning {
        blocked, m2 := GiveCredit(TxqOf(net, m));
      }
    }

    method ReturnToPeer(m: nat, alive: nat -> bool, aborted: nat -> bool) returns (ghost steps: seq<Step>)
      requires Inv(net, St()) && Active(St(), m, Returning)
      modifies this
      ensures Path(net, old(St()), steps, St()) && Inv(net, St()) && Active(St(), m, Done)
    {
      hide Inv, ReturnQueue, ReturnPeer;
      steps := [GivePeer(m)];
      Ready(net, St(), m, PeerOf(net, m));
      StepOk(net, St(), steps[0]);
      var blocked, m2 := GivePeerCredit(m);
      if blocked {
        steps := Repost(old(St()), steps[0], m2, alive(m2), aborted(m2));
      }
    }

    method GivePeerCredit(m: nat) returns (blocked: bool, m2: nat)
      requires Known(net, St()) && Active(St(), m, Returning) && CanGive(St(), PeerOf(net, m))
      modifies this
      ensures St() == ReturnPeer(net, old(St()), m) && Known(net, St()) && Active(St(), m, Done)
      ensures blocked ==> Active(St(), m2, Posting)
    {
      blocked, m2 := false, 0;
      var returning := msgs[m].peertxcredit;
      msgs := msgs[m := msgs[m].(peertxcredit := false, phase := Done)];
      if returning {
        var p := net.info(m).peer;
        txqnob := txqnob[p := txqnob[p] - (net.info(m).len + HDR_SIZE)];
        blocked, m2 := GiveCredit(PeerOf(net, m));
      }
    }

    /** Posting the message a returned credit lets through. */
    method Repost(ghost s0: State, ghost e: Step, m2: nat, alive: bool, aborted: bool) returns (ghost steps: seq<Step>)
      requires Known(net, s0) && CanStep(net, s0, e) && Known(net, St()) && Inv(net, St()) && St() == Next(net, s0, e)
      requires Active(St(), m2, Posting)
      modifies this
      ensures Path(net, s0, steps, St()) && Inv(net, St()) && m2 in msgs && msgs == old(msgs)[m2 := msgs[m2]]
    {
      hide Inv, Known, CanStep, Next;
      ghost var s1 := St();
      var rc;
      rc, steps := PostSend(m2, alive, aborted);
      PathOk(net, s1, steps, St());
      assert Path(net, s0, [e], s1);
      PathThen(net, s0, [e], s1, steps, St());
      steps := [e] + steps;
    }
  }

  lemma Ready(net: Net, s: State, m: nat, g: Gate)
    requires Inv(net, s) && m in s.msgs && (g == PeerOf(net, m) || g == TxqOf(net, m))
    ensures Known(net, s) && CanGive(s, g)
  {
    HeadOk(net, s, g);
    assert GateOk(net, s, g);
  }
}
