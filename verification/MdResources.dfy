/** The resource tables and the functions that work on them in place. */
module MdResources {
  import opened MatchEntry
  import opened MdLifecycle
  import opened Options

  /** What the calls that take a handle return. */
  datatype Code = Ok | NoEntry | Busy

  class Resources {
    const ncpts: nat
    var mds: map<nat, LibMd>
    var mes: map<nat, MatchEnt>
    var msgs: map<nat, nat>
    var eqs: map<nat, seq<int>>
    /** Kept to state what happened, read by nobody. */
    ghost var logs: map<nat, Log>
    ghost var frees: multiset<nat>

    ghost function St(): State
      reads this
    {
      State(mds, mes, msgs, eqs, logs, frees, false)
    }

    ghost predicate Valid()
      reads this
    {
      Inv(ncpts, St())
    }

    method EnqueueEvent(d: nat, unlinked: bool)
      requires d in mds && d in logs && (mds[d].eq.Some? ==> mds[d].eq.value in eqs)
      modifies `logs
      ensures St() == Notify(old(St()), d, unlinked)
    {
      if mds[d].eq.Some? {
        logs := logs[d := logs[d].(flags := logs[d].flags + [unlinked])];
      }
    }

    /** `lnet_ptl_detach_md`. */
    method DetachFromPortal(e: nat, d: nat)
      requires d in mds && e in mes && mes[e].md == Some(d) && mds[d].me == Some(e)
      modifies this
      ensures St() == Unhook(old(St()), e, d)
    {
      mes := mes[e := mes[e].(md := None)];
      mds := mds[d := mds[d].(me := None)];
    }

    /** `lnet_md_unlink`. */
    method UnlinkMd(d: nat)
      requires d in mds && (mds[d].zombie ==> mds[d].me.None?) && Base(ncpts, St())
      modifies this
      ensures St() == Unlink(old(St()), d)
    {
      Sound(ncpts, St(), d);
      hide Base, Free;
      DisownMd(d);
      if mds[d].refcount == 0 {
        FreeMd(d);
      }
    }

    method DisownMd(d: nat)
      requires d in mds && (mds[d].zombie ==> mds[d].me.None?)
      requires mds[d].me.Some? ==> mds[d].me.value in mes && mes[mds[d].me.value].md == Some(d)
      modifies this
      ensures St() == Disown(old(St()), d) && eqs == old(eqs)
      ensures d in mds && mds[d] == old(mds[d]).(zombie := true, me := None)
    {
      if !mds[d].zombie {
        var me := mds[d].me;
        mds := mds[d := mds[d].(zombie := true)];
        if me.Some? {
          DetachFromPortal(me.value, d);
          if mes[me.value].unlink {
            mes := mes - {me.value};
          }
        }
      }
    }

    method FreeMd(d: nat)
      requires d in mds
      requires mds[d].eq.Some? ==>
                 mds[d].eq.value in eqs && mds[d].cpt < |eqs[mds[d].eq.value]| && eqs[mds[d].eq.value][mds[d].cpt] > 0
      modifies this
      ensures St() == Free(old(St()), d)
    {
      var x := mds[d];
      if x.eq.Some? {
        var refs := eqs[x.eq.value];
        eqs := eqs[x.eq.value := refs[x.cpt := refs[x.cpt] - 1]];
      }
      mds := mds - {d};
      frees := frees + multiset{d};
    }

    /** `lnet_msg_detach_md`. */
    method MsgDetachMd(m: nat)
      requires Valid() && m in msgs
      modifies this
      ensures Valid() && St() == DetachMsg(old(St()), m)
    {
      DetachOk(ncpts, St(), m);
      DetachReady(ncpts, St(), m);
      hide Inv, Base, Unlink;
      var d := msgs[m];
      mds := mds[d := mds[d].(refcount := mds[d].refcount - 1)];
      msgs := msgs - {m};
      var unlink := Unlinkable(mds[d]);
      EnqueueEvent(d, unlink);
      if unlink {
        UnlinkMd(d);
      }
    }

    /** `LNetMDUnlink`. */
    method MDUnlink(d: nat) returns (rc: Code)
      requires Valid()
      modifies this
      ensures Valid()
      ensures rc == if MdLifecycle.Valid(old(St()), d) then Ok else NoEntry
      ensures St() == if rc == Ok then OwnerUnlink(old(St()), d) else old(St())
    {
      if d !in mds || mds[d].zombie {
        return NoEntry;
      }
      OwnerUnlinkOk(ncpts, St(), d);
      AbortReady(ncpts, St(), d);
      hide Inv, Base, Unlink;
      Abort(d);
      UnlinkMd(d);
      rc := Ok;
    }

    method Abort(d: nat)
      requires d in mds && d in logs && (mds[d].eq.Some? ==> mds[d].eq.value in eqs)
      modifies this
      ensures St() == Aborted(old(St()), d)
    {
      mds := mds[d := mds[d].(aborted := true)];
      if mds[d].refcount == 0 {
        EnqueueEvent(d, true);
      }
    }

    /** `LNetMEUnlink`. */
    method MEUnlink(e: nat) returns (rc: Code)
      requires Valid()
      modifies this
      ensures Valid()
      ensures rc == if e in old(mes) then Ok else NoEntry
      ensures St() == if rc == Ok then UnlinkMe(old(St()), e) else old(St())
    {
      if e !in mes {
        return NoEntry;
      }
      rc := Ok;
      if mes[e].md.None? {
        LoneMeOk(ncpts, St(), e);
        hide Inv;
        mes := mes - {e};
        return;
      }
      UnlinkMeOk(ncpts, St(), e);
      MeReady(ncpts, St(), e);
      hide Inv, Base, Unlink;
      var d := mes[e].md.value;
      Abort(d);
      DetachFromPortal(e, d);
      UnlinkMd(d);
      mes := mes - {e};
    }

    /** `LNetEQFree`: busy exactly when a linked MD reports to it. */
    method EQFree(q: nat) returns (rc: Code)
      requires Valid()
      modifies this
      ensures Valid() && St() == Next(ncpts, old(St()), EqFree(q))
      ensures rc == NoEntry <==> q !in old(eqs)
      ensures rc == Busy <==> q in old(eqs) && exists d :: d in mds && mds[d].eq == Some(q)
    {
      if q !in eqs {
        return NoEntry;
      }
      EqFreeExact(ncpts, St(), q);
      hide Inv;
      var refs, i := eqs[q], 0;
      while i < |refs|
        invariant i <= |refs| && forall c :: 0 <= c < i ==> refs[c] == 0
      {
        if refs[i] != 0 {
          return Busy;
        }
        i := i + 1;
      }
      eqs := eqs - {q};
      rc := Ok;
    }
  }

  /** The assertions of `lnet_md_unlink` hold. */
  lemma Sound(ncpts: nat, s: State, d: nat)
    requires Base(ncpts, s) && d in s.mds
    ensures s.mds[d].me.Some? ==> s.mds[d].me.value in s.mes && s.mes[s.mds[d].me.value].md == Some(d)
    ensures s.mds[d].eq.Some? ==>
              && s.mds[d].eq.value in s.eqs && s.mds[d].cpt < |s.eqs[s.mds[d].eq.value]|
              && s.eqs[s.mds[d].eq.value][s.mds[d].cpt] > 0
  {
    if s.mds[d].eq.Some? {
      assert d in Reporters(s.mds, s.mds[d].eq.value, s.mds[d].cpt);
    }
  }

  lemma DetachReady(ncpts: nat, s: State, m: nat)
    requires Inv(ncpts, s) && m in s.msgs
    ensures var d := s.msgs[m];
            && d in s.mds && d in s.logs && s.mds[d].refcount > 0 && (s.mds[d].zombie ==> s.mds[d].me.None?)
            && (s.mds[d].eq.Some? ==> s.mds[d].eq.value in s.eqs)
            && !s.bad && Base(ncpts, Notify(Released(s, m, d), d, Unlinkable(Released(s, m, d).mds[d])))
  {
    var d := s.msgs[m];
    ReleaseBase(ncpts, s, m, d);
    Sound(ncpts, s, d);
    assert StatusOk(s, d);
    NotifyBase(ncpts, Released(s, m, d), d, Unlinkable(Released(s, m, d).mds[d]));
  }

  lemma AbortReady(ncpts: nat, s: State, d: nat)
    requires Inv(ncpts, s) && MdLifecycle.Valid(s, d)
    ensures d in s.logs && (s.mds[d].eq.Some? ==> s.mds[d].eq.value in s.eqs)
    ensures var s' := Aborted(s, d);
            && Base(ncpts, s') && !s'.bad && s'.mes == s.mes && d in s'.mds && s'.mds[d] == s.mds[d].(aborted := true)
  {
    Sound(ncpts, s, d);
    assert StatusOk(s, d);
    AbortedOk(ncpts, s, d);
  }

  lemma MeReady(ncpts: nat, s: State, e: nat)
    requires Inv(ncpts, s) && e in s.mes && s.mes[e].md.Some?
    ensures var d := s.mes[e].md.value;
            && d in s.mds && d in s.logs && (s.mds[d].eq.Some? ==> s.mds[d].eq.value in s.eqs)
            && s.mds[d].me == Some(e) && !s.mds[d].zombie
            && var s' := Aborted(s, d);
               && s'.mes == s.mes && d in s'.mds && s'.mds[d] == s.mds[d].(aborted := true)
               && Base(ncpts, Unhook(s', e, d))
  {
    var d := s.mes[e].md.value;
    assert d in s.mds && StatusOk(s, d);
    AbortReady(ncpts, s, d);
    hide Inv;
    UnhookBase(ncpts, Aborted(s, d), e, d);
  }
}
