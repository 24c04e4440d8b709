/** own_t as an object that changes in place, method by method what OwnObjects says. */
module Owns {
  import opened Basics
  import opened OwnObjects

  class Own {
    const id: Id
    var owner: Option<Id>
    var terminating: bool
    var sentSeqnum: nat
    var processedSeqnum: nat
    var owned: set<Id>
    var termAcks: int
    var alive: bool           // until delete this
    var sent: seq<Packet>

    ghost function View(): Local
      reads this
    {
      Local(Obj(id, owner, terminating, sentSeqnum, processedSeqnum, owned, termAcks, alive), sent)
    }

    // What o says: the new state, or a failed assertion.
    ghost predicate Agrees(o: Outcome, ok: bool)
      reads this
    {
      match o case Done(l) => ok && View() == l case Abort => !ok
    }

    constructor (id_: Id)
      ensures View() == Local(NewObj(id_, None, 0), [])
    {
      id, owner, terminating, sentSeqnum, processedSeqnum := id_, None, false, 0, 0;
      owned, termAcks, alive, sent := {}, 0, true, [];
    }

    method SetOwner(owner_: Id) returns (ok: bool)
      modifies this
      ensures ok == old(owner.None?)
      ensures ok ==> View() == old(View()).(o := old(View()).o.(owner := Some(owner_)))
    {
      if owner.Some? {
        return false;
      }
      owner := Some(owner_);
      return true;
    }

    method SendCommand(dst: Id, cmd: Cmd)
      modifies this
      ensures View() == Send(old(View()), dst, cmd)
    {
      sent := sent + [Packet(id, dst, cmd)];
    }

    method IncSeqnum()
      modifies this
      ensures View() == old(View()).(o := old(View()).o.(sentSeqnum := old(sentSeqnum) + 1))
    {
      sentSeqnum := sentSeqnum + 1;
    }

    // The child learns its owner and is told to plug itself in; the own command
    // goes to this object itself.  Both count.
    method LaunchChild(child: Own) returns (ok: bool)
      requires child != this
      modifies this, child
      ensures ok == old(child.owner.None?)
      ensures ok ==>
        && child.View() == old(child.View()).(o := old(child.View()).o.(owner := Some(id), sentSeqnum := old(child.sentSeqnum) + 1))
        && View() == Send(Send(old(View()).(o := old(View()).o.(sentSeqnum := old(sentSeqnum) + 1)),
                               child.id, Plug), id, Cmd.Own(child.id))
    {
      ok := child.SetOwner(id);
      if ok {
        child.IncSeqnum();
        SendCommand(child.id, Plug);
        IncSeqnum();
        SendCommand(id, Cmd.Own(child.id));
      }
    }

    method RegisterTermAcks(count: nat)
      modifies this
      ensures View() == OwnObjects.RegisterTermAcks(old(View()), count)
    {
      termAcks := termAcks + count;
    }

    method CheckTermAcks() returns (ok: bool)
      modifies this
      ensures Agrees(OwnObjects.CheckTermAcks(old(View())), ok)
    {
      if terminating && processedSeqnum == sentSeqnum && termAcks == 0 {
        if owned != {} {
          return false;
        }
        if owner.Some? {
          SendCommand(owner.value, TermAck);
        }
        alive := false;
      }
      return true;
    }

    method ProcessSeqnum() returns (ok: bool)
      modifies this
      ensures Agrees(OwnObjects.ProcessSeqnum(old(View())), ok)
    {
      processedSeqnum := processedSeqnum + 1;
      ok := CheckTermAcks();
    }

    method UnregisterTermAck() returns (ok: bool)
      modifies this
      ensures Agrees(OwnObjects.UnregisterTermAck(old(View())), ok)
    {
      if termAcks <= 0 {
        return false;
      }
      termAcks := termAcks - 1;
      ok := CheckTermAcks();
    }

    method ProcessTermReq(child: Id)
      modifies this
      ensures View() == OwnObjects.ProcessTermReq(old(View()), child)
    {
      if terminating {
        return;
      }
      if child !in owned {
        return;
      }
      owned := owned - {child};
      RegisterTermAcks(1);
      SendCommand(child, Term);
    }

    method ProcessOwn(child: Id)
      modifies this
      ensures View() == OwnObjects.ProcessOwn(old(View()), child)
    {
      if terminating {
        RegisterTermAcks(1);
        SendCommand(child, Term);
        return;
      }
      owned := owned + {child};
    }

    method ProcessTerm() returns (ok: bool)
      modifies this
      ensures Agrees(OwnObjects.ProcessTerm(old(View())), ok)
    {
      if terminating {
        return false;
      }
      var rest := owned;
      while rest != {}
        invariant View() == old(View()).(sent := sent)
        invariant rest <= owned && sent + Terms(id, rest) == old(sent) + Terms(id, owned)
        decreases |rest|
      {
        var it := Least(rest);
        SendCommand(it, Term);
        rest := rest - {it};
      }
      RegisterTermAcks(|owned|);
      owned := {};
      terminating := true;
      ok := CheckTermAcks();
    }

    method Terminate() returns (ok: bool)
      modifies this
      ensures Agrees(OwnObjects.Terminate(old(View())), ok)
    {
      if terminating {
        return true;
      }
      if owner.None? {
        ok := ProcessTerm();
        return;
      }
      SendCommand(owner.value, TermReq(id));
      return true;
    }
  }
}
