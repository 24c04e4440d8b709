/** own_t: what each call and each command does to one object of the ownership
    tree and which commands it sends. */
module OwnObjects {
  import opened Basics

  // Objects are numbered in the order of their creation.
  type Id = nat

  // Counted stands for attach and bind, which own_t only counts.
  datatype Cmd = Plug | Own(child: Id) | Counted | TermReq(child: Id) | Term | TermAck

  datatype Packet = Packet(src: Id, dst: Id, cmd: Cmd)

  datatype Obj = Obj(
    id: Id, owner: Option<Id>, terminating: bool, sentSeqnum: nat, processedSeqnum: nat,
    owned: set<Id>, termAcks: int, alive: bool)

  datatype Local = Local(o: Obj, sent: seq<Packet>)

  // Abort is a failed zmq_assert.
  datatype Outcome = Done(l: Local) | Abort

  function NewObj(id: Id, owner: Option<Id>, sentSeqnum: nat): Obj {
    Obj(id, owner, false, sentSeqnum, 0, {}, 0, true)
  }

  function Send(l: Local, dst: Id, cmd: Cmd): Local {
    l.(sent := l.sent + [Packet(l.o.id, dst, cmd)])
  }

  predicate Finished(o: Obj) {
    o.terminating && o.processedSeqnum == o.sentSeqnum && o.termAcks == 0
  }

  function CheckTermAcks(l: Local): Outcome {
    if !Finished(l.o) then Done(l)
    else if l.o.owned != {} then Abort
    else
      var gone := l.(o := l.o.(alive := false));
      Done(if l.o.owner.Some? then Send(gone, l.o.owner.value, TermAck) else gone)
  }

  function CatchUp(l: Local): Local {
    l.(o := l.o.(processedSeqnum := l.o.processedSeqnum + 1))
  }

  function ProcessSeqnum(l: Local): Outcome {
    CheckTermAcks(CatchUp(l))
  }

  function RegisterTermAcks(l: Local, count: nat): Local {
    l.(o := l.o.(termAcks := l.o.termAcks + count))
  }

  function DropTermAck(l: Local): Local {
    l.(o := l.o.(termAcks := l.o.termAcks - 1))
  }

  function UnregisterTermAck(l: Local): Outcome {
    if l.o.termAcks > 0 then CheckTermAcks(DropTermAck(l)) else Abort
  }

  function ProcessTermReq(l: Local, child: Id): Local {
    if l.o.terminating || child !in l.o.owned then l
    else Send(RegisterTermAcks(l.(o := l.o.(owned := l.o.owned - {child})), 1), child, Term)
  }

  function ProcessOwn(l: Local, child: Id): Local {
    if l.o.terminating then Send(RegisterTermAcks(l, 1), child, Term)
    else l.(o := l.o.(owned := l.o.owned + {child}))
  }

  // The set is walked in the order of its elements.
  function Least(s: set<Id>): (m: Id)
    requires s != {}
    ensures m in s && forall x | x in s :: m <= x
  {
    LeastExists(s);
    var m :| m in s && forall x | x in s :: m <= x;
    m
  }

  lemma {:induction false} LeastExists(s: set<Id>)
    requires s != {}
    ensures exists m :: m in s && forall x | x in s :: m <= x
  {
    var y :| y in s;
    var m := y;
    if s != {y} {
      LeastExists(s - {y});
      var m' :| m' in s - {y} && forall x | x in s - {y} :: m' <= x;
      if m' < y { m := m'; }
    }
    forall x | x in s ensures m <= x {
      if x != y { assert x in s - {y}; }
    }
  }

  function Terms(src: Id, owned: set<Id>): seq<Packet> {
    if owned == {} then []
    else [Packet(src, Least(owned), Term)] + Terms(src, owned - {Least(owned)})
  }

  // process_term up to its check.
  function StartTerm(l: Local): Local {
    Local(l.o.(termAcks := l.o.termAcks + |l.o.owned|, owned := {}, terminating := true),
          l.sent + Terms(l.o.id, l.o.owned))
  }

  function ProcessTerm(l: Local): Outcome {
    if l.o.terminating then Abort else CheckTermAcks(StartTerm(l))
  }

  function Terminate(l: Local): Outcome {
    if l.o.terminating then Done(l)
    else if l.o.owner.None? then ProcessTerm(l)
    else Done(Send(l, l.o.owner.value, TermReq(l.o.id)))
  }

  // object_t::process_command, for the commands own_t handles.
  function ProcessCommand(l: Local, cmd: Cmd): Outcome {
    match cmd
    case Plug => ProcessSeqnum(l)
    case Own(child) => ProcessSeqnum(ProcessOwn(l, child))
    case Counted => ProcessSeqnum(l)
    case TermReq(child) => Done(ProcessTermReq(l, child))
    case Term => ProcessTerm(l)
    case TermAck => UnregisterTermAck(l)
  }
}
