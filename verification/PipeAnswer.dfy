/** What each call and command at one end of a pair comes to, in the terms of the pair:
    who gets an answer, what the other end can then read, which command is sent. */
module PipeAnswers {
  import opened Basics
  import opened YPipes
  import opened PipeEnds
  import opened PipePairs

  // --- Reading ---

  // An end that reads gets the first flushed part, and nothing else is taken; with
  // nothing flushed, the delimiter first, or when it no longer reads, it gets none.
  lemma ReadGets(a: End, b: End)
    requires Inv(a, b) && !a.dead
    ensures var r := Act(a, b, CallRead);
      && r.Some?
      && var a' := r.value.0;
      if Reading(a.side) && a.inq.flushed > 0 && a.inq.items[0].Part?
      then a'.answered == a.answered + [a.inq.items[0]] && a'.inq.items == a.inq.items[1..]
      else a'.answered == a.answered && forall m | m in a.inq.items && m.Part? :: m in a'.inq.items
  {
    hide Inv, Read;
    QueueFacts(a, b);
    ReadMeans(View(a, b));
    var q := a.inq.items;
    if Reading(a.side) && a.inq.flushed > 0 {
      assert q == [q[0]] + q[1..];
    }
  }

  // check_read is true exactly when a read would return a part, and then it has
  // changed nothing.
  lemma CheckReadForetells(a: End, b: End)
    requires Inv(a, b) && !a.dead
    ensures var c := CheckRead(View(a, b));
      && c.Done? && (c.r <==> Act(a, b, CallRead).value.0.answered != a.answered)
      && (c.r ==> Act(a, b, CallCheckRead) == Some((a, b)))
  {
    hide Inv, Read, CheckRead, WellFormed;
    QueueFacts(a, b);
    var l := View(a, b);
    ReadMeans(l);
    CheckReadMeans(l);
    assert a.popped + [] == a.popped && b.inbox + [] == b.inbox && a.answered + [] == a.answered;
  }

  // --- Writing ---

  predicate HasRoom(a: End) {
    a.side.state.Active? && (a.side.hwm > 0 ==> a.side.msgsWritten - a.side.peersMsgsRead < a.side.hwm)
  }

  lemma CheckWriteMeans(a: End, b: End)
    requires Inv(a, b)
    ensures CheckWrite(View(a, b)).Done? && (CheckWrite(View(a, b)).r <==> HasRoom(a))
  {
    FlowControl(a, b);
    assert Credit(a, b);
    hide Inv, Full;
  }

  // A part is accepted exactly when the end is active and below its limit; it is then
  // the last item of the queue, and counted if it is a last part.
  lemma WriteAccepted(a: End, b: End, body: seq<int>, more: bool)
    requires Inv(a, b) && !a.dead
    ensures var r := Act(a, b, CallWrite(body, more)); var m := Part(body, more);
      && r.Some?
      && var (a', b') := r.value;
      if HasRoom(a) then
        && a'.wrote == a.wrote + [m] && b'.inq.items == b.inq.items + [m]
        && b'.inq.complete == (if more then b.inq.complete else |b'.inq.items|)
        && a'.side.msgsWritten == a.side.msgsWritten + if more then 0 else 1
      else
        a'.wrote == a.wrote && b'.inq == b.inq && a'.side.msgsWritten == a.side.msgsWritten
  {
    hide Inv, CheckWrite, Write, WellFormed, HasRoom;
    QueueFacts(a, b);
    var l := View(a, b);
    CheckWriteMeans(a, b);
    WriteAppends(l, body, more);
    WriteAnswers(l, body, more);
  }

  lemma WriteAnswers(l: Local, body: seq<int>, more: bool)
    ensures Write(l, body, more).Done? && CheckWrite(l).Done? && Write(l, body, more).r == CheckWrite(l).r
    ensures CheckWrite(l).l.outq == l.outq
  {
    hide Full;
  }

  // A flush makes everything complete readable and wakes a sleeping reader up exactly
  // if there is something new for it.
  lemma FlushDelivers(a: End, b: End)
    requires Inv(a, b) && !a.dead
    ensures var r := Act(a, b, CallFlush);
      && r.Some?
      && var (a', b') := r.value; var open := a.side.hasOut && !a.side.state.Terminating?;
      && a' == a && b'.inq.items == b.inq.items && b'.inq.complete == b.inq.complete
      && b'.inq.flushed == (if open then b.inq.complete else b.inq.flushed)
      && b'.inbox == b.inbox + if open && b.inq.asleep && b.inq.flushed < b.inq.complete then [ActivateRead] else []
  {
    hide Inv, WellFormed;
    QueueFacts(a, b);
  }

  lemma QueueFacts(a: End, b: End)
    requires Inv(a, b)
    ensures WellFormed(a.inq) && WellFormed(b.inq)
  {
  }

  lemma LogFacts(a: End, b: End)
    requires Inv(a, b) && !b.dead
    ensures Stream(b.popped, b.inq, a.wrote)
  {
    assert Log(a, b);
  }

  // A rollback takes back the parts of the unfinished message and nothing else.
  lemma RollbackTakesBack(a: End, b: End)
    requires Inv(a, b) && !a.dead && a.side.hasOut && !b.dead
    ensures var r := Act(a, b, CallRollback);
      && r.Some?
      && var (a', b') := r.value;
      && a'.wrote == Finished(a.wrote) && a'.wrote == b'.popped + b'.inq.items && b'.popped == b.popped
      && b'.inq.complete == |b'.inq.items| == b.inq.complete
  {
    hide Inv, Finished, Ordered, Unfinished;
    LogFacts(a, b);
    QueueFacts(a, b);
    StreamRollback(b.popped, b.inq, a.wrote);
    assert b.inbox + [] == b.inbox;
  }

  // --- Terminating ---

  // What terminate makes of one end: it asks, it answers, or it only takes the delay.
  function Asking(l: Local, delay: bool): Outcome<()>
    requires WellFormed(l.outq)
  {
    CloseOutbound(AskPeer(l.(side := l.side.(delay := delay))))
  }

  lemma TerminateIs(l: Local, delay: bool)
    requires WellFormed(l.outq)
    ensures var l1 := l.(side := l.side.(delay := delay)); var o := Terminate(l, delay);
      match l.side.state
      case Active => o == Asking(l, delay)
      case Delimited => o == Asking(l, delay)
      case Pending => o == CloseOutbound(if delay then l1 else Acked(l1, Terminating))
      case _ => o == Done(l1, ())
  {
    hide CloseOutbound;
  }

  lemma ActTerminates(a: End, b: End, delay: bool)
    requires !a.dead && WellFormed(a.inq) && WellFormed(b.inq)
    ensures var o := Terminate(View(a, b), delay); var r := Act(a, b, CallTerminate(delay));
      && (r.Some? <==> o.Done?)
      && (o.Done? ==>
            var (a', b') := r.value; var s := a.side.state;
            && a'.side == o.l.side && a'.inq == o.l.inq && b' == b.(inq := o.l.outq, inbox := b.inbox + o.l.sent)
            && a' == a.(side := a'.side, inq := a'.inq, wrote := a'.wrote, calledTerminate := true)
            && a'.wrote == if (s.Active? || s.Delimited? || s.Pending?) && a'.side.hasOut
                           then Finished(a.wrote) + [Delimiter] else a.wrote)
  {
    hide Terminate, Finished, WellFormed;
  }

  lemma AskingSends(l: Local, delay: bool, popped: seq<Msg>, wrote: seq<Msg>)
    requires Stream(popped, l.outq, wrote) && l.side.hasOut && !l.side.state.Terminating? && l.sent == []
    ensures var o := Asking(l, delay); var closed := Finished(wrote) + [Delimiter];
      && o.Done? && o.l.side == l.side.(delay := delay, state := Terminated, outActive := false)
      && closed == popped + o.l.outq.items && o.l.outq.flushed == |o.l.outq.items|
      && o.l.sent != [] && o.l.sent[0] == PipeTerm
  {
    hide CloseOutbound, Finished, Ordered, Ends, WellFormed;
    var l1 := AskPeer(l.(side := l.side.(delay := delay)));
    CloseKeepsStream(l1, popped, wrote);
    CloseSends(l1);
    assert l1.sent[0] == PipeTerm;
    StreamIs(popped, CloseOutbound(l1).l.outq, Finished(wrote) + [Delimiter]);
  }

  lemma StreamIs(popped: seq<Msg>, q: Queue<Msg>, wrote: seq<Msg>)
    requires Stream(popped, q, wrote)
    ensures wrote == popped + q.items
  {
  }

  lemma CloseSends(l: Local)
    requires WellFormed(l.outq) && CloseOutbound(l).Done?
    ensures l.sent <= CloseOutbound(l).l.sent
  {
  }

  // An end that has not acknowledged can write, and its peer is there to read.
  lemma StillOpen(a: End, b: End)
    requires Inv(a, b) && (a.side.state.Active? || a.side.state.Delimited? || a.side.state.Pending?)
    ensures a.side.hasOut && !b.dead && Stream(b.popped, b.inq, a.wrote)
  {
    assert Handshake(a, b) && Log(a, b);
  }

  // terminate starts the handshake at an end that has not begun it: the peer is asked,
  // and the delimiter closes what has been written and can be read at once.
  lemma TerminateAsks(a: End, b: End, delay: bool)
    requires Inv(a, b) && !a.dead && (a.side.state.Active? || a.side.state.Delimited?)
    ensures var r := Act(a, b, CallTerminate(delay));
      && r.Some?
      && var (a', b') := r.value;
      && a'.side.state.Terminated? && !a'.side.outActive && a'.side.delay == delay
      && a'.wrote == Finished(a.wrote) + [Delimiter]
      && |b'.inbox| > |b.inbox| && b'.inbox[..|b.inbox|] == b.inbox && b'.inbox[|b.inbox|] == PipeTerm
      && b'.inq.flushed == |b'.inq.items| && b'.popped + b'.inq.items == a'.wrote
  {
    hide Inv, Finished, Asking, Stream, WellFormed, Act, Terminate;
    StillOpen(a, b);
    QueueFacts(a, b);
    TerminateIs(View(a, b), delay);
    AskingSends(View(a, b), delay, b.popped, a.wrote);
    ActTerminates(a, b, delay);
  }

  // At an end whose peer has asked already, terminate acknowledges at once unless the
  // rest is to be read first.
  lemma TerminateAnswers(a: End, b: End, delay: bool)
    requires Inv(a, b) && !a.dead && a.side.state.Pending?
    ensures var r := Act(a, b, CallTerminate(delay));
      && r.Some?
      && var (a', b') := r.value;
      if delay then
        a'.side.state.Pending? && a'.side.hasOut && a'.side.delay && a'.wrote == Finished(a.wrote) + [Delimiter]
      else
        a'.side.state.Terminating? && !a'.side.hasOut && a'.wrote == a.wrote && b'.inbox == b.inbox + [PipeTermAck]
  {
    hide Inv, Finished, Stream, WellFormed, Act, Terminate, CloseOutbound;
    StillOpen(a, b);
    QueueFacts(a, b);
    TerminateIs(View(a, b), delay);
    ActTerminates(a, b, delay);
    var l1 := View(a, b).(side := a.side.(delay := delay));
    if delay {
      CloseKeepsStream(l1, b.popped, a.wrote);
    } else {
      CloseNothing(Acked(l1, Terminating));
    }
  }

  // Once the handshake is under way, terminate only takes note of the delay.
  lemma TerminateIgnored(a: End, b: End, delay: bool)
    requires Inv(a, b) && !a.dead
    requires a.side.state.Terminating? || a.side.state.Terminated? || a.side.state.DoubleTerminated?
    ensures Act(a, b, CallTerminate(delay)) == Some((a.(side := a.side.(delay := delay), calledTerminate := true), b))
  {
    hide Inv, WellFormed, Act, Terminate;
    QueueFacts(a, b);
    TerminateIs(View(a, b), delay);
    ActTerminates(a, b, delay);
    var (a', b') := Act(a, b, CallTerminate(delay)).value;
    assert b.inbox + [] == b.inbox;
    assert a' == a.(side := a.side.(delay := delay), calledTerminate := true);
    assert b' == b;
  }

  // Asked by its peer, an active end acknowledges at once exactly when it does not
  // delay, and otherwise waits for the delimiter.
  lemma TermProcessed(a: End, b: End)
    requires Inv(a, b) && Enabled(a, Deliver) && a.inbox[0].PipeTerm? && a.side.state.Active?
    ensures var r := Act(a, b, Deliver);
      && r.Some?
      && var (a', b') := r.value;
      if a.side.delay then a'.side.state.Pending? && a'.side.hasOut && b' == b
      else a'.side.state.Terminating? && !a'.side.hasOut && b'.inbox == b.inbox + [PipeTermAck]
  {
    QueueFacts(a, b);
    assert Handshake(a, b);
    hide Inv, Handshake, WellFormed, Act;
    var a', b', sent := TermReplies(a, b);
    assert b.inbox + [] == b.inbox;
  }

  // Delivering a command takes it off the channel; an activation is taken up by an end
  // that still reads or writes.
  lemma DeliverTakes(a: End, b: End)
    requires Inv(a, b) && Enabled(a, Deliver)
    ensures var r := Act(a, b, Deliver);
      && r.Some?
      && var a' := r.value.0;
      && a'.inbox == a.inbox[1..] && a'.handled == a.handled + [a.inbox[0]]
      && (a.inbox[0].ActivateRead? && CanRead(a.side.state) ==> a'.side.inActive)
      && (a.inbox[0].ActivateWrite? ==> a'.side.peersMsgsRead == a.inbox[0].msgsRead && (a.side.state.Active? ==> a'.side.outActive))
      && (a.inbox[0].PipeTermAck? <==> a'.dead)
  {
    hide Inv, WellFormed;
    QueueFacts(a, b);
    Shaken(a, b);
    DeliveryDone(a, b);
  }

  lemma Shaken(a: End, b: End)
    requires Inv(a, b)
    ensures Handshake(a, b)
  {
  }
}
