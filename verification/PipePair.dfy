/** pipepair: two ends, two queues and two FIFO command channels.  Any
    interleaving of calls at either end with the delivery of commands is a run. */
module PipePairs {
  import opened Basics
  import opened YPipes
  import opened PipeEnds

  datatype End = End(
    side: Side,
    inq: Queue<Msg>,        // the queue it reads from
    inbox: seq<Cmd>,        // commands of the peer on their way
    handled: seq<Cmd>,      // commands of the peer already processed
    wrote: seq<Msg>,        // accepted and not rolled back, delimiters included
    popped: seq<Msg>,       // taken out of inq by reading
    answered: seq<Msg>,     // what the calls of read have returned
    limit: Int32,           // the hwm it was created with
    delayed: bool,          // the delay it was created with
    calledTerminate: bool,
    dead: bool)

  datatype World = World(x: End, y: End)

  datatype Op =
    | CallCheckRead | CallRead
    | CallCheckWrite | CallWrite(body: seq<int>, more: bool)
    | CallRollback | CallFlush | CallTerminate(delay: bool)
    | Deliver

  datatype Step = Step(first: bool, op: Op)

  function NewEnd(inhwm: Int32, outhwm: Int32, delay: bool): End {
    End(NewSide(inhwm, outhwm, delay), Queue([], 0, 0, false), [], [], [], [], [],
        outhwm, delay, false, false)
  }

  function NewPair(hwms: (Int32, Int32), delays: (bool, bool)): World {
    World(NewEnd(hwms.1, hwms.0, delays.0), NewEnd(hwms.0, hwms.1, delays.1))
  }

  // All commands the peer of a has sent to it, in order.
  function SentTo(a: End): seq<Cmd> { a.handled + a.inbox }

  // A log without the unfinished message at its end.
  function Finished(log: seq<Msg>): seq<Msg> {
    if log != [] && log[|log| - 1].Part? && log[|log| - 1].more then Finished(log[..|log| - 1]) else log
  }

  predicate Enabled(a: End, op: Op) {
    !a.dead && (op.Deliver? ==> a.inbox != [])
  }

  function View(a: End, b: End): Local { Local(a.side, a.inq, b.inq, []) }

  function Settle(a: End, b: End, l: Local): (End, End) {
    (a.(side := l.side, inq := l.inq), b.(inq := l.outq, inbox := b.inbox + l.sent))
  }

  function SettleRead(a: End, b: End, l: Local): (End, End) {
    var popped := if |l.inq.items| < |a.inq.items| then [a.inq.items[0]] else [];
    Settle(a.(popped := a.popped + popped), b, l)
  }

  // The end a acts; None stands for a failed assertion.
  function Act(a: End, b: End, op: Op): Option<(End, End)>
    requires Enabled(a, op) && WellFormed(a.inq) && WellFormed(b.inq)
  {
    var l := View(a, b);
    match op
    case CallCheckRead =>
      (match CheckRead(l) case Abort => None case Done(d, _) => Some(SettleRead(a, b, d)))
    case CallRead =>
      (match Read(l) case Abort => None
       case Done(d, m) =>
         Some(SettleRead(a.(answered := a.answered + if m.Some? then [m.value] else []), b, d)))
    case CallCheckWrite =>
      (match CheckWrite(l) case Abort => None case Done(d, _) => Some(Settle(a, b, d)))
    case CallWrite(body, more) =>
      (match Write(l, body, more) case Abort => None
       case Done(d, ok) => Some(Settle(if ok then a.(wrote := a.wrote + [Part(body, more)]) else a, b, d)))
    case CallRollback =>
      (match Rollback(l) case Abort => None
       case Done(d, _) => Some(Settle(if a.side.hasOut then a.(wrote := Finished(a.wrote)) else a, b, d)))
    case CallFlush =>
      (match Flush(l) case Abort => None case Done(d, _) => Some(Settle(a, b, d)))
    case CallTerminate(delay) =>
      (match Terminate(l, delay) case Abort => None
       case Done(d, _) =>
         var closing := (a.side.state.Active? || a.side.state.Delimited? || a.side.state.Pending?) && d.side.hasOut;
         var wrote := if closing then Finished(a.wrote) + [Delimiter] else a.wrote;
         Some(Settle(a.(wrote := wrote, calledTerminate := true), b, d)))
    case Deliver =>
      var cmd := a.inbox[0];
      var a1 := a.(handled := a.handled + [cmd], inbox := a.inbox[1..], dead := cmd.PipeTermAck?);
      match Handle(l, cmd) case Abort => None case Done(d, _) => Some(Settle(a1, b, d))
  }

  function Handle(l: Local, cmd: Cmd): Outcome<()>
    requires WellFormed(l.inq)
  {
    match cmd
    case ActivateRead => ProcessActivateRead(l)
    case ActivateWrite(n) => ProcessActivateWrite(l, n)
    case PipeTerm => ProcessPipeTerm(l)
    case PipeTermAck => ProcessPipeTermAck(l)
  }

  // --- The termination handshake ---

  // The handshake state of a against what has been sent either way.
  predicate Shake(a: End, b: End) {
    var term, ack := PipeTerm in SentTo(b), PipeTermAck in SentTo(b);
    var gotTerm, gotAck := PipeTerm in a.handled, PipeTermAck in a.handled;
    && a.dead == gotAck
    && (a.side.hasOut == !ack)
    && match a.side.state
       case Active => !term && !ack && !gotTerm && !gotAck
       case Delimited => !term && !ack && !gotTerm && !gotAck
       case Pending => !term && !ack && gotTerm && !gotAck
       case Terminating => !term && ack && gotTerm
       case Terminated => term && !gotTerm && (ack == gotAck)
       case DoubleTerminated => term && ack && gotTerm
  }

  // At most one pipe_term, and nothing after an acknowledgement.
  ghost predicate Orderly(sent: seq<Cmd>) {
    && (forall i, j | 0 <= i < j < |sent| :: !(sent[i].PipeTerm? && sent[j].PipeTerm?))
    && (forall i | 0 <= i < |sent| - 1 :: !sent[i].PipeTermAck?)
  }

  ghost predicate Handshake(a: End, b: End) {
    Shake(a, b) && Shake(b, a) && Orderly(SentTo(a)) && Orderly(SentTo(b))
  }

  lemma OrderlyAppend(sent: seq<Cmd>, more: seq<Cmd>)
    requires Orderly(sent) && |more| <= 2
    requires PipeTermAck !in sent || more == []
    requires PipeTerm !in sent || PipeTerm !in more
    requires |more| == 2 ==> more[0] != PipeTermAck && (more[0] != PipeTerm || more[1] != PipeTerm)
    ensures Orderly(sent + more)
  {
    forall i, j | 0 <= i < j < |sent + more| ensures !((sent + more)[i].PipeTerm? && (sent + more)[j].PipeTerm?) {
      if i < |sent| { assert sent[i] in sent; }
      if j >= |sent| { assert more[j - |sent|] in more; }
    }
  }

  predicate Plain(sent: seq<Cmd>) {
    PipeTerm !in sent && PipeTermAck !in sent
  }

  // What a call, or the processing of an activate command, does to the handshake.
  predicate Moves(s: Side, s': Side, sent: seq<Cmd>) {
    && |sent| <= 2
    && (s.state.Terminating? || (s.state.DoubleTerminated? && !s.hasOut) ==> sent == [])
    && (|| (s'.state == s.state && s'.hasOut == s.hasOut && Plain(sent))
        || (s.state.Active? && s'.state.Delimited? && s'.hasOut == s.hasOut && Plain(sent))
        || (s.state.Pending? && s'.state.Terminating? && !s'.hasOut && sent == [PipeTermAck])
        || ((s.state.Active? || s.state.Delimited?) && s'.state.Terminated? && s'.hasOut == s.hasOut
            && |sent| > 0 && sent[0] == PipeTerm && Plain(sent[1..])))
  }

  predicate MovesTo<R>(l: Local, o: Outcome<R>) {
    o.Done? ==> Moves(l.side, o.l.side, o.l.sent)
  }

  lemma ReadsMove(l: Local)
    requires WellFormed(l.inq) && l.sent == []
    ensures MovesTo(l, CheckRead(l)) && MovesTo(l, Read(l))
  {
  }

  lemma WritesMove(l: Local, body: seq<int>, more: bool)
    requires WellFormed(l.outq) && l.sent == []
    ensures MovesTo(l, CheckWrite(l)) && MovesTo(l, Write(l, body, more))
    ensures MovesTo(l, Rollback(l)) && MovesTo(l, Flush(l))
  {
  }

  lemma TerminateMoves(l: Local, delay: bool)
    requires WellFormed(l.outq) && l.sent == []
    ensures MovesTo(l, Terminate(l, delay))
  {
    hide WellFormed, QWrite, QRollback, QFlushAwake, QFlush, Unfinished;
  }

  lemma ActivateMoves(l: Local, cmd: Cmd)
    requires WellFormed(l.inq) && l.sent == [] && (cmd.ActivateRead? || cmd.ActivateWrite?)
    ensures MovesTo(l, Handle(l, cmd))
  {
  }

  // The rest of what such a step does to the handshake: sent goes to the peer,
  // and handled comes off the inbox.
  predicate Relays(a: End, b: End, a': End, b': End, sent: seq<Cmd>, handled: seq<Cmd>) {
    && Moves(a.side, a'.side, sent) && Plain(handled)
    && a'.dead == a.dead && SentTo(a') == SentTo(a) && a'.handled == a.handled + handled
    && b' == b.(inq := b'.inq, inbox := b.inbox + sent)
  }

  lemma ReaderCallMoves(a: End, b: End, op: Op, a': End, b': End) returns (sent: seq<Cmd>)
    requires Enabled(a, op) && WellFormed(a.inq) && WellFormed(b.inq) && (op.CallCheckRead? || op.CallRead?)
    requires Act(a, b, op) == Some((a', b'))
    ensures Relays(a, b, a', b', sent, [])
  {
    hide WellFormed, Moves, CheckRead, Read;
    var l := View(a, b);
    ReadsMove(l);
    sent := if op.CallRead? then Read(l).l.sent else CheckRead(l).l.sent;
  }

  lemma WriterCallMoves(a: End, b: End, op: Op, a': End, b': End) returns (sent: seq<Cmd>)
    requires Enabled(a, op) && WellFormed(a.inq) && WellFormed(b.inq)
    requires !op.CallCheckRead? && !op.CallRead? && !op.Deliver?
    requires Act(a, b, op) == Some((a', b'))
    ensures Relays(a, b, a', b', sent, [])
  {
    hide WellFormed, Moves, CheckWrite, Write, Rollback, Flush, Terminate, Finished;
    var l := View(a, b);
    match op {
      case CallCheckWrite => WritesMove(l, [], false); sent := CheckWrite(l).l.sent;
      case CallWrite(body, more) => WritesMove(l, body, more); sent := Write(l, body, more).l.sent;
      case CallRollback => WritesMove(l, [], false); sent := Rollback(l).l.sent;
      case CallFlush => WritesMove(l, [], false); sent := Flush(l).l.sent;
      case CallTerminate(delay) => TerminateMoves(l, delay); sent := Terminate(l, delay).l.sent;
    }
  }

  lemma ActivationMoves(a: End, b: End, a': End, b': End) returns (sent: seq<Cmd>)
    requires Enabled(a, Deliver) && WellFormed(a.inq) && WellFormed(b.inq)
    requires Act(a, b, Deliver) == Some((a', b')) && (a.inbox[0].ActivateRead? || a.inbox[0].ActivateWrite?)
    ensures Relays(a, b, a', b', sent, [a.inbox[0]])
  {
    hide WellFormed, Moves, Handle;
    var l := View(a, b);
    ActivateMoves(l, a.inbox[0]);
    sent := Handle(l, a.inbox[0]).l.sent;
  }

  lemma CallMoves(a: End, b: End, op: Op, a': End, b': End) returns (sent: seq<Cmd>, handled: seq<Cmd>)
    requires Enabled(a, op) && WellFormed(a.inq) && WellFormed(b.inq)
    requires Act(a, b, op) == Some((a', b'))
    requires op.Deliver? ==> a.inbox[0].ActivateRead? || a.inbox[0].ActivateWrite?
    ensures Relays(a, b, a', b', sent, handled)
  {
    hide WellFormed, Relays, Act;
    handled := [];
    if op.Deliver? {
      sent := ActivationMoves(a, b, a', b');
      handled := [a.inbox[0]];
    } else if op.CallCheckRead? || op.CallRead? {
      sent := ReaderCallMoves(a, b, op, a', b');
    } else {
      sent := WriterCallMoves(a, b, op, a', b');
    }
  }

  lemma RelaysKeepHandshake(a: End, b: End, a': End, b': End, sent: seq<Cmd>, handled: seq<Cmd>)
    requires Handshake(a, b) && !a.dead && Relays(a, b, a', b', sent, handled)
    ensures Handshake(a', b')
  {
    assert SentTo(b') == SentTo(b) + sent;
    if |sent| > 0 && sent[0] == PipeTerm { assert sent == [PipeTerm] + sent[1..]; }
    if |sent| == 2 { assert sent[1] in sent[1..]; }
    OrderlyAppend(SentTo(b), sent);
  }

  lemma OneTerm(a: End, b: End)
    requires Handshake(a, b) && a.inbox != [] && a.inbox[0].PipeTerm?
    ensures PipeTerm !in a.handled
  {
    forall i | 0 <= i < |a.handled| ensures a.handled[i] != PipeTerm {
      assert SentTo(a)[i] == a.handled[i] && SentTo(a)[|a.handled|] == a.inbox[0];
    }
  }

  // What processing pipe_term or pipe_term_ack does to the handshake.
  predicate Replies(a: End, b: End, a': End, b': End, sent: seq<Cmd>) {
    && (a.inbox != [] && a' == a.(side := a'.side, inq := a'.inq, dead := a'.dead,
                                  handled := a.handled + [a.inbox[0]], inbox := a.inbox[1..]))
    && b' == b.(inbox := b.inbox + sent)
    && (sent == [] || sent == [PipeTermAck])
    && (a'.side.hasOut == (a.side.hasOut && sent == []))
    && (a.inbox[0].PipeTerm? && a.side.state.Active? ==> (sent == [] <==> a.side.delay))
    && (a.inbox[0].PipeTermAck? ==> a'.inq.flushed == 0)
    && a'.dead == a.inbox[0].PipeTermAck?
    && match (a.inbox[0], a.side.state)
       case (PipeTerm, Active) => if sent == [] then a'.side.state.Pending? else a'.side.state.Terminating?
       case (PipeTerm, Delimited) => a'.side.state.Terminating? && sent != []
       case (PipeTerm, Terminated) => a'.side.state.DoubleTerminated? && sent != []
       case (PipeTermAck, Terminated) => a'.side.state.Terminated? && sent != []
       case (PipeTermAck, Terminating) => a'.side.state.Terminating? && sent == []
       case (PipeTermAck, DoubleTerminated) => a'.side.state.DoubleTerminated? && sent == []
       case _ => false
  }

  // The assertions of process_pipe_term and process_pipe_term_ack never fail.
  lemma TermReplies(a: End, b: End) returns (a': End, b': End, sent: seq<Cmd>)
    requires Handshake(a, b) && Enabled(a, Deliver) && (a.inbox[0].PipeTerm? || a.inbox[0].PipeTermAck?)
    requires WellFormed(a.inq) && WellFormed(b.inq)
    ensures Act(a, b, Deliver) == Some((a', b')) && Replies(a, b, a', b', sent)
  {
    hide WellFormed, Orderly;
    if a.inbox[0].PipeTerm? { OneTerm(a, b); }
    assert a.inbox[0] in SentTo(a);
    var r := Act(a, b, Deliver);
    a', b' := r.value.0, r.value.1;
    sent := Handle(View(a, b), a.inbox[0]).l.sent;
  }

  lemma RepliesKeepHandshake(a: End, b: End, a': End, b': End, sent: seq<Cmd>)
    requires Handshake(a, b) && Replies(a, b, a', b', sent) && !a.dead
    ensures Handshake(a', b')
  {
    assert SentTo(a') == SentTo(a);
    assert SentTo(b') == SentTo(b) + sent;
    OrderlyAppend(SentTo(b), sent);
  }

  // --- The messages ---

  predicate Open(m: Msg) { m.Part? && m.more }

  // The number of messages completed in a log.
  function Ends(log: seq<Msg>): nat {
    if log == [] then 0
    else Ends(log[..|log| - 1]) + if log[|log| - 1].Part? && !log[|log| - 1].more then 1 else 0
  }

  // Whole messages, then delimiters, or a log still being written.
  ghost predicate Ordered(log: seq<Msg>) {
    && (forall i, j | 0 <= i < j < |log| :: log[i].Delimiter? ==> log[j].Delimiter?)
    && (forall i | 0 <= i < |log| - 1 :: log[i + 1].Delimiter? ==> !Open(log[i]))
  }

  // The queue holds what was written and not read, complete up to the last
  // finished message.
  ghost predicate Stream(popped: seq<Msg>, q: Queue<Msg>, wrote: seq<Msg>) {
    && WellFormed(q) && Ordered(wrote)
    && wrote == popped + q.items
    && Finished(wrote) == wrote[..|popped| + q.complete]
  }

  lemma {:induction false} FinishedShape(log: seq<Msg>)
    ensures var f := Finished(log);
      && f <= log && Unfinished(log[|f|..]) && Ends(f) == Ends(log)
      && Finished(f) == f && (f != [] ==> !Open(f[|f| - 1]))
  {
    if log != [] && Open(log[|log| - 1]) {
      FinishedShape(log[..|log| - 1]);
      var f := Finished(log);
      assert log[|f|..] == log[..|log| - 1][|f|..] + [log[|log| - 1]];
    }
  }

  lemma EndsAppend(log: seq<Msg>, m: Msg)
    ensures Ends(log + [m]) == Ends(log) + if m.Part? && !m.more then 1 else 0
  {
    assert (log + [m])[..|log|] == log;
  }

  lemma OrderedAppend(log: seq<Msg>, m: Msg)
    requires Ordered(log)
    requires m.Part? ==> Delimiter !in log
    requires m.Delimiter? ==> Finished(log) == log
    ensures Ordered(log + [m])
  {
    FinishedShape(log);
    hide Finished;
  }

  lemma FinishedAppend(log: seq<Msg>, m: Msg)
    ensures Finished(log + [m]) == if Open(m) then Finished(log) else log + [m]
  {
    assert (log + [m])[..|log|] == log;
  }

  lemma StreamWrite(popped: seq<Msg>, q: Queue<Msg>, wrote: seq<Msg>, m: Msg)
    requires Stream(popped, q, wrote)
    requires m.Part? ==> Delimiter !in wrote
    requires m.Delimiter? ==> Finished(wrote) == wrote
    ensures Stream(popped, QWrite(q, m, Open(m)), wrote + [m])
    ensures popped <= wrote + [m] && Ordered(wrote + [m]) && WellFormed(QWrite(q, m, Open(m)))
  {
    hide Ordered, Finished;
    OrderedAppend(wrote, m);
    FinishedAppend(wrote, m);
    assert wrote + [m] == popped + (q.items + [m]);
  }

  lemma StreamRollback(popped: seq<Msg>, q: Queue<Msg>, wrote: seq<Msg>)
    requires Stream(popped, q, wrote)
    ensures Unfinished(q.items[q.complete..])
    ensures Stream(popped, QRollback(q), Finished(wrote))
    ensures popped <= Finished(wrote) && Ordered(Finished(wrote)) && WellFormed(QRollback(q))
    ensures Delimiter in Finished(wrote) ==> Delimiter in wrote
    ensures q.complete == |q.items| ==> QRollback(q) == q && Finished(wrote) == wrote
  {
    FinishedShape(wrote);
    var f := Finished(wrote);
    hide Finished;
    assert wrote[|f|..] == q.items[q.complete..];
    assert f == popped + q.items[..q.complete];
  }

  lemma StreamFlush(popped: seq<Msg>, q: Queue<Msg>, wrote: seq<Msg>)
    requires Stream(popped, q, wrote)
    ensures Stream(popped, QFlush(q), wrote) && WellFormed(QFlush(q))
  {
  }

  lemma StreamRead(popped: seq<Msg>, q: Queue<Msg>, wrote: seq<Msg>)
    requires Stream(popped, q, wrote)
    ensures q.flushed == 0 ==> Stream(popped, QCheckRead(q), wrote)
    ensures q.flushed > 0 ==> Stream(popped + [q.items[0]], QRead(q), wrote) && popped + [q.items[0]] <= wrote
  {
    hide Ordered, Finished;
    if q.flushed > 0 {
      assert wrote[|popped|] == q.items[0];
      assert popped + q.items == popped + [q.items[0]] + q.items[1..];
    }
  }

  predicate Ended(s: State) { s.Terminated? || s.DoubleTerminated? }

  predicate CanRead(s: State) { s.Active? || s.Pending? }

  predicate Undisturbed(s: State) { s.Active? || s.Delimited? }

  // What a wrote against what b has read and can still read.
  ghost predicate Log(a: End, b: End) {
    && Ordered(a.wrote) && b.popped <= a.wrote && WellFormed(b.inq)
    && (!b.dead ==> Stream(b.popped, b.inq, a.wrote))
    && (Delimiter in a.wrote ==> !Undisturbed(a.side.state))
    && (Ended(a.side.state) ==> Delimiter in a.wrote && (!b.dead ==> b.inq.flushed == |b.inq.items|))
    && (Delimiter in b.popped ==> !CanRead(b.side.state))
    && (b.side.state.Delimited? ==> Delimiter in b.popped)
    && a.side.msgsWritten == Ends(a.wrote) && b.side.msgsRead == Ends(b.popped)
  }

  // --- The writer acts ---

  predicate OutUntouched<R>(l: Local, o: Outcome<R>) {
    o.Done? ==>
      && o.l.outq == l.outq && o.l.side.msgsWritten == l.side.msgsWritten
      && (Undisturbed(o.l.side.state) ==> Undisturbed(l.side.state))
      && (Ended(o.l.side.state) ==> Ended(l.side.state))
  }

  lemma ReaderCallsLeaveOut(l: Local)
    requires WellFormed(l.inq)
    ensures OutUntouched(l, CheckRead(l)) && OutUntouched(l, Read(l)) && OutUntouched(l, CheckWrite(l))
  {
  }

  lemma DeliveryLeavesOut(l: Local, cmd: Cmd)
    requires WellFormed(l.inq)
    ensures OutUntouched(l, Handle(l, cmd))
  {
  }

  lemma LogUntouchedOut(a: End, b: End, a': End, b': End)
    requires Log(a, b) && b' == b.(inbox := b'.inbox)
    requires a'.wrote == a.wrote && a'.side.msgsWritten == a.side.msgsWritten
    requires Undisturbed(a'.side.state) ==> Undisturbed(a.side.state)
    requires Ended(a'.side.state) ==> Ended(a.side.state)
    ensures Log(a', b')
  {
  }

  lemma WriteAppends(l: Local, body: seq<int>, more: bool)
    ensures var o := Write(l, body, more);
      && o.Done? && o.l.side.state == l.side.state
      && if o.r then o.l.outq == QWrite(l.outq, Part(body, more), more) && l.side.state.Active?
                     && o.l.side.msgsWritten == l.side.msgsWritten + if more then 0 else 1
         else o.l.outq == l.outq && o.l.side.msgsWritten == l.side.msgsWritten
  {
    hide Full;
  }

  lemma WriteKeepsLog(a: End, b: End, body: seq<int>, more: bool)
    requires Log(a, b) && !a.dead && WellFormed(a.inq) && (b.dead ==> !a.side.state.Active?)
    ensures var r := Act(a, b, CallWrite(body, more)); r.Some? && Log(r.value.0, r.value.1)
  {
    hide Ordered, Finished, Write, Ends;
    WriteAppends(View(a, b), body, more);
    if Write(View(a, b), body, more).r {
      StreamWrite(b.popped, b.inq, a.wrote, Part(body, more));
      EndsAppend(a.wrote, Part(body, more));
      hide Stream, QWrite;
    }
  }

  lemma RollbackKeepsLog(a: End, b: End)
    requires Log(a, b) && !a.dead && WellFormed(a.inq) && (b.dead ==> !a.side.hasOut)
    ensures var r := Act(a, b, CallRollback); r.Some? && Log(r.value.0, r.value.1)
  {
    hide Ordered, Finished, Stream, QRollback, Unfinished, Ends;
    if a.side.hasOut {
      StreamRollback(b.popped, b.inq, a.wrote);
      FinishedShape(a.wrote);
    }
  }

  lemma FlushKeepsLog(a: End, b: End)
    requires Log(a, b) && !a.dead && WellFormed(a.inq) && (b.dead ==> !a.side.hasOut)
    ensures var r := Act(a, b, CallFlush); r.Some? && Log(r.value.0, r.value.1)
  {
    hide Ordered, Finished;
  }

  lemma CloseKeepsStream(l: Local, popped: seq<Msg>, wrote: seq<Msg>)
    requires Stream(popped, l.outq, wrote) && l.side.hasOut && !l.side.state.Terminating?
    ensures var o := CloseOutbound(l); var closed := Finished(wrote) + [Delimiter];
      && o.Done? && o.l.side == l.side.(outActive := false) && o.l.inq == l.inq
      && Stream(popped, o.l.outq, closed) && WellFormed(o.l.outq) && o.l.outq.flushed == |o.l.outq.items|
      && popped <= closed && Ordered(closed) && Delimiter in closed && Ends(closed) == Ends(wrote)
  {
    hide Ordered, Finished, Stream, Ends, QRollback, Unfinished;
    StreamRollback(popped, l.outq, wrote);
    FinishedShape(wrote);
    StreamWrite(popped, QRollback(l.outq), Finished(wrote), Delimiter);
    StreamFlush(popped, QWrite(QRollback(l.outq), Delimiter, false), Finished(wrote) + [Delimiter]);
    EndsAppend(Finished(wrote), Delimiter);
    assert (Finished(wrote) + [Delimiter])[|Finished(wrote)|] == Delimiter;
  }

  lemma TerminateKeepsLog(a: End, b: End, delay: bool)
    requires Log(a, b) && !a.dead && WellFormed(a.inq) && (b.dead ==> !a.side.hasOut)
    requires a.side.state.Active? || a.side.state.Delimited? ==> a.side.hasOut
    ensures var r := Act(a, b, CallTerminate(delay)); r.Some? && Log(r.value.0, r.value.1)
  {
    hide Ordered, Finished, Stream, Ends, CloseOutbound, WellFormed, QFlush, QFlushAwake, QRollback, QWrite;
    var l := View(a, b);
    var l1 := l.(side := l.side.(delay := delay));
    match a.side.state
    case Terminated =>
    case DoubleTerminated =>
    case Terminating =>
    case Active => CloseKeepsStream(AskPeer(l1), b.popped, a.wrote);
    case Delimited => CloseKeepsStream(AskPeer(l1), b.popped, a.wrote);
    case Pending =>
      if a.side.hasOut && delay {
        CloseKeepsStream(l1, b.popped, a.wrote);
      } else {
        CloseNothing(if delay then l1 else Acked(l1, Terminating));
      }
  }

  lemma CloseNothing(l: Local)
    requires !l.side.hasOut && WellFormed(l.outq)
    ensures CloseOutbound(l) == Done(l.(side := l.side.(outActive := false)), ())
  {
  }

  // --- The reader acts ---

  predicate InUntouched<R>(l: Local, o: Outcome<R>) {
    o.Done? ==>
      && o.l.inq == l.inq && o.l.side.msgsRead == l.side.msgsRead
      && (CanRead(o.l.side.state) ==> CanRead(l.side.state))
      && (o.l.side.state.Delimited? ==> l.side.state.Delimited?)
      && (!o.l.side.inActive ==> !l.side.inActive)
  }

  lemma WriterCallsLeaveIn(l: Local, body: seq<int>, more: bool, delay: bool)
    requires WellFormed(l.outq)
    ensures InUntouched(l, CheckWrite(l)) && InUntouched(l, Write(l, body, more))
    ensures InUntouched(l, Rollback(l)) && InUntouched(l, Flush(l)) && InUntouched(l, Terminate(l, delay))
  {
    hide QWrite, QRollback, QFlushAwake, QFlush, Unfinished, Full;
  }

  lemma DeliveryLeavesIn(l: Local, cmd: Cmd)
    requires WellFormed(l.inq)
    ensures InUntouched(l.(inq := if cmd.PipeTermAck? then Drained(l.inq) else l.inq), Handle(l, cmd))
    ensures WellFormed(Drained(l.inq))
  {
  }

  lemma LogUntouchedIn(b: End, a: End, b': End, a': End)
    requires Log(b, a) && b' == b.(inq := b'.inq, inbox := b'.inbox)
    requires a'.popped == a.popped && a'.side.msgsRead == a.side.msgsRead
    requires CanRead(a'.side.state) ==> CanRead(a.side.state)
    requires a'.side.state.Delimited? ==> a.side.state.Delimited?
    requires WellFormed(a'.inq) && (a'.dead || (a'.inq == a.inq && !a.dead))
    ensures Log(b', a')
  {
  }

  // What a call that reads does to its own end of the queue.
  predicate Takes(l: Local, l': Local) {
    || (l'.inq == l.inq && l'.side == l.side)
    || (l.inq.flushed == 0 && l'.inq == QCheckRead(l.inq) && l'.side == l.side.(inActive := false))
    || (l.inq.flushed > 0 && WellFormed(l.inq) && l'.inq == QRead(l.inq) && CanRead(l.side.state)
        && if l.inq.items[0].Delimiter?
           then !CanRead(l'.side.state) && l'.side.msgsRead == l.side.msgsRead
           else l'.side == l.side.(msgsRead := l.side.msgsRead + if Open(l.inq.items[0]) then 0 else 1))
  }

  lemma ReadsTake(l: Local)
    requires WellFormed(l.inq)
    ensures CheckRead(l).Done? && Takes(l, CheckRead(l).l)
    ensures Read(l).Done? && Takes(l, Read(l).l)
  {
  }

  lemma LogAfterRead(b: End, a: End, b': End, a': End)
    requires Log(b, a) && !a.dead && a.inq.flushed > 0 && b' == b.(inq := b'.inq, inbox := b'.inbox)
    requires a' == a.(side := a'.side, inq := QRead(a.inq), popped := a.popped + [a.inq.items[0]], answered := a'.answered)
    requires CanRead(a.side.state) && Takes(View(a, b), View(a', b'))
    ensures Log(b', a')
  {
    hide Ordered, Finished, Ends, Stream;
    StreamRead(a.popped, a.inq, b.wrote);
    EndsAppend(a.popped, a.inq.items[0]);
    assert a'.popped[|a.popped|] == a.inq.items[0];
  }

  lemma ReadsKeepLog(b: End, a: End, op: Op)
    requires Log(b, a) && !a.dead && WellFormed(b.inq) && (op.CallCheckRead? || op.CallRead?)
    ensures var r := Act(a, b, op); r.Some? && Log(r.value.1, r.value.0)
  {
    hide Ordered, Finished, Ends, CheckRead, Read, Stream;
    var l := View(a, b);
    ReadsTake(l);
    var (a', b') := Act(a, b, op).value;
    if |a'.inq.items| < |a.inq.items| {
      LogAfterRead(b, a, b', a');
    } else {
      StreamRead(a.popped, a.inq, b.wrote);
      assert a.popped + [] == a.popped;
    }
  }

  // --- What reading returns ---

  // The messages before the first delimiter.
  function Body(log: seq<Msg>): seq<Msg> {
    if log == [] || log[0].Delimiter? then [] else [log[0]] + Body(log[1..])
  }

  lemma {:induction false} BodyUpTo(log: seq<Msg>, m: Msg)
    requires Delimiter !in log
    ensures Body(log) == log
    ensures Body(log + [m]) == if m.Delimiter? then log else log + [m]
  {
    if log != [] {
      assert log[0] in log;
      assert log == [log[0]] + log[1..] && (log + [m])[1..] == log[1..] + [m];
      BodyUpTo(log[1..], m);
    }
  }

  // What has been returned is what has been taken, without delimiters.
  ghost predicate Answered(a: End) { a.answered == Body(a.popped) }

  // A read takes the first item that has been flushed and returns it unless it is
  // the delimiter; otherwise nothing is there.
  lemma ReadMeans(l: Local)
    requires WellFormed(l.inq)
    ensures Read(l).Done?
    ensures if Reading(l.side) && l.inq.flushed > 0
      then Read(l).l.inq.items == l.inq.items[1..]
           && Read(l).r == if l.inq.items[0].Part? then Some(l.inq.items[0]) else None
      else Read(l).l.inq.items == l.inq.items && Read(l).r == None
  {
  }

  // check_read says whether a read would return something.
  lemma CheckReadMeans(l: Local)
    requires WellFormed(l.inq)
    ensures CheckRead(l).Done?
    ensures CheckRead(l).r <==> Reading(l.side) && l.inq.flushed > 0 && l.inq.items[0].Part?
    ensures CheckRead(l).r ==> CheckRead(l).l == l
    ensures CheckRead(l).l.inq.items
         == if Reading(l.side) && l.inq.flushed > 0 && l.inq.items[0].Delimiter? then l.inq.items[1..] else l.inq.items
  {
  }

  lemma ReadsStayAnswered(b: End, a: End, op: Op)
    requires Answered(a) && Log(b, a) && !a.dead && WellFormed(b.inq) && (op.CallCheckRead? || op.CallRead?)
    ensures var r := Act(a, b, op); r.Some? && Answered(r.value.0)
  {
    hide CheckRead, Read, Body, Finished, Ordered, Stream, Ends;
    var l := View(a, b);
    ReadMeans(l);
    CheckReadMeans(l);
    if Reading(a.side) && a.inq.flushed > 0 { BodyUpTo(a.popped, a.inq.items[0]); }
    assert a.popped + [] == a.popped && a.answered + [] == a.answered;
  }

  lemma StaysAnswered(a: End, b: End, op: Op)
    requires Answered(a) && Log(b, a) && Enabled(a, op) && WellFormed(b.inq)
    ensures var r := Act(a, b, op); r.Some? ==> Answered(r.value.0)
  {
    if op.CallCheckRead? || op.CallRead? {
      hide Act, Log, Answered;
      ReadsStayAnswered(b, a, op);
    } else {
      hide CheckWrite, Write, Rollback, Flush, Terminate, Handle, Finished, WellFormed, Log, Body;
    }
  }

  // --- Waking the reader up ---

  // A reader that gave up sleeps in the queue, or its wake-up is on the way.
  predicate Wakeable(b: End) {
    CanRead(b.side.state) && !b.side.inActive && !b.dead ==> b.inq.asleep || ActivateRead in b.inbox
  }

  lemma ReaderStaysWakeable(b: End, a: End, op: Op)
    requires Wakeable(a) && Enabled(a, op) && WellFormed(a.inq) && WellFormed(b.inq)
    ensures var r := Act(a, b, op); r.Some? ==> Wakeable(r.value.0)
  {
    hide CheckRead, Read, CheckWrite, Write, Rollback, Flush, Terminate, Finished, WellFormed;
    var l := View(a, b);
    ReadsTake(l);
    match op
    case CallCheckRead =>
    case CallRead =>
    case CallWrite(body, more) => WriterCallsLeaveIn(l, body, more, false);
    case CallTerminate(delay) => WriterCallsLeaveIn(l, [], false, delay);
    case Deliver => hide Drained, Takes; DeliveryLeavesIn(l, a.inbox[0]);
    case _ => WriterCallsLeaveIn(l, [], false, false);
  }

  lemma WriterKeepsWakeable(b: End, a: End, op: Op)
    requires Wakeable(b) && Enabled(a, op) && WellFormed(a.inq) && WellFormed(b.inq)
    ensures var r := Act(a, b, op); r.Some? ==> Wakeable(r.value.1)
  {
    hide Unfinished, Full, Finished, Drained;
  }

  // --- Flow control ---

  // The count in the last activate_write of a channel.
  function LastReport(sent: seq<Cmd>): nat {
    if sent == [] then 0
    else if sent[|sent| - 1].ActivateWrite? then sent[|sent| - 1].msgsRead
    else LastReport(sent[..|sent| - 1])
  }

  ghost predicate Rising(sent: seq<Cmd>) {
    forall i, j | 0 <= i < j < |sent| ::
      sent[i].ActivateWrite? && sent[j].ActivateWrite? ==> sent[i].msgsRead <= sent[j].msgsRead
  }

  // The greatest multiple of lwm not above n; without a limit nothing is reported.
  function Floor(n: nat, lwm: int): nat {
    if lwm <= 0 then 0 else n - n % lwm
  }

  // Writer a, reader b.
  ghost predicate Credit(a: End, b: End) {
    && b.side.lwm == ComputeLwm(a.side.hwm) && a.side.hwm == a.limit
    && Rising(SentTo(a)) && LastReport(SentTo(a)) == Floor(b.side.msgsRead, b.side.lwm)
    && a.side.peersMsgsRead == LastReport(a.handled)
    && (a.side.hwm > 0 ==> a.side.msgsWritten - a.side.peersMsgsRead <= a.side.hwm)
    && (a.side.state.Active? && !a.side.outActive ==>
          a.side.hwm > 0 && a.side.msgsWritten - a.side.peersMsgsRead == a.side.hwm)
  }

  lemma {:induction false} LastReportIs(sent: seq<Cmd>)
    ensures LastReport(sent) == 0 || exists i | 0 <= i < |sent| :: sent[i] == ActivateWrite(LastReport(sent))
  {
    if sent != [] && !sent[|sent| - 1].ActivateWrite? { LastReportIs(sent[..|sent| - 1]); }
  }

  lemma {:induction false} LastReportBounds(sent: seq<Cmd>, i: nat)
    requires Rising(sent) && i < |sent| && sent[i].ActivateWrite?
    ensures sent[i].msgsRead <= LastReport(sent)
  {
    if !sent[|sent| - 1].ActivateWrite? { LastReportBounds(sent[..|sent| - 1], i); }
  }

  lemma {:induction false} LastReportAppend(sent: seq<Cmd>, quiet: seq<Cmd>)
    requires forall c | c in quiet :: !c.ActivateWrite?
    ensures LastReport(sent + quiet) == LastReport(sent)
    ensures Rising(sent) ==> Rising(sent + quiet)
  {
    if quiet != [] {
      var n := |quiet| - 1;
      LastReportAppend(sent, quiet[..n]);
      assert (sent + quiet)[..|sent| + n] == sent + quiet[..n];
      assert quiet[n] in quiet;
    } else {
      assert sent + quiet == sent;
    }
  }

  lemma ReportAppend(sent: seq<Cmd>, n: nat)
    requires Rising(sent) && LastReport(sent) <= n
    ensures Rising(sent + [ActivateWrite(n)]) && LastReport(sent + [ActivateWrite(n)]) == n
  {
    forall i | 0 <= i < |sent| && sent[i].ActivateWrite? ensures sent[i].msgsRead <= n {
      LastReportBounds(sent, i);
    }
  }

  // The counts a writer knows of never decrease.
  lemma HandledBelowSent(a: End)
    requires Rising(SentTo(a))
    ensures LastReport(a.handled) <= LastReport(SentTo(a))
    ensures a.inbox != [] ==> LastReport(a.handled) <= LastReport(a.handled + [a.inbox[0]])
  {
    LastReportIs(a.handled);
    if LastReport(a.handled) > 0 {
      var i :| 0 <= i < |a.handled| && a.handled[i] == ActivateWrite(LastReport(a.handled));
      assert SentTo(a)[i] == a.handled[i];
      LastReportBounds(SentTo(a), i);
      if a.inbox != [] {
        var s := a.handled + [a.inbox[0]];
        assert s == SentTo(a)[..|s|];
        assert s[i] == a.handled[i];
        LastReportBounds(s, i);
      }
    }
  }

  // What reading reports: a count that is a multiple of lwm, at once.
  predicate Reports(s: Side, s': Side, sent: seq<Cmd>) {
    && s'.lwm == s.lwm && s.msgsRead <= s'.msgsRead
    && if |sent| == 1 && sent[0].ActivateWrite? then sent[0].msgsRead == s'.msgsRead == Floor(s'.msgsRead, s.lwm)
       else (forall c | c in sent :: !c.ActivateWrite?) && Floor(s'.msgsRead, s.lwm) == Floor(s.msgsRead, s.lwm)
  }

  lemma FloorStep(n: nat, lwm: int)
    requires lwm > 0 && (n + 1) % lwm != 0
    ensures Floor(n + 1, lwm) == Floor(n, lwm)
  {
    var q, r := n / lwm, n % lwm;
    if r == lwm - 1 {
      assert n + 1 == (q + 1) * lwm + 0;
      ModUnique(n + 1, lwm, q + 1, 0);
    } else {
      ModUnique(n + 1, lwm, q, r + 1);
    }
  }

  lemma ModUnique(n: int, d: int, q: int, r: int)
    requires d > 0 && n == q * d + r && 0 <= r < d
    ensures n % d == r
  {
    var k := n / d - q;
    assert k * d == (n / d) * d - q * d;
    assert (-k) * d == -(k * d);
    if k > 0 { Grows(k, d); }
    if k < 0 { Grows(-k, d); }
  }

  lemma Grows(k: int, d: int)
    requires k > 0 && d > 0
    ensures k * d >= d
  {
  }

  lemma ReadsReport(l: Local)
    requires WellFormed(l.inq) && l.sent == []
    ensures Reports(l.side, CheckRead(l).l.side, CheckRead(l).l.sent)
    ensures Reports(l.side, Read(l).l.side, Read(l).l.sent)
  {
    hide Floor;
    if l.side.lwm > 0 && (l.side.msgsRead + 1) % l.side.lwm != 0 { FloorStep(l.side.msgsRead, l.side.lwm); }
    FloorOfMultiple(l.side.msgsRead, l.side.lwm);
    FloorOfMultiple(l.side.msgsRead + 1, l.side.lwm);
  }

  lemma FloorOfMultiple(n: nat, lwm: int)
    ensures lwm <= 0 ==> Floor(n, lwm) == 0
    ensures lwm > 0 && n % lwm == 0 ==> Floor(n, lwm) == n
    ensures Floor(n, lwm) <= n && (lwm > 0 ==> n < Floor(n, lwm) + lwm)
  {
  }

  predicate Silent<R>(l: Local, o: Outcome<R>) {
    o.Done? ==>
      && (forall c | c in o.l.sent :: !c.ActivateWrite?)
      && o.l.side.lwm == l.side.lwm && o.l.side.msgsRead == l.side.msgsRead
  }

  lemma OthersAreSilent(l: Local, body: seq<int>, more: bool, delay: bool)
    requires WellFormed(l.outq) && l.sent == []
    ensures Silent(l, CheckWrite(l)) && Silent(l, Write(l, body, more))
    ensures Silent(l, Rollback(l)) && Silent(l, Flush(l)) && Silent(l, Terminate(l, delay))
  {
    hide QWrite, QRollback, QFlushAwake, QFlush, Unfinished, Full;
  }

  lemma DeliveryIsSilent(l: Local, cmd: Cmd)
    requires WellFormed(l.inq) && l.sent == []
    ensures Silent(l, Handle(l, cmd))
  {
  }

  lemma ReportsKeepCredit(b: End, a: End, b': End, a': End, sent: seq<Cmd>)
    requires Credit(b, a) && b' == b.(inq := b'.inq, inbox := b.inbox + sent)
    requires Reports(a.side, a'.side, sent)
    ensures Credit(b', a')
  {
    hide Floor, Rising, LastReport;
    assert SentTo(b') == SentTo(b) + sent;
    if |sent| == 1 && sent[0].ActivateWrite? {
      FloorOfMultiple(a.side.msgsRead, a.side.lwm);
      ReportAppend(SentTo(b), sent[0].msgsRead);
      assert sent == [ActivateWrite(sent[0].msgsRead)];
    } else {
      LastReportAppend(SentTo(b), sent);
    }
  }

  lemma ReaderKeepsCredit(b: End, a: End, op: Op)
    requires Credit(b, a) && Enabled(a, op) && WellFormed(a.inq) && WellFormed(b.inq)
    ensures var r := Act(a, b, op); r.Some? ==> Credit(r.value.1, r.value.0)
  {
    hide CheckRead, Read, CheckWrite, Write, Rollback, Flush, Terminate, Handle, Finished, WellFormed, Credit, Floor;
    var r := Act(a, b, op);
    if r.Some? {
      var l := View(a, b);
      var sent: seq<Cmd>;
      match op {
        case CallCheckRead => ReadsReport(l); sent := CheckRead(l).l.sent;
        case CallRead => ReadsReport(l); sent := Read(l).l.sent;
        case CallCheckWrite => OthersAreSilent(l, [], false, false); sent := CheckWrite(l).l.sent;
        case CallWrite(body, more) => OthersAreSilent(l, body, more, false); sent := Write(l, body, more).l.sent;
        case CallRollback => OthersAreSilent(l, [], false, false); sent := Rollback(l).l.sent;
        case CallFlush => OthersAreSilent(l, [], false, false); sent := Flush(l).l.sent;
        case CallTerminate(delay) => OthersAreSilent(l, [], false, delay); sent := Terminate(l, delay).l.sent;
        case Deliver => DeliveryIsSilent(l, a.inbox[0]); sent := Handle(l, a.inbox[0]).l.sent;
      }
      ReportsKeepCredit(b, a, r.value.1, r.value.0, sent);
    }
  }

  predicate Blocked(s: Side) { s.state.Active? && !s.outActive }

  // Within the limit, the wrapping test is a plain comparison.
  lemma FullExactly(s: Side)
    requires s.hwm > 0 ==> 0 <= s.msgsWritten - s.peersMsgsRead <= s.hwm
    ensures Full(s) <==> s.hwm > 0 && s.msgsWritten - s.peersMsgsRead == s.hwm
  {
  }

  predicate CreditUntouched<R>(l: Local, o: Outcome<R>) {
    o.Done? ==>
      && o.l.side.hwm == l.side.hwm && o.l.side.peersMsgsRead == l.side.peersMsgsRead
      && o.l.side.msgsWritten == l.side.msgsWritten && (Blocked(o.l.side) ==> Blocked(l.side))
  }

  lemma CallsLeaveCredit(l: Local, delay: bool)
    requires WellFormed(l.inq) && WellFormed(l.outq)
    ensures CreditUntouched(l, CheckRead(l)) && CreditUntouched(l, Read(l))
    ensures CreditUntouched(l, Rollback(l)) && CreditUntouched(l, Flush(l)) && CreditUntouched(l, Terminate(l, delay))
  {
    hide QWrite, QRollback, QFlushAwake, QFlush, QRead, QCheckRead, Unfinished;
  }

  // Processing a report that does not go back frees as much as it says.
  lemma DeliveryMovesCredit(l: Local, cmd: Cmd)
    requires WellFormed(l.inq)
    ensures !cmd.ActivateWrite? ==> CreditUntouched(l, Handle(l, cmd))
    ensures cmd.ActivateWrite? ==> var o := Handle(l, cmd);
      && o.Done? && o.l.side.hwm == l.side.hwm && o.l.side.msgsWritten == l.side.msgsWritten
      && o.l.side.peersMsgsRead == cmd.msgsRead && !Blocked(o.l.side)
  {
    hide Drained;
  }

  lemma WritesUseCredit(l: Local, body: seq<int>, more: bool)
    requires l.side.hwm > 0 ==> 0 <= l.side.msgsWritten - l.side.peersMsgsRead <= l.side.hwm
    ensures forall s | s in {CheckWrite(l).l.side, Write(l, body, more).l.side} ::
      && s.hwm == l.side.hwm && s.peersMsgsRead == l.side.peersMsgsRead
      && (s.hwm > 0 ==> s.msgsWritten - s.peersMsgsRead <= s.hwm)
      && (Blocked(s) && !Blocked(l.side) ==> s.hwm > 0 && s.msgsWritten - s.peersMsgsRead == s.hwm)
      && (Blocked(s) ==> s.msgsWritten == l.side.msgsWritten)
  {
    hide Full, QWrite;
    FullExactly(l.side);
  }

  lemma CreditAfter(a: End, b: End, a': End, b': End)
    requires Credit(a, b) && SentTo(a') == SentTo(a)
    requires b'.side == b.side && a'.side.hwm == a.side.hwm && a'.limit == a.limit
    requires a'.side.peersMsgsRead == LastReport(a'.handled)
    requires a'.side.hwm > 0 ==> a'.side.msgsWritten - a'.side.peersMsgsRead <= a'.side.hwm
    requires Blocked(a'.side) ==> a'.side.hwm > 0 && a'.side.msgsWritten - a'.side.peersMsgsRead == a'.side.hwm
    ensures Credit(a', b')
  {
  }

  lemma PeersBelowWritten(a: End, b: End)
    requires Credit(a, b) && Log(a, b)
    ensures a.side.peersMsgsRead <= b.side.msgsRead <= a.side.msgsWritten
  {
    HandledBelowSent(a);
    FloorOfMultiple(b.side.msgsRead, b.side.lwm);
    EndsPrefix(b.popped, a.wrote);
  }

  lemma {:induction false} EndsPrefix(p: seq<Msg>, log: seq<Msg>)
    requires p <= log
    ensures Ends(p) <= Ends(log)
  {
    if |p| < |log| { EndsPrefix(p, log[..|log| - 1]); } else { assert p == log; }
  }

  lemma DeliveryKeepsCredit(a: End, b: End)
    requires Credit(a, b) && Enabled(a, Deliver) && WellFormed(a.inq) && WellFormed(b.inq)
    ensures var r := Act(a, b, Deliver); r.Some? ==> Credit(r.value.0, r.value.1)
  {
    hide WellFormed, Rising, LastReport, Floor, Handle;
    var cmd, r := a.inbox[0], Act(a, b, Deliver);
    if r.Some? {
      var a', b' := r.value.0, r.value.1;
      assert SentTo(a') == SentTo(a);
      HandledBelowSent(a);
      LastReportStep(a.handled, cmd);
      DeliveryMovesCredit(View(a, b), cmd);
      CreditAfter(a, b, a', b');
      assert Credit(r.value.0, r.value.1);
    }
  }

  lemma LastReportStep(sent: seq<Cmd>, cmd: Cmd)
    ensures LastReport(sent + [cmd]) == if cmd.ActivateWrite? then cmd.msgsRead else LastReport(sent)
  {
    assert (sent + [cmd])[..|sent|] == sent;
  }

  lemma WriteKeepsCredit(a: End, b: End, op: Op)
    requires Credit(a, b) && Log(a, b) && Enabled(a, op) && WellFormed(a.inq) && WellFormed(b.inq)
    requires op.CallCheckWrite? || op.CallWrite?
    ensures var r := Act(a, b, op); r.Some? ==> Credit(r.value.0, r.value.1)
  {
    hide CheckWrite, Write, WellFormed, Rising, LastReport, Floor, Log;
    PeersBelowWritten(a, b);
    WritesUseCredit(View(a, b), if op.CallWrite? then op.body else [], op.CallWrite? && op.more);
    var r := Act(a, b, op);
    if r.Some? { CreditAfter(a, b, r.value.0, r.value.1); }
  }

  lemma WriterKeepsCredit(a: End, b: End, op: Op)
    requires Credit(a, b) && Log(a, b) && Enabled(a, op) && WellFormed(a.inq) && WellFormed(b.inq)
    ensures var r := Act(a, b, op); r.Some? ==> Credit(r.value.0, r.value.1)
  {
    hide CheckRead, Read, CheckWrite, Write, Rollback, Flush, Terminate, Handle, Finished, WellFormed, Rising,
         LastReport, Floor, Log;
    if op.Deliver? {
      DeliveryKeepsCredit(a, b);
    } else if op.CallCheckWrite? || op.CallWrite? {
      WriteKeepsCredit(a, b, op);
    } else {
      CallsLeaveCredit(View(a, b), op.CallTerminate? && op.delay);
      var r := Act(a, b, op);
      if r.Some? { CreditAfter(a, b, r.value.0, r.value.1); }
    }
  }

  // --- Reading everything before acknowledging ---

  // An end created with delay whose user never terminates it.
  predicate Patient(a: End) {
    a.delayed && !a.calledTerminate ==>
      && a.side.delay && !Ended(a.side.state)
      && (a.side.state.Terminating? ==> Delimiter in a.popped)
  }

  predicate KeepsWaiting(a: End, l: Local) {
    && l.side.delay == a.side.delay
    && (Ended(l.side.state) ==> Ended(a.side.state))
    && (l.side.state.Terminating? ==> a.side.state.Terminating? || a.side.state.Delimited?)
  }

  lemma OthersKeepWaiting(a: End, l: Local, body: seq<int>, more: bool, cmd: Cmd)
    requires WellFormed(l.inq) && WellFormed(l.outq) && l.side == a.side && a.side.delay
    ensures KeepsWaiting(a, CheckWrite(l).l) && KeepsWaiting(a, Write(l, body, more).l)
    ensures Rollback(l).Done? ==> KeepsWaiting(a, Rollback(l).l)
    ensures KeepsWaiting(a, Flush(l).l)
    ensures Handle(l, cmd).Done? ==>
      Ended(a.side.state) || KeepsWaiting(a, Handle(l, cmd).l)
  {
    hide QWrite, QRollback, QFlushAwake, QFlush, Unfinished, Full, Drained;
  }

  lemma ReadsKeepPatient(a: End, b: End, op: Op)
    requires Patient(a) && !a.dead && WellFormed(a.inq) && WellFormed(b.inq) && (op.CallCheckRead? || op.CallRead?)
    ensures var r := Act(a, b, op); r.Some? ==> Patient(r.value.0)
  {
    var r := Act(a, b, op);
    if r.Some? && |r.value.0.inq.items| < |a.inq.items| {
      assert r.value.0.popped[|a.popped|] == a.inq.items[0];
    }
  }

  lemma StaysPatient(a: End, b: End, op: Op)
    requires Patient(a) && Log(b, a) && Enabled(a, op) && WellFormed(b.inq)
    ensures var r := Act(a, b, op); r.Some? ==> Patient(r.value.0)
  {
    hide WellFormed, Finished, CheckRead, Read, CheckWrite, Write, Rollback, Flush, Terminate, Handle;
    if op.CallCheckRead? || op.CallRead? {
      ReadsKeepPatient(a, b, op);
    } else if !op.CallTerminate? && a.side.delay {
      OthersKeepWaiting(a, View(a, b), if op.CallWrite? then op.body else [], op.CallWrite? && op.more,
                        if op.Deliver? then a.inbox[0] else PipeTerm);
    }
  }

  // --- Every step keeps everything ---

  ghost predicate Inv(a: End, b: End) {
    && Handshake(a, b)
    && Log(a, b) && Log(b, a)
    && Credit(a, b) && Credit(b, a)
    && Wakeable(a) && Wakeable(b)
    && Patient(a) && Patient(b)
    && Answered(a) && Answered(b)
  }

  lemma StepKeepsHandshake(a: End, b: End, op: Op)
    requires Enabled(a, op) && Handshake(a, b) && WellFormed(a.inq) && WellFormed(b.inq) && Act(a, b, op).Some?
    ensures Handshake(Act(a, b, op).value.0, Act(a, b, op).value.1)
  {
    hide Act, WellFormed, Handshake, Relays, Replies;
    var (a', b') := Act(a, b, op).value;
    if op.Deliver? && (a.inbox[0].PipeTerm? || a.inbox[0].PipeTermAck?) {
      var _, _, sent := TermReplies(a, b);
      RepliesKeepHandshake(a, b, a', b', sent);
    } else {
      var sent, handled := CallMoves(a, b, op, a', b');
      RelaysKeepHandshake(a, b, a', b', sent, handled);
    }
  }

  lemma OutAsStateSays(a: End, b: End)
    requires Handshake(a, b)
    ensures b.dead ==> !a.side.hasOut
    ensures a.side.state.Active? || a.side.state.Delimited? ==> a.side.hasOut
  {
  }

  lemma DeliveryKeepsWriterLog(a: End, b: End)
    requires Enabled(a, Deliver) && Log(a, b) && WellFormed(a.inq)
    ensures var r := Act(a, b, Deliver); r.Some? ==> Log(r.value.0, r.value.1)
  {
    hide WellFormed, Ordered, Stream, Ends, Handle;
    DeliveryLeavesOut(View(a, b), a.inbox[0]);
    var r := Act(a, b, Deliver);
    if r.Some? { LogUntouchedOut(a, b, r.value.0, r.value.1); }
  }

  lemma ReaderCallsKeepWriterLog(a: End, b: End, op: Op)
    requires Enabled(a, op) && Log(a, b) && WellFormed(a.inq)
    requires op.CallCheckRead? || op.CallRead? || op.CallCheckWrite?
    ensures var r := Act(a, b, op); r.Some? && Log(r.value.0, r.value.1)
  {
    hide WellFormed, Ordered, Stream, Ends, CheckRead, Read, CheckWrite;
    ReaderCallsLeaveOut(View(a, b));
    ReadsTake(View(a, b));
    CheckWriteDone(View(a, b));
    LogUntouchedOut(a, b, Act(a, b, op).value.0, Act(a, b, op).value.1);
  }

  lemma CheckWriteDone(l: Local)
    ensures CheckWrite(l).Done? && CheckWrite(l).l.inq == l.inq
  {
  }

  lemma StepKeepsWriterLog(a: End, b: End, op: Op)
    requires Enabled(a, op) && Log(a, b) && Handshake(a, b) && WellFormed(a.inq)
    ensures op.Deliver? || Act(a, b, op).Some?
    ensures var r := Act(a, b, op); r.Some? ==> Log(r.value.0, r.value.1)
  {
    hide WellFormed, Handshake, Act, Log;
    OutAsStateSays(a, b);
    StateOfLog(a, b);
    match op
    case CallWrite(body, more) => WriteKeepsLog(a, b, body, more);
    case CallRollback => RollbackKeepsLog(a, b);
    case CallFlush => FlushKeepsLog(a, b);
    case CallTerminate(delay) => TerminateKeepsLog(a, b, delay);
    case Deliver => DeliveryKeepsWriterLog(a, b);
    case _ => ReaderCallsKeepWriterLog(a, b, op);
  }

  lemma StateOfLog(a: End, b: End)
    requires Log(a, b)
    ensures WellFormed(b.inq)
  {
  }

  lemma StepKeepsReaderLog(b: End, a: End, op: Op)
    requires Enabled(a, op) && Log(b, a) && WellFormed(b.inq) && Act(a, b, op).Some?
    ensures Log(Act(a, b, op).value.1, Act(a, b, op).value.0)
  {
    hide WellFormed, Ordered, Stream, Ends, CheckWrite, Write, Rollback, Flush, Terminate, Handle;
    var l := View(a, b);
    var (a', b') := Act(a, b, op).value;
    match op
    case CallCheckRead => ReadsKeepLog(b, a, op);
    case CallRead => ReadsKeepLog(b, a, op);
    case Deliver =>
      DeliveryLeavesIn(l, a.inbox[0]);
      LogUntouchedIn(b, a, b', a');
    case CallWrite(body, more) =>
      WriterCallsLeaveIn(l, body, more, false);
      LogUntouchedIn(b, a, b', a');
    case CallTerminate(delay) =>
      WriterCallsLeaveIn(l, [], false, delay);
      LogUntouchedIn(b, a, b', a');
    case _ =>
      WriterCallsLeaveIn(l, [], false, false);
      LogUntouchedIn(b, a, b', a');
  }

  // No assertion fails, and every part of the invariant is kept.
  lemma StepKeepsInv(a: End, b: End, op: Op)
    requires Enabled(a, op) && Inv(a, b)
    ensures var r := Act(a, b, op); r.Some? && Inv(r.value.0, r.value.1)
  {
    assert WellFormed(a.inq) && WellFormed(b.inq);
    hide Act, Handshake, Log, Credit, Wakeable, Patient, Answered, WellFormed;
    StepKeepsWriterLog(a, b, op);
    if op.Deliver? { DeliveryDone(a, b); }
    StepKeepsHandshake(a, b, op);
    StepKeepsReaderLog(b, a, op);
    WriterKeepsCredit(a, b, op);
    ReaderKeepsCredit(b, a, op);
    ReaderStaysWakeable(b, a, op);
    WriterKeepsWakeable(b, a, op);
    StaysPatient(a, b, op);
    StaysAnswered(a, b, op);
    PeerUntouched(a, b, op);
  }

  lemma DeliveryDone(a: End, b: End)
    requires Enabled(a, Deliver) && Handshake(a, b) && WellFormed(a.inq) && WellFormed(b.inq)
    ensures Act(a, b, Deliver).Some?
  {
    if a.inbox[0].PipeTerm? || a.inbox[0].PipeTermAck? {
      var a', b', sent := TermReplies(a, b);
    }
  }

  lemma PeerUntouched(a: End, b: End, op: Op)
    requires Enabled(a, op) && WellFormed(a.inq) && WellFormed(b.inq) && Act(a, b, op).Some?
    requires Patient(b) && Answered(b)
    ensures Patient(Act(a, b, op).value.1) && Answered(Act(a, b, op).value.1)
  {
    hide WellFormed, Finished, Body, CheckRead, Read, CheckWrite, Write, Rollback, Flush, Terminate, Handle;
  }

  // --- Runs ---

  // A step that is not enabled changes nothing; None is a failed assertion.
  function Next(w: World, step: Step): Option<World>
    requires WellFormed(w.x.inq) && WellFormed(w.y.inq)
  {
    if !Enabled(if step.first then w.x else w.y, step.op) then Some(w)
    else if step.first then
      match Act(w.x, w.y, step.op) case Some((x, y)) => Some(World(x, y)) case None => None
    else
      match Act(w.y, w.x, step.op) case Some((y, x)) => Some(World(x, y)) case None => None
  }

  // Where a run leads; None once an assertion has failed.
  function Run(w: World, steps: seq<Step>): Option<World>
    decreases |steps|
  {
    if steps == [] then Some(w)
    else if !WellFormed(w.x.inq) || !WellFormed(w.y.inq) then None
    else match Next(w, steps[0]) case None => None case Some(w') => Run(w', steps[1..])
  }

  lemma InvFlips(a: End, b: End)
    requires Inv(a, b)
    ensures Inv(b, a)
  {
    hide Shake, Log, Credit, Wakeable, Patient, Orderly;
  }

  lemma {:induction false} RunKeepsInv(w: World, steps: seq<Step>)
    requires Inv(w.x, w.y)
    ensures var r := Run(w, steps); r.Some? && Inv(r.value.x, r.value.y)
    decreases |steps|
  {
    if steps != [] {
      assert WellFormed(w.x.inq) && WellFormed(w.y.inq);
      hide Inv, Act, WellFormed;
      var step := steps[0];
      if Enabled(if step.first then w.x else w.y, step.op) {
        InvFlips(w.x, w.y);
        if step.first {
          StepKeepsInv(w.x, w.y, step.op);
        } else {
          StepKeepsInv(w.y, w.x, step.op);
          InvFlips(Act(w.y, w.x, step.op).value.0, Act(w.y, w.x, step.op).value.1);
        }
      }
      RunKeepsInv(Next(w, step).value, steps[1..]);
    }
  }

  lemma NewPairInv(hwms: (Int32, Int32), delays: (bool, bool))
    ensures Inv(NewPair(hwms, delays).x, NewPair(hwms, delays).y)
  {
  }

  // No run fails an assertion, and every state it reaches is sound from either end.
  lemma RunsAreSound(hwms: (Int32, Int32), delays: (bool, bool), steps: seq<Step>)
    ensures var r := Run(NewPair(hwms, delays), steps);
      r.Some? && Inv(r.value.x, r.value.y) && Inv(r.value.y, r.value.x)
  {
    hide Inv;
    NewPairInv(hwms, delays);
    RunKeepsInv(NewPair(hwms, delays), steps);
    InvFlips(Run(NewPair(hwms, delays), steps).value.x, Run(NewPair(hwms, delays), steps).value.y);
  }

  // --- What holds in every state of every run, for each end a and its peer b ---

  // Each end acknowledges at most once and as its last command; an end is gone
  // exactly when it has processed the acknowledgement, nothing is on its way to
  // it then, and its peer has let go of the queue that went with it.
  lemma AcknowledgedOnce(a: End, b: End)
    requires Inv(a, b)
    ensures forall i | 0 <= i < |SentTo(a)| && SentTo(a)[i] == PipeTermAck :: i == |SentTo(a)| - 1
    ensures a.dead <==> PipeTermAck in a.handled
    ensures a.dead ==> a.inbox == [] && !b.side.hasOut
    ensures a.side.state.Active? ==> a.side.hasOut && !b.dead
  {
    if PipeTermAck in a.handled {
      var i :| 0 <= i < |a.handled| && a.handled[i] == PipeTermAck;
      assert SentTo(a)[i] == PipeTermAck;
    }
  }

  // Credit never overdraws: the wrapping subtraction is a plain one, it never
  // passes the limit, and at most hwm complete messages wait to be read.
  lemma FlowControl(a: End, b: End)
    requires Inv(a, b)
    ensures a.side.peersMsgsRead <= b.side.msgsRead <= a.side.msgsWritten
    ensures a.side.msgsWritten == Ends(a.wrote) && b.side.msgsRead == Ends(b.popped)
    ensures a.side.hwm > 0 ==> Ends(a.wrote) - Ends(b.popped) <= a.side.msgsWritten - a.side.peersMsgsRead <= a.side.hwm
    ensures Full(a.side) <==> a.side.hwm > 0 && a.side.msgsWritten - a.side.peersMsgsRead == a.side.hwm
  {
    PeersBelowWritten(a, b);
    FullExactly(a.side);
  }

  // With every report processed, a writer is only held up by a reader that has
  // more than hwm - lwm messages left to read.
  lemma CreditComesBack(a: End, b: End)
    requires Inv(a, b) && a.inbox == [] && a.side.state.Active?
    requires !a.side.outActive || Full(a.side)
    ensures a.side.hwm > 0 && Ends(a.wrote) - Ends(b.popped) > a.side.hwm - ComputeLwm(a.side.hwm) >= 0
  {
    FlowControl(a, b);
    assert SentTo(a) == a.handled;
    FloorOfMultiple(b.side.msgsRead, b.side.lwm);
  }

  lemma ReadersFreeWriters(a: End, b: End)
    requires Inv(a, b) && a.inbox == [] && a.side.state.Active? && Ends(b.popped) == Ends(a.wrote)
    ensures a.side.outActive && !Full(a.side)
  {
    if !a.side.outActive || Full(a.side) { CreditComesBack(a, b); }
  }

  // A reader that gave up and has no wake-up coming has nothing to read.
  lemma NoLostWakeUp(a: End, b: End)
    requires Inv(a, b) && ActivateRead !in b.inbox && CanRead(b.side.state) && !b.side.inActive && !b.dead
    ensures b.inq.flushed == 0
  {
  }

  lemma {:induction false} BodyOfPrefix(p: seq<Msg>, log: seq<Msg>)
    requires p <= log && Delimiter in p
    ensures Body(p) == Body(log)
  {
    if !log[0].Delimiter? { BodyOfPrefix(p[1..], log[1..]); }
  }

  lemma OrderedPrefix(p: seq<Msg>, log: seq<Msg>)
    requires p <= log && Ordered(log)
    ensures Ordered(p)
  {
    forall i | 0 <= i < |p| ensures p[i] == log[i] {}
  }

  lemma {:induction false} BodyStart(log: seq<Msg>)
    requires Delimiter in log
    ensures var n := |Body(log)|; n < |log| && Body(log) == log[..n] && log[n] == Delimiter
  {
    if !log[0].Delimiter? {
      BodyStart(log[1..]);
      assert Body(log) == log[..|Body(log)|];
    }
  }

  lemma {:induction false} EndsOfDelimiters(log: seq<Msg>, n: nat)
    requires n <= |log| && forall i | n <= i < |log| :: log[i].Delimiter?
    ensures Ends(log[..n]) == Ends(log)
  {
    if n < |log| {
      EndsOfDelimiters(log[..|log| - 1], n);
      assert log[..|log| - 1][..n] == log[..n];
    } else {
      assert log[..n] == log;
    }
  }

  lemma BodyIsWhole(log: seq<Msg>)
    requires Ordered(log) && Delimiter in log
    ensures Finished(Body(log)) == Body(log) && Ends(Body(log)) == Ends(log)
  {
    BodyStart(log);
    EndsOfDelimiters(log, |Body(log)|);
    hide Body, Ends;
    var n := |Body(log)|;
    if n > 0 { assert !Open(log[n - 1]); }
  }

  // What has been returned are parts in the order of writing, and as many last parts
  // as have been counted.
  lemma AnswersInOrder(a: End, b: End)
    requires Inv(a, b)
    ensures b.answered <= a.wrote && Delimiter !in b.answered && Ends(b.answered) == b.side.msgsRead
  {
    hide Ordered, Ends, Finished, Stream, Credit, Wakeable, Handshake, Patient, Body;
    if Delimiter in b.popped {
      OrderedPrefix(b.popped, a.wrote);
      BodyStart(b.popped);
      BodyIsWhole(b.popped);
      NoDelimiterInBody(b.popped);
    } else {
      BodyUpTo(b.popped, Delimiter);
    }
  }

  lemma {:induction false} NoDelimiterInBody(log: seq<Msg>)
    ensures Delimiter !in Body(log)
  {
    if log != [] { NoDelimiterInBody(log[1..]); }
  }

  // The user at one end gets a prefix of what the other end has written, in order and
  // unchanged; an end that delays and never terminates itself has got all complete
  // messages, and no part of an unfinished one, by the time it acknowledges.
  lemma NothingLost(a: End, b: End)
    requires Inv(a, b)
    ensures b.answered <= a.wrote
    ensures b.delayed && !b.calledTerminate && PipeTermAck in SentTo(a) ==>
      && b.answered == Body(a.wrote) && Delimiter in a.wrote
      && Finished(b.answered) == b.answered && Ends(b.answered) == a.side.msgsWritten
  {
    AnswersInOrder(a, b);
    if b.delayed && !b.calledTerminate && PipeTermAck in SentTo(a) {
      hide Ordered, Body, Ends, Finished, Stream, Credit, Wakeable;
      assert Ordered(b.popped) by { OrderedPrefix(b.popped, a.wrote); }
      BodyOfPrefix(b.popped, a.wrote);
      BodyIsWhole(b.popped);
      BodyIsWhole(a.wrote);
    }
  }

  lemma PendingCanRead(a: End, b: End)
    requires Inv(a, b) && a.inbox == [] && a.side.state.Pending?
    ensures Reading(a.side) && a.inq.flushed > 0
  {
    assert PipeTerm in SentTo(a);
    assert b.side.state.Terminated?;
    assert Delimiter in b.wrote && Delimiter !in a.popped;
    assert a.inq.items != [];
  }

  // The handshake never gets stuck: with no command on its way either nothing
  // has begun, or it is over, or an end still has messages it can read.
  lemma HandshakeProgresses(a: End, b: End)
    requires Inv(a, b) && a.inbox == [] && b.inbox == []
    ensures || (a.side.state.Active? && b.side.state.Active?)
            || (a.dead && b.dead)
            || (a.side.state.Pending? && Reading(a.side) && a.inq.flushed > 0)
            || (b.side.state.Pending? && Reading(b.side) && b.inq.flushed > 0)
  {
    if a.side.state.Pending? { PendingCanRead(a, b); }
    if b.side.state.Pending? { InvFlips(a, b); PendingCanRead(b, a); }
    assert a.side.state.Delimited? ==> Delimiter in b.wrote;
    assert b.side.state.Delimited? ==> Delimiter in a.wrote;
    assert SentTo(a) == a.handled && SentTo(b) == b.handled;
  }

  // All of it, for either end of any state any run reaches.
  lemma EveryRun(hwms: (Int32, Int32), delays: (bool, bool), steps: seq<Step>, first: bool)
    ensures var r := Run(NewPair(hwms, delays), steps);
      && r.Some?
      && var (a, b) := if first then (r.value.x, r.value.y) else (r.value.y, r.value.x);
      && var (hwm, delay) := if first then (hwms.0, delays.1) else (hwms.1, delays.0);
      && b.answered <= a.wrote
      && (hwm > 0 ==> Ends(a.wrote) - Ends(b.answered) <= hwm)
      && (a.dead ==> a.inbox == [] && !b.side.hasOut)
      && (a.inbox == b.inbox == [] && a.side.state.Active? && b.side.state.Active? && Ends(b.answered) == Ends(a.wrote)
          ==> a.side.outActive && !Full(a.side))
      && (delay && !b.calledTerminate && PipeTermAck in SentTo(a) ==> b.answered == Body(a.wrote))
  {
    RunsAreSound(hwms, delays, steps);
    RunKeepsConfig(NewPair(hwms, delays), steps);
    var w := Run(NewPair(hwms, delays), steps).value;
    var (a, b) := if first then (w.x, w.y) else (w.y, w.x);
    assert a.side.hwm == a.limit;
    hide Inv, Run, Full, Body;
    AcknowledgedOnce(a, b);
    FlowControl(a, b);
    NothingLost(a, b);
    AnswersInOrder(a, b);
    if a.inbox == [] && a.side.state.Active? && Ends(b.popped) == Ends(a.wrote) { ReadersFreeWriters(a, b); }
  }

  predicate SameConfig(a: End, a': End) {
    a'.limit == a.limit && a'.delayed == a.delayed
  }

  lemma ActKeepsConfig(a: End, b: End, op: Op)
    requires Enabled(a, op) && WellFormed(a.inq) && WellFormed(b.inq)
    ensures var r := Act(a, b, op); r.Some? ==> SameConfig(a, r.value.0) && SameConfig(b, r.value.1)
  {
    hide CheckRead, Read, CheckWrite, Write, Rollback, Flush, Terminate, Handle, Finished, WellFormed;
  }

  lemma {:induction false} RunKeepsConfig(w: World, steps: seq<Step>)
    ensures var r := Run(w, steps); r.Some? ==> SameConfig(w.x, r.value.x) && SameConfig(w.y, r.value.y)
    decreases |steps|
  {
    if steps != [] && WellFormed(w.x.inq) && WellFormed(w.y.inq) {
      hide Act, WellFormed;
      var step := steps[0];
      if Enabled(if step.first then w.x else w.y, step.op) {
        if step.first { ActKeepsConfig(w.x, w.y, step.op); } else { ActKeepsConfig(w.y, w.x, step.op); }
      }
      if Next(w, step).Some? { RunKeepsConfig(Next(w, step).value, steps[1..]); }
    }
  }
}
