/** pipe_t: what each call at one end of a pair of pipes does to the fields, to the
    two queues and to the commands sent. */
module PipeEnds {
  import opened Basics
  import opened YPipes

  const MAX_WM_DELTA := 1024
  const TWO_TO_THE_64 := 0x1_0000_0000_0000_0000

  datatype Msg = Part(body: seq<int>, more: bool) | Delimiter

  datatype Cmd = ActivateRead | ActivateWrite(msgsRead: nat) | PipeTerm | PipeTermAck

  datatype State = Active | Delimited | Pending | Terminating | Terminated | DoubleTerminated

  datatype Side = Side(
    state: State, inActive: bool, outActive: bool, hwm: Int32, lwm: Int32,
    msgsRead: nat, msgsWritten: nat, peersMsgsRead: nat, delay: bool, hasOut: bool)

  // What one end can touch: its own fields, the two queues, what it has sent.
  datatype Local = Local(side: Side, inq: Queue<Msg>, outq: Queue<Msg>, sent: seq<Cmd>)

  // Abort is a failed zmq_assert.
  datatype Outcome<R> = Done(l: Local, r: R) | Abort

  // The method that returned r, None for a failed assertion, did what o says.
  ghost predicate Agrees<R>(o: Outcome<R>, r: Option<R>, l: Local) {
    match o
    case Done(l0, r0) => r == Some(r0) && l == l0
    case Abort => r == None
  }

  // C's division truncates.
  function ComputeLwm(hwm: Int32): (lwm: Int32)
    ensures lwm > 0 <==> hwm > 0
    ensures hwm > 0 ==> lwm <= hwm && hwm - lwm <= MAX_WM_DELTA && (lwm < hwm <==> hwm > 1)
  {
    if hwm > MAX_WM_DELTA * 2 then hwm - MAX_WM_DELTA
    else if hwm + 1 >= 0 then (hwm + 1) / 2 else -(-(hwm + 1) / 2)
  }

  function NewSide(inhwm: Int32, outhwm: Int32, delay: bool): Side {
    Side(Active, true, true, outhwm, ComputeLwm(inhwm), 0, 0, 0, delay, true)
  }

  predicate Reading(s: Side) {
    s.inActive && (s.state.Active? || s.state.Pending?)
  }

  // The subtraction is on uint64_t, so it wraps.
  predicate Full(s: Side) {
    s.hwm > 0 && (s.msgsWritten - s.peersMsgsRead) % TWO_TO_THE_64 == s.hwm
  }

  // Drop the outbound queue and acknowledge.
  function Acked(l: Local, state: State): Local {
    l.(side := l.side.(state := state, hasOut := false), sent := l.sent + [PipeTermAck])
  }

  function Delimit(l: Local): Outcome<()> {
    match l.side.state
    case Active => Done(l.(side := l.side.(state := Delimited)), ())
    case Pending => Done(Acked(l, Terminating), ())
    case _ => Abort
  }

  function NothingToRead(l: Local): Local {
    l.(side := l.side.(inActive := false), inq := QCheckRead(l.inq))
  }

  function CheckRead(l: Local): Outcome<bool>
    requires WellFormed(l.inq)
  {
    if !Reading(l.side) then Done(l, false)
    else if l.inq.flushed == 0 then Done(NothingToRead(l), false)
    else if l.inq.items[0].Delimiter? then
      match Delimit(l.(inq := QRead(l.inq)))
      case Done(d, _) => Done(d, false)
      case Abort => Abort
    else Done(l, true)
  }

  function Read(l: Local): Outcome<Option<Msg>>
    requires WellFormed(l.inq)
  {
    if !Reading(l.side) then Done(l, None)
    else if l.inq.flushed == 0 then Done(NothingToRead(l), None)
    else
      var m := l.inq.items[0];
      var l1 := l.(inq := QRead(l.inq));
      if m.Delimiter? then
        match Delimit(l1)
        case Done(d, _) => Done(d, None)
        case Abort => Abort
      else
        var n := l.side.msgsRead + if m.more then 0 else 1;
        var report := if l.side.lwm > 0 && n % l.side.lwm == 0 then [ActivateWrite(n)] else [];
        Done(l1.(side := l.side.(msgsRead := n), sent := l.sent + report), Some(m))
  }

  function CheckWrite(l: Local): Outcome<bool> {
    if !l.side.outActive || !l.side.state.Active? then Done(l, false)
    else if Full(l.side) then Done(l.(side := l.side.(outActive := false)), false)
    else Done(l, true)
  }

  function Write(l: Local, body: seq<int>, more: bool): Outcome<bool> {
    var checked := CheckWrite(l);
    if !checked.r then checked
    else Done(l.(outq := QWrite(l.outq, Part(body, more), more),
                 side := l.side.(msgsWritten := l.side.msgsWritten + if more then 0 else 1)), true)
  }

  // Only parts announcing a further part may be taken back.
  predicate Unfinished(items: seq<Msg>) {
    forall i :: 0 <= i < |items| ==> items[i].Part? && items[i].more
  }

  function Rollback(l: Local): Outcome<()>
    requires WellFormed(l.outq)
  {
    if !l.side.hasOut then Done(l, ())
    else if Unfinished(l.outq.items[l.outq.complete..]) then Done(l.(outq := QRollback(l.outq)), ())
    else Abort
  }

  function Flush(l: Local): Outcome<()> {
    if l.side.state.Terminating? || !l.side.hasOut then Done(l, ())
    else Done(l.(outq := QFlush(l.outq),
                 sent := if QFlushAwake(l.outq) then l.sent else l.sent + [ActivateRead]), ())
  }

  function ProcessActivateRead(l: Local): Outcome<()> {
    if !l.side.inActive && (l.side.state.Active? || l.side.state.Pending?)
    then Done(l.(side := l.side.(inActive := true)), ())
    else Done(l, ())
  }

  function ProcessActivateWrite(l: Local, msgsRead: nat): Outcome<()> {
    var s := l.side.(peersMsgsRead := msgsRead);
    Done(l.(side := if !s.outActive && s.state.Active? then s.(outActive := true) else s), ())
  }

  function ProcessPipeTerm(l: Local): Outcome<()> {
    match l.side.state
    case Active =>
      if !l.side.delay then Done(Acked(l, Terminating), ())
      else Done(l.(side := l.side.(state := Pending)), ())
    case Delimited => Done(Acked(l, Terminating), ())
    case Terminated => Done(Acked(l, DoubleTerminated), ())
    case _ => Abort
  }

  function Drained(q: Queue<Msg>): Queue<Msg>
    requires WellFormed(q)
  {
    Queue(q.items[q.flushed..], 0, q.complete - q.flushed, true)
  }

  // The end is gone afterwards.
  function ProcessPipeTermAck(l: Local): Outcome<()>
    requires WellFormed(l.inq)
  {
    match l.side.state
    case Terminated =>
      var a := Acked(l, Terminated);
      Done(a.(inq := Drained(a.inq)), ())
    case Terminating => Done(l.(inq := Drained(l.inq)), ())
    case DoubleTerminated => Done(l.(inq := Drained(l.inq)), ())
    case _ => Abort
  }

  function AskPeer(l: Local): Local {
    l.(side := l.side.(state := Terminated), sent := l.sent + [PipeTerm])
  }

  // Stop writing: no unfinished message, a delimiter regardless of the watermark.
  function CloseOutbound(l: Local): Outcome<()>
    requires WellFormed(l.outq)
  {
    var stopped := l.(side := l.side.(outActive := false));
    if !l.side.hasOut then Done(stopped, ())
    else
      match Rollback(stopped)
      case Abort => Abort
      case Done(c, _) => Flush(c.(outq := QWrite(c.outq, Delimiter, false)))
  }

  function Terminate(l: Local, delay: bool): Outcome<()>
    requires WellFormed(l.outq)
  {
    var l1 := l.(side := l.side.(delay := delay));
    match l.side.state
    case Terminated => Done(l1, ())
    case DoubleTerminated => Done(l1, ())
    case Terminating => Done(l1, ())
    case Active => CloseOutbound(AskPeer(l1))
    case Pending => CloseOutbound(if !delay then Acked(l1, Terminating) else l1)
    case Delimited => CloseOutbound(AskPeer(l1))
  }
}
