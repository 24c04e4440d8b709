/** pipe_t as an object that changes in place, method by method what PipeEnds says. */
module Pipes {
  import opened Basics
  import opened YPipes
  import opened PipeEnds

  class Pipe {
    const inpipe: YPipe<Msg>
    var outpipe: YPipe?<Msg>
    ghost const target: YPipe<Msg>   // what outpipe pointed to at first
    const hwm: Int32
    const lwm: Int32
    var state: State
    var inActive: bool
    var outActive: bool
    var msgsRead: nat
    var msgsWritten: nat
    var peersMsgsRead: nat
    var delay: bool
    var sent: seq<Cmd>               // commands sent to the peer

    ghost predicate Valid()
      reads this, inpipe, target
    {
      && inpipe != target
      && inpipe.Valid() && target.Valid()
      && (outpipe == null || outpipe == target)
    }

    ghost function View(): (l: Local)
      requires Valid()
      reads this, inpipe, target
      ensures WellFormed(l.inq) && WellFormed(l.outq)
    {
      Local(Side(state, inActive, outActive, hwm, lwm, msgsRead, msgsWritten, peersMsgsRead, delay,
                 outpipe != null), inpipe.Model(), target.Model(), sent)
    }

    constructor (inp: YPipe<Msg>, outp: YPipe<Msg>, inhwm: Int32, outhwm: Int32, delay_: bool)
      requires inp != outp && inp.Valid() && outp.Valid()
      ensures Valid() && inpipe == inp && target == outp
      ensures View() == Local(NewSide(inhwm, outhwm, delay_), inp.Model(), outp.Model(), [])
    {
      inpipe, outpipe, target := inp, outp, outp;
      hwm, lwm := outhwm, ComputeLwm(inhwm);
      state, inActive, outActive, delay := Active, true, true, delay_;
      msgsRead, msgsWritten, peersMsgsRead, sent := 0, 0, 0, [];
    }

    method Delimit() returns (r: Option<()>)
      requires Valid()
      modifies this
      ensures Valid() && Agrees(PipeEnds.Delimit(old(View())), r, View())
    {
      hide YPipe.Valid, YPipe.Model;
      if state.Active? {
        state := Delimited;
        return Some(());
      }
      if state.Pending? {
        outpipe := null;
        sent := sent + [PipeTermAck];
        state := Terminating;
        return Some(());
      }
      return None;
    }

    method CheckRead() returns (r: Option<bool>)
      requires Valid()
      modifies this, inpipe
      ensures Valid() && Agrees(PipeEnds.CheckRead(old(View())), r, View())
    {
      hide YPipe.Valid, YPipe.Model;
      if !inActive || !(state.Active? || state.Pending?) {
        return Some(false);
      }
      var readable := inpipe.CheckRead();
      if !readable {
        inActive := false;
        return Some(false);
      }
      var head := inpipe.Probe();
      if head.Delimiter? {
        var msg := inpipe.Read();
        var d := Delimit();
        return if d.Some? then Some(false) else None;
      }
      return Some(true);
    }

    method Read() returns (r: Option<Option<Msg>>)
      requires Valid()
      modifies this, inpipe
      ensures Valid() && Agrees(PipeEnds.Read(old(View())), r, View())
    {
      hide YPipe.Valid, YPipe.Model;
      if !inActive || !(state.Active? || state.Pending?) {
        return Some(None);
      }
      var msg := inpipe.Read();
      if msg.None? {
        inActive := false;
        return Some(None);
      }
      if msg.value.Delimiter? {
        var d := Delimit();
        return if d.Some? then Some(None) else None;
      }
      if !msg.value.more {
        msgsRead := msgsRead + 1;
      }
      if lwm > 0 && msgsRead % lwm == 0 {
        sent := sent + [ActivateWrite(msgsRead)];
      }
      return Some(msg);
    }

    method CheckWrite() returns (r: Option<bool>)
      requires Valid()
      modifies this
      ensures Valid() && outpipe == old(outpipe) && Agrees(PipeEnds.CheckWrite(old(View())), r, View())
    {
      hide YPipe.Valid, YPipe.Model;
      if !outActive || !state.Active? {
        return Some(false);
      }
      var full := hwm > 0 && (msgsWritten - peersMsgsRead) % TWO_TO_THE_64 == hwm;
      if full {
        outActive := false;
        return Some(false);
      }
      return Some(true);
    }

    method Write(body: seq<int>, more: bool) returns (r: Option<bool>)
      requires Valid()
      requires state.Active? ==> outpipe != null
      modifies this, target
      ensures Valid() && Agrees(PipeEnds.Write(old(View()), body, more), r, View())
    {
      hide YPipe.Valid, YPipe.Model;
      var ok := CheckWrite();
      if ok != Some(true) {
        return Some(false);
      }
      outpipe.Write(Part(body, more), more);
      if !more {
        msgsWritten := msgsWritten + 1;
      }
      return Some(true);
    }

    // The loop of rollback (); false stands for its failed assertion.
    static method Unwrite(out: YPipe<Msg>) returns (ok: bool)
      requires out.Valid()
      modifies out
      ensures out.Valid() && ok == Unfinished(old(out.Model().items[out.Model().complete..]))
      ensures ok ==> out.Model() == QRollback(old(out.Model()))
    {
      hide YPipe.Valid, YPipe.Model;
      ghost var q, dropped := out.Model(), [];
      var msg := out.Unwrite();
      while msg.Some?
        invariant out.Valid() && out.Model() == q.(items := out.Model().items)
        invariant Unfinished(dropped)
        invariant q.items == out.Model().items + (if msg.Some? then [msg.value] else []) + dropped
        invariant msg.None? ==> |out.Model().items| == q.complete
        decreases |out.Model().items|, msg.Some?
      {
        if msg.value.Delimiter? || !msg.value.more {
          assert q.items[q.complete..][|out.Model().items| - q.complete] == msg.value;
          return false;
        }
        dropped := [msg.value] + dropped;
        msg := out.Unwrite();
      }
      assert q.items[q.complete..] == dropped;
      return true;
    }

    method Rollback() returns (r: Option<()>)
      requires Valid()
      modifies target
      ensures Valid() && Agrees(PipeEnds.Rollback(old(View())), r, View())
    {
      hide YPipe.Valid, YPipe.Model;
      if outpipe != null {
        var ok := Unwrite(outpipe);
        if !ok {
          return None;
        }
      }
      return Some(());
    }

    method Flush()
      requires Valid()
      modifies this, target
      ensures Valid() && Agrees(PipeEnds.Flush(old(View())), Some(()), View())
    {
      hide YPipe.Valid, YPipe.Model;
      if state.Terminating? {
        return;
      }
      if outpipe != null {
        var awake := outpipe.Flush();
        if !awake {
          sent := sent + [ActivateRead];
        }
      }
    }

    method ProcessActivateRead()
      requires Valid()
      modifies this
      ensures Valid() && Agrees(PipeEnds.ProcessActivateRead(old(View())), Some(()), View())
    {
      hide YPipe.Valid, YPipe.Model;
      if !inActive && (state.Active? || state.Pending?) {
        inActive := true;
      }
    }

    method ProcessActivateWrite(msgsRead_: nat)
      requires Valid()
      modifies this
      ensures Valid() && Agrees(PipeEnds.ProcessActivateWrite(old(View()), msgsRead_), Some(()), View())
    {
      hide YPipe.Valid, YPipe.Model;
      peersMsgsRead := msgsRead_;
      if !outActive && state.Active? {
        outActive := true;
      }
    }

    method ProcessPipeTerm() returns (r: Option<()>)
      requires Valid()
      modifies this
      ensures Valid() && Agrees(PipeEnds.ProcessPipeTerm(old(View())), r, View())
    {
      hide YPipe.Valid, YPipe.Model;
      if state.Active? {
        if !delay {
          state := Terminating;
          outpipe := null;
          sent := sent + [PipeTermAck];
        } else {
          state := Pending;
        }
        return Some(());
      }
      if state.Delimited? {
        state := Terminating;
        outpipe := null;
        sent := sent + [PipeTermAck];
        return Some(());
      }
      if state.Terminated? {
        state := DoubleTerminated;
        outpipe := null;
        sent := sent + [PipeTermAck];
        return Some(());
      }
      return None;
    }

    // Reading whatever can still be read.
    static method Drain(inp: YPipe<Msg>)
      requires inp.Valid()
      modifies inp
      ensures inp.Valid() && inp.Model() == Drained(old(inp.Model()))
    {
      hide YPipe.Valid, YPipe.Model;
      var msg := inp.Read();
      while msg.Some?
        invariant inp.Valid()
        invariant Drained(inp.Model()) == Drained(old(inp.Model()))
        invariant msg.None? ==> inp.Model().asleep && inp.Model().flushed == 0
        decreases inp.Model().flushed, msg.Some?
      {
        msg := inp.Read();
      }
    }

    method ProcessPipeTermAck() returns (r: Option<()>)
      requires Valid()
      modifies this, inpipe
      ensures Valid() && Agrees(PipeEnds.ProcessPipeTermAck(old(View())), r, View())
    {
      hide YPipe.Valid, YPipe.Model;
      if state.Terminated? {
        outpipe := null;
        sent := sent + [PipeTermAck];
      } else if !(state.Terminating? || state.DoubleTerminated?) {
        return None;
      }
      Drain(inpipe);
      return Some(());
    }

    // The end of terminate (): stop writing.
    method CloseOutbound() returns (r: Option<()>)
      requires Valid()
      modifies this, target
      ensures Valid() && Agrees(PipeEnds.CloseOutbound(old(View())), r, View())
    {
      hide YPipe.Valid, YPipe.Model;
      outActive := false;
      if outpipe != null {
        r := Rollback();
        if r.None? {
          return;
        }
        outpipe.Write(Delimiter, false);
        Flush();
      }
      return Some(());
    }

    method Terminate(delay_: bool) returns (r: Option<()>)
      requires Valid()
      modifies this, target
      ensures Valid() && Agrees(PipeEnds.Terminate(old(View()), delay_), r, View())
    {
      hide YPipe.Valid, YPipe.Model;
      delay := delay_;
      if state.Terminated? || state.DoubleTerminated? {
        return Some(());
      } else if state.Terminating? {
        return Some(());
      } else if state.Active? {
        sent := sent + [PipeTerm];
        state := Terminated;
      } else if state.Pending? && !delay {
        outpipe := null;
        sent := sent + [PipeTermAck];
        state := Terminating;
      } else if state.Delimited? {
        sent := sent + [PipeTerm];
        state := Terminated;
      }
      r := CloseOutbound();
    }
  }
}
