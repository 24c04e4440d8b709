/** mailbox_t over its queue and signaler, each call on its own: what it amounts to
    is a queue of commands.  MailboxRaces has the calls overlap. */
module Mailboxes {
  import opened Basics
  import opened YPipes

  // The eventfd: a counter.
  class Signaler {
    var count: nat

    constructor ()
      ensures count == 0
    {
      count := 0;
    }

    method Send()
      modifies this
      ensures count == old(count) + 1
    {
      count := count + 1;
    }

    // Reading an eventfd takes the whole count.
    method Recv()
      requires 1 <= count <= 2
      modifies this
      ensures count == old(count) - 1
    {
      var dummy := count;
      count := 0;
      if dummy == 2 {
        count := count + 1;
        return;
      }
      assert dummy == 1;
    }

    // false for a timeout or an interrupted call.
    method Wait(interrupted: bool) returns (ok: bool)
      ensures ok == (count > 0 && !interrupted)
    {
      return count > 0 && !interrupted;
    }
  }

  class Mailbox<T(0)> {
    const cpipe: YPipe<T>
    const signaler: Signaler
    var active: bool

    ghost function Contents(): seq<T>
      requires cpipe.Valid()
      reads this, cpipe
    {
      cpipe.Model().items
    }

    ghost predicate Valid()
      reads this, cpipe, signaler
    {
      && cpipe.Valid()
      && var q := cpipe.Model();
      && q.flushed == q.complete == |q.items|
      && (active ==> !q.asleep && signaler.count == 1)
      && (!active ==> q.asleep == (q.items == []) && signaler.count == if q.asleep then 0 else 1)
    }

    constructor ()
      ensures Valid() && Contents() == [] && fresh(cpipe) && fresh(signaler)
    {
      cpipe := new YPipe<T>();
      signaler := new Signaler();
      new;
      var none := cpipe.Read();
      assert none.None?;
      active := false;
    }

    method Send(cmd: T)
      requires Valid()
      modifies cpipe, signaler
      ensures Valid() && Contents() == old(Contents()) + [cmd]
    {
      hide YPipe.Valid, YPipe.Model;
      cpipe.Write(cmd, false);
      var ok := cpipe.Flush();
      if !ok {
        signaler.Send();
      }
    }

    // interrupted: a timeout or a signal handler ends the wait all the same.
    method Recv(interrupted: bool) returns (cmd: Option<T>)
      requires Valid()
      modifies this, cpipe, signaler
      ensures Valid()
      ensures cmd.Some? ==> old(Contents()) == [cmd.value] + Contents()
      ensures cmd.None? ==> Contents() == old(Contents()) && (Contents() == [] || (interrupted && !old(active)))
    {
      hide YPipe.Valid, YPipe.Model;
      if active {
        cmd := cpipe.Read();
        if cmd.Some? {
          return;
        }
        active := false;
        signaler.Recv();
      }
      var ok := signaler.Wait(interrupted);
      if !ok {
        return None;
      }
      active := true;
      cmd := cpipe.Read();
      assert cmd.Some?;
    }
  }
}
