/** mailbox_t with any number of sending threads and one receiving thread, at the
    grain of single accesses to shared memory: the lock, the pointer c of the
    queue, and the counter of the signaler. */
module MailboxRaces {
  import opened Basics

  type ThreadId = nat
  type Cmd = int

  // Where a sender is in send () and flush ().
  datatype Sender =
    | Idle
    | Holding(cmd: Cmd)       // has the lock
    | Written                 // before the compare-and-swap of flush
    | SetPending              // the swap failed, c is still to be set
    | Unlocking(signal: bool) // flush has returned !signal
    | Signalling              // before signaler.send ()

  // Where the receiver is in recv ().
  datatype Receiver =
    | Ready                   // between calls
    | Between                 // a read failed, before signaler.recv ()
    | Returning               // took two signals, one to be given back
    | Polling                 // in signaler.wait ()
    | Woken                   // the wait has succeeded, before the read

  // Queue positions count commands since creation; items go from front to f.
  datatype World = World(
    items: seq<Cmd>, front: nat, w: nat, f: nat, r: Option<nat>, c: Option<nat>,
    signals: nat, active: bool, receiver: Receiver, senders: map<ThreadId, Sender>, lock: Option<ThreadId>,
    sent: seq<Cmd>, received: seq<Cmd>,
    accepted: seq<Cmd>)  // the arguments of send, in the order in which the lock was taken

  datatype Step =
    | Lock(id: ThreadId, cmd: Cmd) | Write(id: ThreadId) | Swap(id: ThreadId) | Set(id: ThreadId)
    | Unlock(id: ThreadId) | Signal(id: ThreadId)
    | Recv | TakeSignal | GiveBack | Wake | TimeOut | ReadWoken

  // The constructor: one failed read puts the queue to sleep.
  const NewMailbox := World([], 0, 0, 0, None, None, 0, false, Ready, map[], None, [], [], [])

  function At(s: World, id: ThreadId): Sender {
    if id in s.senders then s.senders[id] else Idle
  }

  predicate Enabled(s: World, step: Step) {
    match step
    case Lock(id, _) => At(s, id).Idle? && s.lock.None?
    case Write(id) => At(s, id).Holding?
    case Swap(id) => At(s, id).Written?
    case Set(id) => At(s, id).SetPending?
    case Unlock(id) => At(s, id).Unlocking?
    case Signal(id) => At(s, id).Signalling?
    case Recv => s.receiver.Ready?
    case TakeSignal => s.receiver.Between? && s.signals > 0
    case GiveBack => s.receiver.Returning?
    case Wake => s.receiver.Polling? && s.signals > 0
    case TimeOut => s.receiver.Polling?
    case ReadWoken => s.receiver.Woken?
  }

  function Move(s: World, id: ThreadId, pc: Sender): World {
    s.(senders := s.senders[id := pc])
  }

  // check_read: prefetched, or whatever the swap of c from front to NULL finds.
  function Prefetch(s: World): World {
    if s.r.Some? && s.r.value != s.front then s
    else s.(r := s.c, c := if s.c == Some(s.front) then None else s.c)
  }

  predicate Readable(s: World) { s.r.Some? && s.r.value != s.front }

  function Pop(s: World): World
    requires s.items != []
  {
    s.(items := s.items[1..], front := s.front + 1, received := s.received + [s.items[0]])
  }

  // None is a failed assertion.
  function Act(s: World, step: Step): Option<World>
    requires Enabled(s, step)
  {
    match step
    case Lock(id, cmd) => Some(Move(s, id, Holding(cmd)).(lock := Some(id), accepted := s.accepted + [cmd]))
    case Write(id) =>
      var cmd := At(s, id).cmd;
      Some(Move(s, id, Written).(items := s.items + [cmd], f := s.front + |s.items| + 1, sent := s.sent + [cmd]))
    case Swap(id) =>
      if s.c == Some(s.w) then Some(Move(s, id, Unlocking(false)).(c := Some(s.f), w := s.f))
      else Some(Move(s, id, SetPending))
    case Set(id) => Some(Move(s, id, Unlocking(true)).(c := Some(s.f), w := s.f))
    case Unlock(id) => Some(Move(s, id, if At(s, id).signal then Signalling else Idle).(lock := None))
    case Signal(id) => Some(Move(s, id, Idle).(signals := s.signals + 1))
    case Recv =>
      if !s.active then Some(s.(receiver := Polling))
      else
        var p := Prefetch(s);
        if !Readable(p) then Some(p.(active := false, receiver := Between))
        else if p.items == [] then None
        else Some(Pop(p))
    case TakeSignal =>
      if s.signals == 2 then Some(s.(signals := 0, receiver := Returning))
      else if s.signals == 1 then Some(s.(signals := 0, receiver := Polling))
      else None
    case GiveBack => Some(s.(signals := s.signals + 1, receiver := Polling))
    case Wake => Some(s.(receiver := Woken, active := true))
    case TimeOut => Some(s.(receiver := Ready))
    case ReadWoken =>
      var p := Prefetch(s);
      if !Readable(p) || p.items == [] then None else Some(Pop(p).(receiver := Ready))
  }

  // --- The invariant ---

  predicate Critical(pc: Sender) { !pc.Idle? && !pc.Signalling? }

  // A flush has found the receiver asleep, and its signal is still to come.
  predicate Owes(pc: Sender) { pc.SetPending? || pc == Unlocking(true) || pc.Signalling? }

  function Owing(s: World): set<ThreadId> {
    set id | id in s.senders && Owes(s.senders[id])
  }

  predicate Holder(s: World, pc: Sender) {
    s.lock.Some? && At(s, s.lock.value) == pc
  }

  // The queue is awake, or about to be.
  predicate Awake(s: World) { s.c.Some? || Holder(s, SetPending) }

  ghost predicate LockHeld(s: World) {
    forall id: ThreadId :: Critical(At(s, id)) <==> s.lock == Some(id)
  }

  predicate Pointers(s: World) {
    && s.front <= s.w <= s.f == s.front + |s.items|
    && (s.w < s.f <==> Holder(s, Written) || Holder(s, SetPending))
    && (s.c.None? || s.c == Some(s.w)) && (s.c.None? ==> s.w == s.front)
    && (Holder(s, SetPending) ==> s.c.None?)
    && (s.r.Some? ==> s.front <= s.r.value <= s.w)
    && s.received + s.items == s.sent
  }

  // Signals there, on their way, or to be given back, against who needs them.
  predicate Balance(s: World) {
    s.signals + |Owing(s)| + One(s.receiver.Returning?) == One(Awake(s)) + One(s.receiver.Between?)
  }

  // Where the receiver stands.
  predicate Phases(s: World) {
    && (s.active ==> s.receiver.Ready? || s.receiver.Woken?)
    && (s.receiver.Woken? ==> s.active)
    && (s.active || s.receiver.Between? ==> s.signals > 0)
    && (s.active ==> s.c.Some?)
    && (!s.active || s.receiver.Woken? ==> s.r == None || s.r == Some(s.front))
    && (!s.active || s.receiver.Woken? ==> s.c.Some? ==> s.front < s.w)
  }

  // What the holder of the lock has yet to write.
  function InHand(s: World): seq<Cmd> {
    if s.lock.Some? && At(s, s.lock.value).Holding? then [At(s, s.lock.value).cmd] else []
  }

  // Every command passed to send is in the queue's history, or in hand.
  predicate Accounted(s: World) { s.accepted == s.sent + InHand(s) }

  ghost predicate Inv(s: World) {
    LockHeld(s) && Pointers(s) && Balance(s) && Phases(s) && Accounted(s)
  }

  // One thread moving changes the count by at most itself.
  lemma OwingMoves(s: World, s': World, id: ThreadId)
    requires s'.senders == s.senders[id := At(s', id)]
    ensures |Owing(s')| == |Owing(s)| + One(Owes(At(s', id))) - One(Owes(At(s, id)))
  {
    assert Owing(s') == if Owes(At(s', id)) then Owing(s) + {id} else Owing(s) - {id};
    assert id in Owing(s) <==> Owes(At(s, id));
  }

  predicate OfSender(step: Step) {
    step.Lock? || step.Write? || step.Swap? || step.Set? || step.Unlock? || step.Signal?
  }

  lemma SenderKeepsLock(s: World, step: Step)
    requires OfSender(step) && Enabled(s, step) && LockHeld(s)
    ensures LockHeld(Act(s, step).value)
    ensures Critical(At(s, step.id)) <==> s.lock == Some(step.id)
  {
    assert Critical(At(s, step.id)) <==> s.lock == Some(step.id);
  }

  lemma SenderKeepsPointers(s: World, step: Step)
    requires OfSender(step) && Enabled(s, step) && Pointers(s) && Phases(s)
    requires Critical(At(s, step.id)) <==> s.lock == Some(step.id)
    ensures Pointers(Act(s, step).value) && Phases(Act(s, step).value)
  {
  }

  lemma SenderKeepsBalance(s: World, step: Step)
    requires OfSender(step) && Enabled(s, step) && Balance(s) && Pointers(s)
    requires Critical(At(s, step.id)) <==> s.lock == Some(step.id)
    ensures Balance(Act(s, step).value)
  {
    hide Owing;
    OwingMoves(s, Act(s, step).value, step.id);
  }

  lemma SenderKeepsAccount(s: World, step: Step)
    requires OfSender(step) && Enabled(s, step) && Accounted(s)
    requires Critical(At(s, step.id)) <==> s.lock == Some(step.id)
    ensures Accounted(Act(s, step).value)
  {
  }

  lemma SenderStep(s: World, step: Step)
    requires OfSender(step) && Enabled(s, step) && Inv(s)
    ensures Act(s, step).Some? && Inv(Act(s, step).value)
  {
    hide LockHeld, Balance, Pointers, Phases, Accounted;
    SenderKeepsLock(s, step);
    SenderKeepsAccount(s, step);
    SenderKeepsPointers(s, step);
    SenderKeepsBalance(s, step);
  }

  lemma OwingIs(s: World, t: World)
    requires s.senders == t.senders
    ensures Owing(s) == Owing(t)
  {
  }

  // A signal is only there for a wake-up whose queue is awake already.
  lemma AwakeMeansSet(s: World)
    requires Balance(s) && s.signals > 0 && !s.receiver.Between?
    ensures s.c.Some? && Owing(s) == {} && s.signals == 1
  {
    forall id | s.lock == Some(id) && At(s, id).SetPending? ensures id in Owing(s) {}
  }

  lemma HolderIs(s: World, t: World)
    requires s.senders == t.senders && s.lock == t.lock
    ensures Holder(s, Written) == Holder(t, Written) && Holder(s, SetPending) == Holder(t, SetPending)
  {
  }

  // A read pops the next command, or puts the queue to sleep when all is read.
  lemma Reading(s: World)
    requires Pointers(s) && s.c.Some?
    ensures var p := Prefetch(s);
      && (Readable(p) ==> p.items != [] && Pointers(Pop(p)) && p.c.Some?)
      && (!Readable(p) ==> Pointers(p) && p.c.None? && p.r == Some(s.front))
      && (s.r == None || s.r == Some(s.front) ==> (Readable(p) <==> s.front < s.w))
  {
    var p := Prefetch(s);
    HolderIs(s, p);
    if Readable(p) {
      HolderIs(p, Pop(p));
      assert p.items == [p.items[0]] + p.items[1..];
    }
    hide Holder;
  }

  // The read after a successful wait finds a command, whatever the senders do.
  lemma ReceiverKeepsPointers(s: World, step: Step)
    requires !OfSender(step) && Enabled(s, step) && Pointers(s) && Phases(s)
    requires step.TakeSignal? ==> s.signals <= 2
    requires step.Wake? ==> s.c.Some?
    ensures Act(s, step).Some?
    ensures Pointers(Act(s, step).value) && Phases(Act(s, step).value)
  {
    if s.c.Some? { Reading(s); }
    if step.Recv? || step.ReadWoken? {
      hide Pointers, Prefetch;
    } else {
      HolderIs(s, Act(s, step).value);
      hide Holder;
    }
  }

  lemma ReceiverKeepsBalance(s: World, step: Step)
    requires !OfSender(step) && Enabled(s, step) && Pointers(s) && Phases(s) && Balance(s) && Act(s, step).Some?
    ensures Balance(Act(s, step).value)
  {
    hide Owing;
    OwingIs(s, Act(s, step).value);
  }

  lemma ReceiverStep(s: World, step: Step)
    requires !OfSender(step) && Enabled(s, step) && Inv(s)
    ensures Act(s, step).Some? && Inv(Act(s, step).value)
  {
    hide LockHeld, Owing, Pointers;
    if s.signals > 0 && !s.receiver.Between? { AwakeMeansSet(s); }
    ReceiverKeepsPointers(s, step);
    hide Balance, Phases;
    ReceiverKeepsBalance(s, step);
    LockIs(s, Act(s, step).value);
    AccountIs(s, Act(s, step).value);
  }

  lemma AccountIs(s: World, t: World)
    requires Accounted(s) && s.senders == t.senders && s.lock == t.lock && s.sent == t.sent && s.accepted == t.accepted
    ensures Accounted(t)
  {
  }

  lemma LockIs(s: World, t: World)
    requires s.senders == t.senders && s.lock == t.lock && LockHeld(s)
    ensures LockHeld(t)
  {
  }

  // --- Runs ---

  // Steps that are not enabled change nothing; None is a failed assertion.
  function Run(s: World, steps: seq<Step>): Option<World>
    decreases |steps|
  {
    if steps == [] then Some(s)
    else if !Enabled(s, steps[0]) then Run(s, steps[1..])
    else match Act(s, steps[0]) case None => None case Some(t) => Run(t, steps[1..])
  }

  lemma {:induction false} RunKeepsInv(s: World, steps: seq<Step>)
    requires Inv(s)
    ensures Run(s, steps).Some? && Inv(Run(s, steps).value)
    decreases |steps|
  {
    hide Inv, Act;
    if steps != [] {
      if Enabled(s, steps[0]) {
        if OfSender(steps[0]) { SenderStep(s, steps[0]); } else { ReceiverStep(s, steps[0]); }
        RunKeepsInv(Act(s, steps[0]).value, steps[1..]);
      } else {
        RunKeepsInv(s, steps[1..]);
      }
    }
  }

  // No lost wake-up: when a receiver that is not reading has a flushed command to be
  // read, a signal is there, or being put back, or some sender owes it one.
  lemma NoLostWakeUp(s: World)
    requires Inv(s) && !s.active && s.front < s.w
    ensures s.signals > 0 || s.receiver.Returning? || exists id :: id in s.senders && Owes(s.senders[id])
  {
    assert s.c.Some?;
    if s.signals == 0 && !s.receiver.Returning? {
      assert Owing(s) != {};
      var id :| id in Owing(s);
    }
  }

  // A command not yet flushed has its sender in the middle of send ().
  lemma UnflushedHasSender(s: World)
    requires Inv(s) && s.w < s.f
    ensures exists id :: At(s, id).Written? || At(s, id).SetPending?
  {
    assert At(s, s.lock.value).Written? || At(s, s.lock.value).SetPending?;
  }

  // In every state of every interleaving no assertion has failed, signals present
  // and to come balance those needed, no wake-up is lost, and commands are received
  // in the order in which the lock was taken.
  lemma EveryRun(steps: seq<Step>)
    ensures var r := Run(NewMailbox, steps);
      && r.Some? && Inv(r.value)
      && var s := r.value;
      && s.signals + |Owing(s)| + One(s.receiver.Returning?) == One(Awake(s)) + One(s.receiver.Between?)
      && s.signals <= 2
      && (!s.active && s.front < s.w ==>
            s.signals > 0 || s.receiver.Returning? || exists id :: id in s.senders && Owes(s.senders[id]))
      && s.received + s.items + InHand(s) == s.accepted
  {
    assert Inv(NewMailbox) by { assert Owing(NewMailbox) == {}; }
    RunKeepsInv(NewMailbox, steps);
    var s := Run(NewMailbox, steps).value;
    if !s.active && s.front < s.w { NoLostWakeUp(s); }
  }

  // A receiver that reads while something flushed is there takes the oldest command;
  // only with nothing flushed does it go passive.  A passive one waits.
  lemma RecvTakes(s: World)
    requires Inv(s) && s.receiver.Ready?
    ensures var r := Act(s, Recv);
      && r.Some?
      && if !s.active then r.value == s.(receiver := Polling)
         else if s.front < s.w then
           && s.items != [] && r.value.received == s.received + [s.items[0]] && r.value.items == s.items[1..]
           && r.value.receiver.Ready? && r.value.active && r.value.signals == s.signals
         else r.value.received == s.received && r.value.items == s.items && r.value.receiver.Between? && !r.value.active
  {
    hide LockHeld, Owing, Balance, Accounted;
    if s.active {
      Reading(s);
      PrefetchFinds(s);
    }
    hide Pointers, Prefetch;
  }

  // A read finds a command exactly if one is flushed.
  lemma PrefetchFinds(s: World)
    requires Pointers(s) && s.c.Some?
    ensures Readable(Prefetch(s)) <==> s.front < s.w
    ensures var p := Prefetch(s); p == s.(r := p.r, c := p.c)
    ensures s.front < s.w ==> s.items != []
  {
    hide Holder;
  }

  // How far a sender is from the end of send (), and the receiver from that of recv ().
  function StepsLeft(pc: Sender): nat {
    match pc
    case Idle => 0
    case Signalling => 1
    case Unlocking(_) => 2
    case SetPending => 3
    case Written => 4
    case Holding(_) => 5
  }

  function PhasesLeft(pc: Receiver): nat {
    match pc
    case Ready => 0
    case Woken => 1
    case Polling => 2
    case Returning => 3
    case Between => 4
  }

  // No step is idle: a sender that has got the lock is done after at most five more of
  // its own, and no step of it moves anybody else.
  lemma SendEnds(s: World, step: Step)
    requires OfSender(step) && Enabled(s, step)
    ensures var t := Act(s, step).value; var pc, pc' := At(s, step.id), At(t, step.id);
      && Act(s, step).Some?
      && (if step.Lock? then pc' == Holding(step.cmd) else StepsLeft(pc') < StepsLeft(pc))
      && t.receiver == s.receiver && forall id | id != step.id :: At(t, id) == At(s, id)
  {
  }

  // The receiver comes back to its caller: it puts a second signal back, waits, and
  // with a signal there goes on to read, taking none away.
  lemma RecvEnds(s: World, step: Step)
    requires Inv(s) && !OfSender(step) && Enabled(s, step) && !step.Recv?
    ensures var r := Act(s, step);
      && r.Some? && PhasesLeft(r.value.receiver) < PhasesLeft(s.receiver) && r.value.senders == s.senders
      && (step.Wake? ==> r.value.receiver.Woken? && r.value.signals == s.signals)
      && (step.TakeSignal? ==> (r.value.receiver.Returning? <==> s.signals == 2))
  {
    hide Inv;
    ReceiverStep(s, step);
  }

  // A receiver that waits goes on when there is a signal, and then takes the oldest
  // command.
  lemma WaitTakes(s: World)
    requires Inv(s) && s.receiver.Woken?
    ensures var r := Act(s, ReadWoken);
      && r.Some? && s.items != [] && r.value.received == s.received + [s.items[0]] && r.value.items == s.items[1..]
      && r.value.receiver.Ready? && r.value.active
  {
    hide LockHeld, Owing, Balance, Accounted;
    Reading(s);
    PrefetchFinds(s);
    hide Pointers, Prefetch;
  }

  // The receiver never waits for the signal that woke it up: it is still there
  // when a failed read takes it back.
  lemma SignalThereToTake(s: World)
    requires Inv(s) && s.receiver.Between?
    ensures Enabled(s, TakeSignal) && Act(s, TakeSignal).Some?
  {
    hide LockHeld, Owing, Pointers;
  }
}
