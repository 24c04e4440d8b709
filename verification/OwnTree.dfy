/** The ownership tree: objects of any number on any number of threads, commands
    delivered in any order that is FIFO between each pair of objects. */
module OwnTrees {
  import opened Basics
  import opened OwnObjects

  // promised: announced by inc_seqnum, not yet sent.  events: registered by
  // register_term_acks for something other than a child, not yet arrived.
  datatype Node = Node(o: Obj, promised: nat, events: nat)

  datatype World = World(nodes: map<Id, Node>, flight: seq<Packet>)

  datatype Step =
    | NewRoot(id: Id)
    | Launch(owner: Id, id: Id)
    | TermChild(owner: Id, child: Id)
    | CallTerminate(id: Id)
    | Promise(id: Id)
    | SendCounted(src: Id, id: Id)
    | Expect(id: Id)
    | Arrive(id: Id)
    | Deliver(i: nat)

  predicate Alive(w: World, id: Id) { id in w.nodes && w.nodes[id].o.alive }

  predicate Deliverable(flight: seq<Packet>, i: nat) {
    i < |flight| && forall j | 0 <= j < i :: flight[j].src != flight[i].src || flight[j].dst != flight[i].dst
  }

  predicate Enabled(w: World, step: Step) {
    match step
    case NewRoot(id) => id !in w.nodes
    case Launch(owner, id) => Alive(w, owner) && id !in w.nodes && owner < id
    case TermChild(owner, _) => Alive(w, owner)
    case CallTerminate(id) => Alive(w, id)
    case Promise(id) => Alive(w, id)
    case SendCounted(_, id) => id in w.nodes && w.nodes[id].promised > 0
    case Expect(id) => Alive(w, id)
    case Arrive(id) => id in w.nodes && w.nodes[id].events > 0
    case Deliver(i) => Deliverable(w.flight, i)
  }

  function Without(flight: seq<Packet>, i: nat): seq<Packet>
    requires i < |flight|
  {
    flight[..i] + flight[i + 1..]
  }

  function Start(w: World, id: Id): Local
    requires id in w.nodes
  {
    Local(w.nodes[id].o, [])
  }

  function SetNode(w: World, n: Node): World {
    w.(nodes := w.nodes[n.o.id := n])
  }

  // The object has become l.o and sends what l.sent says.
  function Put(w: World, l: Local): World
    requires l.o.id in w.nodes
  {
    w.(nodes := w.nodes[l.o.id := w.nodes[l.o.id].(o := l.o)], flight := w.flight + l.sent)
  }

  function PutDone(w: World, r: Outcome): Option<World>
    requires r.Done? ==> r.l.o.id in w.nodes
  {
    match r case Abort => None case Done(l) => Some(Put(w, l))
  }

  ghost predicate Keyed(nodes: map<Id, Node>) { forall id | id in nodes :: nodes[id].o.id == id }

  // None stands for a failed assertion or a command to an object that is gone.
  function Act(w: World, step: Step): Option<World>
    requires Enabled(w, step) && Keyed(w.nodes)
  {
    match step
    case NewRoot(id) => Some(SetNode(w, Node(NewObj(id, None, 0), 0, 0)))
    case Launch(owner, id) =>
      var o := w.nodes[owner].o;
      var l := Local(o.(sentSeqnum := o.sentSeqnum + 1), [Packet(owner, id, Plug), Packet(owner, owner, Own(id))]);
      Some(Put(SetNode(w, Node(NewObj(id, Some(owner), 1), 0, 0)), l))
    case TermChild(owner, child) => Some(Put(w, ProcessTermReq(Start(w, owner), child)))
    case CallTerminate(id) => PutDone(w, Terminate(Start(w, id)))
    case Promise(id) =>
      var n := w.nodes[id];
      Some(SetNode(w, n.(o := n.o.(sentSeqnum := n.o.sentSeqnum + 1), promised := n.promised + 1)))
    case SendCounted(src, id) =>
      var n := w.nodes[id];
      Some(SetNode(w, n.(promised := n.promised - 1)).(flight := w.flight + [Packet(src, id, Counted)]))
    case Expect(id) =>
      var n := w.nodes[id];
      Some(SetNode(w, n.(o := RegisterTermAcks(Start(w, id), 1).o, events := n.events + 1)))
    case Arrive(id) =>
      if !Alive(w, id) then None
      else
        PutDone(SetNode(w, w.nodes[id].(events := w.nodes[id].events - 1)), UnregisterTermAck(Start(w, id)))
    case Deliver(i) =>
      var k := w.flight[i];
      if !Alive(w, k.dst) then None
      else PutDone(w.(flight := Without(w.flight, i)), ProcessCommand(Start(w, k.dst), k.cmd))
  }

  // --- The invariant ---

  type Bag = multiset<Packet>

  predicate IsChild(nodes: map<Id, Node>, c: Id, p: Id) {
    c in nodes && nodes[c].o.owner == Some(p)
  }

  // Owners are older than what they own, and own only their children.
  ghost predicate Tree(nodes: map<Id, Node>) {
    && Keyed(nodes)
    && (forall p, c | IsChild(nodes, c, p) :: p in nodes && p < c)
    && (forall p, c | p in nodes && c in nodes[p].o.owned :: IsChild(nodes, c, p))
    && (forall p | p in nodes && nodes[p].o.terminating :: nodes[p].o.owned == {})
  }

  // Who may have sent what to whom.
  predicate Proper(nodes: map<Id, Node>, bag: Bag, k: Packet) {
    k.dst in nodes &&
    match k.cmd
    case Plug => true
    case Counted => true
    case Own(c) => k.src == k.dst && IsChild(nodes, c, k.dst)
    case Term => IsChild(nodes, k.dst, k.src)
    case TermAck => IsChild(nodes, k.src, k.dst)
    case TermReq(c) =>
      c == k.src && IsChild(nodes, k.src, k.dst) && (nodes[k.src].o.alive || Packet(k.src, k.dst, TermAck) in bag)
  }

  // A child is on its way to its owner's set, in it, told to terminate, or
  // terminating, and nothing else; it acknowledges at most once.
  predicate OneStage(nodes: map<Id, Node>, bag: Bag, c: Id, p: Id)
    requires c in nodes && p in nodes
  {
    && bag[Packet(p, p, Own(c))] + One(c in nodes[p].o.owned) + bag[Packet(p, c, Term)]
       + One(nodes[c].o.terminating) == 1
    && bag[Packet(c, p, TermAck)] <= One(!nodes[c].o.alive) <= One(nodes[c].o.terminating)
  }

  // Told to terminate, acknowledgement not yet processed.
  predicate Owes(nodes: map<Id, Node>, bag: Bag, c: Id, p: Id) {
    && IsChild(nodes, c, p)
    && (Packet(p, c, Term) in bag
        || (nodes[c].o.terminating && (nodes[c].o.alive || Packet(c, p, TermAck) in bag)))
  }

  function Owing(nodes: map<Id, Node>, bag: Bag, p: Id): set<Id> {
    set c | c in nodes && Owes(nodes, bag, c, p)
  }

  predicate Counts(k: Packet, id: Id) {
    k.dst == id && (k.cmd.Plug? || k.cmd.Own? || k.cmd.Counted?)
  }

  function CountedFor(flight: seq<Packet>, id: Id): nat {
    if flight == [] then 0
    else CountedFor(flight[..|flight| - 1], id) + One(Counts(flight[|flight| - 1], id))
  }

  // No request to be terminated follows an acknowledgement.
  ghost predicate AcksLast(flight: seq<Packet>) {
    forall i, j | 0 <= i < j < |flight| ::
      flight[i].cmd.TermAck? && flight[j].cmd.TermReq? ==> flight[i].src != flight[j].src
  }

  // The part of the invariant about who is where in the tree.
  ghost predicate Stages(nodes: map<Id, Node>, bag: Bag) {
    && Tree(nodes)
    && (forall k | k in bag :: Proper(nodes, bag, k))
    && (forall p, c | IsChild(nodes, c, p) :: OneStage(nodes, bag, c, p))
  }

  // term_acks: the children still to acknowledge, and the events.
  ghost predicate AcksCounted(nodes: map<Id, Node>, bag: Bag) {
    forall p | p in nodes :: nodes[p].o.termAcks == |Owing(nodes, bag, p)| + nodes[p].events
  }

  // The sequence numbers differ by the counted commands not yet processed.
  ghost predicate Sequenced(nodes: map<Id, Node>, flight: seq<Packet>) {
    forall p | p in nodes ::
      nodes[p].o.sentSeqnum == nodes[p].o.processedSeqnum + CountedFor(flight, p) + nodes[p].promised
  }

  ghost predicate Base(w: World) {
    && Stages(w.nodes, multiset(w.flight)) && AcksCounted(w.nodes, multiset(w.flight))
    && Sequenced(w.nodes, w.flight) && AcksLast(w.flight)
  }

  // An object is gone exactly when it has nothing left to wait for.
  predicate SettledAt(nodes: map<Id, Node>, id: Id)
    requires id in nodes
  {
    nodes[id].o.alive <==> !Finished(nodes[id].o)
  }

  ghost predicate Inv(w: World) {
    Base(w) && forall id | id in w.nodes :: SettledAt(w.nodes, id)
  }

  // --- Nothing reaches an object that is gone ---

  lemma {:induction false} CountedInFlight(flight: seq<Packet>, i: nat, id: Id)
    requires i < |flight| && Counts(flight[i], id)
    ensures CountedFor(flight, id) > 0
  {
    if i < |flight| - 1 { CountedInFlight(flight[..|flight| - 1], i, id); }
  }

  // Children of an object that is gone have been told, and have acknowledged.
  lemma GoneAfterChildren(w: World, p: Id, c: Id)
    requires Inv(w) && IsChild(w.nodes, c, p) && !w.nodes[p].o.alive
    ensures !w.nodes[c].o.alive && Packet(c, p, TermAck) !in multiset(w.flight)
  {
    var bag := multiset(w.flight);
    assert OneStage(w.nodes, bag, c, p) && SettledAt(w.nodes, p);
    if Packet(p, p, Own(c)) in bag {
      var i :| 0 <= i < |w.flight| && w.flight[i] == Packet(p, p, Own(c));
      CountedInFlight(w.flight, i, p);
    }
    assert c in Owing(w.nodes, bag, p) <==> Owes(w.nodes, bag, c, p);
  }

  lemma DestinationAlive(w: World, i: nat)
    requires Inv(w) && i < |w.flight|
    ensures Alive(w, w.flight[i].dst)
  {
    var k, bag := w.flight[i], multiset(w.flight);
    assert k in bag;
    assert Proper(w.nodes, bag, k);
    assert SettledAt(w.nodes, k.dst);
    match k.cmd
    case Plug => CountedInFlight(w.flight, i, k.dst);
    case Own(_) => CountedInFlight(w.flight, i, k.dst);
    case Counted => CountedInFlight(w.flight, i, k.dst);
    case Term => assert OneStage(w.nodes, bag, k.dst, k.src);
    case TermAck =>
      assert OneStage(w.nodes, bag, k.src, k.dst);
      if !w.nodes[k.dst].o.alive { GoneAfterChildren(w, k.dst, k.src); }
    case TermReq(c) =>
      if !w.nodes[k.dst].o.alive { GoneAfterChildren(w, k.dst, k.src); }
  }

  // --- What the moves of one object do to the stages ---

  // Only p changes, and p stays who it is.
  predicate Changes(nodes: map<Id, Node>, nodes': map<Id, Node>, p: Id) {
    && p in nodes && p in nodes' && nodes' == nodes[p := nodes'[p]]
    && nodes'[p].o.id == nodes[p].o.id && nodes'[p].o.owner == nodes[p].o.owner
  }

  predicate SameStage(o: Obj, o': Obj) {
    o'.owned == o.owned && o'.terminating == o.terminating && o'.alive == o.alive
  }

  // Nothing is said about commands outside the handshake.
  predicate SamePost(bag: Bag, bag': Bag, c: Id, q: Id) {
    && bag'[Packet(q, q, Own(c))] == bag[Packet(q, q, Own(c))]
    && bag'[Packet(q, c, Term)] == bag[Packet(q, c, Term)]
    && bag'[Packet(c, q, TermAck)] == bag[Packet(c, q, TermAck)]
  }

  // What is kept when the children other than those of p keep their stage.
  lemma Restage(nodes: map<Id, Node>, bag: Bag, nodes': map<Id, Node>, bag': Bag, p: Id)
    requires Stages(nodes, bag) && Changes(nodes, nodes', p)
    requires nodes'[p].o.terminating ==> nodes'[p].o.owned == {}
    requires forall c | c in nodes'[p].o.owned :: IsChild(nodes, c, p)
    requires forall k | k in bag' && k !in bag :: Proper(nodes, bag', k)
    requires forall k | k in bag' && k.cmd.TermReq? ::
      k.src in nodes && (nodes'[k.src].o.alive || Packet(k.src, k.dst, TermAck) in bag')
    requires forall q, c | IsChild(nodes, c, q) :: OneStage(nodes', bag', c, q)
    ensures Stages(nodes', bag')
  {
    hide OneStage;
    forall k | k in bag' ensures Proper(nodes', bag', k) {
      ProperKept(nodes, bag, nodes', bag', p, k);
    }
    forall q, c ensures IsChild(nodes', c, q) <==> IsChild(nodes, c, q) {}
  }

  lemma ProperKept(nodes: map<Id, Node>, bag: Bag, nodes': map<Id, Node>, bag': Bag, p: Id, k: Packet)
    requires Changes(nodes, nodes', p) && (Proper(nodes, bag, k) || Proper(nodes, bag', k))
    requires k.cmd.TermReq? ==> k.src in nodes && (nodes'[k.src].o.alive || Packet(k.src, k.dst, TermAck) in bag')
    ensures Proper(nodes', bag', k)
  {
  }

  // Sets of children to be heard of, from the children one by one.
  lemma OwingIs(nodes: map<Id, Node>, bag: Bag, nodes': map<Id, Node>, bag': Bag, p: Id, q: Id, more: set<Id>, less: set<Id>)
    requires Changes(nodes, nodes', p)
    requires forall c | IsChild(nodes, c, q) ::
      Owes(nodes', bag', c, q) <==> c !in less && (Owes(nodes, bag, c, q) || c in more)
    requires forall c | c in more :: IsChild(nodes, c, q) && c !in less
    ensures Owing(nodes', bag', q) == Owing(nodes, bag, q) - less + more
  {
    forall c ensures IsChild(nodes', c, q) <==> IsChild(nodes, c, q) {}
    forall c ensures c in Owing(nodes', bag', q) <==> Owes(nodes', bag', c, q) {}
    forall c ensures c in Owing(nodes, bag, q) <==> Owes(nodes, bag, c, q) {}
    forall c ensures Owes(nodes', bag', c, q) ==> IsChild(nodes', c, q) {}
    forall c ensures Owes(nodes, bag, c, q) ==> IsChild(nodes, c, q) {}
    hide Owes, Owing, IsChild;
  }

  // Counters move; commands outside the handshake come and go.
  lemma QuietMove(nodes: map<Id, Node>, bag: Bag, nodes': map<Id, Node>, bag': Bag, p: Id)
    requires Stages(nodes, bag) && Changes(nodes, nodes', p) && SameStage(nodes[p].o, nodes'[p].o)
    requires forall q, c | IsChild(nodes, c, q) :: SamePost(bag, bag', c, q)
    requires forall k | k in bag' && k !in bag :: Proper(nodes, bag, k)
    ensures Stages(nodes', bag')
    ensures forall q | q in nodes :: Owing(nodes', bag', q) == Owing(nodes, bag, q)
  {
    forall q, c | IsChild(nodes, c, q)
      ensures OneStage(nodes', bag', c, q) && (Owes(nodes', bag', c, q) <==> Owes(nodes, bag, c, q))
    {
      assert OneStage(nodes, bag, c, q) && SamePost(bag, bag', c, q);
      QuietAt(nodes, bag, nodes', bag', p, q, c);
    }
    forall k | k in bag' && (k !in bag || k.cmd.TermReq?)
      ensures Proper(nodes, bag', k)
      ensures k.cmd.TermReq? ==> k.src in nodes && (nodes'[k.src].o.alive || Packet(k.src, k.dst, TermAck) in bag')
    {
      assert Proper(nodes, bag, k);
    }
    hide OneStage, Proper, Owes, Owing, SamePost;
    Restage(nodes, bag, nodes', bag', p);
    forall q | q in nodes ensures Owing(nodes', bag', q) == Owing(nodes, bag, q) {
      OwingIs(nodes, bag, nodes', bag', p, q, {}, {});
    }
  }

  lemma QuietAt(nodes: map<Id, Node>, bag: Bag, nodes': map<Id, Node>, bag': Bag, p: Id, q: Id, c: Id)
    requires Changes(nodes, nodes', p) && SameStage(nodes[p].o, nodes'[p].o)
    requires IsChild(nodes, c, q) && q in nodes && OneStage(nodes, bag, c, q) && SamePost(bag, bag', c, q)
    ensures OneStage(nodes', bag', c, q) && (Owes(nodes', bag', c, q) <==> Owes(nodes, bag, c, q))
  {
  }

  // The own command about c reaches p, which is not terminating.
  predicate Takes(nodes: map<Id, Node>, bag: Bag, nodes': map<Id, Node>, bag': Bag, p: Id, c: Id) {
    && Changes(nodes, nodes', p) && Packet(p, p, Own(c)) in bag && bag' == bag - multiset{Packet(p, p, Own(c))}
    && !nodes[p].o.terminating && !nodes'[p].o.terminating && nodes'[p].o.alive == nodes[p].o.alive
    && nodes'[p].o.owned == nodes[p].o.owned + {c}
  }

  lemma TakesAt(nodes: map<Id, Node>, bag: Bag, nodes': map<Id, Node>, bag': Bag, p: Id, c: Id, q: Id, d: Id)
    requires Takes(nodes, bag, nodes', bag', p, c)
    requires IsChild(nodes, d, q) && q in nodes && OneStage(nodes, bag, d, q)
    ensures OneStage(nodes', bag', d, q) && (Owes(nodes', bag', d, q) <==> Owes(nodes, bag, d, q))
  {
  }

  lemma TakesMove(nodes: map<Id, Node>, bag: Bag, nodes': map<Id, Node>, bag': Bag, p: Id, c: Id)
    requires Stages(nodes, bag) && Takes(nodes, bag, nodes', bag', p, c)
    ensures Stages(nodes', bag')
    ensures forall q | q in nodes :: Owing(nodes', bag', q) == Owing(nodes, bag, q)
  {
    forall q, d | IsChild(nodes, d, q)
      ensures OneStage(nodes', bag', d, q) && (Owes(nodes', bag', d, q) <==> Owes(nodes, bag, d, q))
    {
      assert OneStage(nodes, bag, d, q);
      TakesAt(nodes, bag, nodes', bag', p, c, q, d);
    }
    assert Proper(nodes, bag, Packet(p, p, Own(c)));
    forall k | k in bag' && k.cmd.TermReq?
      ensures k.src in nodes && (nodes'[k.src].o.alive || Packet(k.src, k.dst, TermAck) in bag')
    {
      assert Proper(nodes, bag, k);
    }
    hide OneStage, Proper, Owes, Owing;
    Restage(nodes, bag, nodes', bag', p);
    forall q | q in nodes ensures Owing(nodes', bag', q) == Owing(nodes, bag, q) {
      OwingIs(nodes, bag, nodes', bag', p, q, {}, {});
    }
  }

  // p tells its child c to terminate: one it owned, or one it hears of only now.
  predicate Tells(nodes: map<Id, Node>, bag: Bag, nodes': map<Id, Node>, bag': Bag, p: Id, c: Id) {
    var more, own := bag + multiset{Packet(p, c, Term)}, Packet(p, p, Own(c));
    && Changes(nodes, nodes', p)
    && nodes'[p].o.terminating == nodes[p].o.terminating && nodes'[p].o.alive == nodes[p].o.alive
    && nodes'[p].o.owned == nodes[p].o.owned - {c}
    && if own in bag then bag' == more - multiset{own} else c in nodes[p].o.owned && bag' == more
  }

  lemma TellsAt(nodes: map<Id, Node>, bag: Bag, nodes': map<Id, Node>, bag': Bag, p: Id, c: Id, q: Id, d: Id)
    requires Tells(nodes, bag, nodes', bag', p, c)
    requires IsChild(nodes, d, q) && q in nodes && OneStage(nodes, bag, d, q)
    ensures OneStage(nodes', bag', d, q)
    ensures Owes(nodes', bag', d, q) <==> Owes(nodes, bag, d, q) || (q == p && d == c)
    ensures q == p && d == c ==> !Owes(nodes, bag, d, q)
  {
  }

  lemma TellsMove(nodes: map<Id, Node>, bag: Bag, nodes': map<Id, Node>, bag': Bag, p: Id, c: Id)
    requires Stages(nodes, bag) && Tells(nodes, bag, nodes', bag', p, c)
    ensures Stages(nodes', bag') && c !in Owing(nodes, bag, p)
    ensures forall q | q in nodes :: Owing(nodes', bag', q) == Owing(nodes, bag, q) + if q == p then {c} else {}
  {
    assert Packet(p, p, Own(c)) in bag ==> Proper(nodes, bag, Packet(p, p, Own(c)));
    assert IsChild(nodes, c, p);
    forall q, d | IsChild(nodes, d, q)
      ensures OneStage(nodes', bag', d, q)
      ensures Owes(nodes', bag', d, q) <==> Owes(nodes, bag, d, q) || (q == p && d == c)
      ensures q == p && d == c ==> !Owes(nodes, bag, d, q)
    {
      assert OneStage(nodes, bag, d, q);
      TellsAt(nodes, bag, nodes', bag', p, c, q, d);
    }
    forall k | k in bag' && (k !in bag || k.cmd.TermReq?)
      ensures Proper(nodes, bag', k)
      ensures k.cmd.TermReq? ==> k.src in nodes && (nodes'[k.src].o.alive || Packet(k.src, k.dst, TermAck) in bag')
    {
      if k in bag { assert Proper(nodes, bag, k); }
    }
    hide OneStage, Proper, Owes;
    Restage(nodes, bag, nodes', bag', p);
    forall q | q in nodes ensures Owing(nodes', bag', q) == Owing(nodes, bag, q) + if q == p then {c} else {} {
      OwingIs(nodes, bag, nodes', bag', p, q, if q == p then {c} else {}, {});
    }
  }

  // p starts to terminate and tells all it owns.
  predicate Starts(nodes: map<Id, Node>, bag: Bag, nodes': map<Id, Node>, bag': Bag, p: Id, terms: Bag) {
    && Changes(nodes, nodes', p)
    && !nodes[p].o.terminating && nodes'[p].o.terminating && nodes[p].o.alive && nodes'[p].o.alive
    && nodes'[p].o.owned == {}
    && match nodes[p].o.owner
       case None => bag' == bag + terms
       case Some(q) => Packet(q, p, Term) in bag && bag' == bag - multiset{Packet(q, p, Term)} + terms
  }

  ghost predicate TermsTo(terms: Bag, p: Id, owned: set<Id>) {
    forall k :: terms[k] == One(k.src == p && k.cmd == Term && k.dst in owned)
  }

  lemma StartsAt(nodes: map<Id, Node>, bag: Bag, nodes': map<Id, Node>, bag': Bag, p: Id, terms: Bag, q: Id, d: Id)
    requires Starts(nodes, bag, nodes', bag', p, terms) && TermsTo(terms, p, nodes[p].o.owned)
    requires IsChild(nodes, d, q) && q in nodes && q < d && OneStage(nodes, bag, d, q)
    ensures OneStage(nodes', bag', d, q)
    ensures Owes(nodes', bag', d, q) <==> Owes(nodes, bag, d, q) || (q == p && d in nodes[p].o.owned)
    ensures q == p && d in nodes[p].o.owned ==> !Owes(nodes, bag, d, q)
  {
  }

  lemma StartsProper(nodes: map<Id, Node>, bag: Bag, nodes': map<Id, Node>, bag': Bag, p: Id, terms: Bag, k: Packet)
    requires Stages(nodes, bag)
    requires Starts(nodes, bag, nodes', bag', p, terms) && TermsTo(terms, p, nodes[p].o.owned)
    requires k in bag' && (k !in bag || k.cmd.TermReq?)
    ensures Proper(nodes, bag', k)
    ensures k.cmd.TermReq? ==> k.src in nodes && (nodes'[k.src].o.alive || Packet(k.src, k.dst, TermAck) in bag')
  {
    hide OneStage;
    if k in bag { assert Proper(nodes, bag, k); } else { assert k in terms; }
  }

  lemma StartsMove(nodes: map<Id, Node>, bag: Bag, nodes': map<Id, Node>, bag': Bag, p: Id, terms: Bag)
    requires Stages(nodes, bag)
    requires Starts(nodes, bag, nodes', bag', p, terms) && TermsTo(terms, p, nodes[p].o.owned)
    ensures Stages(nodes', bag') && Owing(nodes, bag, p) !! nodes[p].o.owned
    ensures forall q | q in nodes ::
      Owing(nodes', bag', q) == Owing(nodes, bag, q) + if q == p then nodes[p].o.owned else {}
  {
    forall q, d | IsChild(nodes, d, q)
      ensures OneStage(nodes', bag', d, q)
      ensures Owes(nodes', bag', d, q) <==> Owes(nodes, bag, d, q) || (q == p && d in nodes[p].o.owned)
      ensures q == p && d in nodes[p].o.owned ==> !Owes(nodes, bag, d, q)
    {
      assert OneStage(nodes, bag, d, q);
      StartsAt(nodes, bag, nodes', bag', p, terms, q, d);
    }
    forall k | k in bag' && (k !in bag || k.cmd.TermReq?)
      ensures Proper(nodes, bag', k)
      ensures k.cmd.TermReq? ==> k.src in nodes && (nodes'[k.src].o.alive || Packet(k.src, k.dst, TermAck) in bag')
    {
      StartsProper(nodes, bag, nodes', bag', p, terms, k);
    }
    hide OneStage, Proper, Owes;
    Restage(nodes, bag, nodes', bag', p);
    forall q | q in nodes
      ensures Owing(nodes', bag', q) == Owing(nodes, bag, q) + if q == p then nodes[p].o.owned else {}
    {
      OwingIs(nodes, bag, nodes', bag', p, q, if q == p then nodes[p].o.owned else {}, {});
    }
  }

  // p processes the acknowledgement of c.
  predicate Hears(nodes: map<Id, Node>, bag: Bag, nodes': map<Id, Node>, bag': Bag, p: Id, c: Id) {
    && Changes(nodes, nodes', p) && SameStage(nodes[p].o, nodes'[p].o)
    && Packet(c, p, TermAck) in bag && bag' == bag - multiset{Packet(c, p, TermAck)}
  }

  lemma HearsAt(nodes: map<Id, Node>, bag: Bag, nodes': map<Id, Node>, bag': Bag, p: Id, c: Id, q: Id, d: Id)
    requires Hears(nodes, bag, nodes', bag', p, c)
    requires IsChild(nodes, d, q) && q in nodes && OneStage(nodes, bag, d, q)
    ensures OneStage(nodes', bag', d, q)
    ensures Owes(nodes', bag', d, q) <==> Owes(nodes, bag, d, q) && !(q == p && d == c)
    ensures q == p && d == c ==> Owes(nodes, bag, d, q)
  {
  }

  lemma HearsMove(nodes: map<Id, Node>, bag: Bag, nodes': map<Id, Node>, bag': Bag, p: Id, c: Id)
    requires Stages(nodes, bag) && Hears(nodes, bag, nodes', bag', p, c)
    requires forall k | k in bag && k.cmd.TermReq? :: k.src != c
    ensures Stages(nodes', bag') && c in Owing(nodes, bag, p)
    ensures forall q | q in nodes :: Owing(nodes', bag', q) == Owing(nodes, bag, q) - if q == p then {c} else {}
  {
    assert Proper(nodes, bag, Packet(c, p, TermAck));
    forall q, d | IsChild(nodes, d, q)
      ensures OneStage(nodes', bag', d, q)
      ensures Owes(nodes', bag', d, q) <==> Owes(nodes, bag, d, q) && !(q == p && d == c)
      ensures q == p && d == c ==> Owes(nodes, bag, d, q)
    {
      assert OneStage(nodes, bag, d, q);
      HearsAt(nodes, bag, nodes', bag', p, c, q, d);
    }
    forall k | k in bag' && k.cmd.TermReq?
      ensures k.src in nodes && (nodes'[k.src].o.alive || Packet(k.src, k.dst, TermAck) in bag')
    {
      assert Proper(nodes, bag, k);
    }
    assert c in Owing(nodes, bag, p) <==> Owes(nodes, bag, c, p);
    hide OneStage, Proper, Owes;
    Restage(nodes, bag, nodes', bag', p);
    forall q | q in nodes ensures Owing(nodes', bag', q) == Owing(nodes, bag, q) - if q == p then {c} else {} {
      OwingIs(nodes, bag, nodes', bag', p, q, {}, if q == p then {c} else {});
    }
  }

  // p is gone, with an acknowledgement to its owner if it has one.
  predicate Leaves(nodes: map<Id, Node>, bag: Bag, nodes': map<Id, Node>, bag': Bag, p: Id) {
    && Changes(nodes, nodes', p)
    && nodes[p].o.terminating && nodes'[p].o.terminating && nodes[p].o.alive && !nodes'[p].o.alive
    && nodes'[p].o.owned == nodes[p].o.owned
    && bag' == match nodes[p].o.owner case None => bag case Some(q) => bag + multiset{Packet(p, q, TermAck)}
  }

  lemma LeavesAt(nodes: map<Id, Node>, bag: Bag, nodes': map<Id, Node>, bag': Bag, p: Id, q: Id, d: Id)
    requires Leaves(nodes, bag, nodes', bag', p)
    requires IsChild(nodes, d, q) && q in nodes && q < d && OneStage(nodes, bag, d, q)
    ensures OneStage(nodes', bag', d, q) && (Owes(nodes', bag', d, q) <==> Owes(nodes, bag, d, q))
  {
  }

  lemma LeavesMove(nodes: map<Id, Node>, bag: Bag, nodes': map<Id, Node>, bag': Bag, p: Id)
    requires Stages(nodes, bag) && Leaves(nodes, bag, nodes', bag', p)
    ensures Stages(nodes', bag')
    ensures forall q | q in nodes :: Owing(nodes', bag', q) == Owing(nodes, bag, q)
  {
    forall q, d | IsChild(nodes, d, q)
      ensures OneStage(nodes', bag', d, q) && (Owes(nodes', bag', d, q) <==> Owes(nodes, bag, d, q))
    {
      assert OneStage(nodes, bag, d, q);
      LeavesAt(nodes, bag, nodes', bag', p, q, d);
    }
    forall k | k in bag' && (k !in bag || k.cmd.TermReq?)
      ensures Proper(nodes, bag', k)
      ensures k.cmd.TermReq? ==> k.src in nodes && (nodes'[k.src].o.alive || Packet(k.src, k.dst, TermAck) in bag')
    {
      if k in bag { assert Proper(nodes, bag, k); } else { assert IsChild(nodes, p, k.dst); }
    }
    hide OneStage, Proper, Owes, Owing;
    Restage(nodes, bag, nodes', bag', p);
    forall q | q in nodes ensures Owing(nodes', bag', q) == Owing(nodes, bag, q) {
      OwingIs(nodes, bag, nodes', bag', p, q, {}, {});
    }
  }

  // --- Counting ---

  lemma {:induction false} CountedForConcat(a: seq<Packet>, b: seq<Packet>, id: Id)
    ensures CountedFor(a + b, id) == CountedFor(a, id) + CountedFor(b, id)
  {
    if b == [] {
      assert a + b == a;
    } else {
      CountedForConcat(a, b[..|b| - 1], id);
      assert (a + b)[..|a + b| - 1] == a + b[..|b| - 1];
    }
  }

  lemma CountedForOne(k: Packet, id: Id)
    ensures CountedFor([k], id) == One(Counts(k, id))
  {
    assert [k][..0] == [];
  }

  lemma WithoutCounts(flight: seq<Packet>, i: nat, id: Id)
    requires i < |flight|
    ensures CountedFor(Without(flight, i), id) == CountedFor(flight, id) - One(Counts(flight[i], id))
  {
    assert flight == flight[..i] + ([flight[i]] + flight[i + 1..]);
    CountedForConcat(flight[..i], [flight[i]] + flight[i + 1..], id);
    CountedForConcat([flight[i]], flight[i + 1..], id);
    CountedForConcat(flight[..i], flight[i + 1..], id);
    CountedForOne(flight[i], id);
  }

  lemma WithoutBag(flight: seq<Packet>, i: nat)
    requires i < |flight|
    ensures multiset(Without(flight, i)) == multiset(flight) - multiset{flight[i]}
    ensures AcksLast(flight) ==> AcksLast(Without(flight, i))
  {
    assert flight == flight[..i] + [flight[i]] + flight[i + 1..];
    forall j | 0 <= j < |flight| - 1 ensures Without(flight, i)[j] == flight[if j < i then j else j + 1] {}
  }

  lemma {:induction false} TermsBag(p: Id, owned: set<Id>)
    ensures TermsTo(multiset(Terms(p, owned)), p, owned)
    ensures forall id :: CountedFor(Terms(p, owned), id) == 0
    ensures forall k | k in Terms(p, owned) :: k.cmd == Term
  {
    if owned != {} {
      var m := Least(owned);
      var rest := Terms(p, owned - {m});
      TermsBag(p, owned - {m});
      forall id ensures CountedFor(Terms(p, owned), id) == 0 {
        CountedForConcat([Packet(p, m, Term)], rest, id);
        CountedForOne(Packet(p, m, Term), id);
      }
      forall k ensures multiset(Terms(p, owned))[k] == One(k.src == p && k.cmd == Term && k.dst in owned) {
        assert multiset(Terms(p, owned)) == multiset{Packet(p, m, Term)} + multiset(rest);
        assert multiset(rest)[k] == One(k.src == p && k.cmd == Term && k.dst in owned - {m});
      }
    }
  }

  // The children p waits for, and the counted commands it has not processed.
  function Unheard(n: Node): int { n.o.termAcks - n.events }

  function Behind(n: Node): int { n.o.sentSeqnum - n.o.processedSeqnum - n.promised }

  // The invariant after a change at p and new commands, once the stages are known.
  lemma Rebase(w: World, rest: seq<Packet>, v: World, p: Id, sent: seq<Packet>)
    requires Base(w) && Changes(w.nodes, v.nodes, p) && v.flight == rest + sent
    requires Stages(v.nodes, multiset(v.flight))
    requires forall q | q in w.nodes && q != p :: CountedFor(rest + sent, q) == CountedFor(w.flight, q)
    requires forall q | q in w.nodes && q != p ::
      Owing(v.nodes, multiset(v.flight), q) == Owing(w.nodes, multiset(w.flight), q)
    requires Unheard(v.nodes[p]) - |Owing(v.nodes, multiset(v.flight), p)|
          == Unheard(w.nodes[p]) - |Owing(w.nodes, multiset(w.flight), p)|
    requires Behind(v.nodes[p]) - CountedFor(rest + sent, p) == Behind(w.nodes[p]) - CountedFor(w.flight, p)
    requires AcksLast(rest) && forall k | k in sent :: k.cmd.TermReq? ==> |sent| == 1 && k.src !in Gone(rest)
    ensures Base(v)
  {
    hide Stages, Owing, CountedFor;
    AcksLastAppend(rest, sent);
  }

  // Those whose acknowledgement is on its way.
  function Gone(flight: seq<Packet>): set<Id> {
    set k | k in flight && k.cmd.TermAck? :: k.src
  }

  lemma AcksLastAppend(rest: seq<Packet>, sent: seq<Packet>)
    requires AcksLast(rest) && forall k | k in sent :: k.cmd.TermReq? ==> |sent| == 1 && k.src !in Gone(rest)
    ensures AcksLast(rest + sent)
  {
    forall i, j | 0 <= i < j < |rest + sent| && (rest + sent)[i].cmd.TermAck? && (rest + sent)[j].cmd.TermReq?
      ensures (rest + sent)[i].src != (rest + sent)[j].src
    {
      if j >= |rest| {
        assert sent[j - |rest|] in sent;
        if i < |rest| { assert rest[i] in rest; }
      }
    }
  }

  // --- Every step keeps everything ---

  ghost predicate OthersSettled(nodes: map<Id, Node>, p: Id) {
    forall q | q in nodes && q != p :: SettledAt(nodes, q)
  }

  lemma GoneSends(w: World, l: Local) returns (acks: seq<Packet>)
    requires l.o.id in w.nodes && Finished(l.o) && l.o.owned == {} && l.o.alive
    ensures CheckTermAcks(l).Done? && (forall k | k in acks :: k.cmd.TermAck?)
    ensures var v' := Put(w, CheckTermAcks(l).l); var v := Put(w, l);
      && v'.nodes == v.nodes[l.o.id := v.nodes[l.o.id].(o := l.o.(alive := false))]
      && v'.flight == v.flight + acks
      && Leaves(v.nodes, multiset(v.flight), v'.nodes, multiset(v'.flight), l.o.id)
      && (forall q :: CountedFor(v.flight + acks, q) == CountedFor(v.flight, q))
  {
    var p, v := l.o.id, Put(w, l);
    var v' := Put(w, CheckTermAcks(l).l);
    acks := match l.o.owner case None => [] case Some(q) => [Packet(p, q, TermAck)];
    assert v'.flight == v.flight + acks;
    if acks == [] { assert v'.flight == v.flight; }
    forall q ensures CountedFor(v.flight + acks, q) == CountedFor(v.flight, q) {
      CountedForConcat(v.flight, acks, q);
      if acks != [] { CountedForOne(acks[0], q); }
    }
  }

  // check_term_acks: its assertion holds, and an object that can go goes.
  lemma CheckStep(w: World, l: Local)
    requires l.o.id in w.nodes && l.o.alive
    requires Base(Put(w, l)) && OthersSettled(w.nodes, l.o.id)
    ensures CheckTermAcks(l).Done? && Inv(Put(w, CheckTermAcks(l).l))
  {
    hide Stages, Owing, CountedFor, AcksLast, Base, Leaves, AcksCounted, Sequenced,
         IsChild, Tree, Proper;
    var p, v := l.o.id, Put(w, l);
    BaseFacts(v);
    assert v.nodes[p].o == l.o;
    if Finished(l.o) {
      var acks := GoneSends(w, l);
      var v' := Put(w, CheckTermAcks(l).l);
      LeavesMove(v.nodes, multiset(v.flight), v'.nodes, multiset(v'.flight), p);
      Rebase(v, v.flight, v', p, acks);
    }
  }

  // The world without the command being delivered, and the object it is for.
  function Taken(w: World, i: nat): World
    requires i < |w.flight|
  {
    w.(flight := Without(w.flight, i))
  }

  predicate InHandshake(cmd: Cmd) { cmd.Own? || cmd.Term? || cmd.TermAck? }

  lemma Taking(w: World, i: nat)
    requires i < |w.flight|
    ensures multiset(Taken(w, i).flight) == multiset(w.flight) - multiset{w.flight[i]}
    ensures AcksLast(w.flight) ==> AcksLast(Taken(w, i).flight)
    ensures forall q :: CountedFor(Taken(w, i).flight, q) == CountedFor(w.flight, q) - One(Counts(w.flight[i], q))
    ensures !InHandshake(w.flight[i].cmd) ==>
      forall q, c :: SamePost(multiset(w.flight), multiset(Taken(w, i).flight), c, q)
  {
    WithoutBag(w.flight, i);
    forall q ensures CountedFor(Taken(w, i).flight, q) == CountedFor(w.flight, q) - One(Counts(w.flight[i], q)) {
      WithoutCounts(w.flight, i, q);
    }
  }

  // What hiding Base keeps in sight.
  lemma BaseFacts(w: World)
    requires Base(w)
    ensures Tree(w.nodes) && Stages(w.nodes, multiset(w.flight)) && AcksLast(w.flight)
  {
  }

  // Plug, attach, bind.
  lemma CountedPre(w: World, i: nat)
    requires Base(w) && i < |w.flight| && (w.flight[i].cmd.Plug? || w.flight[i].cmd.Counted?)
    requires w.flight[i].dst in w.nodes
    ensures Base(Put(Taken(w, i), CatchUp(Start(w, w.flight[i].dst))))
  {
    hide Base, Stages, Owing, CountedFor, AcksLast, SamePost, Proper, IsChild;
    BaseFacts(w);
    Taking(w, i);
    var p, rest := w.flight[i].dst, Taken(w, i).flight;
    var v := Put(Taken(w, i), CatchUp(Start(w, p)));
    assert v.flight == rest + [] == rest;
    QuietMove(w.nodes, multiset(w.flight), v.nodes, multiset(rest), p);
    Rebase(w, rest, v, p, []);
  }

  // What a command of the handshake says about its sender and receiver.
  lemma PacketFacts(w: World, i: nat)
    requires Base(w) && i < |w.flight|
    ensures var k := w.flight[i]; var bag := multiset(w.flight);
      && k in bag && Proper(w.nodes, bag, k) && w.nodes[k.dst].o.id == k.dst && w.nodes[k.dst].o.termAcks >= 0
      && (k.cmd.Own? ==> k == Packet(k.dst, k.dst, Own(k.cmd.child)))
      && (k.cmd.Term? ==> w.nodes[k.dst].o.owner == Some(k.src) && !w.nodes[k.dst].o.terminating)
      && (k.cmd.TermAck? ==> k == Packet(k.src, k.dst, TermAck))
      && w.nodes[k.dst].o.termAcks == |Owing(w.nodes, bag, k.dst)| + w.nodes[k.dst].events
  {
    var k, bag := w.flight[i], multiset(w.flight);
    assert k in bag;
    assert Proper(w.nodes, bag, k);
    if k.cmd.Term? { assert OneStage(w.nodes, bag, k.dst, k.src); }
  }

  lemma OwnPre(w: World, i: nat)
    requires Base(w) && i < |w.flight| && w.flight[i].cmd.Own?
    requires w.flight[i].dst in w.nodes && w.nodes[w.flight[i].dst].o.alive
    ensures Base(Put(Taken(w, i), CatchUp(ProcessOwn(Start(w, w.flight[i].dst), w.flight[i].cmd.child))))
  {
    hide Base, Stages, Owing, CountedFor, AcksLast, Proper, IsChild, SamePost, Takes, Tells;
    BaseFacts(w);
    PacketFacts(w, i);
    Taking(w, i);
    OwnChanges(w, i);
    var p, c, rest := w.flight[i].dst, w.flight[i].cmd.child, Taken(w, i).flight;
    var v := Put(Taken(w, i), CatchUp(ProcessOwn(Start(w, p), c)));
    if w.nodes[p].o.terminating {
      TellsMove(w.nodes, multiset(w.flight), v.nodes, multiset(v.flight), p, c);
      ConcatUncounted(rest, [Packet(p, c, Term)]);
      Rebase(w, rest, v, p, [Packet(p, c, Term)]);
    } else {
      TakesMove(w.nodes, multiset(w.flight), v.nodes, multiset(rest), p, c);
      Rebase(w, rest, v, p, []);
    }
  }

  lemma OwnChanges(w: World, i: nat)
    requires Base(w) && i < |w.flight| && w.flight[i].cmd.Own?
    requires var p := w.flight[i].dst; p in w.nodes && w.nodes[p].o.id == p && w.nodes[p].o.alive
    ensures var p, c, rest := w.flight[i].dst, w.flight[i].cmd.child, Taken(w, i).flight;
      var v := Put(Taken(w, i), CatchUp(ProcessOwn(Start(w, p), c)));
      if w.nodes[p].o.terminating
      then v.flight == rest + [Packet(p, c, Term)] && Tells(w.nodes, multiset(w.flight), v.nodes, multiset(v.flight), p, c)
      else v.flight == rest == rest + [] && Takes(w.nodes, multiset(w.flight), v.nodes, multiset(rest), p, c)
  {
    hide Base, Stages, Owing, CountedFor, AcksLast, Proper, IsChild, SamePost;
    BaseFacts(w);
    PacketFacts(w, i);
    Taking(w, i);
    var p, c, rest := w.flight[i].dst, w.flight[i].cmd.child, Taken(w, i).flight;
    var v := Put(Taken(w, i), CatchUp(ProcessOwn(Start(w, p), c)));
    if w.nodes[p].o.terminating {
      assert v.flight == rest + [Packet(p, c, Term)];
      assert multiset(v.flight) == multiset(w.flight) + multiset{Packet(p, c, Term)} - multiset{Packet(p, p, Own(c))};
    } else {
      assert v.flight == rest + [] == rest;
    }
  }

  lemma {:induction false} ConcatUncounted(rest: seq<Packet>, terms: seq<Packet>)
    requires forall k | k in terms :: !k.cmd.Plug? && !k.cmd.Own? && !k.cmd.Counted?
    ensures forall q :: CountedFor(rest + terms, q) == CountedFor(rest, q)
  {
    if terms != [] {
      var n := |terms| - 1;
      ConcatUncounted(rest, terms[..n]);
      assert (rest + terms)[..|rest| + n] == rest + terms[..n];
      assert terms[n] in terms;
    } else {
      assert rest + terms == rest;
    }
  }

  // The flight after process_term has sent its commands.
  lemma StartFlight(w0: World, p: Id)
    requires p in w0.nodes && w0.nodes[p].o.id == p
    ensures var owned := w0.nodes[p].o.owned; var terms := Terms(p, owned);
      && Put(w0, StartTerm(Start(w0, p))).flight == w0.flight + terms
      && multiset(w0.flight + terms) == multiset(w0.flight) + multiset(terms)
      && TermsTo(multiset(terms), p, owned) && (forall k | k in terms :: k.cmd == Term)
      && forall q :: CountedFor(w0.flight + terms, q) == CountedFor(w0.flight, q)
  {
    var terms := Terms(p, w0.nodes[p].o.owned);
    TermsBag(p, w0.nodes[p].o.owned);
    ConcatUncounted(w0.flight, terms);
    assert [] + terms == terms;
  }

  lemma TermPre(w: World, i: nat)
    requires Base(w) && i < |w.flight| && w.flight[i].cmd.Term?
    requires w.flight[i].dst in w.nodes && w.nodes[w.flight[i].dst].o.alive
    ensures Base(Put(Taken(w, i), StartTerm(Start(w, w.flight[i].dst))))
  {
    hide Base, Stages, Owing, CountedFor, AcksLast, Proper, IsChild, OneStage, TermsTo, Terms, SamePost;
    BaseFacts(w);
    PacketFacts(w, i);
    Taking(w, i);
    var p, rest := w.flight[i].dst, Taken(w, i).flight;
    StartFlight(Taken(w, i), p);
    var v := Put(Taken(w, i), StartTerm(Start(w, p)));
    var terms := Terms(p, w.nodes[p].o.owned);
    StartsMove(w.nodes, multiset(w.flight), v.nodes, multiset(v.flight), p, multiset(terms));
    Rebase(w, rest, v, p, terms);
  }

  // The root is told by nobody.
  lemma RootPre(w: World, p: Id)
    requires Base(w) && Alive(w, p) && !w.nodes[p].o.terminating && w.nodes[p].o.owner.None?
    ensures Base(Put(w, StartTerm(Start(w, p))))
  {
    hide Base, Stages, Owing, CountedFor, AcksLast, Proper, IsChild, OneStage, TermsTo, Terms;
    BaseFacts(w);
    StartFlight(w, p);
    var v := Put(w, StartTerm(Start(w, p)));
    var terms := Terms(p, w.nodes[p].o.owned);
    StartsMove(w.nodes, multiset(w.flight), v.nodes, multiset(v.flight), p, multiset(terms));
    Rebase(w, w.flight, v, p, terms);
  }

  lemma AckPre(w: World, i: nat)
    requires Base(w) && i < |w.flight| && Deliverable(w.flight, i) && w.flight[i].cmd.TermAck?
    requires w.flight[i].dst in w.nodes
    ensures w.nodes[w.flight[i].dst].o.termAcks > 0
    ensures Base(Put(Taken(w, i), DropTermAck(Start(w, w.flight[i].dst))))
  {
    hide Base, Stages, Owing, CountedFor, AcksLast, Proper, IsChild, OneStage, SamePost, Deliverable;
    BaseFacts(w);
    PacketFacts(w, i);
    NoRequestsLeft(w, i);
    Taking(w, i);
    var p, rest := w.flight[i].dst, Taken(w, i).flight;
    var v := Put(Taken(w, i), DropTermAck(Start(w, p)));
    assert v.flight == rest + [] == rest;
    HearsMove(w.nodes, multiset(w.flight), v.nodes, multiset(rest), p, w.flight[i].src);
    Rebase(w, rest, v, p, []);
  }

  // What an object asked for before it acknowledged arrives before.
  lemma NoRequestsLeft(w: World, i: nat)
    requires Base(w) && Deliverable(w.flight, i) && w.flight[i].cmd.TermAck?
    ensures forall k | k in multiset(w.flight) && k.cmd.TermReq? :: k.src != w.flight[i].src
  {
    var a, bag := w.flight[i], multiset(w.flight);
    assert a in bag;
    assert Proper(w.nodes, bag, a);
    forall k | k in bag && k.cmd.TermReq? ensures k.src != a.src {
      assert Proper(w.nodes, bag, k);
      var j :| 0 <= j < |w.flight| && w.flight[j] == k;
    }
  }

  // A child still owned is not on its way to the set.
  lemma OwnedOnce(w: World, p: Id, c: Id)
    requires Base(w) && p in w.nodes && c in w.nodes[p].o.owned
    ensures Packet(p, p, Own(c)) !in multiset(w.flight)
  {
    assert IsChild(w.nodes, c, p) && OneStage(w.nodes, multiset(w.flight), c, p);
  }

  // A request for c, as a command or as a call: c is told if still owned.
  lemma ReqPre(w: World, p: Id, c: Id)
    requires Base(w) && Alive(w, p)
    ensures Base(Put(w, ProcessTermReq(Start(w, p), c)))
  {
    hide Base, Stages, Owing, CountedFor, AcksLast, Proper, IsChild, OneStage,
         AcksCounted, Sequenced;
    BaseFacts(w);
    var v := Put(w, ProcessTermReq(Start(w, p), c));
    if w.nodes[p].o.terminating || c !in w.nodes[p].o.owned {
      assert v.nodes == w.nodes && v.flight == w.flight;
    } else {
      OwnedOnce(w, p, c);
      var terms := [Packet(p, c, Term)];
      assert v.flight == w.flight + terms;
      TellsMove(w.nodes, multiset(w.flight), v.nodes, multiset(v.flight), p, c);
      ConcatUncounted(w.flight, terms);
      Rebase(w, w.flight, v, p, terms);
    }
  }

  // No assertion fails, no command goes astray, and the invariant is kept.
  ghost predicate Kept(w: World, step: Step)
    requires Enabled(w, step) && Keyed(w.nodes)
  {
    Act(w, step).Some? && Inv(Act(w, step).value)
  }

  // Delivering a command that ends with check_term_acks: l is what was done before.
  lemma CheckedDelivery(w: World, i: nat, l: Local)
    requires Enabled(w, Deliver(i)) && Keyed(w.nodes) && i < |w.flight| && Alive(w, w.flight[i].dst)
    requires l.o.id == w.flight[i].dst && l.o.alive
    requires ProcessCommand(Start(w, w.flight[i].dst), w.flight[i].cmd) == CheckTermAcks(l)
    requires Base(Put(Taken(w, i), l)) && Inv(w)
    ensures Kept(w, Deliver(i))
  {
    hide Base, CheckTermAcks, ProcessCommand, Stages, AcksCounted, Sequenced, Finished;
    var w0 := Taken(w, i);
    assert OthersSettled(w0.nodes, l.o.id);
    CheckStep(w0, l);
  }

  // Delivering a command to any object, whatever its state.
  lemma DeliverStep(w: World, i: nat)
    requires Enabled(w, Deliver(i)) && Keyed(w.nodes) && Inv(w)
    ensures Kept(w, Deliver(i))
  {
    DestinationAlive(w, i);
    PacketFacts(w, i);
    hide Base, Deliverable, CheckTermAcks, Act, Put;
    var k := w.flight[i];
    var l := Start(w, k.dst);
    match k.cmd
    case Plug => CountedPre(w, i); CheckedDelivery(w, i, CatchUp(l));
    case Counted => CountedPre(w, i); CheckedDelivery(w, i, CatchUp(l));
    case Own(c) => OwnPre(w, i); CheckedDelivery(w, i, CatchUp(ProcessOwn(l, c)));
    case Term => TermPre(w, i); CheckedDelivery(w, i, StartTerm(l));
    case TermAck => AckPre(w, i); CheckedDelivery(w, i, DropTermAck(l));
    case TermReq(c) => RequestStep(w, i);
  }

  lemma RequestStep(w: World, i: nat)
    requires Enabled(w, Deliver(i)) && Keyed(w.nodes)
    requires Inv(w) && w.flight[i].cmd.TermReq? && Alive(w, w.flight[i].dst)
    ensures Kept(w, Deliver(i))
  {
    hide Base, ProcessTermReq, Proper, Owing;
    PacketFacts(w, i);
    var k, w0 := w.flight[i], Taken(w, i);
    RequestGone(w, i);
    ReqPre(w0, k.dst, k.cmd.child);
    RequestSettles(w0, k.dst, k.cmd.child);
  }

  lemma RequestGone(w: World, i: nat)
    requires Base(w) && i < |w.flight| && w.flight[i].cmd.TermReq? && w.flight[i].dst in w.nodes
    ensures Base(Taken(w, i))
  {
    hide Base, Stages, Owing, CountedFor, AcksLast, Proper, IsChild, OneStage, SamePost;
    BaseFacts(w);
    Taking(w, i);
    var v := Taken(w, i);
    assert v.flight == v.flight + [];
    QuietMove(w.nodes, multiset(w.flight), v.nodes, multiset(v.flight), w.flight[i].dst);
    Rebase(w, v.flight, v, w.flight[i].dst, []);
  }

  // Processing a request changes nothing check_term_acks looks at, except that
  // there is more to wait for.
  lemma RequestSettles(w: World, p: Id, c: Id)
    requires Alive(w, p) && w.nodes[p].o.id == p && forall q | q in w.nodes :: SettledAt(w.nodes, q)
    requires w.nodes[p].o.termAcks >= 0
    ensures var v := Put(w, ProcessTermReq(Start(w, p), c)); forall q | q in v.nodes :: SettledAt(v.nodes, q)
  {
    var v := Put(w, ProcessTermReq(Start(w, p), c));
    forall q | q in v.nodes ensures SettledAt(v.nodes, q) { assert SettledAt(w.nodes, q); }
  }

  // --- New objects ---

  // c is new: a root, or a child its owner p is going to hear of.
  predicate Adds(nodes: map<Id, Node>, bag: Bag, nodes': map<Id, Node>, bag': Bag, c: Id, owner: Option<Id>) {
    && c !in nodes && c in nodes' && nodes' == nodes[c := nodes'[c]]
    && nodes'[c].o == NewObj(c, owner, nodes'[c].o.sentSeqnum) && nodes'[c].events == 0
    && match owner
       case None => bag' == bag
       case Some(p) => p in nodes && p < c && bag' == bag + multiset{Packet(p, c, Plug), Packet(p, p, Own(c))}
  }

  // Nothing has been said to or about an object not yet there.
  lemma NoTrace(nodes: map<Id, Node>, bag: Bag, c: Id, k: Packet)
    requires Stages(nodes, bag) && c !in nodes && k in bag
    ensures k.dst != c && k.cmd != Own(c) && (k.cmd.TermAck? || k.cmd.TermReq? ==> k.src != c)
  {
    assert Proper(nodes, bag, k);
  }

  lemma AddsAt(nodes: map<Id, Node>, bag: Bag, nodes': map<Id, Node>, bag': Bag, c: Id, owner: Option<Id>, q: Id, d: Id)
    requires Adds(nodes, bag, nodes', bag', c, owner) && Tree(nodes)
    requires IsChild(nodes', d, q) && (d != c ==> q in nodes && OneStage(nodes, bag, d, q))
    requires d == c ==> forall k | k in [Packet(q, q, Own(c)), Packet(q, c, Term), Packet(c, q, TermAck)] :: k !in bag
    requires d == c ==> q in nodes && c !in nodes[q].o.owned
    ensures q in nodes' && OneStage(nodes', bag', d, q)
    ensures Owes(nodes', bag', d, q) <==> d != c && Owes(nodes, bag, d, q)
  {
    if d == c {
      var ks := [Packet(q, q, Own(c)), Packet(q, c, Term), Packet(c, q, TermAck)];
      assert ks[0] in ks && ks[1] in ks && ks[2] in ks;
    }
  }

  lemma AddsMove(nodes: map<Id, Node>, bag: Bag, nodes': map<Id, Node>, bag': Bag, c: Id, owner: Option<Id>)
    requires Stages(nodes, bag) && Adds(nodes, bag, nodes', bag', c, owner)
    ensures Stages(nodes', bag')
    ensures forall q | q in nodes' :: Owing(nodes', bag', q) == if q == c then {} else Owing(nodes, bag, q)
  {
    hide Proper;
    forall k | k in bag ensures k.dst != c && k.cmd != Own(c) && (k.cmd.TermAck? || k.cmd.TermReq? ==> k.src != c) {
      NoTrace(nodes, bag, c, k);
    }
    forall q, d | IsChild(nodes', d, q)
      ensures q in nodes' && OneStage(nodes', bag', d, q)
      ensures Owes(nodes', bag', d, q) <==> d != c && Owes(nodes, bag, d, q)
    {
      if d != c {
        assert IsChild(nodes, d, q) && OneStage(nodes, bag, d, q);
      }
      AddsAt(nodes, bag, nodes', bag', c, owner, q, d);
    }
    AddsTree(nodes, bag, nodes', bag', c, owner);
    forall q | q in nodes' ensures Owing(nodes', bag', q) == if q == c then {} else Owing(nodes, bag, q) {
      forall d ensures d in Owing(nodes', bag', q) <==> d in nodes && Owes(nodes, bag, d, q) {
        assert IsChild(nodes', d, q) || !Owes(nodes', bag', d, q);
        assert d != c && IsChild(nodes, d, q) <==> d != c && IsChild(nodes', d, q);
      }
      assert forall d :: IsChild(nodes, d, q) ==> q in nodes;
    }
  }

  lemma AddsTree(nodes: map<Id, Node>, bag: Bag, nodes': map<Id, Node>, bag': Bag, c: Id, owner: Option<Id>)
    requires Stages(nodes, bag) && Adds(nodes, bag, nodes', bag', c, owner)
    ensures Tree(nodes')
    ensures forall k | k in bag' :: Proper(nodes', bag', k)
  {
    forall k | k in bag' ensures Proper(nodes', bag', k) {
      if k in bag { assert Proper(nodes, bag, k); }
    }
    forall p, d | p in nodes' && d in nodes'[p].o.owned ensures IsChild(nodes', d, p) {
      assert p in nodes && IsChild(nodes, d, p);
    }
    forall p, d | IsChild(nodes', d, p) ensures p in nodes' && p < d {
      if d != c { assert IsChild(nodes, d, p); }
    }
  }

  lemma {:induction false} CountedForNew(nodes: map<Id, Node>, bag: Bag, flight: seq<Packet>, c: Id)
    requires Stages(nodes, bag) && c !in nodes && multiset(flight) <= bag
    ensures CountedFor(flight, c) == 0
  {
    if flight != [] {
      var n := |flight| - 1;
      assert flight == flight[..n] + [flight[n]];
      assert flight[n] in multiset(flight);
      NoTrace(nodes, bag, c, flight[n]);
      CountedForNew(nodes, bag, flight[..n], c);
    }
  }

  lemma NewRootStep(w: World, id: Id)
    requires Inv(w) && Keyed(w.nodes) && Enabled(w, NewRoot(id))
    ensures Kept(w, NewRoot(id))
  {
    hide Stages, Owing, CountedFor, AcksLast;
    var v := Act(w, NewRoot(id)).value;
    var bag := multiset(w.flight);
    AddsMove(w.nodes, bag, v.nodes, bag, id, None);
    CountedForNew(w.nodes, bag, w.flight, id);
    forall q | q in v.nodes ensures SettledAt(v.nodes, q) { assert q != id ==> SettledAt(w.nodes, q); }
  }

  lemma LaunchFlight(w: World, p: Id, c: Id)
    ensures var more := [Packet(p, c, Plug), Packet(p, p, Own(c))];
      && multiset(w.flight + more) == multiset(w.flight) + multiset{Packet(p, c, Plug), Packet(p, p, Own(c))}
      && (forall q :: CountedFor(w.flight + more, q) == CountedFor(w.flight, q) + One(q == c) + One(q == p))
      && (AcksLast(w.flight) ==> AcksLast(w.flight + more))
  {
    var a, b := Packet(p, c, Plug), Packet(p, p, Own(c));
    forall q ensures CountedFor(w.flight + [a, b], q) == CountedFor(w.flight, q) + One(q == c) + One(q == p) {
      assert w.flight + [a, b] == w.flight + [a] + [b];
      CountedForConcat(w.flight, [a], q);
      CountedForConcat(w.flight + [a], [b], q);
      CountedForOne(a, q);
      CountedForOne(b, q);
    }
    if AcksLast(w.flight) { AcksLastAppend(w.flight, [a, b]); }
  }

  lemma LaunchStages(w: World, p: Id, c: Id)
    requires Base(w) && Keyed(w.nodes) && Enabled(w, Launch(p, c))
    ensures var v := Act(w, Launch(p, c)).value;
      && v.flight == w.flight + [Packet(p, c, Plug), Packet(p, p, Own(c))]
      && Stages(v.nodes, multiset(v.flight))
      && forall q | q in v.nodes ::
           Owing(v.nodes, multiset(v.flight), q) == if q == c then {} else Owing(w.nodes, multiset(w.flight), q)
  {
    hide Base, Stages, Owing, CountedFor, AcksLast, Proper;
    var v := Act(w, Launch(p, c)).value;
    BaseFacts(w);
    LaunchFlight(w, p, c);
    var bag' := multiset(v.flight);
    var added := w.nodes[c := Node(NewObj(c, Some(p), 1), 0, 0)];
    AddsMove(w.nodes, multiset(w.flight), added, bag', c, Some(p));
    QuietMove(added, bag', v.nodes, bag', p);
  }

  lemma LaunchStep(w: World, p: Id, c: Id)
    requires Inv(w) && Keyed(w.nodes) && Enabled(w, Launch(p, c))
    ensures Kept(w, Launch(p, c))
  {
    hide Stages, Owing, CountedFor, AcksLast;
    var v := Act(w, Launch(p, c)).value;
    LaunchStages(w, p, c);
    LaunchFlight(w, p, c);
    CountedForNew(w.nodes, multiset(w.flight), w.flight, c);
    forall q | q in v.nodes ensures SettledAt(v.nodes, q) { assert q != c ==> SettledAt(w.nodes, q); }
  }

  // --- Calls ---

  // A change of counters at p that the sums agree with.
  lemma Recount(w: World, v: World, p: Id, sent: seq<Packet>)
    requires Base(w) && Keyed(w.nodes) && Changes(w.nodes, v.nodes, p) && SameStage(w.nodes[p].o, v.nodes[p].o)
    requires v.flight == w.flight + sent && |sent| <= 1
    requires forall k | k in sent :: !InHandshake(k.cmd) && Proper(w.nodes, multiset(w.flight), k)
    requires forall k | k in sent :: k.cmd.TermReq? ==> k.src !in Gone(w.flight)
    requires Unheard(v.nodes[p]) == Unheard(w.nodes[p])
    requires Behind(v.nodes[p]) == Behind(w.nodes[p]) + CountedFor(sent, p)
    requires forall q | q != p :: CountedFor(sent, q) == 0
    ensures Base(v)
  {
    hide Base, Stages, Owing, CountedFor, AcksLast, Proper, IsChild, Gone;
    BaseFacts(w);
    forall q ensures CountedFor(w.flight + sent, q) == CountedFor(w.flight, q) + CountedFor(sent, q) {
      CountedForConcat(w.flight, sent, q);
    }
    assert multiset(v.flight) == multiset(w.flight) + multiset(sent);
    assert forall k | k in multiset(sent) :: k in sent;
    QuietMove(w.nodes, multiset(w.flight), v.nodes, multiset(v.flight), p);
    Rebase(w, w.flight, v, p, sent);
  }

  // Sums that are never negative.
  lemma CountersMakeSense(w: World, p: Id)
    requires Base(w) && p in w.nodes
    ensures w.nodes[p].o.termAcks >= w.nodes[p].events && w.nodes[p].o.id == p
    ensures w.nodes[p].o.sentSeqnum >= w.nodes[p].o.processedSeqnum + w.nodes[p].promised
    ensures w.nodes[p].o.alive && w.nodes[p].o.owner.Some? ==>
      IsChild(w.nodes, p, w.nodes[p].o.owner.value) && w.nodes[p].o.owner.value in w.nodes && p !in Gone(w.flight)
  {
    if w.nodes[p].o.alive && w.nodes[p].o.owner.Some? {
      var q := w.nodes[p].o.owner.value;
      assert IsChild(w.nodes, p, q) && OneStage(w.nodes, multiset(w.flight), p, q);
      forall k | k in w.flight && k.cmd.TermAck? ensures k.src != p {
        assert k in multiset(w.flight) && Proper(w.nodes, multiset(w.flight), k);
      }
    }
  }

  lemma TermChildStep(w: World, p: Id, c: Id)
    requires Enabled(w, TermChild(p, c)) && Keyed(w.nodes) && Inv(w)
    ensures Kept(w, TermChild(p, c))
  {
    hide Base, ProcessTermReq;
    CountersMakeSense(w, p);
    ReqPre(w, p, c);
    RequestSettles(w, p, c);
  }

  lemma CallTerminateStep(w: World, p: Id)
    requires Enabled(w, CallTerminate(p)) && Keyed(w.nodes) && Inv(w)
    ensures Kept(w, CallTerminate(p))
  {
    hide Base, CheckTermAcks, StartTerm, Proper, CountedFor, Gone;
    CountersMakeSense(w, p);
    var l := Start(w, p);
    if l.o.terminating {
      assert Put(w, l).nodes == w.nodes && Put(w, l).flight == w.flight;
    } else if l.o.owner.None? {
      RootPre(w, p);
      assert StartTerm(l).o.id == p && StartTerm(l).o.alive by { StartKeeps(l); }
      CheckStep(w, StartTerm(l));
    } else {
      AskStep(w, p);
    }
  }

  lemma StartKeeps(l: Local)
    ensures StartTerm(l).o.id == l.o.id && StartTerm(l).o.alive == l.o.alive
  {
  }

  lemma AskStep(w: World, p: Id)
    requires Enabled(w, CallTerminate(p)) && Keyed(w.nodes) && Inv(w)
    requires w.nodes[p].o.owner.Some? && !w.nodes[p].o.terminating
    ensures Kept(w, CallTerminate(p))
  {
    hide Base, CountedFor, Gone;
    CountersMakeSense(w, p);
    var k := Packet(p, w.nodes[p].o.owner.value, TermReq(p));
    var v := Act(w, CallTerminate(p)).value;
    assert v.flight == w.flight + [k];
    forall q ensures CountedFor([k], q) == 0 { CountedForOne(k, q); }
    Recount(w, v, p, [k]);
    assert v.nodes == w.nodes;
  }

  lemma CountingStep(w: World, step: Step)
    requires step.Promise? || step.SendCounted? || step.Expect?
    requires Enabled(w, step) && Keyed(w.nodes) && Inv(w)
    ensures Kept(w, step)
  {
    hide Base, CountedFor, Gone;
    CountersMakeSense(w, step.id);
    var v := Act(w, step).value;
    var sent := if step.SendCounted? then [Packet(step.src, step.id, Counted)] else [];
    assert v.flight == w.flight + sent;
    forall q ensures CountedFor(sent, q) == if step.SendCounted? && q == step.id then 1 else 0 {
      if sent != [] { CountedForOne(sent[0], q); } else { NoneCounted(q); }
    }
    Recount(w, v, step.id, sent);
    forall q | q in v.nodes ensures SettledAt(v.nodes, q) { assert SettledAt(w.nodes, q); }
  }

  lemma NoneCounted(q: Id)
    ensures CountedFor([], q) == 0
  {
  }

  // An event registered for has arrived.
  lemma ArriveStep(w: World, p: Id)
    requires Enabled(w, Arrive(p)) && Keyed(w.nodes) && Inv(w)
    ensures Kept(w, Arrive(p))
  {
    hide Base, CountedFor, Gone, CheckTermAcks;
    CountersMakeSense(w, p);
    assert SettledAt(w.nodes, p);
    var w0 := SetNode(w, w.nodes[p].(events := w.nodes[p].events - 1));
    var l := DropTermAck(Start(w, p));
    var v := Put(w0, l);
    assert v.flight == w.flight + [];
    forall q ensures CountedFor([], q) == 0 { NoneCounted(q); }
    Recount(w, v, p, []);
    forall q | q in w0.nodes && q != p ensures SettledAt(w0.nodes, q) { assert SettledAt(w.nodes, q); }
    CheckStep(w0, l);
  }

  lemma StepKeepsInv(w: World, step: Step)
    requires Enabled(w, step) && Keyed(w.nodes) && Inv(w)
    ensures Kept(w, step)
  {
    hide Inv, Kept;
    match step
    case NewRoot(id) => NewRootStep(w, id);
    case Launch(p, c) => LaunchStep(w, p, c);
    case TermChild(p, c) => TermChildStep(w, p, c);
    case CallTerminate(p) => CallTerminateStep(w, p);
    case Promise(_) => CountingStep(w, step);
    case SendCounted(_, _) => CountingStep(w, step);
    case Expect(_) => CountingStep(w, step);
    case Arrive(p) => ArriveStep(w, p);
    case Deliver(i) => DeliverStep(w, i);
  }

  // --- Runs ---

  const Nothing := World(map[], [])

  // Steps that are not enabled change nothing; None is a failed assertion or a
  // command to an object that is gone.
  ghost function Run(w: World, steps: seq<Step>): Option<World>
    decreases |steps|
  {
    if steps == [] then Some(w)
    else if !Keyed(w.nodes) then None
    else if !Enabled(w, steps[0]) then Run(w, steps[1..])
    else match Act(w, steps[0]) case None => None case Some(v) => Run(v, steps[1..])
  }

  lemma {:induction false} RunKeepsInv(w: World, steps: seq<Step>)
    requires Inv(w)
    ensures Run(w, steps).Some? && Inv(Run(w, steps).value)
    decreases |steps|
  {
    if steps != [] {
      assert Keyed(w.nodes);
      hide Inv, Act;
      if Enabled(w, steps[0]) {
        StepKeepsInv(w, steps[0]);
        RunKeepsInv(Act(w, steps[0]).value, steps[1..]);
      } else {
        RunKeepsInv(w, steps[1..]);
      }
    }
  }

  // --- What holds in every state of every run ---

  // An object is told to terminate at most once, by its owner only.
  lemma TermAtMostOnce(w: World, c: Id, src: Id)
    requires Inv(w) && c in w.nodes
    ensures multiset(w.flight)[Packet(src, c, Term)] + One(w.nodes[c].o.terminating && w.nodes[c].o.owner == Some(src)) <= 1
    ensures Packet(src, c, Term) in multiset(w.flight) ==> w.nodes[c].o.owner == Some(src) && !w.nodes[c].o.terminating
  {
    var k, bag := Packet(src, c, Term), multiset(w.flight);
    if k in bag { assert Proper(w.nodes, bag, k); }
    if IsChild(w.nodes, c, src) { assert OneStage(w.nodes, bag, c, src); }
  }

  // term_acks: one for each child told to terminate and not yet heard of, and
  // one for each event awaited.
  lemma TermAcksExactly(w: World, p: Id)
    requires Inv(w) && p in w.nodes
    ensures var bag := multiset(w.flight);
      w.nodes[p].o.termAcks == w.nodes[p].events + |set c | c in w.nodes && IsChild(w.nodes, c, p)
        && (Packet(p, c, Term) in bag
            || (w.nodes[c].o.terminating && (w.nodes[c].o.alive || Packet(c, p, TermAck) in bag)))|
  {
    var bag := multiset(w.flight);
    assert Owing(w.nodes, bag, p) == set c | c in w.nodes && IsChild(w.nodes, c, p)
        && (Packet(p, c, Term) in bag
            || (w.nodes[c].o.terminating && (w.nodes[c].o.alive || Packet(c, p, TermAck) in bag)));
  }

  predicate Descends(nodes: map<Id, Node>, c: Id, p: Id)
    decreases c
  {
    c in nodes && nodes[c].o.owner.Some? &&
    var q := nodes[c].o.owner.value;
    q < c && (q == p || Descends(nodes, q, p))
  }

  // Gone means: all descendants gone before, every counted command processed or
  // promised to it among them, and nothing more on its way to it.
  lemma {:induction false} GoneLast(w: World, p: Id, c: Id)
    requires Inv(w) && p in w.nodes && !w.nodes[p].o.alive
    ensures Descends(w.nodes, c, p) ==> !w.nodes[c].o.alive
    ensures w.nodes[p].o.processedSeqnum == w.nodes[p].o.sentSeqnum && w.nodes[p].promised == 0
    ensures forall k | k in w.flight :: k.dst != p
    decreases c
  {
    assert SettledAt(w.nodes, p);
    if Descends(w.nodes, c, p) {
      var q := w.nodes[c].o.owner.value;
      if q != p { GoneLast(w, p, q); }
      GoneAfterChildren(w, q, c);
    }
    CountersMakeSense(w, p);
    forall k | k in w.flight ensures k.dst != p {
      var i :| 0 <= i < |w.flight| && w.flight[i] == k;
      DestinationAlive(w, i);
    }
  }

  // Nothing promised, nothing awaited.
  predicate Idle(n: Node) { n.promised == 0 && n.events == 0 }

  ghost function Bound(ids: set<Id>): (b: nat)
    ensures forall id | id in ids :: id < b
  {
    if ids == {} then 0
    else
      var id :| id in ids;
      var b := Bound(ids - {id});
      assert forall x | x in ids :: x == id || x in ids - {id};
      if id < b then b else id + 1
  }

  lemma ChildTold(w: World, p: Id, c: Id)
    requires Inv(w) && w.flight == [] && IsChild(w.nodes, c, p) && w.nodes[p].o.terminating
    ensures w.nodes[c].o.terminating
  {
    assert OneStage(w.nodes, multiset(w.flight), c, p);
  }

  lemma {:induction false} AllTold(w: World, r: Id, c: Id)
    requires Inv(w) && w.flight == [] && r in w.nodes && w.nodes[r].o.terminating && Descends(w.nodes, c, r)
    ensures w.nodes[c].o.terminating
    decreases c
  {
    var q := w.nodes[c].o.owner.value;
    if q != r { AllTold(w, r, q); }
    ChildTold(w, q, c);
  }

  // With nothing in flight, what is told to terminate is gone, from the leaves up.
  lemma {:induction false} ToldIsGone(w: World, x: Id, bound: nat)
    requires Inv(w) && w.flight == [] && x in w.nodes && w.nodes[x].o.terminating
    requires forall id | id in w.nodes :: id < bound
    requires Idle(w.nodes[x]) && forall d | Descends(w.nodes, d, x) :: Idle(w.nodes[d])
    ensures !w.nodes[x].o.alive
    decreases bound - x
  {
    var bag := multiset(w.flight);
    forall d | d in w.nodes ensures !Owes(w.nodes, bag, d, x) {
      if IsChild(w.nodes, d, x) {
        ChildTold(w, x, d);
        forall e | Descends(w.nodes, e, d) ensures Descends(w.nodes, e, x) { DescendsUp(w.nodes, e, d, x); }
        ToldIsGone(w, d, bound);
      }
    }
    assert Owing(w.nodes, bag, x) == {};
    assert SettledAt(w.nodes, x);
  }

  lemma {:induction false} DescendsUp(nodes: map<Id, Node>, e: Id, d: Id, x: Id)
    requires Descends(nodes, e, d) && IsChild(nodes, d, x) && x < d
    ensures Descends(nodes, e, x)
    decreases e
  {
    var q := nodes[e].o.owner.value;
    if q != d { DescendsUp(nodes, q, d, x); }
  }

  // Once an object has started to terminate, a state with nothing in flight,
  // promised or awaited below it has nothing left of its tree.
  lemma ShutdownCompletes(w: World, r: Id, c: Id)
    requires Inv(w) && w.flight == [] && r in w.nodes && w.nodes[r].o.terminating
    requires Idle(w.nodes[r]) && forall d | Descends(w.nodes, d, r) :: Idle(w.nodes[d])
    ensures !w.nodes[r].o.alive
    ensures Descends(w.nodes, c, r) ==> !w.nodes[c].o.alive
  {
    hide Inv;
    ToldIsGone(w, r, Bound(w.nodes.Keys));
    if Descends(w.nodes, c, r) {
      GoneLast(w, r, c);
    }
  }

  // --- From the call to the end of the tree ---

  lemma TermsReach(p: Id, owned: set<Id>, c: Id)
    requires c in owned
    ensures Packet(p, c, Term) in Terms(p, owned)
  {
    TermsBag(p, owned);
    assert Packet(p, c, Term) in multiset(Terms(p, owned));
  }

  lemma CheckKeeps(l: Local)
    ensures CheckTermAcks(l).Done? ==>
      var l' := CheckTermAcks(l).l; l'.o.terminating == l.o.terminating && l'.o.id == l.o.id && l.sent <= l'.sent
  {
  }

  // Terminating an object without owner starts its shutdown: it tells each child it
  // owns.  One with an owner asks the owner, and one under way does nothing.
  lemma TerminateStarts(w: World, p: Id)
    requires Inv(w) && Keyed(w.nodes) && Enabled(w, CallTerminate(p))
    ensures var r := Act(w, CallTerminate(p)); var o := w.nodes[p].o;
      && r.Some? && p in r.value.nodes
      && (o.terminating ==> r.value == w)
      && (!o.terminating && o.owner.None? ==>
            r.value.nodes[p].o.terminating && forall c | c in o.owned :: Packet(p, c, Term) in r.value.flight)
      && (!o.terminating && o.owner.Some? ==>
            r.value == w.(flight := w.flight + [Packet(p, o.owner.value, TermReq(p))]))
  {
    hide Inv, CheckTermAcks, Terms;
    CallTerminateStep(w, p);
    var l, o := Start(w, p), w.nodes[p].o;
    var v := Act(w, CallTerminate(p)).value;
    assert o.id == p && w.nodes[p].(o := o) == w.nodes[p];
    assert w.nodes[p := w.nodes[p]] == w.nodes;
    if o.terminating {
      assert v.nodes == w.nodes && v.flight == w.flight;
    } else if o.owner.None? {
      CheckKeeps(StartTerm(l));
      assert [] + Terms(p, o.owned) == Terms(p, o.owned);
      forall c | c in o.owned ensures Packet(p, c, Term) in v.flight { TermsReach(p, o.owned, c); }
    } else {
      assert v.nodes == w.nodes && v.flight == w.flight + [Packet(p, o.owner.value, TermReq(p))];
    }
  }

  // term_child tells a child that is owned, and does nothing otherwise.
  lemma TermChildTells(w: World, p: Id, c: Id)
    requires Keyed(w.nodes) && Enabled(w, TermChild(p, c))
    requires w.nodes[p].o.terminating ==> w.nodes[p].o.owned == {}
    ensures var r := Act(w, TermChild(p, c));
      && r.Some?
      && if c in w.nodes[p].o.owned then r.value.flight == w.flight + [Packet(p, c, Term)] else r.value == w
  {
    assert w.flight + [] == w.flight;
    assert w.nodes[p := w.nodes[p]] == w.nodes;
  }

  predicate Terminating(w: World, id: Id) { id in w.nodes && w.nodes[id].o.terminating }

  lemma CommandKeepsTerminating(l: Local, cmd: Cmd)
    requires l.o.terminating && ProcessCommand(l, cmd).Done?
    ensures ProcessCommand(l, cmd).l.o.terminating && ProcessCommand(l, cmd).l.o.id == l.o.id
  {
  }

  lemma StaysTerminating(w: World, step: Step, id: Id)
    requires Enabled(w, step) && Keyed(w.nodes) && Act(w, step).Some? && Terminating(w, id)
    ensures Terminating(Act(w, step).value, id)
  {
    match step
    case Deliver(i) =>
      hide ProcessCommand;
      var k := w.flight[i];
      if k.dst == id { CommandKeepsTerminating(Start(w, id), k.cmd); } else { CommandKeepsId(Start(w, k.dst), k.cmd); }
    case _ =>
  }

  lemma CommandKeepsId(l: Local, cmd: Cmd)
    requires ProcessCommand(l, cmd).Done?
    ensures ProcessCommand(l, cmd).l.o.id == l.o.id
  {
  }

  lemma {:induction false} RunStaysTerminating(w: World, steps: seq<Step>, id: Id)
    requires Inv(w) && Terminating(w, id)
    ensures Run(w, steps).Some? && Inv(Run(w, steps).value) && Terminating(Run(w, steps).value, id)
    decreases |steps|
  {
    RunKeepsInv(w, steps);
    if steps != [] {
      assert Keyed(w.nodes);
      hide Inv, Act, Terminating;
      if Enabled(w, steps[0]) {
        StepKeepsInv(w, steps[0]);
        StaysTerminating(w, steps[0], id);
        RunStaysTerminating(Act(w, steps[0]).value, steps[1..], id);
      } else {
        RunStaysTerminating(w, steps[1..], id);
      }
    }
  }

  // From the call of terminate on: whatever happens afterwards, a state with nothing
  // in flight, promised or awaited has nothing left of the tree below the root.
  lemma ShutdownFromCall(w: World, r: Id, steps: seq<Step>, c: Id)
    requires Inv(w) && Keyed(w.nodes) && Alive(w, r) && w.nodes[r].o.owner.None?
    ensures var e := Run(w, [CallTerminate(r)] + steps);
      && e.Some? && r in e.value.nodes
      && var v := e.value;
      (v.flight == [] && Idle(v.nodes[r]) && (forall d | Descends(v.nodes, d, r) :: Idle(v.nodes[d]))) ==>
        !v.nodes[r].o.alive && (Descends(v.nodes, c, r) ==> !v.nodes[c].o.alive)
  {
    TerminateStarts(w, r);
    StepKeepsInv(w, CallTerminate(r));
    RunStep(w, CallTerminate(r), steps);
    var u := Act(w, CallTerminate(r)).value;
    hide Inv, Act, Descends;
    assert Terminating(u, r);
    RunStaysTerminating(u, steps, r);
    var v := Run(u, steps).value;
    if v.flight == [] && Idle(v.nodes[r]) && (forall d | Descends(v.nodes, d, r) :: Idle(v.nodes[d])) {
      ShutdownCompletes(v, r, c);
    }
  }

  // Delivering a command takes it off its way and changes nobody but its destination;
  // all that is added was sent by that object.
  lemma DeliverTakes(w: World, i: nat)
    requires Inv(w) && Keyed(w.nodes) && Enabled(w, Deliver(i))
    ensures var r := Act(w, Deliver(i)); var k := w.flight[i];
      && r.Some? && Without(w.flight, i) <= r.value.flight
      && (forall j | |w.flight| - 1 <= j < |r.value.flight| :: r.value.flight[j].src == k.dst)
      && r.value.nodes.Keys == w.nodes.Keys
      && forall id | id in w.nodes && id != k.dst :: r.value.nodes[id] == w.nodes[id]
  {
    hide Inv, ProcessCommand;
    DeliverStep(w, i);
    var k := w.flight[i];
    assert Alive(w, k.dst) && w.nodes[k.dst].o.id == k.dst;
    CommandKeepsId(Start(w, k.dst), k.cmd);
    CommandSends(Start(w, k.dst), k.cmd);
  }

  lemma CommandSends(l: Local, cmd: Cmd)
    requires l.sent == [] && ProcessCommand(l, cmd).Done?
    ensures forall k | k in ProcessCommand(l, cmd).l.sent :: k.src == l.o.id
  {
    TermsSource(l.o.id, l.o.owned);
    hide Terms;
  }

  lemma TermsSource(p: Id, owned: set<Id>)
    ensures forall k | k in Terms(p, owned) :: k.src == p
  {
    TermsBag(p, owned);
    forall k | k in Terms(p, owned) ensures k.src == p {
      assert k in multiset(Terms(p, owned));
    }
  }

  // --- Which requests to be terminated are honoured ---

  // c has been told, or its owner is closing down and tells it sooner or later.
  predicate Doomed(w: World, c: Id, p: Id)
    requires c in w.nodes && p in w.nodes
  {
    Packet(p, c, Term) in w.flight || w.nodes[c].o.terminating || w.nodes[p].o.terminating
  }

  // A child whose own command has reached its owner, and only such a child, is in
  // the owner's set or past it.
  lemma OwnedOrTold(w: World, c: Id, p: Id)
    requires Inv(w) && IsChild(w.nodes, c, p)
    ensures p in w.nodes
    ensures Packet(p, p, Own(c)) in w.flight ==>
      c !in w.nodes[p].o.owned && !w.nodes[c].o.terminating && Packet(p, c, Term) !in w.flight
    ensures Packet(p, p, Own(c)) !in w.flight ==>
      c in w.nodes[p].o.owned || w.nodes[c].o.terminating || Packet(p, c, Term) in w.flight
  {
    assert OneStage(w.nodes, multiset(w.flight), c, p);
    forall k ensures k in w.flight <==> k in multiset(w.flight) {}
  }

  // What is left in flight is what was there but for the request.
  lemma RequestTaken(w: World, i: nat, k: Packet)
    requires i < |w.flight| && w.flight[i].cmd.TermReq? && !k.cmd.TermReq?
    ensures k in Without(w.flight, i) <==> k in w.flight
  {
    WithoutBag(w.flight, i);
    assert k in Without(w.flight, i) <==> k in multiset(Without(w.flight, i));
    assert k in w.flight <==> k in multiset(w.flight);
  }

  lemma RequestFrom(w: World, i: nat)
    requires Inv(w) && i < |w.flight| && w.flight[i].cmd.TermReq?
    ensures var k := w.flight[i]; k.cmd == TermReq(k.src) && IsChild(w.nodes, k.src, k.dst) && Alive(w, k.dst)
  {
    DestinationAlive(w, i);
    assert Proper(w.nodes, multiset(w.flight), w.flight[i]) by { assert w.flight[i] in multiset(w.flight); }
  }

  // A request is honoured exactly when the owner is closing down or has processed
  // its own command for the child by then; otherwise it is lost without a trace.
  lemma RequestHonoured(w: World, i: nat)
    requires Enabled(w, Deliver(i)) && Keyed(w.nodes) && Inv(w) && w.flight[i].cmd.TermReq?
    ensures var c, p := w.flight[i].src, w.flight[i].dst; var r := Act(w, Deliver(i));
      && w.flight[i].cmd == TermReq(c) && IsChild(w.nodes, c, p) && p in w.nodes && r.Some?
      && c in r.value.nodes && p in r.value.nodes
      && (Doomed(r.value, c, p) <==> w.nodes[p].o.terminating || Packet(p, p, Own(c)) !in w.flight)
      && (!Doomed(r.value, c, p) ==> r.value == w.(flight := Without(w.flight, i)))
  {
    hide Inv, OneStage, Proper, Without;
    RequestFrom(w, i);
    var c, p := w.flight[i].src, w.flight[i].dst;
    OwnedOrTold(w, c, p);
    RequestTaken(w, i, Packet(p, c, Term));
    var v := Act(w, Deliver(i)).value;
    assert v == Put(Taken(w, i), ProcessTermReq(Start(w, p), c));
    if !w.nodes[p].o.terminating && c in w.nodes[p].o.owned {
      assert v.flight == Without(w.flight, i) + [Packet(p, c, Term)];
    } else {
      assert v.flight == Without(w.flight, i) && v.nodes == w.nodes;
    }
  }

  lemma RunStep(w: World, step: Step, rest: seq<Step>)
    requires Keyed(w.nodes) && Enabled(w, step) && Act(w, step).Some?
    ensures Run(w, [step] + rest) == Run(Act(w, step).value, rest)
  {
    assert ([step] + rest)[1..] == rest;
  }

  lemma Becomes(w: World, step: Step, v: World)
    requires Enabled(w, step) && Keyed(w.nodes) && Act(w, step).Some?
    requires var r := Act(w, step).value; r.nodes.Keys == v.nodes.Keys && r.flight == v.flight
    requires var r := Act(w, step).value; forall id | id in v.nodes :: r.nodes[id] == v.nodes[id]
    ensures Act(w, step) == Some(v)
  {
    hide Act;
    assert Act(w, step).value.nodes == v.nodes;
  }

  // A run that loses one: a root launches a child, the child asks to be terminated,
  // and the request overtakes the root's own command to itself.
  function Losing(k: nat): (Step, World) {
    var root, child := NewObj(0, None, 0), NewObj(1, Some(0), 1);
    var launched, plugged := root.(sentSeqnum := 1), child.(processedSeqnum := 1);
    var both := map[0 := Node(launched, 0, 0), 1 := Node(child, 0, 0)];
    var plug, own, req := Packet(0, 1, Plug), Packet(0, 0, Own(1)), Packet(1, 0, TermReq(1));
    match k
    case 0 => (NewRoot(0), World(map[0 := Node(root, 0, 0)], []))
    case 1 => (Launch(0, 1), World(both, [plug, own]))
    case 2 => (CallTerminate(1), World(both, [plug, own, req]))
    case 3 => (Deliver(2), World(both, [plug, own]))
    case 4 => (Deliver(0), World(both[1 := Node(plugged, 0, 0)], [own]))
    case _ =>
      (Deliver(0), World(map[0 := Node(launched.(processedSeqnum := 1, owned := {1}), 0, 0), 1 := Node(plugged, 0, 0)], []))
  }

  function Before(k: nat): World { if k == 0 then Nothing else Losing(k - 1).1 }

  ghost predicate Leads(k: nat) {
    var w, step := Before(k), Losing(k).0;
    Keyed(w.nodes) && Enabled(w, step) && Act(w, step) == Some(Losing(k).1)
  }

  lemma Calls()
    ensures Leads(0) && Leads(1) && Leads(2)
  {
    Becomes(Before(1), Losing(1).0, Losing(1).1);
    Becomes(Before(2), Losing(2).0, Losing(2).1);
  }

  lemma Overtaking()
    ensures Leads(3)
  {
    assert Without(Before(3).flight, 2) == Losing(3).1.flight;
    Becomes(Before(3), Losing(3).0, Losing(3).1);
  }

  lemma Plugging()
    ensures Leads(4)
  {
    assert Without(Before(4).flight, 0) == Losing(4).1.flight;
    Becomes(Before(4), Losing(4).0, Losing(4).1);
  }

  lemma Owning()
    ensures Leads(5)
  {
    assert Without(Before(5).flight, 0) == Losing(5).1.flight;
    Becomes(Before(5), Losing(5).0, Losing(5).1);
  }

  function LosingFrom(k: nat): seq<Step>
    decreases 6 - k
  {
    if k >= 6 then [] else [Losing(k).0] + LosingFrom(k + 1)
  }

  lemma {:induction false} LosingRuns(k: nat)
    requires k <= 6 && forall j | k <= j < 6 :: Leads(j)
    ensures Run(Before(k), LosingFrom(k)) == Some(Before(6))
    decreases 6 - k
  {
    hide Act, Losing;
    if k < 6 {
      assert Leads(k);
      RunStep(Before(k), Losing(k).0, LosingFrom(k + 1));
      LosingRuns(k + 1);
    }
  }

  // In the end nothing is in flight, and the child that has asked to be terminated
  // lives on for as long as the root does.
  lemma RequestLost()
    ensures var r := Run(Nothing, LosingFrom(0));
      && r.Some? && r.value.flight == [] && Alive(r.value, 0) && Alive(r.value, 1)
      && !Doomed(r.value, 1, 0) && 1 in r.value.nodes[0].o.owned
    ensures LosingFrom(0) == [NewRoot(0), Launch(0, 1), CallTerminate(1), Deliver(2), Deliver(0), Deliver(0)]
  {
    LosingSteps();
    LosingEnd();
    hide Leads, Losing, Before, Run, LosingFrom;
    Calls();
    Overtaking();
    Plugging();
    Owning();
    LosingRuns(0);
  }

  lemma LosingSteps()
    ensures Before(0) == Nothing
    ensures LosingFrom(0) == [NewRoot(0), Launch(0, 1), CallTerminate(1), Deliver(2), Deliver(0), Deliver(0)]
  {
    assert LosingFrom(6) == [] && LosingFrom(4) == [Deliver(0), Deliver(0)];
    assert LosingFrom(2) == [CallTerminate(1), Deliver(2)] + LosingFrom(4);
  }

  lemma LosingEnd()
    ensures var w := Before(6);
      w.flight == [] && Alive(w, 0) && Alive(w, 1) && !Doomed(w, 1, 0) && 1 in w.nodes[0].o.owned
  {
  }

  // From the empty system on, every run gets through without a failed assertion
  // or a command to an object that is gone, and all of the above holds in it.
  lemma EveryRun(steps: seq<Step>)
    ensures var r := Run(Nothing, steps);
      && r.Some? && Inv(r.value)
      && (forall k | k in r.value.flight :: Alive(r.value, k.dst))
  {
    RunKeepsInv(Nothing, steps);
    var w := Run(Nothing, steps).value;
    forall k | k in w.flight ensures Alive(w, k.dst) {
      var i :| 0 <= i < |w.flight| && w.flight[i] == k;
      DestinationAlive(w, i);
    }
  }
}
