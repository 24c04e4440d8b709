/** fq_t as rounds over the active pipes at the front of an array. */
module FqStates {
  import opened Basics
  import opened Arrays

  datatype Part = Part(body: seq<int>, more: bool)

  // ins: what each pipe has for reading.
  datatype State = State(order: seq<PipeId>, active: nat, current: nat, more: bool, ins: map<PipeId, seq<Part>>)

  // Pipes are flushed in whole messages.
  predicate Whole(q: seq<Part>) { q == [] || !q[|q| - 1].more }

  ghost predicate Valid(s: State) {
    && Distinct(s.order) && s.active <= |s.order|
    && (s.current < s.active || s.current == s.active == 0)
    && (forall p | p in s.order :: p in s.ins)
    && (forall p | p in s.ins :: Whole(s.ins[p]))
    && (s.more ==> s.current < s.active && s.ins[s.order[s.current]] != [])
  }

  // --- The operations ---

  function Attached(s: State, p: PipeId): State
    requires s.active <= |s.order|
  {
    var o := s.order + [p];
    s.(order := Swapped(o, s.active, |o| - 1), active := s.active + 1)
  }

  // The active pipe at i becomes the first passive one.
  function Passivated(s: State, i: nat): State
    requires i < s.active <= |s.order|
  {
    var a := s.active - 1;
    s.(order := Swapped(s.order, i, a), active := a, current := if s.current == a then 0 else s.current)
  }

  function Terminated(s: State, i: nat): State
    requires i < |s.order| && s.active <= |s.order|
  {
    if i < s.active then
      var t := Passivated(s, i);
      t.(order := Erased(t.order, t.active))
    else s.(order := Erased(s.order, i))
  }

  function Activated(s: State, i: nat): State
    requires s.active <= i < |s.order|
  {
    s.(order := Swapped(s.order, i, s.active), active := s.active + 1)
  }

  predicate Empty(s: State)
    requires s.current < |s.order|
  {
    s.order[s.current] in s.ins && s.ins[s.order[s.current]] == []
  }

  // Passing over pipes with nothing to read.
  function Skip(s: State): State
    requires s.active <= |s.order| && (s.current < s.active || s.active == 0)
    decreases s.active
  {
    if s.active == 0 || !Empty(s) then s else Skip(Passivated(s, s.current))
  }

  // The part at the head of the current pipe; its last part ends the turn.
  function Delivered(s: State): (State, PipeId, Part)
    requires s.current < s.active <= |s.order| && s.order[s.current] in s.ins && s.ins[s.order[s.current]] != []
  {
    var p := s.order[s.current];
    var m := s.ins[p][0];
    (s.(ins := s.ins[p := s.ins[p][1..]], more := m.more,
        current := if m.more then s.current else (s.current + 1) % s.active), p, m)
  }

  // --- Every operation keeps the shape ---

  // p has become the last active pipe; the active ones are where they were, and whose
  // turn it is has not changed.
  predicate Joins(s: State, t: State, p: PipeId) {
    && s.active + 1 == t.active <= |t.order| && s.active <= |s.order| && t.order[s.active] == p
    && t.order[..s.active] == s.order[..s.active]
    && (t.current, t.more, t.ins) == (s.current, s.more, s.ins)
  }

  lemma AttachedValid(s: State, p: PipeId)
    requires Valid(s) && p !in s.order && p in s.ins
    ensures Valid(Attached(s, p)) && Ids(Attached(s, p).order) == Ids(s.order) + {p}
    ensures Joins(s, Attached(s, p), p)
  {
    var o := s.order + [p];
    assert Ids(o) == Ids(s.order) + {p};
    SwappedDistinct(o, s.active, |s.order|);
    assert forall q | q in Attached(s, p).order :: q in Ids(o);
  }

  lemma PassivatedValid(s: State, i: nat)
    requires Valid(s) && i < s.active && !s.more
    ensures Valid(Passivated(s, i)) && Ids(Passivated(s, i).order) == Ids(s.order)
  {
    SwappedDistinct(s.order, i, s.active - 1);
    assert forall q | q in Passivated(s, i).order :: q in Ids(s.order);
  }

  lemma TerminatedValid(s: State, i: nat)
    requires Valid(s) && i < |s.order| && !s.more
    ensures Valid(Terminated(s, i)) && Ids(Terminated(s, i).order) == Ids(s.order) - {s.order[i]}
  {
    if i < s.active {
      PassivatedValid(s, i);
      var t := Passivated(s, i);
      ErasedDistinct(t.order, t.active);
    } else {
      ErasedDistinct(s.order, i);
    }
    assert forall q | q in Terminated(s, i).order :: q in Ids(s.order);
  }

  lemma ActivatedValid(s: State, i: nat)
    requires Valid(s) && s.active <= i < |s.order|
    ensures Valid(Activated(s, i)) && Ids(Activated(s, i).order) == Ids(s.order)
    ensures Joins(s, Activated(s, i), s.order[i])
  {
    SwappedDistinct(s.order, i, s.active);
    assert forall q | q in Activated(s, i).order :: q in Ids(s.order);
  }

  lemma {:induction false} SkipValid(s: State)
    requires Valid(s)
    ensures Valid(Skip(s)) && Ids(Skip(s).order) == Ids(s.order) && (s.more ==> Skip(s) == s)
    ensures Skip(s).active > 0 ==> !Empty(Skip(s)) && Skip(s).order[Skip(s).current] in s.ins
    ensures Skip(s).ins == s.ins && Skip(s).more == s.more
    decreases s.active
  {
    if s.active > 0 && Empty(s) {
      PassivatedValid(s, s.current);
      SkipValid(Passivated(s, s.current));
    } else if s.active > 0 {
      assert s.order[s.current] in s.order;
    }
  }

  lemma DeliveredValid(s: State)
    requires Valid(s) && s.current < s.active && s.ins[s.order[s.current]] != []
    ensures Valid(Delivered(s).0)
  {
    var p := s.order[s.current];
    var q := s.ins[p];
    assert |q| > 1 ==> q[1..][|q| - 2] == q[|q| - 1];
  }

  // --- What a call returns ---

  // Nothing at an active pipe is passed over.
  lemma {:induction false} SkipFindsAll(s: State)
    requires Valid(s)
    ensures Skip(s).active == 0 ==> forall k | 0 <= k < s.active :: s.order[k] in s.ins && s.ins[s.order[k]] == []
    decreases s.active
  {
    forall k | 0 <= k < s.active ensures s.order[k] in s.ins { assert s.order[k] in s.order; }
    if s.active > 0 && Empty(s) {
      var t, a := Passivated(s, s.current), s.active - 1;
      PassivatedValid(s, s.current);
      SkipFindsAll(t);
      if Skip(s).active == 0 {
        forall k | 0 <= k < s.active ensures s.ins[s.order[k]] == [] {
          if k != s.current { assert s.order[k] == t.order[if k == a then s.current else k]; }
        }
      }
    }
  }

  // --- Fairness ---

  // How many turns p is away; the passive pipes count, since they may come back.
  function Turns(s: State, i: nat): int
    requires i < |s.order|
  {
    if i >= s.current then i - s.current else |s.order| - s.current + i
  }

  // Where an active pipe is.
  predicate ActiveAt(s: State, p: PipeId, i: nat) {
    i < s.active <= |s.order| && s.order[i] == p
  }

  lemma {:induction false} SkipNoLater(s: State, p: PipeId, i: nat) returns (j: nat)
    requires Valid(s) && ActiveAt(s, p, i) && s.ins[p] != []
    ensures ActiveAt(Skip(s), p, j) && Turns(Skip(s), j) <= Turns(s, i) && |Skip(s).order| == |s.order|
    decreases s.active
  {
    j := i;
    if Empty(s) {
      var t := Passivated(s, s.current);
      PassivatedValid(s, s.current);
      j := SkipNoLater(t, p, if i == s.active - 1 then s.current else i);
    }
  }

  lemma NextTurn(current: nat, active: nat)
    requires current < active
    ensures (current + 1) % active == if current + 1 == active then 0 else current + 1
  {
  }

  lemma DeliveredSooner(s: State, p: PipeId, i: nat)
    requires Valid(s) && ActiveAt(s, p, i) && s.ins[s.order[s.current]] != []
    ensures var (t, q, m) := Delivered(s);
      && ActiveAt(t, p, i) && (q != p ==> t.ins[p] == s.ins[p])
      && (q != p ==> Turns(t, i) <= Turns(s, i) - if m.more then 0 else 1)
  {
    hide Distinct, Whole;
    NextTurn(s.current, s.active);
  }

  // Messages arrive at a pipe, a passive pipe is activated, or the user calls.
  datatype Op = Arrive(p: PipeId, parts: seq<Part>) | Activate(i: nat) | Recv | HasIn

  predicate Enabled(s: State, op: Op) {
    match op
    case Arrive(p, parts) => p in s.ins && Whole(parts)
    case Activate(i) => s.active <= i < |s.order|
    case Recv => true
    case HasIn => true
  }

  lemma {:induction false} SkipSize(s: State)
    requires Valid(s)
    ensures |Skip(s).order| == |s.order|
    decreases s.active
  {
    if s.active > 0 && Empty(s) {
      PassivatedValid(s, s.current);
      SkipSize(Passivated(s, s.current));
    }
  }

  lemma ArrivedValid(s: State, p: PipeId, parts: seq<Part>)
    requires Valid(s) && p in s.ins && Whole(parts)
    ensures Valid(s.(ins := s.ins[p := s.ins[p] + parts]))
  {
    var q := s.ins[p] + parts;
    if parts != [] { assert q[|q| - 1] == parts[|parts| - 1]; } else { assert q == s.ins[p]; }
  }

  // The new state, and the part a call of recv returns.
  ghost function Step(s: State, op: Op): (r: (State, Option<(PipeId, Part)>))
    requires Valid(s) && Enabled(s, op)
    ensures Valid(r.0) && |r.0.order| == |s.order|
  {
    match op
    case Arrive(p, parts) => ArrivedValid(s, p, parts); (s.(ins := s.ins[p := s.ins[p] + parts]), None)
    case Activate(i) => ActivatedValid(s, i); (Activated(s, i), None)
    case HasIn => SkipValid(s); SkipSize(s); (if s.more then s else Skip(s), None)
    case Recv =>
      SkipValid(s); SkipSize(s);
      if Skip(s).active == 0 then (Skip(s), None)
      else
        DeliveredValid(Skip(s));
        var (t, p, m) := Delivered(Skip(s)); (t, Some((p, m)))
  }

  // Whether a run of calls gives p a turn, and how many messages it completes.
  ghost predicate Served(s: State, ops: seq<Op>, p: PipeId)
    requires Valid(s)
    decreases |ops|
  {
    ops != [] &&
    if !Enabled(s, ops[0]) then Served(s, ops[1..], p)
    else
      var (t, got) := Step(s, ops[0]);
      (got.Some? && got.value.0 == p) || Served(t, ops[1..], p)
  }

  ghost function Completed(s: State, ops: seq<Op>): nat
    requires Valid(s)
    decreases |ops|
  {
    if ops == [] then 0
    else if !Enabled(s, ops[0]) then Completed(s, ops[1..])
    else
      var (t, got) := Step(s, ops[0]);
      (if got.Some? && !got.value.1.more then 1 else 0) + Completed(t, ops[1..])
  }

  lemma StepNoLater(s: State, op: Op, p: PipeId, i: nat) returns (j: nat)
    requires Valid(s) && Enabled(s, op) && ActiveAt(s, p, i) && s.ins[p] != []
    ensures var (t, got) := Step(s, op);
      && ActiveAt(t, p, j)
      && (!(got.Some? && got.value.0 == p) ==>
            && p in t.ins && t.ins[p] != []
            && Turns(t, j) + (if got.Some? && !got.value.1.more then 1 else 0) <= Turns(s, i))
  {
    j := i;
    match op {
      case Arrive(_, _) =>
      case Activate(_) =>
      case HasIn => if !s.more { SkipValid(s); j := SkipNoLater(s, p, i); }
      case Recv =>
        SkipValid(s);
        j := SkipNoLater(s, p, i);
        DeliveredSooner(Skip(s), p, j);
    }
  }

  lemma {:induction false} TurnsPass(s: State, ops: seq<Op>, p: PipeId, i: nat)
    requires Valid(s) && ActiveAt(s, p, i) && s.ins[p] != [] && !Served(s, ops, p)
    ensures Completed(s, ops) <= Turns(s, i)
    decreases |ops|
  {
    if ops != [] {
      if Enabled(s, ops[0]) {
        var j := StepNoLater(s, ops[0], p, i);
        TurnsPass(Step(s, ops[0]).0, ops[1..], p, j);
      } else {
        TurnsPass(s, ops[1..], p, i);
      }
    }
  }

  // A part that is returned is the head of its pipe's input, and nothing else is taken
  // from any pipe; nothing is returned only if no active pipe has anything.  Within a
  // message the pipe is the one its first part came from.
  lemma RecvMeans(s: State)
    requires Valid(s)
    ensures var (t, got) := Step(s, Recv);
      && t.ins.Keys == s.ins.Keys
      && match got
         case Some((p, m)) =>
           && p in s.order && p in s.ins && s.ins[p] == [m] + t.ins[p] && t.more == m.more
           && (forall q | q in s.ins && q != p :: t.ins[q] == s.ins[q])
           && (s.more ==> p == s.order[s.current]) && (m.more ==> ActiveAt(t, p, t.current))
         case None =>
           t.ins == s.ins && !s.more && forall k | 0 <= k < s.active :: s.order[k] in s.ins && s.ins[s.order[k]] == []
  {
    SkipValid(s);
    SkipFindsAll(s);
    var k := Skip(s);
    if k.active > 0 {
      assert k.order[k.current] in k.order && k.order[k.current] in Ids(s.order);
    }
  }

  // Until the message is complete no other step changes whose turn it is.
  lemma TurnHeld(s: State, op: Op)
    requires Valid(s) && Enabled(s, op) && s.more && !op.Recv?
    ensures var t := Step(s, op).0; t.more && ActiveAt(t, s.order[s.current], t.current)
  {
    if op.HasIn? { SkipValid(s); }
  }

  // The parts a run of calls returns from p, and those that arrive at it.
  ghost function Returned(s: State, ops: seq<Op>, p: PipeId): seq<Part>
    requires Valid(s)
    decreases |ops|
  {
    if ops == [] then []
    else if !Enabled(s, ops[0]) then Returned(s, ops[1..], p)
    else
      var (t, got) := Step(s, ops[0]);
      (if got.Some? && got.value.0 == p then [got.value.1] else []) + Returned(t, ops[1..], p)
  }

  ghost function Arrived(s: State, ops: seq<Op>, p: PipeId): seq<Part>
    requires Valid(s)
    decreases |ops|
  {
    if ops == [] then []
    else if !Enabled(s, ops[0]) then Arrived(s, ops[1..], p)
    else
      (if ops[0].Arrive? && ops[0].p == p then ops[0].parts else []) + Arrived(Step(s, ops[0]).0, ops[1..], p)
  }

  ghost function After(s: State, ops: seq<Op>): (t: State)
    requires Valid(s)
    ensures Valid(t)
    decreases |ops|
  {
    if ops == [] then s
    else if !Enabled(s, ops[0]) then After(s, ops[1..])
    else After(Step(s, ops[0]).0, ops[1..])
  }

  lemma StepReturns(s: State, op: Op, p: PipeId)
    requires Valid(s) && Enabled(s, op) && p in s.ins
    ensures var (t, got) := Step(s, op);
      && p in t.ins
      && (if got.Some? && got.value.0 == p then [got.value.1] else []) + t.ins[p]
         == s.ins[p] + if op.Arrive? && op.p == p then op.parts else []
  {
    match op
    case Recv => RecvMeans(s);
    case HasIn => SkipValid(s);
    case _ =>
  }

  lemma Chain(here: seq<Part>, later: seq<Part>, left: seq<Part>, had: seq<Part>, came: seq<Part>, comes: seq<Part>,
              between: seq<Part>)
    requires here + between == had + came && later + left == between + comes
    ensures here + later + left == had + (came + comes)
  {
    calc {
      here + later + left;
      here + (later + left);
      here + (between + comes);
      here + between + comes;
      had + came + comes;
      had + (came + comes);
    }
  }

  // Over any run: what has been returned from a pipe, and then what is left there, is
  // what it had and what has arrived, in order.
  lemma {:induction false} ReturnedInOrder(s: State, ops: seq<Op>, p: PipeId)
    requires Valid(s) && p in s.ins
    ensures var t := After(s, ops);
      p in t.ins && Returned(s, ops, p) + t.ins[p] == s.ins[p] + Arrived(s, ops, p)
    decreases |ops|
  {
    hide Step, Valid, Enabled;
    if ops != [] {
      if Enabled(s, ops[0]) {
        var (t, got) := Step(s, ops[0]);
        StepReturns(s, ops[0], p);
        ReturnedInOrder(t, ops[1..], p);
        var here := if got.Some? && got.value.0 == p then [got.value.1] else [];
        var new_ := if ops[0].Arrive? && ops[0].p == p then ops[0].parts else [];
        Chain(here, Returned(t, ops[1..], p), After(t, ops[1..]).ins[p], s.ins[p], new_, Arrived(t, ops[1..], p), t.ins[p]);
      } else {
        ReturnedInOrder(s, ops[1..], p);
      }
    }
  }

  // How many calls of recv there are in a run, and how many of them return something.
  ghost function Calls(ops: seq<Op>): nat {
    if ops == [] then 0 else (if ops[0].Recv? then 1 else 0) + Calls(ops[1..])
  }

  ghost function Answers(s: State, ops: seq<Op>): nat
    requires Valid(s)
    decreases |ops|
  {
    if ops == [] then 0
    else if !Enabled(s, ops[0]) then Answers(s, ops[1..])
    else
      var (t, got) := Step(s, ops[0]);
      (if got.Some? then 1 else 0) + Answers(t, ops[1..])
  }

  // As long as p waits with something to read, every call of recv returns something.
  lemma {:induction false} EveryCallAnswers(s: State, ops: seq<Op>, p: PipeId, i: nat)
    requires Valid(s) && ActiveAt(s, p, i) && s.ins[p] != [] && !Served(s, ops, p)
    ensures Answers(s, ops) == Calls(ops)
    decreases |ops|
  {
    if ops != [] {
      if Enabled(s, ops[0]) {
        var j := StepNoLater(s, ops[0], p, i);
        if ops[0].Recv? { RecvMeans(s); }
        EveryCallAnswers(Step(s, ops[0]).0, ops[1..], p, j);
      } else {
        EveryCallAnswers(s, ops[1..], p, i);
      }
    }
  }

  // A pipe with something to read is served before others have completed as many
  // messages as there are pipes, whatever arrives and however pipes come and go; until
  // then every call returns a part.
  lemma Fair(s: State, ops: seq<Op>, p: PipeId, i: nat)
    requires Valid(s) && ActiveAt(s, p, i) && s.ins[p] != []
    ensures Served(s, ops, p) || (Completed(s, ops) < |s.order| && Answers(s, ops) == Calls(ops))
  {
    if !Served(s, ops, p) {
      TurnsPass(s, ops, p, i);
      EveryCallAnswers(s, ops, p, i);
    }
  }
}
