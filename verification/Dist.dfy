/** dist_t as an object: the fan-out over an array that the fan-out itself reorders. */
module Dists {
  import opened Arrays
  import opened Basics
  import opened DistStates
  import opened Messages

  // A pipe as the distributor sees it.  open says whether the next write will be
  // accepted, tries counts the attempts, flushed how many messages have been flushed.
  datatype Out = Out(open: bool, got: seq<Value>, tries: nat, flushed: nat)

  function More(v: Value): bool { (v.Vsm? || v.Lmsg?) && v.more }

  // pipe_t::write, and flush at the end of a message.
  function Tried(o: Out, v: Value): Out {
    if !o.open then o.(tries := o.tries + 1)
    else
      var got := o.got + [v];
      Out(o.open, got, o.tries + 1, if More(v) then o.flushed else |got|)
  }

  type Outs = map<PipeId, Out>

  // Every pipe of s has been tried once, the others not at all.
  function AllTried(outs: Outs, s: set<PipeId>, v: Value): Outs {
    map p | p in outs :: if p in s then Tried(outs[p], v) else outs[p]
  }

  function Accepting(outs: Outs, s: set<PipeId>): (r: set<PipeId>)
    ensures r <= s
  {
    set p | p in s && p in outs && outs[p].open
  }

  lemma TriedOneMore(outs: Outs, s: set<PipeId>, p: PipeId, v: Value)
    requires p in outs && p !in s
    ensures AllTried(outs, s + {p}, v) == AllTried(outs, s, v)[p := Tried(outs[p], v)]
    ensures AllTried(outs, s, v)[p] == outs[p]
    ensures Accepting(outs, s + {p}) == Accepting(outs, s) + if outs[p].open then {p} else {}
  {
  }

  lemma {:induction false} IdsSize(s: seq<PipeId>)
    requires Distinct(s)
    ensures |Ids(s)| == |s|
  {
    if s != [] {
      var n := |s| - 1;
      IdsSize(s[..n]);
      DropLast(s, |s|);
      assert s[..|s|] == s && s[n] in Ids(s);
    }
  }

  // What the copies look like: content with several holders is marked as shared.
  function Shared(v: Value, copies: nat): Value {
    if v.Lmsg? && copies > 1 then v.(shared := true) else v
  }

  // One attempt to hand w to a pipe: it either gets w as its last part, and flushes if
  // no part follows, or is left alone.
  ghost predicate Attempted(o: Out, o': Out, w: Value) {
    && o'.open == o.open && o'.tries == o.tries + 1
    && o'.got == (if o.open then o.got + [w] else o.got)
    && o'.flushed == if o.open && !((w.Vsm? || w.Lmsg?) && w.more) then |o'.got| else o.flushed
  }

  lemma TriedAttempts(o: Out, w: Value)
    ensures Attempted(o, Tried(o, w), w)
  {
  }

  // v has been offered, as w, to the pipes of to and to no other.
  ghost predicate Handed(outs0: Outs, outs: Outs, to: set<PipeId>, v: Value, w: Value) {
    && outs.Keys == outs0.Keys
    && (w == v || (v.Lmsg? && w == v.(shared := true)))
    && forall p | p in outs0 :: if p in to then Attempted(outs0[p], outs[p], w) else outs[p] == outs0[p]
  }

  lemma AllTriedHands(outs: Outs, to: set<PipeId>, v: Value, copies: nat)
    ensures Handed(outs, AllTried(outs, to, Shared(v, copies)), to, v, Shared(v, copies))
  {
  }

  lemma FanOutHands(d0: State, outs0: Outs, d: State, outs: Outs, v: Value)
    requires Nested(d0) && Nested(d) && FanOut(d0, outs0, d, outs, v)
    ensures Handed(outs0, outs, Matching(d0), v, v)
  {
    assert Shared(v, 0) == v;
    AllTriedHands(outs0, Matching(d0), v, 0);
  }

  // The pipes with parts that their readers cannot see yet.
  function Unflushed(outs: Outs): set<PipeId> {
    set p | p in outs && outs[p].flushed != |outs[p].got|
  }

  ghost predicate Sane(outs: Outs) { forall p | p in outs :: outs[p].flushed <= |outs[p].got| }

  // Whoever accepts the last part of a message has everything flushed, and whoever
  // accepts another part has not; nothing changes for the others.
  lemma UnflushedAfter(outs0: Outs, outs: Outs, to: set<PipeId>, v: Value, w: Value)
    requires Handed(outs0, outs, to, v, w) && Sane(outs0)
    ensures var ok := Accepting(outs0, to);
      Sane(outs) && Unflushed(outs) == if More(v) then Unflushed(outs0) + ok else Unflushed(outs0) - ok
  {
    forall p | p in outs0 ensures outs[p].flushed <= |outs[p].got| {
      assert if p in to then Attempted(outs0[p], outs[p], w) else outs[p] == outs0[p];
    }
    forall p ensures p in Unflushed(outs) <==>
        if More(v) then p in Unflushed(outs0) || p in Accepting(outs0, to)
        else p in Unflushed(outs0) && p !in Accepting(outs0, to)
    {
      if p in outs0 { assert if p in to then Attempted(outs0[p], outs[p], w) else outs[p] == outs0[p]; }
    }
  }

  // With pipes that take whole messages, everything accepted is flushed between messages.
  lemma AllFlushed(outs0: Outs, outs: Outs, to: set<PipeId>, v: Value, w: Value)
    requires Handed(outs0, outs, to, v, w) && Sane(outs0) && Unflushed(outs0) <= to
    requires forall p | p in to && p in outs0 :: outs0[p].open
    ensures if More(v) then Unflushed(outs) <= to else Unflushed(outs) == {}
  {
    UnflushedAfter(outs0, outs, to, v, w);
  }

  // A fan-out of v: every pipe that matched has been tried once, those that accept
  // still match, the others are no longer even eligible.
  ghost predicate FanOut(d0: State, outs0: Outs, d: State, outs: Outs, v: Value)
    requires Nested(d0) && Nested(d)
  {
    var m := Matching(d0);
    var ok := Accepting(outs0, m);
    && outs == AllTried(outs0, m, v) && Matching(d) == ok && All(d) == All(d0) && d.more == d0.more
    && Active(d) == Active(d0) - (m - ok) && Eligible(d) == Eligible(d0) - (m - ok)
  }

  lemma NoFanOut(d: State, outs: Outs, v: Value)
    requires Nested(d) && d.matching == 0
    ensures FanOut(d, outs, d, outs, v) && Accepting(outs, Matching(d)) == {} && Matching(d) == {}
  {
    assert AllTried(outs, {}, v) == outs;
  }

  lemma FanOutSizes(d: State, outs: Outs)
    requires WellFormed(d)
    ensures var m := Matching(d); var ok := Accepting(outs, m);
      |m| == d.matching && |m - ok| == d.matching - |ok|
  {
    IdsSize(d.order[..d.matching]);
    assert Matching(d) == Accepting(outs, Matching(d)) + (Matching(d) - Accepting(outs, Matching(d)));
  }

  function Open(outs: Outs): set<PipeId> {
    set p | p in outs && outs[p].open
  }

  // A part has been sent: its fan-out, and what its being the last or not means.
  ghost predicate SentTo(d0: State, outs0: Outs, d: State, outs: Outs, v: Value)
    requires Nested(d0) && Nested(d)
  {
    && RegionsOf(d) == Sent(RegionsOf(d0), Open(outs0), More(v))
    && outs == AllTried(outs0, Matching(d0), Shared(v, d0.matching))
  }

  lemma FanOutSends(d0: State, outs0: Outs, d: State, d': State, outs: Outs, v: Value)
    requires WellFormed(d0) && Nested(d) && All(d0) <= outs0.Keys
    requires FanOut(d0, outs0, d, outs, Shared(v, d0.matching))
    requires d' == d.(active := if More(v) then d.active else d.eligible, more := More(v))
    ensures SentTo(d0, outs0, d', outs, v)
  {
    var m := Matching(d0);
    assert m <= All(d0) by { Within(d0.order, d0.matching); }
    assert m - Open(outs0) == m - Accepting(outs0, m);
  }

  lemma Within(s: seq<PipeId>, n: nat)
    requires n <= |s|
    ensures Ids(s[..n]) <= Ids(s)
  {
    assert forall p | p in s[..n] :: p in s;
  }

  // The middle of a fan-out that began in d0: the pipes of tried have been tried,
  // those of failed refused, and the accepting ones are the first i.
  ghost predicate Progress(d0: State, outs0: Outs, d: State, outs: Outs, v: Value, i: nat,
                           tried: set<PipeId>, failed: set<PipeId>)
    requires Nested(d0)
  {
    && WellFormed(d) && i <= d.matching && d.more == d0.more
    && All(d) == All(d0) && All(d0) <= outs0.Keys && failed <= tried <= Matching(d0)
    && Ids(d.order[..i]) == tried - failed
    && Matching(d) == Matching(d0) - failed && Active(d) == Active(d0) - failed && Eligible(d) == Eligible(d0) - failed
    && outs == AllTried(outs0, tried, v)
    && failed == tried - Accepting(outs0, tried)
  }

  lemma Accepted(d0: State, outs0: Outs, d: State, outs: Outs, v: Value, i: nat, tried: set<PipeId>, failed: set<PipeId>)
    requires Nested(d0) && Progress(d0, outs0, d, outs, v, i, tried, failed) && i < d.matching
    ensures var p := d.order[i];
      && p in outs && p !in tried && outs[p] == outs0[p]
      && (outs[p].open ==> Progress(d0, outs0, d, outs[p := Tried(outs[p], v)], v, i + 1, tried + {p}, failed))
  {
    var p := d.order[i];
    hide Tried;
    NextMatching(d, i);
    TakeNext(d.order, i);
    TriedOneMore(outs0, tried, p, v);
  }

  lemma Refused(d0: State, outs0: Outs, d: State, outs: Outs, v: Value, i: nat, tried: set<PipeId>, failed: set<PipeId>)
    requires Nested(d0) && Progress(d0, outs0, d, outs, v, i, tried, failed) && i < d.matching
    requires var p := d.order[i]; p in outs && !outs[p].open
    ensures var p := d.order[i];
      Progress(d0, outs0, Demoted(d, i), outs[p := Tried(outs[p], v)], v, i, tried + {p}, failed + {p})
  {
    var p := d.order[i];
    hide Tried, Demoted;
    Accepted(d0, outs0, d, outs, v, i, tried, failed);
    DemotedRegions(d, i);
    NextMatching(d, i);
    TriedOneMore(outs0, tried, p, v);
  }

  lemma NextMatching(d: State, i: nat)
    requires Distinct(d.order) && Nested(d) && i < d.matching
    ensures d.order[i] in Matching(d) && d.order[i] in All(d) && d.order[i] !in Ids(d.order[..i])
  {
    assert d.order[..d.matching][i] == d.order[i];
  }

  lemma StartProgress(d: State, outs: Outs, v: Value)
    requires WellFormed(d) && All(d) <= outs.Keys
    ensures Progress(d, outs, d, outs, v, 0, {}, {})
  {
    assert AllTried(outs, {}, v) == outs;
  }

  lemma EndProgress(d0: State, outs0: Outs, d: State, outs: Outs, v: Value, i: nat,
                    tried: set<PipeId>, failed: set<PipeId>)
    requires Nested(d0) && Progress(d0, outs0, d, outs, v, i, tried, failed) && i >= d.matching
    ensures FanOut(d0, outs0, d, outs, v) && failed == Matching(d0) - Accepting(outs0, Matching(d0))
  {
    assert d.order[..i] == d.order[..d.matching];
    forall p | p in Matching(d0) ensures p in tried {
      if p !in failed { assert p in Matching(d); }
    }
    assert tried == Matching(d0);
  }

  class Dist {
    const pipes: Array
    var matching: nat
    var active: nat
    var eligible: nat
    var more: bool
    var outs: Outs

    ghost function View(): (d: State)
      reads this, pipes
    {
      State(pipes.Order(), matching, active, eligible, more)
    }

    ghost predicate Valid()
      reads this, pipes, pipes.Members()
    {
      && pipes.Valid() && WellFormed(View())
      && All(View()) <= outs.Keys
    }

    constructor ()
      ensures Valid() && View() == State([], 0, 0, 0, false) && outs == map[] && fresh(pipes)
    {
      pipes := new Array();
      matching, active, eligible, more, outs := 0, 0, 0, false, map[];
    }

    method Attach(item: Item)
      requires Valid() && item.pipe !in All(View()) && item.pipe in outs
      modifies this, pipes, item, pipes.Members()
      ensures Valid() && outs == old(outs) && pipes.Members() == old(pipes.Members()) + {item}
      ensures RegionsOf(View()) == Joined(old(RegionsOf(View())), item.pipe)
    {
      hide Swapped, Ids, Distinct, Array.Order, Array.Valid, Array.Members;
      AttachedRegions(View(), item.pipe);
      pipes.PushBack(item);
      if more {
        pipes.Swap(eligible, |pipes.items| - 1);
        eligible := eligible + 1;
      } else {
        pipes.Swap(active, |pipes.items| - 1);
        active := active + 1;
        eligible := eligible + 1;
      }
    }

    // Only called between messages.
    method Match(item: Item)
      requires Valid() && item in pipes.Members() && !more
      modifies this`matching, pipes, pipes.Members()
      ensures Valid() && outs == old(outs) && pipes.Members() == old(pipes.Members())
      ensures var r := old(RegionsOf(View()));
        RegionsOf(View()) == r.(matching := r.matching + (r.eligible * {item.pipe}))
    {
      var index := pipes.Index(item);
      MatchedRegions(View(), index);
      if index < matching {
        return;
      }
      if index >= eligible {
        return;
      }
      pipes.Swap(index, matching);
      matching := matching + 1;
    }

    method Unmatch()
      requires Valid()
      modifies `matching
      ensures Valid() && Matching(View()) == {}
    {
      matching := 0;
    }

    method Terminate(item: Item)
      requires Valid() && item in pipes.Members()
      modifies this, pipes, pipes.Members()
      ensures Valid() && All(View()) == old(All(View())) - {item.pipe} && more == old(more) && outs == old(outs)
    {
      hide Erased, Ids, Distinct, Array.Order;
      var index := pipes.Index(item);
      TerminatedRegions(View(), index);
      if index < matching {
        matching := matching - 1;
      }
      if index < active {
        active := active - 1;
      }
      if index < eligible {
        eligible := eligible - 1;
      }
      pipes.Erase(item);
    }

    // A pipe that was full has room again.
    method Activate(item: Item)
      requires Valid() && item in pipes.Members() && item.pipe !in Eligible(View())
      modifies this, pipes, pipes.Members()
      ensures Valid() && outs == old(outs) && pipes.Members() == old(pipes.Members())
      ensures RegionsOf(View()) == Joined(old(RegionsOf(View())), item.pipe)
    {
      hide Swapped, Ids, Distinct, Array.Order, Array.Members;
      var index := pipes.Index(item);
      NotEligible(View(), index);
      ActivatedRegions(View(), index);
      pipes.Swap(index, eligible);
      eligible := eligible + 1;
      if !more {
        pipes.Swap(eligible - 1, active);
        active := active + 1;
      }
    }

    // The refused branch of write ().
    method Demote(item: Item, ghost d: State)
      requires Valid() && d == View() && item in pipes.Members() && 0 <= item.arrayIndex < matching
      modifies this`matching, this`active, this`eligible, pipes, pipes.Members()
      ensures pipes.Valid() && pipes.Members() == old(pipes.Members())
      ensures 0 <= old(item.arrayIndex) < d.matching && Nested(d) && View() == Demoted(d, old(item.arrayIndex))
    {
      hide Swapped, Ids, Distinct, Array.Order, Array.Valid, Array.Members, WellFormed, All;
      NestedOf(d);
      pipes.SwapItem(item, matching - 1);
      matching := matching - 1;
      pipes.SwapItem(item, active - 1);
      active := active - 1;
      pipes.Swap(active, eligible - 1);
      eligible := eligible - 1;
    }

    // Tries the pipe at i; one that refuses leaves the three regions.
    method Write(item: Item, v: Value) returns (ok: bool)
      requires Valid() && item in pipes.Members() && 0 <= item.arrayIndex < matching
      modifies this`matching, this`active, this`eligible, this`outs, pipes, pipes.Members()
      ensures Valid() && pipes.Members() == old(pipes.Members())
      ensures 0 <= old(item.arrayIndex) < old(matching) && old(View().order[item.arrayIndex]) == item.pipe
      ensures item.pipe in old(outs) && ok == old(outs)[item.pipe].open
      ensures outs == old(outs)[item.pipe := Tried(old(outs)[item.pipe], v)]
      ensures Attempted(old(outs)[item.pipe], outs[item.pipe], v)
      ensures View() == if ok then old(View()) else Demoted(old(View()), old(item.arrayIndex))
    {
      ghost var d := View();
      var index := pipes.Index(item);
      assert item.pipe in d.order;
      TriedAttempts(outs[item.pipe], v);
      hide Array.Valid, Array.Members, Array.Order, Tried, Attempted, Ids, Distinct, Swapped;
      ok := outs[item.pipe].open;
      outs := outs[item.pipe := Tried(outs[item.pipe], v)];
      if !ok {
        DemotedRegions(d, index);
        Demote(item, d);
      }
    }

    // One round of the loop below.
    method TryAt(i: nat, v: Value, ghost d0: State, ghost outs0: Outs, ghost tried: set<PipeId>, ghost refused: set<PipeId>)
        returns (ok: bool, ghost p: PipeId)
      requires Valid() && Nested(d0) && i < matching && Progress(d0, outs0, View(), outs, v, i, tried, refused)
      modifies this`matching, this`active, this`eligible, this`outs, pipes, pipes.Members()
      ensures Valid() && pipes.Members() == old(pipes.Members()) && matching == old(matching) - (if ok then 0 else 1)
      ensures p !in tried
      ensures if ok then Progress(d0, outs0, View(), outs, v, i + 1, tried + {p}, refused)
              else Progress(d0, outs0, View(), outs, v, i, tried + {p}, refused + {p})
    {
      hide Progress, Array.Valid, Array.Order, Tried, Ids, Distinct, Swapped;
      ghost var d := View();
      Accepted(d0, outs0, d, outs, v, i, tried, refused);
      var item := pipes.Get(i);
      p := item.pipe;
      if !outs[p].open { Refused(d0, outs0, d, outs, v, i, tried, refused); }
      ok := Write(item, v);
    }

    // The loop of distribute (): every matching pipe is tried exactly once, although
    // refusals reorder the array under it.
    method WriteAll(v: Value) returns (failed: nat)
      requires Valid()
      modifies this`matching, this`active, this`eligible, this`outs, pipes, pipes.Members()
      ensures Valid() && FanOut(old(View()), old(outs), View(), outs, v)
      ensures failed == old(matching) - |Accepting(old(outs), old(Matching(View())))|
    {
      ghost var d0, outs0, tried, refused := View(), outs, {}, {};
      StartProgress(d0, outs0, v);
      FanOutSizes(d0, outs0);
      hide Progress, AllTried, Accepting, Ids, Distinct, All, WellFormed, Dist.Valid;
      var i := 0;
      failed := 0;
      while i < matching
        invariant Valid() && pipes.Members() == old(pipes.Members())
        invariant Progress(d0, outs0, View(), outs, v, i, tried, refused)
        invariant refused <= tried && failed == |refused|
        decreases matching - i
      {
        var ok;
        ghost var p;
        ok, p := TryAt(i, v, d0, outs0, tried, refused);
        tried := tried + {p};
        if ok {
          i := i + 1;
        } else {
          refused := refused + {p};
          failed := failed + 1;
        }
      }
      EndProgress(d0, outs0, View(), outs, v, i, tried, refused);
    }

    lemma Sizes()
      requires Valid()
      ensures var m := Matching(View()); var ok := Accepting(outs, m);
        |ok| <= |m| == matching && (matching == 0 ==> ok == {})
      ensures matching == 0 ==> forall v :: FanOut(View(), outs, View(), outs, v)
    {
      FanOutSizes(View(), outs);
      forall v | matching == 0 ensures FanOut(View(), outs, View(), outs, v) { NoFanOut(View(), outs, v); }
    }

    // What is done to the message leaves the pipes alone.
    method Promise(msg: Message, refs: nat)
      requires Valid() && Holds(msg.v)
      modifies msg, if msg.v.Lmsg? then {msg.v.content} else {}
      ensures Valid() && View() == old(View()) && pipes.Members() == old(pipes.Members())
      ensures Holds(msg.v) && msg.v == if old(msg.v).Lmsg? && refs > 0 then old(msg.v).(shared := true) else old(msg.v)
      ensures msg.v.Lmsg? ==> msg.v.content.holders == old(msg.v.content.holders) + refs
    {
      msg.AddRefs(refs);
    }

    method Drop(msg: Message)
      requires Valid() && Holds(msg.v) && !msg.v.Closed?
      modifies msg, if msg.v.Lmsg? then {msg.v.content} else {}
      ensures Valid() && View() == old(View())
      ensures msg.v == Empty && (old(msg.v).Lmsg? ==> LetGo(old(msg.v).content, 1))
    {
      msg.Drop();
    }

    method Detach(msg: Message, unused: nat)
      requires Valid() && Holds(msg.v) && !msg.v.Closed?
      requires msg.v.Lmsg? ==> unused <= msg.v.content.holders
      modifies msg, if msg.v.Lmsg? then {msg.v.content} else {}
      ensures Valid() && View() == old(View())
      ensures msg.v == Empty && (old(msg.v).Lmsg? ==> LetGo(old(msg.v).content, unused))
    {
      msg.Detach(unused);
    }

    // Hands the message to every matching pipe and drops what is left of it: the
    // content has one holder more for each pipe that accepted, less one.
    method Distribute(msg: Message)
      requires Valid() && Holds(msg.v) && !msg.v.Closed?
      modifies this`matching, this`active, this`eligible, this`outs, pipes, pipes.Members(), msg,
        if msg.v.Lmsg? then {msg.v.content} else {}
      ensures Valid() && msg.v == Empty
      ensures FanOut(old(View()), old(outs), View(), outs, Shared(old(msg.v), old(matching)))
      ensures old(msg.v).Lmsg? ==> Passed(old(msg.v).content, |Accepting(old(outs), old(Matching(View())))|)
    {
      hide FanOut, Ids, Distinct, Array.Order, WellFormed, Accepting, Dist.Valid;
      ghost var d := View();
      Sizes();
      if matching == 0 {
        Drop(msg);
        return;
      }
      if msg.v.Vsm? {
        var failed := WriteAll(msg.v);
        Drop(msg);
        return;
      }
      Promise(msg, matching - 1);
      var failed := WriteAll(msg.v);
      Detach(msg, failed);
    }

    // Sends to the pipes that match.  At the end of a message all that are eligible
    // become active.
    method SendToMatching(msg: Message)
      requires Valid() && Holds(msg.v) && !msg.v.Closed?
      modifies this`matching, this`active, this`eligible, this`outs, this`more, pipes, pipes.Members(), msg,
        if msg.v.Lmsg? then {msg.v.content} else {}
      ensures Valid() && msg.v == Empty && more == More(old(msg.v))
      ensures SentTo(old(View()), old(outs), View(), outs, old(msg.v))
      ensures Handed(old(outs), outs, old(Matching(View())), old(msg.v), Shared(old(msg.v), old(matching)))
      ensures old(msg.v).Lmsg? ==> Passed(old(msg.v).content, |Accepting(old(outs), old(Matching(View())))|)
    {
      hide FanOut, SentTo, Ids, Distinct, Array.Order, Accepting, AllTried, Handed, Shared;
      var msgMore := More(msg.v);
      Distribute(msg);
      ghost var d := View();
      if !msgMore {
        active := eligible;
      }
      more := msgMore;
      FanOutSends(old(View()), old(outs), d, View(), outs, old(msg.v));
      AllTriedHands(old(outs), old(Matching(View())), old(msg.v), old(matching));
    }

    method SendToAll(msg: Message)
      requires Valid() && Holds(msg.v) && !msg.v.Closed?
      modifies this`matching, this`active, this`eligible, this`outs, this`more, pipes, pipes.Members(), msg,
        if msg.v.Lmsg? then {msg.v.content} else {}
      ensures Valid() && msg.v == Empty
      ensures SentTo(old(View()).(matching := old(active)), old(outs), View(), outs, old(msg.v))
      ensures RegionsOf(View()) == SentToAll(RegionsOf(old(View())), Open(old(outs)), More(old(msg.v)))
      ensures Handed(old(outs), outs, old(Active(View())), old(msg.v), Shared(old(msg.v), old(active)))
      ensures old(msg.v).Lmsg? ==> Passed(old(msg.v).content, |Accepting(old(outs), old(Active(View())))|)
    {
      hide FanOut, Ids, Distinct, Array.Order, Accepting, AllTried, Handed, Shared;
      matching := active;
      SendToMatching(msg);
    }
  }

  // The holder of c has passed it on to n others, and nobody has it left when n is 0.
  twostate predicate Passed(c: Content, n: nat)
    reads c
  {
    c.holders == old(c.holders) - 1 + n && c.freed == (c.holders == 0)
  }
}
