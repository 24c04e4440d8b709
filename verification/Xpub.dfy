/** xpub_t::xsend: the subscriptions decide who a message is for, the distributor
    hands it out.  items are the pipes, which the source names by pointers. */
module Xpubs {
  import opened Tries
  import opened Mtries
  import opened Arrays
  import opened Basics
  import opened DistStates
  import opened Dists
  import opened Messages

  ghost predicate Attached(dist: Dist, items: map<PipeId, Item>)
    reads dist, dist.pipes
  {
    forall p | p in items :: items[p] in dist.pipes.Members() && items[p].pipe == p
  }

  // mark_as_matching, for each pipe match reports, repeats included: each eligible
  // one ends up marked once.
  method MarkAll(dist: Dist, items: map<PipeId, Item>, reported: seq<PipeId>)
    requires dist.Valid() && !dist.more && Attached(dist, items)
    requires forall p | p in reported :: p in items
    modifies dist`matching, dist.pipes, dist.pipes.Members()
    ensures dist.Valid() && dist.pipes.Members() == old(dist.pipes.Members())
    ensures var r := old(RegionsOf(dist.View()));
      RegionsOf(dist.View()) == r.(matching := r.matching + (r.eligible * Ids(reported)))
  {
    hide RegionsOf, All;
    ghost var r := RegionsOf(dist.View());
    assert r.matching + (r.eligible * Ids(reported[..0])) == r.matching;
    for i := 0 to |reported|
      invariant dist.Valid() && dist.pipes.Members() == old(dist.pipes.Members()) && !dist.more
      invariant RegionsOf(dist.View()) == r.(matching := r.matching + (r.eligible * Ids(reported[..i])))
    {
      assert reported[..i + 1] == reported[..i] + [reported[i]];
      assert Ids(reported[..i + 1]) == Ids(reported[..i]) + {reported[i]};
      dist.Match(items[reported[i]]);
    }
    assert reported[..|reported|] == reported;
  }

  lemma Reported(t: Trie, data: Key, reported: seq<PipeId>)
    requires multiset(reported) == Signals(t, data)
    ensures Ids(reported) == MatchingPipes(t, data)
  {
    forall p ensures p in Ids(reported) <==> p in MatchingPipes(t, data) {
      assert p in reported <==> p in multiset(reported);
      SignalsAreMatchingPipes(t, data, p);
    }
  }

  // Before the first part of a message: who it is for.
  method Choose(subscriptions: Mtrie, dist: Dist, items: map<PipeId, Item>, data: Key)
    requires subscriptions.Valid() && dist.Valid() && !dist.more && Attached(dist, items)
    requires Matching(dist.View()) == {} && forall p | p in MatchingPipes(subscriptions.tree, data) :: p in items
    modifies dist`matching, dist.pipes, dist.pipes.Members()
    ensures dist.Valid() && dist.pipes.Members() == old(dist.pipes.Members())
    ensures var r := old(RegionsOf(dist.View()));
      RegionsOf(dist.View()) == r.(matching := r.eligible * MatchingPipes(subscriptions.tree, data))
  {
    var reported := subscriptions.Match(data);
    Reported(subscriptions.tree, data, reported);
    hide MatchingPipes, Signals;
    MarkAll(dist, items, reported);
  }

  lemma MatchingSize(d: State)
    requires WellFormed(d)
    ensures d.matching == |RegionsOf(d).matching|
  {
    IdsSize(d.order[..d.matching]);
  }

  // Sends to the marked pipes, and unmarks them after the last part.
  method SendMarked(dist: Dist, msg: Message) returns (msgMore: bool)
    requires dist.Valid() && Holds(msg.v) && !msg.v.Closed?
    modifies dist, dist.pipes, dist.pipes.Members(), msg, if msg.v.Lmsg? then {msg.v.content} else {}
    ensures dist.Valid() && dist.more == msgMore == More(old(msg.v)) && (!msgMore ==> Matching(dist.View()) == {})
    ensures msg.v == Empty
    ensures var r := old(RegionsOf(dist.View()));
      && dist.outs == AllTried(old(dist.outs), r.matching, Shared(old(msg.v), |r.matching|))
      && var s := Sent(r, Open(old(dist.outs)), msgMore);
      RegionsOf(dist.View()) == if msgMore then s else s.(matching := {})
  {
    hide AllTried, Sent, Open, Accepting, Ids, Distinct, Array.Order;
    msgMore := More(msg.v);
    MatchingSize(dist.View());
    dist.SendToMatching(msg);
    if !msgMore {
      dist.Unmatch();
    }
  }

  // The first part of a message is tried on each eligible pipe subscribed to a
  // prefix of it, exactly once, and on no other; a later part on those that have
  // taken all parts before.
  method Xsend(subscriptions: Mtrie, dist: Dist, items: map<PipeId, Item>, more: bool, msg: Message, data: Key)
      returns (msgMore: bool)
    requires subscriptions.Valid() && dist.Valid() && dist.more == more && Attached(dist, items)
    requires !more ==> Matching(dist.View()) == {}
    requires Holds(msg.v) && !msg.v.Closed?
    requires forall p | p in MatchingPipes(subscriptions.tree, data) :: p in items
    modifies dist, dist.pipes, dist.pipes.Members(), msg, if msg.v.Lmsg? then {msg.v.content} else {}
    ensures dist.Valid() && dist.more == msgMore == More(old(msg.v)) && (!msgMore ==> Matching(dist.View()) == {})
    ensures msg.v == Empty
    ensures var r, subscribed := old(RegionsOf(dist.View())), MatchingPipes(subscriptions.tree, data);
      var to := Audience(r, subscribed); var w := Shared(old(msg.v), |to|);
      && dist.outs == AllTried(old(dist.outs), to, w) && Handed(old(dist.outs), dist.outs, to, old(msg.v), w)
      && RegionsOf(dist.View()) == Published(r, subscribed, Open(old(dist.outs)), msgMore)
    ensures Sane(old(dist.outs)) ==>
      var to := Audience(old(RegionsOf(dist.View())), MatchingPipes(subscriptions.tree, data));
      var ok := Accepting(old(dist.outs), to);
      && Sane(dist.outs)
      && Unflushed(dist.outs) == if msgMore then Unflushed(old(dist.outs)) + ok else Unflushed(old(dist.outs)) - ok
  {
    hide AllTried, Sent, Open, Accepting, Unflushed, Sane, Handed, Shared, Ids, Distinct, Array.Order, MatchingPipes;
    ghost var to := Audience(RegionsOf(dist.View()), MatchingPipes(subscriptions.tree, data));
    if !more {
      Choose(subscriptions, dist, items, data);
    }
    assert RegionsOf(dist.View()).matching == to;
    msgMore := SendMarked(dist, msg);
    AllTriedHands(old(dist.outs), to, old(msg.v), |to|);
    if Sane(old(dist.outs)) { UnflushedAfter(old(dist.outs), dist.outs, to, old(msg.v), Shared(old(msg.v), |to|)); }
  }
}
