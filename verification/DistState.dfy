/** dist_t as nested regions of one array: matching pipes first, then active, then
    eligible ones, then those that are full. */
module DistStates {
  import opened Arrays
  import opened Basics

  datatype State = State(order: seq<PipeId>, matching: nat, active: nat, eligible: nat, more: bool)

  predicate Nested(d: State) { d.matching <= d.active <= d.eligible <= |d.order| }

  ghost predicate WellFormed(d: State) {
    Distinct(d.order) && Nested(d) && (!d.more ==> d.active == d.eligible)
  }

  lemma NestedOf(d: State)
    requires WellFormed(d)
    ensures Nested(d)
  {
  }

  function Matching(d: State): set<PipeId>
    requires Nested(d)
  {
    Ids(d.order[..d.matching])
  }

  function Active(d: State): set<PipeId>
    requires Nested(d)
  {
    Ids(d.order[..d.active])
  }

  function Eligible(d: State): set<PipeId>
    requires Nested(d)
  {
    Ids(d.order[..d.eligible])
  }

  function All(d: State): set<PipeId> { Ids(d.order) }

  // --- The operations on the array ---

  function Attached(d: State, p: PipeId): State
    requires Nested(d)
  {
    var o := d.order + [p];
    if d.more then d.(order := Swapped(o, d.eligible, |o| - 1), eligible := d.eligible + 1)
    else d.(order := Swapped(o, d.active, |o| - 1), active := d.active + 1, eligible := d.eligible + 1)
  }

  function Matched(d: State, i: nat): State
    requires Nested(d) && i < |d.order|
  {
    if i < d.matching || i >= d.eligible then d
    else d.(order := Swapped(d.order, i, d.matching), matching := d.matching + 1)
  }

  function Below(i: nat, n: nat): nat { if i < n then n - 1 else n }

  function Terminated(d: State, i: nat): State
    requires Nested(d) && i < |d.order|
  {
    d.(order := Erased(d.order, i), matching := Below(i, d.matching), active := Below(i, d.active),
       eligible := Below(i, d.eligible))
  }

  function Activated(d: State, i: nat): State
    requires Nested(d) && d.eligible <= i < |d.order|
  {
    var o, e := Swapped(d.order, i, d.eligible), d.eligible + 1;
    if d.more then d.(order := o, eligible := e)
    else d.(order := Swapped(o, e - 1, d.active), eligible := e, active := d.active + 1)
  }

  // A matching pipe that has refused a message leaves all three regions.
  function Demoted(d: State, i: nat): State
    requires Nested(d) && i < d.matching
  {
    var o1 := Swapped(d.order, i, d.matching - 1);
    var o2 := Swapped(o1, d.matching - 1, d.active - 1);
    var o3 := Swapped(o2, d.active - 1, d.eligible - 1);
    State(o3, d.matching - 1, d.active - 1, d.eligible - 1, d.more)
  }

  // --- What they do to the regions ---

  lemma PrefixOfAppend(s: seq<PipeId>, p: PipeId, n: nat)
    requires n <= |s|
    ensures (s + [p])[..n] == s[..n]
  {
  }

  lemma TakeNext(s: seq<PipeId>, n: nat)
    requires n < |s|
    ensures Ids(s[..n + 1]) == Ids(s[..n]) + {s[n]}
  {
    assert s[..n + 1] == s[..n] + [s[n]];
  }

  // A pipe attached in the middle of a message is only eligible.
  lemma AttachedRegions(d: State, p: PipeId)
    requires WellFormed(d) && p !in d.order
    ensures var d' := Attached(d, p);
      && WellFormed(d') && All(d') == All(d) + {p} && Eligible(d') == Eligible(d) + {p}
      && Active(d') == Active(d) + (if d.more then {} else {p}) && Matching(d') == Matching(d)
  {
    var o, n := d.order + [p], |d.order|;
    var e := if d.more then d.eligible else d.active;
    var d' := Attached(d, p);
    SwappedDistinct(o, e, n);
    SwappedPrefix(o, e, n, d.matching);
    SwappedPrefix(o, e, n, d.active);
    SwappedPrefix(o, e, n, d.eligible);
    PrefixOfAppend(d.order, p, d.matching);
    PrefixOfAppend(d.order, p, d.active);
    PrefixOfAppend(d.order, p, d.eligible);
    TakeNext(d'.order, e);
    assert d'.order[e] == p;
  }

  // Between messages an eligible pipe becomes a matching one, others do not.
  lemma MatchedRegions(d: State, i: nat)
    requires WellFormed(d) && i < |d.order| && !d.more
    ensures var d' := Matched(d, i);
      && WellFormed(d') && All(d') == All(d) && Eligible(d') == Eligible(d) && Active(d') == Active(d)
      && Matching(d') == Matching(d) + (Eligible(d) * {d.order[i]})
  {
    var d' := Matched(d, i);
    if i < d.matching {
      assert d.order[..d.matching][i] == d.order[i];
      assert d.order[..d.eligible][i] == d.order[i];
    } else if i >= d.eligible {
      assert d.order[i] !in d.order[..d.eligible];
    } else {
      SwappedDistinct(d.order, i, d.matching);
      SwappedPrefix(d.order, i, d.matching, d.matching);
      SwappedPrefix(d.order, i, d.matching, d.active);
      TakeNext(d'.order, d.matching);
      assert d'.order[d.matching] == d.order[i];
      assert d.order[..d.eligible][i] == d.order[i];
    }
  }

  lemma TerminatedRegions(d: State, i: nat)
    requires WellFormed(d) && i < |d.order|
    ensures WellFormed(Terminated(d, i)) && All(Terminated(d, i)) == All(d) - {d.order[i]}
  {
    ErasedDistinct(d.order, i);
  }

  lemma NotEligible(d: State, i: nat)
    requires Nested(d) && i < |d.order| && d.order[i] !in Eligible(d)
    ensures i >= d.eligible
  {
    assert forall j | 0 <= j < d.eligible :: d.order[..d.eligible][j] == d.order[j];
  }

  lemma ActivatedRegions(d: State, i: nat)
    requires WellFormed(d) && d.eligible <= i < |d.order|
    ensures var d' := Activated(d, i); var p := d.order[i];
      && WellFormed(d') && All(d') == All(d) && Eligible(d') == Eligible(d) + {p}
      && Active(d') == Active(d) + (if d.more then {} else {p}) && Matching(d') == Matching(d)
  {
    var d', p, e := Activated(d, i), d.order[i], d.eligible;
    var o := Swapped(d.order, i, e);
    SwappedDistinct(d.order, i, e);
    SwappedPrefix(d.order, i, e, d.matching);
    SwappedPrefix(d.order, i, e, d.active);
    SwappedPrefix(d.order, i, e, e);
    TakeNext(o, e);
    assert o[e] == p;
    if !d.more { assert d'.order == o; }
  }

  lemma DropLast(s: seq<PipeId>, n: nat)
    requires Distinct(s) && 0 < n <= |s|
    ensures Ids(s[..n - 1]) == Ids(s[..n]) - {s[n - 1]}
  {
    TakeNext(s, n - 1);
    assert s[n - 1] !in s[..n - 1];
  }

  // Moving the pipe at i to the end of the first n takes it out of the first n - 1.
  lemma MovedOut(s: seq<PipeId>, i: nat, n: nat)
    requires Distinct(s) && i < n <= |s|
    ensures var r := Swapped(s, i, n - 1);
      && Distinct(r) && Ids(r) == Ids(s) && Ids(r[..n]) == Ids(s[..n])
      && Ids(r[..n - 1]) == Ids(s[..n]) - {s[i]} && r[n - 1] == s[i] && r[..i] == s[..i] && r[n..] == s[n..]
  {
    SwappedDistinct(s, i, n - 1);
    SwappedPrefix(s, i, n - 1, n);
    DropLast(Swapped(s, i, n - 1), n);
  }

  // The three swaps, and where each leaves the pipe that was at i.
  lemma DemotedOrder(d: State, i: nat) returns (o1: seq<PipeId>, o2: seq<PipeId>, o3: seq<PipeId>)
    requires Distinct(d.order) && Nested(d) && i < d.matching
    ensures var m, a, e := d.matching - 1, d.active - 1, d.eligible - 1;
      && |o1| == |o2| == |o3| == |d.order| && Demoted(d, i) == State(o3, m, a, e, d.more)
      && o1 == Swapped(d.order, i, m) && o2 == Swapped(o1, m, a) && o3 == Swapped(o2, a, e)
      && o1[m] == o2[a] == d.order[i]
    ensures Distinct(o1) && Distinct(o2) && Distinct(o3)
    ensures Ids(o3) == Ids(d.order) && o3[..i] == d.order[..i]
  {
    hide Swapped, Ids, Distinct;
    var m, a, e := d.matching - 1, d.active - 1, d.eligible - 1;
    o1 := Swapped(d.order, i, m);
    MovedOut(d.order, i, m + 1);
    o2 := Swapped(o1, m, a);
    MovedOut(o1, m, a + 1);
    o3 := Swapped(o2, a, e);
    MovedOut(o2, a, e + 1);
    Slices(o3, o2, a, m);
    Slices(o3, o1, m, i);
  }

  lemma DemotedRegions(d: State, i: nat)
    requires Distinct(d.order) && Nested(d) && i < d.matching
    ensures var d' := Demoted(d, i); var p := d.order[i];
      && Distinct(d'.order) && Nested(d') && (d.active == d.eligible ==> d'.active == d'.eligible)
      && All(d') == All(d) && Eligible(d') == Eligible(d) - {p} && Active(d') == Active(d) - {p}
      && Matching(d') == Matching(d) - {p} && d'.order[..i] == d.order[..i]
  {
    hide Swapped, Ids, Distinct, Demoted;
    var m, a, e := d.matching - 1, d.active - 1, d.eligible - 1;
    var o1, o2, o3 := DemotedOrder(d, i);
    assert Matching(Demoted(d, i)) == Matching(d) - {d.order[i]} by {
      MovedOut(d.order, i, m + 1);
      SwappedPrefix(o1, m, a, m);
      SwappedPrefix(o2, a, e, m);
    }
    assert Active(Demoted(d, i)) == Active(d) - {d.order[i]} by {
      SwappedPrefix(d.order, i, m, a + 1);
      MovedOut(o1, m, a + 1);
      SwappedPrefix(o2, a, e, a);
    }
    assert Eligible(Demoted(d, i)) == Eligible(d) - {d.order[i]} by {
      SwappedPrefix(d.order, i, m, e + 1);
      SwappedPrefix(o1, m, a, e + 1);
      MovedOut(o2, a, e + 1);
    }
  }

  lemma Slices(s: seq<PipeId>, t: seq<PipeId>, n: nat, k: nat)
    requires k <= n <= |s| && n <= |t| && s[..n] == t[..n]
    ensures s[..k] == t[..k]
  {
    assert s[..k] == s[..n][..k] && t[..k] == t[..n][..k];
  }

  // --- The regions as sets ---

  datatype Regions = Regions(all: set<PipeId>, eligible: set<PipeId>, active: set<PipeId>, matching: set<PipeId>, more: bool)

  function RegionsOf(d: State): Regions
    requires Nested(d)
  {
    Regions(All(d), Eligible(d), Active(d), Matching(d), d.more)
  }

  // One part is sent to the matching pipes, of which only those in open accept;
  // the last part of a message lets all that are eligible in.
  function Sent(r: Regions, open: set<PipeId>, more: bool): Regions {
    var lost := r.matching - open;
    var e := r.eligible - lost;
    Regions(r.all, e, if more then r.active - lost else e, r.matching - lost, more)
  }

  function SentToAll(r: Regions, open: set<PipeId>, more: bool): Regions {
    Sent(r.(matching := r.active), open, more)
  }

  function Joined(r: Regions, p: PipeId): Regions {
    r.(all := r.all + {p}, eligible := r.eligible + {p}, active := r.active + if r.more then {} else {p})
  }

  // --- Messages of several parts ---

  // The k-th part of the m-th message.
  datatype Part = Part(message: nat, index: nat)

  datatype Run = Run(r: Regions, message: nat, index: nat, got: map<PipeId, set<Part>>)

  // Joining is attaching a pipe, or reactivating one that was full.
  datatype Op = Join(p: PipeId) | SendPart(open: set<PipeId>, more: bool)

  function Step(s: Run, op: Op): Run {
    match op
    case Join(p) =>
      Run(Joined(s.r, p), s.message, s.index, if p in s.got then s.got else s.got[p := {}])
    case SendPart(open, more) =>
      var ok := s.r.active * open;
      Run(SentToAll(s.r, open, more), if more then s.message else s.message + 1, if more then s.index + 1 else 0,
          map p | p in s.got :: s.got[p] + if p in ok then {Part(s.message, s.index)} else {})
  }

  function Steps(s: Run, ops: seq<Op>): Run {
    if ops == [] then s else Step(Steps(s, ops[..|ops| - 1]), ops[|ops| - 1])
  }

  const NewRun := Run(Regions({}, {}, {}, {}, false), 0, 0, map[])

  ghost predicate Complete(s: Run) {
    && s.r.active <= s.r.eligible <= s.r.all == s.got.Keys && (s.r.more <==> s.index > 0)
    && (forall p, x | p in s.got && x in s.got[p] && x.index > 0 :: Part(x.message, x.index - 1) in s.got[p])
    && (forall p | p in s.r.active && s.index > 0 :: Part(s.message, s.index - 1) in s.got[p])
  }

  lemma SendKeepsComplete(s: Run, open: set<PipeId>, more: bool)
    requires Complete(s)
    ensures Complete(Step(s, SendPart(open, more)))
  {
    var t, ok, now := Step(s, SendPart(open, more)), s.r.active * open, Part(s.message, s.index);
    assert t.r.all == s.r.all && t.r.more == more && t.r.active <= t.r.eligible <= s.r.eligible;
    assert more ==> t.r.active == ok;
    forall p, x | p in t.got && x in t.got[p] && x.index > 0 ensures Part(x.message, x.index - 1) in t.got[p] {
      if p in ok && x == now {
        assert Part(s.message, s.index - 1) in s.got[p];
      } else {
        assert x in s.got[p];
      }
    }
  }

  lemma JoinKeepsComplete(s: Run, p: PipeId)
    requires Complete(s)
    ensures Complete(Step(s, Join(p)))
  {
    var t := Step(s, Join(p));
    forall q | q in s.got ensures t.got[q] == s.got[q] {}
    hide Joined;
    assert t.r == Joined(s.r, p);
    JoinedRegions(s.r, p);
  }

  lemma JoinedRegions(r: Regions, p: PipeId)
    ensures var r' := Joined(r, p);
      && r'.all == r.all + {p} && r'.more == r.more && r'.matching == r.matching && r'.active == r.active + (if r.more then {} else {p})
      && r'.eligible == r.eligible + {p}
  {
  }

  // Whoever gets a later part of a message has got all earlier ones, whatever
  // pipes join or fill up in the middle of it.
  lemma {:induction false} NoPartWithoutEarlierOnes(ops: seq<Op>)
    ensures Complete(Steps(NewRun, ops))
  {
    hide Step;
    if ops != [] {
      var s, op := Steps(NewRun, ops[..|ops| - 1]), ops[|ops| - 1];
      NoPartWithoutEarlierOnes(ops[..|ops| - 1]);
      hide Complete;
      match op
      case Join(p) => JoinKeepsComplete(s, p);
      case SendPart(open, more) => SendKeepsComplete(s, open, more);
    }
  }

  // --- Messages for those who match ---

  // A part is sent to the pipes marked for its message: the eligible ones among to for
  // the first part, those that have taken all parts so far for a later one.
  function Published(r: Regions, to: set<PipeId>, open: set<PipeId>, more: bool): Regions {
    var s := Sent(if r.more then r else r.(matching := r.eligible * to), open, more);
    if more then s else s.(matching := {})
  }

  function Audience(r: Regions, to: set<PipeId>): set<PipeId> {
    if r.more then r.matching else r.eligible * to
  }

  datatype PubOp = PubJoin(p: PipeId) | Publish(to: set<PipeId>, open: set<PipeId>, more: bool)

  function PubStep(s: Run, op: PubOp): Run {
    match op
    case PubJoin(p) =>
      Run(Joined(s.r, p), s.message, s.index, if p in s.got then s.got else s.got[p := {}])
    case Publish(to, open, more) =>
      var ok := Audience(s.r, to) * open;
      Run(Published(s.r, to, open, more), if more then s.message else s.message + 1, if more then s.index + 1 else 0,
          map p | p in s.got :: s.got[p] + if p in ok then {Part(s.message, s.index)} else {})
  }

  function PubSteps(s: Run, ops: seq<PubOp>): Run {
    if ops == [] then s else PubStep(PubSteps(s, ops[..|ops| - 1]), ops[|ops| - 1])
  }

  // Those marked have all parts of the message so far, and between messages nobody is.
  ghost predicate Marked(s: Run) {
    && s.r.matching <= s.r.eligible <= s.r.all == s.got.Keys && (s.r.more <==> s.index > 0)
    && (!s.r.more ==> s.r.matching == {})
    && (forall p, x | p in s.got && x in s.got[p] && x.index > 0 :: Part(x.message, x.index - 1) in s.got[p])
    && (forall p | p in s.r.matching :: Part(s.message, s.index - 1) in s.got[p])
  }

  lemma PublishKeepsMarked(s: Run, to: set<PipeId>, open: set<PipeId>, more: bool)
    requires Marked(s)
    ensures Marked(PubStep(s, Publish(to, open, more)))
  {
    var t, ok, now := PubStep(s, Publish(to, open, more)), Audience(s.r, to) * open, Part(s.message, s.index);
    assert t.r.all == s.r.all && t.r.more == more && t.r.matching <= t.r.eligible <= s.r.eligible;
    assert more ==> t.r.matching == ok;
    assert s.index > 0 ==> Audience(s.r, to) == s.r.matching;
    forall p, x | p in t.got && x in t.got[p] && x.index > 0 ensures Part(x.message, x.index - 1) in t.got[p] {
      if p in ok && x == now {
        assert Part(s.message, s.index - 1) in s.got[p];
      } else {
        assert x in s.got[p];
      }
    }
  }

  lemma PubJoinKeepsMarked(s: Run, p: PipeId)
    requires Marked(s)
    ensures Marked(PubStep(s, PubJoin(p)))
  {
    var t := PubStep(s, PubJoin(p));
    forall q | q in s.got ensures t.got[q] == s.got[q] {}
    assert t.r.matching == s.r.matching;
    hide Joined;
    assert t.r == Joined(s.r, p);
    JoinedRegions(s.r, p);
  }

  // Whatever pipes join or fill up in the middle of a message, nobody gets a later part
  // of it without the earlier ones.
  lemma {:induction false} PublishedInOrder(ops: seq<PubOp>)
    ensures Marked(PubSteps(NewRun, ops))
  {
    hide PubStep;
    if ops != [] {
      var s, op := PubSteps(NewRun, ops[..|ops| - 1]), ops[|ops| - 1];
      PublishedInOrder(ops[..|ops| - 1]);
      hide Marked;
      match op
      case PubJoin(p) => PubJoinKeepsMarked(s, p);
      case Publish(to, open, more) => PublishKeepsMarked(s, to, open, more);
    }
  }
}
