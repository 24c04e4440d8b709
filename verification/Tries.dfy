/** The abstract value of a subscription multi-trie: a trie whose children are
    an ordinary map, without the sliding child window of mtrie_t.  A trie stands
    for a total function from topic prefixes to sets of pipes (At). */
module Tries {
  import opened Basics

  type Byte = b: nat | b < 256
  type Key = seq<Byte>
  type PipeId = nat

  datatype Trie = Trie(pipes: set<PipeId>, kids: map<Byte, Trie>)

  const Leaf := Trie({}, map[])

  // --- The meaning of a trie ---

  // The pipes subscribed to exactly the prefix k.
  function At(t: Trie, k: Key): set<PipeId> {
    if k == [] then t.pipes
    else if k[0] in t.kids then At(t.kids[k[0]], k[1..])
    else {}
  }

  // Whether the trie has a node for the prefix k, subscribed to or not.
  predicate Has(t: Trie, k: Key) {
    k == [] || (k[0] in t.kids && Has(t.kids[k[0]], k[1..]))
  }

  // The pipes a message with topic data is for: those of every prefix of data.
  function MatchingPipes(t: Trie, data: Key): set<PipeId> {
    set n, p | 0 <= n <= |data| && p in At(t, data[..n]) :: p
  }

  // No non-root node lacks both subscribers and children.
  ghost predicate Pruned(t: Trie) {
    forall c | c in t.kids :: t.kids[c] != Leaf && Pruned(t.kids[c])
  }

  // --- The operations ---

  function Kid(t: Trie, c: Byte): Trie {
    if c in t.kids then t.kids[c] else Leaf
  }

  // Puts kid below the character c, or nothing when kid is redundant.
  function SetKid(t: Trie, c: Byte, kid: Trie): Trie {
    t.(kids := if kid == Leaf then t.kids - {c} else t.kids[c := kid])
  }

  function Add(t: Trie, k: Key, p: PipeId): Trie
    decreases |k|
  {
    if k == [] then t.(pipes := t.pipes + {p})
    else SetKid(t, k[0], Add(Kid(t, k[0]), k[1..], p))
  }

  function Rm(t: Trie, k: Key, p: PipeId): Trie {
    if k == [] then t.(pipes := t.pipes - {p})
    else if k[0] !in t.kids then t
    else SetKid(t, k[0], Rm(t.kids[k[0]], k[1..], p))
  }

  function RmPipe(t: Trie, p: PipeId): Trie {
    Trie(t.pipes - {p}, map c | c in t.kids && RmPipe(t.kids[c], p) != Leaf :: RmPipe(t.kids[c], p))
  }

  // --- What the operations do to the meaning ---

  lemma {:induction false} AddMeaning(t: Trie, k: Key, p: PipeId, q: Key)
    ensures At(Add(t, k, p), q) == At(t, q) + (if q == k then {p} else {})
    decreases |k|
  {
    if k != [] && q != [] {
      AddMeaning(Kid(t, k[0]), k[1..], p, q[1..]);
      assert q == [q[0]] + q[1..] && k == [k[0]] + k[1..];
    }
  }

  lemma {:induction false} RmMeaning(t: Trie, k: Key, p: PipeId, q: Key)
    ensures At(Rm(t, k, p), q) == At(t, q) - (if q == k then {p} else {})
    decreases |k|
  {
    if k != [] && q != [] && k[0] in t.kids {
      RmMeaning(t.kids[k[0]], k[1..], p, q[1..]);
      assert q == [q[0]] + q[1..] && k == [k[0]] + k[1..];
    }
  }

  lemma {:induction false} RmPipeMeaning(t: Trie, p: PipeId, q: Key)
    ensures At(RmPipe(t, p), q) == At(t, q) - {p}
    decreases |q|
  {
    if q != [] && q[0] in t.kids {
      RmPipeMeaning(t.kids[q[0]], p, q[1..]);
    }
  }

  // --- Removing a pipe everywhere, one child after the other ---

  // The trie once RmPipe has reached the children below the character x.
  function RmPipeBelow(t: Trie, p: PipeId, x: nat): Trie {
    Trie(t.pipes - {p},
         map c | c in t.kids && (c < x ==> RmPipe(t.kids[c], p) != Leaf) ::
           if c < x then RmPipe(t.kids[c], p) else t.kids[c])
  }

  // One step of that: the pipe leaves the subtree of c.
  function RmPipeAt(t: Trie, p: PipeId, c: Byte): Trie {
    if c in t.kids then SetKid(t, c, RmPipe(t.kids[c], p)) else t
  }

  lemma RmPipeBelowStep(t: Trie, p: PipeId, x: Byte)
    ensures RmPipeBelow(t, p, x + 1) == RmPipeAt(RmPipeBelow(t, p, x), p, x)
    ensures Kid(RmPipeBelow(t, p, x), x) == Kid(t, x) && (x in RmPipeBelow(t, p, x).kids <==> x in t.kids)
  {
    assert RmPipeBelow(t, p, x + 1).kids == RmPipeAt(RmPipeBelow(t, p, x), p, x).kids;
  }

  lemma RmPipeBelowGap(t: Trie, p: PipeId, x: nat, y: nat)
    requires x <= y && forall c | c in t.kids :: !(x <= c < y)
    ensures RmPipeBelow(t, p, x) == RmPipeBelow(t, p, y)
  {
    assert RmPipeBelow(t, p, x).kids == RmPipeBelow(t, p, y).kids;
  }

  lemma RmPipeBelowEnds(t: Trie, p: PipeId)
    ensures RmPipeBelow(t, p, 0) == t.(pipes := t.pipes - {p})
    ensures RmPipeBelow(t, p, 256) == RmPipe(t, p)
  {
    assert RmPipeBelow(t, p, 0).kids == t.kids;
    assert RmPipeBelow(t, p, 256).kids == RmPipe(t, p).kids;
  }

  // The prefixes rm (pipe) reports, in its order: those below prefix that lose
  // their last subscriber.
  function Orphans(t: Trie, p: PipeId, prefix: Key): seq<Key>
    decreases t, 258
  {
    (if t.pipes == {p} then [prefix] else []) + OrphansBelow(t, p, prefix, 256)
  }

  function OrphansBelow(t: Trie, p: PipeId, prefix: Key, x: nat): seq<Key>
    requires x <= 256
    decreases t, x + 1
  {
    if x == 0 then []
    else OrphansBelow(t, p, prefix, x - 1) + OrphansAt(t, p, prefix, x - 1)
  }

  function OrphansAt(t: Trie, p: PipeId, prefix: Key, c: Byte): seq<Key>
    decreases t, 0
  {
    if c in t.kids then Orphans(t.kids[c], p, prefix + [c]) else []
  }

  lemma {:induction false} OrphansBelowGap(t: Trie, p: PipeId, prefix: Key, x: nat, y: nat)
    requires x <= y <= 256 && forall c | c in t.kids :: !(x <= c < y)
    ensures OrphansBelow(t, p, prefix, x) == OrphansBelow(t, p, prefix, y)
  {
    if x < y { OrphansBelowGap(t, p, prefix, x, y - 1); }
  }

  lemma RmPipeChildless(t: Trie, p: PipeId, prefix: Key)
    requires t.kids == map[] && p !in t.pipes
    ensures RmPipe(t, p) == t && Orphans(t, p, prefix) == []
  {
    RmPipeBelowEnds(t, p);
    RmPipeBelowGap(t, p, 0, 256);
    OrphansBelowGap(t, p, prefix, 0, 256);
  }

  lemma OnlyKid(t: Trie, p: PipeId, prefix: Key, c: Byte)
    requires t.kids.Keys == {c} && p !in t.pipes
    ensures RmPipe(t, p) == SetKid(t, c, RmPipe(t.kids[c], p))
    ensures Orphans(t, p, prefix) == Orphans(t.kids[c], p, prefix + [c])
  {
    assert RmPipe(t, p) == SetKid(t, c, RmPipe(t.kids[c], p)) by {
      hide RmPipe, RmPipeBelow, SetKid;
      RmPipeBelowEnds(t, p);
      RmPipeBelowGap(t, p, 0, c);
      RmPipeBelowStep(t, p, c);
      RmPipeBelowGap(t, p, c + 1, 256);
      assert t.pipes - {p} == t.pipes;
    }
    hide RmPipe, RmPipeBelow, SetKid;
    OrphansBelowGap(t, p, prefix, 0, c);
    OrphansBelowGap(t, p, prefix, c + 1, 256);
  }

  // Once the pipe has left the root, only the subtrees remain.
  lemma RmPipeFromRoot(t: Trie, p: PipeId, prefix: Key)
    ensures var t' := t.(pipes := t.pipes - {p});
      && RmPipe(t, p) == RmPipe(t', p)
      && Orphans(t, p, prefix) == (if t.pipes == {p} then [prefix] else []) + Orphans(t', p, prefix)
  {
    var t' := t.(pipes := t.pipes - {p});
    assert RmPipe(t, p).kids == RmPipe(t', p).kids;
    OrphansOfKids(t, t', p, prefix, 256);
  }

  lemma {:induction false} OrphansOfKids(t: Trie, t': Trie, p: PipeId, prefix: Key, x: nat)
    requires t.kids == t'.kids && x <= 256
    ensures OrphansBelow(t, p, prefix, x) == OrphansBelow(t', p, prefix, x)
  {
    if x > 0 { OrphansOfKids(t, t', p, prefix, x - 1); }
  }

  // --- Pruning ---

  lemma {:induction false} AddKeepsPruned(t: Trie, k: Key, p: PipeId)
    requires Pruned(t)
    ensures Pruned(Add(t, k, p)) && Add(t, k, p) != Leaf
    decreases |k|
  {
    if k != [] {
      AddKeepsPruned(Kid(t, k[0]), k[1..], p);
      assert k[0] in Add(t, k, p).kids;
    }
  }

  lemma {:induction false} RmKeepsPruned(t: Trie, k: Key, p: PipeId)
    requires Pruned(t)
    ensures Pruned(Rm(t, k, p))
    decreases |k|
  {
    if k != [] && k[0] in t.kids {
      RmKeepsPruned(t.kids[k[0]], k[1..], p);
    }
  }

  lemma {:induction false} RmPipeKeepsPruned(t: Trie, p: PipeId)
    requires Pruned(t)
    ensures Pruned(RmPipe(t, p))
  {
    forall c | c in t.kids ensures Pruned(RmPipe(t.kids[c], p)) {
      RmPipeKeepsPruned(t.kids[c], p);
    }
  }

  // Some prefix with a subscriber: pruned tries have one below every node.
  ghost function SomeKey(t: Trie): (k: Key)
    requires Pruned(t) && t != Leaf
    ensures At(t, k) != {}
  {
    if t.pipes != {} then []
    else
      assert t.kids != map[];
      var c :| c in t.kids;
      [c] + SomeKey(t.kids[c])
  }

  lemma {:induction false} SubscriptionsHaveNodes(t: Trie, k: Key, q: Key)
    requires k <= q && At(t, q) != {}
    ensures Has(t, k)
    decreases |k|
  {
    if k != [] { SubscriptionsHaveNodes(t.kids[k[0]], k[1..], q[1..]); }
  }

  lemma {:induction false} NodesHaveSubscriptions(t: Trie, k: Key) returns (q: Key)
    requires Pruned(t) && Has(t, k) && t != Leaf
    ensures k <= q && At(t, q) != {}
    decreases |k|
  {
    if k == [] {
      q := SomeKey(t);
    } else {
      var q' := NodesHaveSubscriptions(t.kids[k[0]], k[1..]);
      q := [k[0]] + q';
      assert q[1..] == q' && k == [k[0]] + k[1..];
    }
  }

  // In a pruned trie a node exists for exactly the prefixes of subscriptions.
  lemma HasIffSubscribedBelow(t: Trie, k: Key)
    requires Pruned(t)
    ensures Has(t, k) <==> k == [] || exists q: Key :: k <= q && At(t, q) != {}
  {
    if k != [] && Has(t, k) {
      var q := NodesHaveSubscriptions(t, k);
    }
    forall q: Key | k <= q && At(t, q) != {} ensures Has(t, k) {
      SubscriptionsHaveNodes(t, k, q);
    }
  }

  // --- Canonical form ---

  lemma {:induction false} SubsetOfKids(a: Trie, b: Trie)
    requires Pruned(a) && Pruned(b)
    requires forall k :: At(a, k) == At(b, k)
    ensures a.kids.Keys <= b.kids.Keys
  {
    forall c | c in a.kids ensures c in b.kids {
      var k := [c] + SomeKey(a.kids[c]);
      assert k[1..] == SomeKey(a.kids[c]);
      assert At(a, k) == At(b, k);
    }
  }

  // Two pruned tries that mean the same map are the same trie: the trie does
  // not remember the order in which subscriptions came and went.
  lemma {:induction false} Canonical(a: Trie, b: Trie)
    requires Pruned(a) && Pruned(b)
    requires forall k :: At(a, k) == At(b, k)
    ensures a == b
  {
    assert a.pipes == b.pipes by { assert At(a, []) == At(b, []); }
    SubsetOfKids(a, b);
    SubsetOfKids(b, a);
    forall c | c in a.kids ensures a.kids[c] == b.kids[c] {
      forall k ensures At(a.kids[c], k) == At(b.kids[c], k) {
        assert ([c] + k)[1..] == k;
        assert At(a, [c] + k) == At(b, [c] + k);
      }
      Canonical(a.kids[c], b.kids[c]);
    }
    assert a.kids == b.kids;
  }

  // Adding a fresh subscription and removing it restores the identical trie.
  lemma AddThenRm(t: Trie, k: Key, p: PipeId)
    requires Pruned(t) && p !in At(t, k)
    ensures Rm(Add(t, k, p), k, p) == t
  {
    AddKeepsPruned(t, k, p);
    RmKeepsPruned(Add(t, k, p), k, p);
    forall q ensures At(Rm(Add(t, k, p), k, p), q) == At(t, q) {
      AddMeaning(t, k, p, q);
      RmMeaning(Add(t, k, p), k, p, q);
    }
    Canonical(Rm(Add(t, k, p), k, p), t);
  }

  // --- The result of Rm ---

  // The value mtrie_t::rm (prefix) returns: the node exists and ends up
  // without subscribers.
  predicate RmResult(t: Trie, k: Key, p: PipeId) {
    Has(t, k) && At(t, k) - {p} == {}
  }

  // The declaration promises true exactly for an actual removal that leaves no
  // subscriber.  The code also returns true for a prefix nobody is subscribed
  // to, exactly when it is the root or a proper prefix of some subscription.
  lemma RmResultAgainstPromise(t: Trie, k: Key, p: PipeId)
    requires Pruned(t)
    ensures (RmResult(t, k, p) == (p in At(t, k) && At(Rm(t, k, p), k) == {}))
       <==> !(At(t, k) == {} && (k == [] || exists q: Key :: k <= q && At(t, q) != {}))
  {
    HasIffSubscribedBelow(t, k);
    RmMeaning(t, k, p, k);
    if At(t, k) != {} { assert k <= k; }
  }

  // A concrete case: nobody ever subscribed to "A", one pipe to "AB".
  lemma RmResultCounterexample()
    ensures var t := Add(Leaf, [65, 66], 7);
      At(t, [65]) == {} && RmResult(t, [65], 7) && Rm(t, [65], 7) == t
  {
    var t := Add(Leaf, [65, 66], 7);
    assert [65, 66][1..] == [66];
    assert t.kids[65] == Add(Leaf, [66], 7);
    AddThenRm(Leaf, [65, 66], 7);
    AddKeepsPruned(Leaf, [65, 66], 7);
    RmKeepsPruned(t, [65], 7);
    forall q ensures At(Rm(t, [65], 7), q) == At(t, q) { RmMeaning(t, [65], 7, q); }
    Canonical(Rm(t, [65], 7), t);
  }

  // --- Matching ---

  // The signals match sends for a message: one for each prefix of data and
  // each pipe subscribed to it.
  function Signals(t: Trie, data: Key): multiset<PipeId> {
    multiset(t.pipes)
    + if data != [] && data[0] in t.kids then Signals(t.kids[data[0]], data[1..]) else multiset{}
  }

  // How many prefixes of data the pipe is subscribed to.
  function Subscriptions(t: Trie, data: Key, p: PipeId): set<nat> {
    set n: nat | n <= |data| && p in At(t, data[..n])
  }

  lemma SubscriptionsBelow(t: Trie, data: Key, p: PipeId)
    requires data != [] && data[0] in t.kids
    ensures Subscriptions(t, data, p)
         == (if p in t.pipes then {0} else {}) + Shift(Subscriptions(t.kids[data[0]], data[1..], p))
  {
    var subs, below := Subscriptions(t, data, p), Subscriptions(t.kids[data[0]], data[1..], p);
    assert data[..0] == [];
    forall n: nat | 0 < n <= |data| ensures n in subs <==> n - 1 in below {
      assert data[..n][1..] == data[1..][..n - 1];
    }
    forall n | n in subs && n > 0 ensures n in Shift(below) {
      assert n - 1 in below;
    }
  }

  lemma SubscriptionsHere(t: Trie, data: Key, p: PipeId)
    requires data == [] || data[0] !in t.kids
    ensures Subscriptions(t, data, p) == if p in t.pipes then {0} else {}
  {
    assert data[..0] == [];
    forall n: nat | 0 < n <= |data| ensures n !in Subscriptions(t, data, p) {
      assert data[..n][0] == data[0];
    }
  }

  // match signals each pipe as often as it has subscriptions that apply, and
  // so exactly the pipes subscribed to some prefix of the data.
  lemma {:induction false} SignalsCountSubscriptions(t: Trie, data: Key, p: PipeId)
    ensures Signals(t, data)[p] == |Subscriptions(t, data, p)|
    decreases |data|
  {
    if data != [] && data[0] in t.kids {
      SignalsCountSubscriptions(t.kids[data[0]], data[1..], p);
      SubscriptionsBelow(t, data, p);
      ShiftSize(Subscriptions(t.kids[data[0]], data[1..], p));
    } else {
      SubscriptionsHere(t, data, p);
    }
  }

  function Shift(s: set<nat>): (r: set<nat>)
    ensures forall x: nat :: x in r <==> x > 0 && x - 1 in s
  {
    var r := set n | n in s :: n + 1;
    assert forall n | n in s :: n + 1 in r;
    r
  }

  lemma {:induction false} ShiftSize(s: set<nat>)
    ensures |Shift(s)| == |s|
  {
    if s != {} {
      var n :| n in s;
      ShiftSize(s - {n});
      assert Shift(s) == Shift(s - {n}) + {n + 1};
    }
  }

  lemma SignalsAreMatchingPipes(t: Trie, data: Key, p: PipeId)
    ensures p in Signals(t, data) <==> p in MatchingPipes(t, data)
  {
    SignalsCountSubscriptions(t, data, p);
    var subs := Subscriptions(t, data, p);
    if p in MatchingPipes(t, data) {
      var n :| 0 <= n <= |data| && p in At(t, data[..n]);
      assert n in subs;
    }
    if subs != {} {
      var n :| n in subs;
      assert p in At(t, data[..n]);
    }
  }

  // --- What rm (pipe) reports ---

  lemma {:induction false} OrphansExtend(t: Trie, p: PipeId, prefix: Key, k: Key)
    requires k in Orphans(t, p, prefix)
    ensures prefix <= k && At(t, k[|prefix|..]) == {p}
    decreases t, 257
  {
    if k in OrphansBelow(t, p, prefix, 256) {
      OrphansBelowExtend(t, p, prefix, 256, k);
    }
  }

  lemma {:induction false} OrphansBelowExtend(t: Trie, p: PipeId, prefix: Key, x: nat, k: Key)
    requires x <= 256 && k in OrphansBelow(t, p, prefix, x)
    ensures prefix < k && k[|prefix|] < x && At(t, k[|prefix|..]) == {p}
    decreases t, x
  {
    if k in OrphansBelow(t, p, prefix, x - 1) {
      OrphansBelowExtend(t, p, prefix, x - 1, k);
    } else {
      OrphansExtend(t.kids[x - 1], p, prefix + [x - 1], k);
      assert k[|prefix|..][1..] == k[|prefix + [x - 1]|..];
    }
  }

  lemma {:induction false} OrphansComplete(t: Trie, p: PipeId, prefix: Key, q: Key)
    requires At(t, q) == {p}
    ensures prefix + q in Orphans(t, p, prefix)
    decreases |q|, 257
  {
    if q == [] {
      assert prefix + q == prefix;
    } else {
      OrphansComplete(t.kids[q[0]], p, prefix + [q[0]], q[1..]);
      assert prefix + [q[0]] + q[1..] == prefix + q;
      OrphansBelowHas(t, p, prefix, q[0], 256, prefix + q);
    }
  }

  lemma {:induction false} OrphansBelowHas(t: Trie, p: PipeId, prefix: Key, c: Byte, x: nat, k: Key)
    requires c < x <= 256 && c in t.kids && k in Orphans(t.kids[c], p, prefix + [c])
    ensures k in OrphansBelow(t, p, prefix, x)
  {
    if c < x - 1 { OrphansBelowHas(t, p, prefix, c, x - 1, k); }
  }

  lemma {:induction false} OrphansDistinct(t: Trie, p: PipeId, prefix: Key)
    ensures Distinct(Orphans(t, p, prefix))
    decreases t, 257
  {
    OrphansBelowDistinct(t, p, prefix, 256);
    var below := OrphansBelow(t, p, prefix, 256);
    forall i | 0 <= i < |below| ensures below[i] != prefix {
      OrphansBelowExtend(t, p, prefix, 256, below[i]);
    }
  }

  lemma {:induction false} OrphansBelowDistinct(t: Trie, p: PipeId, prefix: Key, x: nat)
    requires x <= 256
    ensures Distinct(OrphansBelow(t, p, prefix, x))
    decreases t, x
  {
    if x > 0 {
      OrphansBelowDistinct(t, p, prefix, x - 1);
      if x - 1 in t.kids {
        OrphansDistinct(t.kids[x - 1], p, prefix + [x - 1]);
        var a, b := OrphansBelow(t, p, prefix, x - 1), Orphans(t.kids[x - 1], p, prefix + [x - 1]);
        forall i, j | 0 <= i < |a| && 0 <= j < |b| ensures a[i] != b[j] {
          OrphansBelowExtend(t, p, prefix, x - 1, a[i]);
          OrphansExtend(t.kids[x - 1], p, prefix + [x - 1], b[j]);
        }
      }
    }
  }

  // rm (pipe) reports each prefix whose only subscriber is the pipe, exactly
  // once and spelled out, and no other prefix.
  lemma OrphansAreSoleSubscriptions(t: Trie, p: PipeId)
    ensures Distinct(Orphans(t, p, []))
    ensures forall k: Key :: k in Orphans(t, p, []) <==> At(t, k) == {p}
  {
    OrphansDistinct(t, p, []);
    forall k: Key ensures k in Orphans(t, p, []) <==> At(t, k) == {p} {
      if k in Orphans(t, p, []) {
        OrphansExtend(t, p, [], k);
        assert k[0..] == k;
      }
      if At(t, k) == {p} {
        OrphansComplete(t, p, [], k);
        assert [] + k == k;
      }
    }
  }
}
