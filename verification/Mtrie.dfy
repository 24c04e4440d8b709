/** mtrie_t: the heap form of a subscription trie.  Every method is proved
    against the abstract trie of module Tries. */
module Mtries {
  import opened Basics
  import opened Tries
  import opened Windows

  // The pointer to the subscriber set.
  datatype PipeSet = Null | Allocated(members: set<PipeId>)

  function Members(pipes: PipeSet): set<PipeId> {
    if pipes.Null? then {} else pipes.members
  }

  // A child pointer, and for the proof the objects of its subtree.
  datatype Ref = Ref(node: Mtrie, ghost repr: set<Mtrie>)

  // --- What the fields of one node have to satisfy ---

  ghost predicate Covered(w: Window<Ref>, n: Mtrie)
    requires Fits(w)
  {
    exists c: Byte :: Get(w, c).Some? && n in Get(w, c).value.repr
  }

  // A node's objects are itself and the objects of its subtrees, all separate.
  ghost predicate Separate(self: Mtrie, w: Window<Ref>, repr: set<Mtrie>)
    requires Fits(w)
  {
    && self in repr
    && (forall c: Byte {:trigger Get(w, c).value} | Get(w, c).Some? ::
          var r := Get(w, c).value; r.node in r.repr && r.repr <= repr && self !in r.repr)
    && (forall c: Byte, d: Byte {:trigger Get(w, c).value, Get(w, d).value} | Get(w, c).Some? && Get(w, d).Some? && c != d ::
          Get(w, c).value.repr !! Get(w, d).value.repr)
    && (forall n {:trigger Covered(w, n)} | n in repr && n != self :: Covered(w, n))
  }

  // The fields agree with the trie the node stands for.
  ghost predicate Depicts(pipes: PipeSet, w: Window<Ref>, t: Trie)
    requires Fits(w)
  {
    && (pipes.Allocated? ==> pipes.members != {})
    && t.pipes == Members(pipes)
    && (forall c: Byte :: c in t.kids <==> Get(w, c).Some?)
    && Pruned(t)
  }

  ghost predicate Counted(w: Window<Ref>, live: nat) {
    Fits(w) && live == |Live(w)|
  }

  ghost function BranchOf(w: Window<Ref>, c: Byte): set<Mtrie>
    requires Fits(w)
  {
    if Get(w, c).Some? then Get(w, c).value.repr else {}
  }

  // What a node has beside the subtree of c.
  ghost function Rest(self: Mtrie, w: Window<Ref>, repr: set<Mtrie>, c: Byte): set<Mtrie>
    requires Fits(w)
  {
    repr - {self} - BranchOf(w, c)
  }

  lemma RestHoldsBranches(self: Mtrie, w: Window<Ref>, repr: set<Mtrie>, c: Byte, d: Byte)
    requires Fits(w) && Separate(self, w, repr) && c != d && Get(w, d).Some?
    ensures Get(w, d).value.repr <= Rest(self, w, repr, c)
  {
  }

  lemma LooseHoldsItself(n: Mtrie)
    requires n.Loose()
    ensures n in n.Repr
  {
  }

  // Replacing the subtree of c, in whatever window, keeps subtrees separate.
  lemma SeparateWithBranch(self: Mtrie, w: Window<Ref>, repr: set<Mtrie>, c: Byte, w': Window<Ref>)
    requires Fits(w) && Separate(self, w, repr) && Fits(w')
    requires forall x: Byte | x != c :: Get(w', x) == Get(w, x)
    requires Get(w', c).Some? ==>
      var r := Get(w', c).value; r.node in r.repr && self !in r.repr && r.repr !! Rest(self, w, repr, c)
    ensures Separate(self, w', {self} + Rest(self, w, repr, c) + BranchOf(w', c))
    ensures Rest(self, w', {self} + Rest(self, w, repr, c) + BranchOf(w', c), c) == Rest(self, w, repr, c)
  {
    var rest := Rest(self, w, repr, c);
    forall n | n in rest ensures Covered(w', n) {
      assert Covered(w, n);
      var d: Byte :| Get(w, d).Some? && n in Get(w, d).value.repr;
      assert Get(w', d) == Get(w, d);
    }
    forall d: Byte | d != c && Get(w', d).Some? ensures Get(w', d).value.repr <= rest {
      RestHoldsBranches(self, w, repr, c, d);
    }
  }

  lemma DepictsWithKid(pipes: PipeSet, w: Window<Ref>, t: Trie, c: Byte, w': Window<Ref>, kid: Trie)
    requires Fits(w) && Fits(w') && Depicts(pipes, w, t) && Pruned(kid)
    requires forall x: Byte | x != c :: Get(w', x).Some? == Get(w, x).Some?
    requires Get(w', c).Some? <==> kid != Leaf
    ensures Depicts(pipes, w', SetKid(t, c, kid))
  {
  }

  // The fields stay loose when only the slot of c changes in the window.
  lemma LooseWithBranch(self: Mtrie, pipes: PipeSet, w: Window<Ref>, t: Trie, repr: set<Mtrie>,
                        c: Byte, w': Window<Ref>, kid: Trie, repr': set<Mtrie>)
    requires Fits(w) && Separate(self, w, repr) && Depicts(pipes, w, t) && Fits(w') && Pruned(kid)
    requires forall x: Byte | x != c :: Get(w', x) == Get(w, x)
    requires Get(w', c).Some? ==>
      var r := Get(w', c).value; r.node in r.repr && self !in r.repr && r.repr !! Rest(self, w, repr, c)
    requires Get(w', c).Some? <==> kid != Leaf
    requires repr' == {self} + Rest(self, w, repr, c) + BranchOf(w', c)
    ensures Separate(self, w', repr') && Depicts(pipes, w', SetKid(t, c, kid))
    ensures Rest(self, w', repr', c) == Rest(self, w, repr, c)
  {
    SeparateWithBranch(self, w, repr, c, w');
    DepictsWithKid(pipes, w, t, c, w', kid);
  }

  // --- What holds of whole sets of nodes ---

  // Every node of S is sound and keeps to S.
  ghost predicate Good(S: set<Mtrie>)
    reads S
  {
    forall n | n in S :: n.Repr <= S && n.Sound() && n.Linked() && n.Nested()
  }

  lemma GoodPart(S: set<Mtrie>, n: Mtrie)
    requires Good(S) && n in S
    ensures Good(n.Repr) && n.Valid()
  {
    assert n.Sound();
    forall m | m in n.Repr ensures m.Sound() && m.Linked() && m.Nested() {
      assert m in S;
    }
  }

  lemma GoodUnion(S: set<Mtrie>, T: set<Mtrie>)
    requires Good(S) && Good(T)
    ensures Good(S + T)
  {
  }

  twostate lemma UntouchedIsGood(S: set<Mtrie>)
    requires old(Good(S)) && unchanged(S)
    ensures Good(S)
  {
  }

  // --- Taking a node apart ---

  // The subtree of n that m is in.
  lemma Branch(n: Mtrie, m: Mtrie) returns (c: Byte)
    requires n.Ready() && m in n.Repr && m != n
    ensures Get(n.window, c).Some? && m in Get(n.window, c).value.repr
    ensures m.Repr <= Get(n.window, c).value.repr
  {
    hide Depicts, Live;
    c := SlotOf(n, n.window, n.Repr, m);
    var child := Get(n.window, c).value.node;
    assert child in n.Repr - {n};
    assert child.Nested();
  }

  // The slot whose subtree m is in.
  lemma SlotOf(self: Mtrie, w: Window<Ref>, repr: set<Mtrie>, m: Mtrie) returns (c: Byte)
    requires Fits(w) && Separate(self, w, repr) && m in repr && m != self
    ensures Get(w, c).Some?
    ensures var r := Get(w, c).value; m in r.repr && r.node in repr && r.repr <= repr && self !in r.repr
  {
    assert Covered(w, m);
    c :| Get(w, c).Some? && m in Get(w, c).value.repr;
    assert Get(w, c).value.node in repr;
  }

  lemma InBranch(n: Mtrie, m: Mtrie)
    requires n.Valid() && m in n.Repr && m != n
    ensures m.Repr <= n.Repr - {n}
  {
    hide Separate, Depicts, Live, Tight;
    assert n.Sound() && n.Linked();
    var c := SlotOf(n, n.window, n.Repr, m);
    var r := Get(n.window, c).value;
    assert r.node.Nested() && r.node.Repr == r.repr;
  }

  lemma ValidIsReady(n: Mtrie)
    requires n.Valid()
    ensures n.Ready() && Tight(n.window, n.live)
  {
    assert n.Sound() && n.Linked();
    forall m | m in n.Repr && m != n ensures m.Repr <= n.Repr - {n} {
      InBranch(n, m);
    }
  }

  // The children of n other than that of c stand for the tries n says.
  ghost predicate LinkedBeside(n: Mtrie, c: Byte)
    requires n.Loose()
    reads n, n.Repr
  {
    forall d: Byte {:trigger Get(n.window, d).value} | d != c && Get(n.window, d).Some? ::
      var r := Get(n.window, d).value;
      r.node in Rest(n, n.window, n.Repr, c) && r.node.Repr == r.repr && r.node.tree == n.tree.kids[d]
  }

  lemma RestIsGood(n: Mtrie, c: Byte)
    requires n.Ready()
    ensures Good(Rest(n, n.window, n.Repr, c)) && LinkedBeside(n, c)
  {
    var rest := Rest(n, n.window, n.Repr, c);
    forall m | m in rest ensures m.Repr <= rest {
      var d := Branch(n, m);
      RestHoldsBranches(n, n.window, n.Repr, c, d);
    }
    forall d: Byte | d != c && Get(n.window, d).Some? ensures Get(n.window, d).value.node in rest {
      RestHoldsBranches(n, n.window, n.Repr, c, d);
    }
  }

  // The child of c: a valid node of its own, apart from n and the rest.
  lemma ChildIsApart(n: Mtrie, c: Byte)
    requires n.Ready()
    ensures if Get(n.window, c).None? then c !in n.tree.kids else
      var r := Get(n.window, c).value;
      && c in n.tree.kids && r.node.Valid() && r.node.Repr == r.repr && r.node.tree == n.tree.kids[c]
      && r.repr < n.Repr && n !in r.repr && r.repr !! Rest(n, n.window, n.Repr, c)
  {
    if Get(n.window, c).Some? {
      assert Get(n.window, c).value.node in n.Repr - {n};
      GoodPart(n.Repr - {n}, Get(n.window, c).value.node);
    }
  }

  lemma ReadyMeans(n: Mtrie)
    requires n.Ready()
    ensures Pruned(n.tree) && Members(n.pipes) == n.tree.pipes && n in n.Repr
    ensures n.pipes.Null? <==> n.tree.pipes == {}
    ensures n.IsRedundant() <==> n.tree == Leaf
  {
    if n.live == 0 {
      forall c: Byte ensures c !in n.tree.kids { assert c !in Live(n.window); }
      assert n.tree.kids == map[];
    } else {
      var c :| c in Live(n.window);
      assert c in n.tree.kids;
    }
  }

  lemma KidsInWindow(n: Mtrie)
    requires n.Ready()
    ensures forall c | c in n.tree.kids :: n.window.min <= c < n.window.min + n.window.count
  {
    forall c | c in n.tree.kids ensures Get(n.window, c).Some? {}
  }

  lemma SingleKid(n: Mtrie)
    requires n.Valid() && n.window.count == 1
    ensures Get(n.window, n.window.min).Some? && n.tree.kids.Keys == {n.window.min} && n.live == 1
  {
    hide Good, Separate, Mtrie.Linked, Mtrie.Sound;
    ValidIsReady(n);
    PointerIsOnly(n.window, n.live);
  }

  // --- Putting a node together ---

  twostate lemma BesideStays(n: Mtrie, new c: Byte)
    requires old(n.Loose())
    requires old(Good(Rest(n, n.window, n.Repr, c)))
    requires old(LinkedBeside(n, c))
    requires n.Loose()
    requires Rest(n, n.window, n.Repr, c) == old(Rest(n, n.window, n.Repr, c))
    requires unchanged(Rest(n, n.window, n.Repr, c))
    requires forall d: Byte | d != c :: Get(n.window, d) == old(Get(n.window, d))
    requires forall d: Byte | d != c :: Kid(n.tree, d) == old(Kid(n.tree, d))
    ensures Good(Rest(n, n.window, n.Repr, c)) && LinkedBeside(n, c)
  {
    UntouchedIsGood(Rest(n, n.window, n.Repr, c));
    hide Good;
    forall d: Byte | d != c && Get(n.window, d).Some?
      ensures Get(n.window, d).value.node in Rest(n, n.window, n.Repr, c)
      ensures var r := Get(n.window, d).value; r.node.Repr == r.repr && r.node.tree == n.tree.kids[d]
    {
      assert Get(n.window, d) == old(Get(n.window, d)) && Kid(n.tree, d) == old(Kid(n.tree, d));
      assert Get(n.window, d).value == old(Get(n.window, d).value);
    }
  }

  lemma LooseInWindow(self: Mtrie, pipes: PipeSet, w: Window<Ref>, t: Trie, repr: set<Mtrie>, w': Window<Ref>)
    requires Fits(w) && Separate(self, w, repr) && Depicts(pipes, w, t)
    requires Fits(w') && forall x: Byte :: Get(w', x) == Get(w, x)
    ensures Separate(self, w', repr) && Depicts(pipes, w', t)
  {
    forall n | n in repr && n != self ensures Covered(w', n) {
      assert Covered(w, n);
      var d: Byte :| Get(w, d).Some? && n in Get(w, d).value.repr;
      assert Get(w', d) == Get(w, d);
    }
  }

  // The links of a node do not depend on the form of its window.
  twostate lemma Relink(n: Mtrie)
    requires old(n.Loose())
    requires old(n.Linked())
    requires n.Loose() && n.tree == old(n.tree) && n.Repr == old(n.Repr)
    requires forall x: Byte :: Get(n.window, x) == old(Get(n.window, x))
    requires unchanged(n.Repr - {n})
    ensures n.Linked()
  {
    forall c: Byte | Get(n.window, c).Some?
      ensures var r := Get(n.window, c).value; r.node in n.Repr && r.node.Repr == r.repr && r.node.tree == n.tree.kids[c]
    {
      assert Get(n.window, c) == old(Get(n.window, c)) && Get(n.window, c).value == old(Get(n.window, c).value);
      assert Get(n.window, c).value.node in n.Repr - {n};
    }
  }

  lemma AssembleReady(n: Mtrie, c: Byte)
    requires n.Loose() && LinkedBeside(n, c) && Good(Rest(n, n.window, n.Repr, c))
    requires Get(n.window, c).Some? ==>
      var r := Get(n.window, c).value; Good(r.repr) && r.node.Repr == r.repr && r.node.tree == n.tree.kids[c]
    ensures n.Ready()
  {
    var rest := Rest(n, n.window, n.Repr, c);
    if Get(n.window, c).Some? {
      var r := Get(n.window, c).value;
      GoodUnion(rest, r.repr);
      assert n.Repr - {n} == rest + r.repr;
    } else {
      assert n.Repr - {n} == rest;
    }
  }

  lemma ReadyAndTight(n: Mtrie)
    requires n.Ready() && Tight(n.window, n.live)
    ensures n.Valid()
  {
    forall m | m in n.Repr ensures m.Repr <= n.Repr {
      assert m != n ==> m in n.Repr - {n};
    }
  }

  // --- The shape does not depend on history ---

  // The same fields in both nodes and, below them, the same shape.  min means
  // nothing in a node without children.
  ghost predicate SameShape(a: Mtrie, b: Mtrie)
    requires a.Valid() && b.Valid()
    reads a, b, a.Repr, b.Repr
    decreases a.Repr
  {
    ValidIsReady(a);
    ValidIsReady(b);
    && a.pipes == b.pipes && a.live == b.live && a.window.count == b.window.count
    && (a.window.count > 0 ==> a.window.min == b.window.min)
    && forall c: Byte ::
      ChildIsApart(a, c);
      ChildIsApart(b, c);
      && Get(a.window, c).Some? == Get(b.window, c).Some?
      && (Get(a.window, c).Some? ==> SameShape(Get(a.window, c).value.node, Get(b.window, c).value.node))
  }

  // Nodes that stand for the same trie have the same shape; with Canonical, the
  // shape is a function of the subscriptions alone.
  lemma {:induction false} SameTrieSameShape(a: Mtrie, b: Mtrie)
    requires a.Valid() && b.Valid() && a.tree == b.tree
    ensures SameShape(a, b)
    decreases a.Repr
  {
    hide Good, Separate, Mtrie.Linked, LinkedBeside;
    ValidIsReady(a);
    ValidIsReady(b);
    ReadyMeans(a);
    ReadyMeans(b);
    SameWindow(a.window, a.live, b.window, b.live);
    forall c: Byte | Get(a.window, c).Some?
      ensures Get(b.window, c).Some? && Get(a.window, c).value.node.Valid() && Get(b.window, c).value.node.Valid()
      ensures SameShape(Get(a.window, c).value.node, Get(b.window, c).value.node)
    {
      ChildIsApart(a, c);
      ChildIsApart(b, c);
      SameTrieSameShape(Get(a.window, c).value.node, Get(b.window, c).value.node);
    }
  }

  // The shape a node has does not remember in which order subscriptions came and went.
  lemma SameSubscriptionsSameShape(a: Mtrie, b: Mtrie)
    requires a.Valid() && b.Valid() && forall k :: At(a.tree, k) == At(b.tree, k)
    ensures SameShape(a, b)
  {
    hide Good, Separate, Mtrie.Linked, Mtrie.Sound, SameShape;
    ValidIsReady(a);
    ValidIsReady(b);
    ReadyMeans(a);
    ReadyMeans(b);
    Canonical(a.tree, b.tree);
    SameTrieSameShape(a, b);
  }

  // The growing buffer in which rm (pipe) spells the prefix it is at.
  class Buffer {
    var data: array<Byte>

    constructor ()
      ensures data.Length == 0 && fresh(data)
    {
      data := new Byte[0];
    }

    method Realloc(n: nat)
      modifies this
      ensures fresh(data) && data.Length == n
      ensures forall k | 0 <= k < n && k < old(data.Length) :: data[k] == old(data[k])
    {
      var d := new Byte[n];
      var k := 0;
      while k < n && k < data.Length
        modifies d
        invariant 0 <= k <= n && k <= data.Length
        invariant forall j | 0 <= j < k :: d[j] == data[j]
      {
        d[k] := data[k];
        k := k + 1;
      }
      data := d;
    }
  }

  // The caller's func_, which records the prefixes it is given.
  class Callback {
    var calls: seq<Key>

    method Invoke(data: Key)
      modifies this
      ensures calls == old(calls) + [data]
    {
      calls := calls + [data];
    }
  }

  class Mtrie {
    var pipes: PipeSet
    var window: Window<Ref>  // min, count and next
    var live: nat            // live_nodes

    ghost var tree: Trie     // the abstract value
    ghost var Repr: set<Mtrie>

    // The fields, whatever the ends of the window.
    ghost predicate Loose()
      reads this
    {
      Counted(window, live) && Separate(this, window, Repr) && Depicts(pipes, window, tree)
    }

    ghost predicate Sound()
      reads this
    {
      Loose() && Tight(window, live)
    }

    ghost predicate Nested()
      reads this, Repr
    {
      forall m | m in Repr :: m.Repr <= Repr
    }

    // The children stand for the tries this node says.
    ghost predicate Linked()
      requires Loose()
      reads this, Repr
    {
      forall c: Byte {:trigger Get(window, c).value} | Get(window, c).Some? ::
        var r := Get(window, c).value; r.node in Repr && r.node.Repr == r.repr && r.node.tree == tree.kids[c]
    }

    ghost predicate Ready()
      reads this, Repr
    {
      Loose() && Linked() && Good(Repr - {this})
    }

    ghost predicate Valid()
      reads this, Repr
      ensures Valid() ==> this in Repr
    {
      this in Repr && Good(Repr)
    }

    predicate IsRedundant()
      reads this
    {
      pipes.Null? && live == 0
    }

    constructor ()
      ensures Valid() && Repr == {this} && tree == Leaf && pipes.Null?
    {
      pipes := Null;
      window := Window(0, 0, None, []);
      live := 0;
      tree := Leaf;
      Repr := {this};
    }

    method Assign(p: PipeSet, w: Window<Ref>, l: nat, ghost t: Trie, ghost repr: set<Mtrie>)
      modifies this
      ensures pipes == p && window == w && live == l && tree == t && Repr == repr
    {
      pipes, window, live, tree, Repr := p, w, l, t, repr;
    }

    method SetPipes(p: PipeSet)
      requires Valid() && (p.Allocated? ==> p.members != {})
      modifies this
      ensures Valid() && Repr == old(Repr) && pipes == p
      ensures tree == old(tree).(pipes := Members(p))
      ensures window == old(window) && live == old(live)
    {
      ValidIsReady(this);
      ghost var t := tree;
      label before:
      Assign(p, window, live, t.(pipes := Members(p)), Repr);
      assert tree.kids == t.kids && Pruned(tree);
      UntouchedIsGood@before(Repr - {this});
      ReadyAndTight(this);
    }

    // Takes the window w' in which only the slot of c differs: it holds child,
    // or nothing if child became redundant.
    method Reseat(c: Byte, w': Window<Ref>, live': nat, child: Mtrie)
      requires Loose() && Good(Rest(this, window, Repr, c)) && LinkedBeside(this, c)
      requires child.Valid() && this !in child.Repr && child.Repr !! Rest(this, window, Repr, c)
      requires Counted(w', live') && forall x: Byte | x != c :: Get(w', x) == Get(window, x)
      requires Get(w', c) == if child.tree == Leaf then None else Some(Ref(child, child.Repr))
      modifies this
      ensures Ready() && window == w' && live == live' && pipes == old(pipes)
      ensures tree == SetKid(old(tree), c, child.tree)
      ensures Repr <= old(Repr) + child.Repr
    {
      hide Good, LinkedBeside, Separate, Depicts, Live, Mtrie.Ready, Mtrie.Linked, Mtrie.Sound, Mtrie.Nested;
      LooseHoldsItself(this);
      ValidIsReady(child);
      ReadyMeans(child);
      ghost var rest, more, kid := Rest(this, window, Repr, c), child.Repr, child.tree;
      ghost var repr := {this} + rest + BranchOf(w', c);
      LooseWithBranch(this, pipes, window, tree, Repr, c, w', kid, repr);
      label before:
      Assign(pipes, w', live', SetKid(tree, c, kid), repr);
      UntouchedIsGood@before(more);
      BesideStays@before(this, c);
      AssembleReady(this, c);
    }

    // Stores a useful child below c in the window w.
    method Graft(c: Byte, w: Window<Ref>, live': nat, child: Mtrie)
      requires Loose() && Good(Rest(this, window, Repr, c)) && LinkedBeside(this, c)
      requires child.Valid() && child.tree != Leaf
      requires this !in child.Repr && child.Repr !! Rest(this, window, Repr, c)
      requires Tight(window, live) && WidenedTo(window, w, c)
      requires live' == if Get(window, c).Some? then live else live + 1
      modifies this
      ensures Valid() && tree == SetKid(old(tree), c, child.tree) && Repr <= old(Repr) + child.Repr
    {
      hide Good, Separate, Depicts, LinkedBeside;
      StoreKeepsTight(window, live, w, c, Ref(child, child.Repr));
      Reseat(c, Store(w, c, Some(Ref(child, child.Repr))), live', child);
      ReadyAndTight(this);
    }

    // --- add ---

    // mtrie.cpp lines 132-147: the child for c, created if there is none.
    method Reach(w: Window<Ref>, c: Byte) returns (child: Mtrie, live': nat)
      requires Valid() && Fits(w) && Get(w, c) == Get(window, c)
      ensures Loose() && Tight(window, live) && Good(Rest(this, window, Repr, c)) && LinkedBeside(this, c)
      ensures child.Valid() && child.tree == Kid(tree, c) && Pruned(child.tree) && fresh(child.Repr - Repr)
      ensures this !in child.Repr && child.Repr !! Rest(this, window, Repr, c)
      ensures live' == if Get(window, c).Some? then live else live + 1
    {
      hide Good, Separate, Depicts, LinkedBeside, Mtrie.Linked, Mtrie.Sound, Mtrie.Nested, Live, Pruned;
      ValidIsReady(this);
      RestIsGood(this, c);
      ChildIsApart(this, c);
      if Get(w, c).None? {
        child := new Mtrie();
        live' := live + 1;
      } else {
        child, live' := Get(w, c).value.node, live;
      }
      ValidIsReady(child);
      ReadyMeans(child);
    }

    // mtrie.cpp lines 73-81: the subscription is for this node itself.
    method AddOwn(pipe: PipeId) returns (unique: bool)
      requires Valid()
      modifies this
      ensures Valid() && Repr == old(Repr)
      ensures tree == old(tree).(pipes := old(tree.pipes) + {pipe})
      ensures unique == (old(tree.pipes) == {})
    {
      hide Good, Separate, Depicts, LinkedBeside, Mtrie.Linked, Mtrie.Sound, Mtrie.Nested, Live, Pruned;
      ValidIsReady(this);
      ReadyMeans(this);
      unique := pipes.Null?;
      SetPipes(Allocated(Members(pipes) + {pipe}));
    }

    method Add(prefix: Key, pipe: PipeId) returns (unique: bool)
      requires Valid()
      modifies Repr
      ensures Valid() && fresh(Repr - old(Repr))
      ensures tree == Tries.Add(old(tree), prefix, pipe)
      ensures unique == (At(old(tree), prefix) == {})
      decreases |prefix|
    {
      hide Good, Separate, Depicts, LinkedBeside, Mtrie.Linked, Mtrie.Sound, Mtrie.Nested, Live, Pruned;
      if prefix == [] {
        unique := AddOwn(pipe);
        return;
      }
      ValidIsReady(this);
      var c := prefix[0];
      var w := Extend(window, c);
      var child, live' := Reach(w, c);
      AddKeepsPruned(child.tree, prefix[1..], pipe);
      label before:
      unique := child.Add(prefix[1..], pipe);
      assert fresh(child.Repr - old(Repr));
      BesideStays@before(this, c);
      Graft(c, w, live', child);
    }

    // --- rm (prefix, pipe) ---

    method Rm(prefix: Key, pipe: PipeId) returns (ret: bool)
      requires Valid()
      requires At(tree, prefix) == {} || pipe in At(tree, prefix)
      modifies Repr
      ensures Valid() && Repr <= old(Repr)
      ensures tree == Tries.Rm(old(tree), prefix, pipe)
      ensures ret == RmResult(old(tree), prefix, pipe)
      decreases |prefix|
    {
      hide Good, Separate, Depicts, LinkedBeside;
      ValidIsReady(this);
      ReadyMeans(this);
      if prefix == [] {
        if pipes.Allocated? {
          assert pipe in pipes.members;
          var left := pipes.members - {pipe};
          SetPipes(if left == {} then Null else Allocated(left));
        }
        ret := pipes.Null?;
        return;
      }
      var c := prefix[0];
      RestIsGood(this, c);
      ChildIsApart(this, c);
      if Get(window, c).None? {
        ret := false;
        return;
      }
      var child := Get(window, c).value.node;
      label before:
      ret := child.Rm(prefix[1..], pipe);
      BesideStays@before(this, c);
      ValidIsReady(child);
      ReadyMeans(child);
      if child.IsRedundant() {
        var w, l := Clear(window, live, c);
        Reseat(c, w, l, child);
        ReadyAndTight(this);
      } else {
        Graft(c, window, live, child);
      }
    }

    // --- rm (pipe) ---

    // Removes the pipe below one child; every other part of the node is left alone.
    method RmPipeChild(c: Byte, pipe: PipeId, buff: Buffer, size: nat, max: nat, func: Callback) returns (child: Mtrie)
      requires Ready() && Get(window, c).Some?
      requires size <= max <= buff.data.Length
      modifies Repr, buff, buff.data, func
      ensures child.Valid() && c in tree.kids && child.tree == RmPipe(tree.kids[c], pipe)
      ensures Loose() && Good(Rest(this, window, Repr, c)) && LinkedBeside(this, c)
      ensures this !in child.Repr && child.Repr <= old(Repr) && child.Repr !! Rest(this, window, Repr, c)
      ensures unchanged(this) && Get(window, c).value.node == child
      ensures func.calls == old(func.calls) + Orphans(tree.kids[c], pipe, old(buff.data[..size]))
      ensures buff.data == old(buff.data) || fresh(buff.data)
      ensures buff.data.Length >= max && buff.data[..size] == old(buff.data[..size])
      decreases Repr, 0
    {
      hide Good, Separate, Depicts, LinkedBeside;
      RestIsGood(this, c);
      ChildIsApart(this, c);
      child := Get(window, c).value.node;
      label before:
      child.RmAll(pipe, buff, size, max, func);
      BesideStays@before(this, c);
    }

    // mtrie.cpp lines 208-236: one turn of the loop over the table.
    method RmSlot(c: Byte, pipe: PipeId, buff: Buffer, size: nat, max: nat, func: Callback, newMin: Byte, newMax: Byte)
        returns (newMin': Byte, newMax': Byte)
      requires Ready()
      requires window.count > 1 && window.min <= c < window.min + window.count
      requires EndsSoFar(window, c - window.min, newMin, newMax)
      requires size < max <= buff.data.Length
      modifies Repr, buff, buff.data, func
      ensures Ready()
      ensures Repr <= old(Repr)
      ensures window.min == old(window.min) && window.count == old(window.count)
      ensures EndsSoFar(window, c - window.min + 1, newMin', newMax')
      ensures tree == RmPipeAt(old(tree), pipe, c)
      ensures func.calls == old(func.calls) + OrphansAt(old(tree), pipe, old(buff.data[..size]), c)
      ensures buff.data == old(buff.data) || fresh(buff.data)
      ensures buff.data.Length >= max && buff.data[..size] == old(buff.data[..size])
      decreases Repr, 1
    {
      hide Good, Separate, Depicts, LinkedBeside, Live, EndsSoFar, Mtrie.Linked, Mtrie.Sound, Mtrie.Nested, Pruned,
           RmPipe, Orphans;
      ReadyMeans(this);
      ChildIsApart(this, c);
      buff.data[size] := c;
      newMin', newMax' := newMin, newMax;
      if Get(window, c).Some? {
        ghost var prefix := old(buff.data[..size]);
        assert buff.data[..size + 1] == prefix + [c];
        var child := RmPipeChild(c, pipe, buff, size + 1, max, func);
        assert buff.data[..size] == buff.data[..size + 1][..size] == prefix;
        ValidIsReady(child);
        ReadyMeans(child);
        if child.IsRedundant() {
          StoreNone(window, c);
          assert live > 0;
          EndsStep(window, c - window.min, newMin, newMax, None, newMin', newMax');
          Reseat(c, Store(window, c, None), live - 1, child);
        } else {
          if c < newMin' { newMin' := c; }
          if c > newMax' { newMax' := c; }
          StoreSome(window, c, Ref(child, child.Repr));
          EndsStep(window, c - window.min, newMin, newMax, Some(Ref(child, child.Repr)), newMin', newMax');
          Reseat(c, Store(window, c, Some(Ref(child, child.Repr))), live, child);
        }
      } else {
        EndsStep(window, c - window.min, newMin, newMax, None, newMin', newMax');
        assert Store(window, c, None).table == window.table;
        assert buff.data[..size] == old(buff.data[..size]);
      }
    }

    // mtrie.cpp lines 185-199: the node has a single child.
    method RmSingle(pipe: PipeId, buff: Buffer, size: nat, max: nat, func: Callback)
      requires Valid() && window.count == 1 && pipe !in tree.pipes
      requires size < max <= buff.data.Length
      modifies Repr, buff, buff.data, func
      ensures Valid() && Repr <= old(Repr)
      ensures tree == RmPipe(old(tree), pipe)
      ensures func.calls == old(func.calls) + Orphans(old(tree), pipe, old(buff.data[..size]))
      ensures buff.data == old(buff.data) || fresh(buff.data)
      ensures buff.data.Length >= max && buff.data[..size] == old(buff.data[..size])
      decreases Repr, 2
    {
      hide Good, Separate, Depicts, LinkedBeside, Live;
      ValidIsReady(this);
      ReadyMeans(this);
      SingleKid(this);
      var c := window.min;
      ChildIsApart(this, c);
      OnlyKid(tree, pipe, buff.data[..size], c);
      buff.data[size] := c;
      assert buff.data[..size + 1] == old(buff.data[..size]) + [c];
      var child := RmPipeChild(c, pipe, buff, size + 1, max, func);
      assert buff.data[..size] == buff.data[..size + 1][..size];
      ValidIsReady(child);
      ReadyMeans(child);
      if child.IsRedundant() {
        EmptyIsTight(window, c);
        assert live - 1 == 0;
        Reseat(c, window.(node := None, count := 0), live - 1, child);
        ReadyAndTight(this);
      } else {
        Graft(c, window, live, child);
      }
    }

    // mtrie.cpp lines 202-236: the loop over the table of children.
    method RmLoop(pipe: PipeId, buff: Buffer, size: nat, max: nat, func: Callback) returns (newMin: Byte, newMax: Byte)
      requires Ready() && window.count > 1 && pipe !in tree.pipes
      requires size < max <= buff.data.Length
      modifies Repr, buff, buff.data, func
      ensures Ready() && Repr <= old(Repr) && window.count > 1
      ensures EndsSoFar(window, window.count, newMin, newMax)
      ensures tree == RmPipe(old(tree), pipe)
      ensures func.calls == old(func.calls) + Orphans(old(tree), pipe, old(buff.data[..size]))
      ensures buff.data == old(buff.data) || fresh(buff.data)
      ensures buff.data.Length >= max && buff.data[..size] == old(buff.data[..size])
      decreases Repr, 2
    {
      hide Good, Separate, Depicts, LinkedBeside, Live, EndsSoFar, Mtrie.Linked, Mtrie.Sound, Mtrie.Nested, Mtrie.Valid, Pruned,
           RmPipe, RmPipeBelow;
      ghost var t, prefix := tree, buff.data[..size];
      var lo, n := window.min, window.count;
      newMin, newMax := lo + n - 1, lo;
      ReadyMeans(this);
      KidsInWindow(this);
      EndsAtStart(window);
      RmPipeBelowEnds(t, pipe);
      RmPipeBelowGap(t, pipe, 0, lo);
      OrphansBelowGap(t, pipe, prefix, 0, lo);
      var i := 0;
      while i < n
        modifies Repr, buff, buff.data, func
        invariant 0 <= i <= n && lo + n <= 256 && window.min == lo && window.count == n
        invariant Ready() && Repr <= old(Repr)
        invariant EndsSoFar(window, i, newMin, newMax)
        invariant tree == RmPipeBelow(t, pipe, lo + i)
        invariant func.calls == old(func.calls) + OrphansBelow(t, pipe, prefix, lo + i)
        invariant buff.data == old(buff.data) || fresh(buff.data)
        invariant buff.data.Length >= max && buff.data[..size] == prefix
      {
        RmPipeBelowStep(t, pipe, lo + i);
        newMin, newMax := RmSlot(lo + i, pipe, buff, size, max, func, newMin, newMax);
        i := i + 1;
      }
      RmPipeBelowGap(t, pipe, lo + n, 256);
      OrphansBelowGap(t, pipe, prefix, lo + n, 256);
    }

    // mtrie.cpp lines 202-278: the node has a table of children.
    method RmTable(pipe: PipeId, buff: Buffer, size: nat, max: nat, func: Callback)
      requires Valid() && window.count > 1 && pipe !in tree.pipes
      requires size < max <= buff.data.Length
      modifies Repr, buff, buff.data, func
      ensures Valid() && Repr <= old(Repr)
      ensures tree == RmPipe(old(tree), pipe)
      ensures func.calls == old(func.calls) + Orphans(old(tree), pipe, old(buff.data[..size]))
      ensures buff.data == old(buff.data) || fresh(buff.data)
      ensures buff.data.Length >= max && buff.data[..size] == old(buff.data[..size])
      decreases Repr, 3
    {
      hide Good, Separate, Depicts, LinkedBeside, Live, EndsSoFar, Mtrie.Linked, Pruned;
      ValidIsReady(this);
      var newMin, newMax := RmLoop(pipe, buff, size, max, func);
      ReadyMeans(this);
      var w := Compact(window, live, newMin, newMax);
      Rewindow(w);
    }

    // The same children in a window with tight ends.
    method Rewindow(w: Window<Ref>)
      requires Ready() && Tight(w, live) && forall x: Byte :: Get(w, x) == Get(window, x)
      modifies this
      ensures Valid() && tree == old(tree) && Repr == old(Repr)
    {
      LooseInWindow(this, pipes, window, tree, Repr, w);
      hide Good, Separate, Depicts, Mtrie.Linked;
      label before:
      Assign(pipes, w, live, tree, Repr);
      UntouchedIsGood@before(Repr - {this});
      Relink@before(this);
      ReadyAndTight(this);
    }

    // mtrie.cpp lines 166-171: the subscription of this node itself.
    method RmOwn(pipe: PipeId, buff: Buffer, size: nat, func: Callback)
      requires Valid() && size <= buff.data.Length
      modifies this, func
      ensures Valid() && Repr == old(Repr)
      ensures tree == old(tree).(pipes := old(tree.pipes) - {pipe})
      ensures func.calls == old(func.calls) + if old(tree.pipes) == {pipe} then [buff.data[..size]] else []
    {
      hide Good, Separate, Depicts, LinkedBeside, Live, Mtrie.Linked, Pruned;
      ValidIsReady(this);
      ReadyMeans(this);
      if pipes.Allocated? && pipe in pipes.members {
        var left := pipes.members - {pipe};
        if left == {} {
          func.Invoke(buff.data[..size]);
          SetPipes(Null);
        } else {
          SetPipes(Allocated(left));
        }
      }
    }

    method RmAll(pipe: PipeId, buff: Buffer, size: nat, maxsize: nat, func: Callback)
      requires Valid()
      requires size <= maxsize <= buff.data.Length
      modifies Repr, buff, buff.data, func
      ensures Valid() && Repr <= old(Repr)
      ensures tree == RmPipe(old(tree), pipe)
      ensures func.calls == old(func.calls) + Orphans(old(tree), pipe, old(buff.data[..size]))
      ensures buff.data == old(buff.data) || fresh(buff.data)
      ensures buff.data.Length >= maxsize && buff.data[..size] == old(buff.data[..size])
      decreases Repr, 4
    {
      hide Good, Separate, Depicts, LinkedBeside, Live, Mtrie.Linked, Pruned, Mtrie.Sound;
      ghost var t, prefix := tree, buff.data[..size];
      RmPipeFromRoot(tree, pipe, prefix);
      RmOwn(pipe, buff, size, func);
      var max := maxsize;
      if size >= maxsize {
        max := size + 256;
        buff.Realloc(max);
      }
      assert buff.data[..size] == prefix;
      if window.count == 0 {
        ValidIsReady(this);
        KidsInWindow(this);
        assert tree.kids == map[];
        RmPipeChildless(tree, pipe, prefix);
      } else if window.count == 1 {
        RmSingle(pipe, buff, size, max, func);
      } else {
        RmTable(pipe, buff, size, max, func);
      }
    }

    // mtrie_t::rm (pipe): starts at the root with an empty buffer.
    method RmPipeEverywhere(pipe: PipeId, func: Callback)
      requires Valid()
      modifies Repr, func
      ensures Valid() && Repr <= old(Repr)
      ensures tree == RmPipe(old(tree), pipe)
      ensures func.calls == old(func.calls) + Orphans(old(tree), pipe, [])
    {
      var buff := new Buffer();
      assert buff.data[..0] == [];
      label before:
      RmAll(pipe, buff, 0, 0, func);
      assert old@before(buff.data[..0]) == [];
    }

    // --- match ---

    // mtrie_t::match: walks down the trie along data.
    method Match(data: Key) returns (signalled: seq<PipeId>)
      requires Valid()
      ensures multiset(signalled) == Signals(tree, data)
    {
      hide Good, Separate, Depicts, LinkedBeside, Live, Mtrie.Linked, Pruned;
      signalled := [];
      var current, rest := this, data;
      while true
        invariant current.Valid()
        invariant multiset(signalled) + Signals(current.tree, rest) == Signals(tree, data)
        decreases |rest|
      {
        ValidIsReady(current);
        ReadyMeans(current);
        if current.pipes.Allocated? {
          var called := CallEach(current.pipes.members);
          signalled := signalled + called;
        }
        if rest == [] {
          break;
        }
        var c := rest[0];
        ChildIsApart(current, c);
        if current.window.count == 0 || Get(current.window, c).None? {
          break;
        }
        current, rest := Get(current.window, c).value.node, rest[1..];
      }
    }
  }

  // Calls func_ for each member of a set, in the order of the set's iterator.
  method CallEach(members: set<PipeId>) returns (calls: seq<PipeId>)
    ensures multiset(calls) == multiset(members)
  {
    calls := [];
    var left := members;
    while left != {}
      invariant left <= members && multiset(calls) == multiset(members - left)
      decreases left
    {
      var p :| p in left;
      left := left - {p};
      calls := calls + [p];
    }
  }
}
