/** The child window of an mtrie_t node: characters [min, min + count) have a
    slot each; one slot is a plain pointer, several slots are a table. */
module Windows {
  import opened Basics
  import opened Tries

  // next is a union in the source: node counts when count == 1, table when count > 1.
  datatype Window<T> = Window(min: Byte, count: nat, node: Option<T>, table: seq<Option<T>>)

  predicate Fits<T>(w: Window<T>) {
    w.min + w.count <= 256 && (w.count > 1 ==> |w.table| == w.count)
  }

  // The child for c as the code reads it.
  function Get<T>(w: Window<T>, c: Byte): Option<T>
    requires Fits(w)
  {
    if c < w.min || c >= w.min + w.count then None
    else if w.count == 1 then w.node
    else w.table[c - w.min]
  }

  ghost function Live<T>(w: Window<T>): set<Byte>
    requires Fits(w)
  {
    set c: Byte | c < 256 && Get(w, c).Some?
  }

  // The window is no wider than its children need and live counts them.
  ghost predicate Tight<T>(w: Window<T>, live: nat) {
    && Fits(w)
    && live == |Live(w)|
    && (live == 0 ==> w.count == 0)
    && (w.count > 0 ==> Get(w, w.min).Some? && Get(w, w.min + w.count - 1).Some?)
  }

  function Store<T>(w: Window<T>, c: Byte, v: Option<T>): (w': Window<T>)
    requires Fits(w) && w.min <= c < w.min + w.count
    ensures Fits(w') && w'.min == w.min && w'.count == w.count
    ensures forall x: Byte :: Get(w', x) == if x == c then v else Get(w, x)
  {
    if w.count == 1 then w.(node := v) else w.(table := w.table[c - w.min := v])
  }

  // What Extend promises: the same children in the window widened just to c.
  ghost predicate WidenedTo<T>(w: Window<T>, w': Window<T>, c: Byte)
    requires Fits(w)
  {
    && Fits(w') && w'.min <= c < w'.min + w'.count
    && (forall x: Byte :: Get(w', x) == Get(w, x))
    && w'.min == (if w.count > 0 && w.min < c then w.min else c)
    && w'.min + w'.count == (if w.count > 0 && c < w.min + w.count then w.min + w.count else c + 1)
  }

  // mtrie.cpp lines 84-130: the narrowest window that also has a slot for c,
  // with every child where it was.
  method Extend<T>(w: Window<T>, c: Byte) returns (w': Window<T>)
    requires Fits(w)
    ensures WidenedTo(w, w', c)
  {
    w' := w;
    if c < w.min || c >= w.min + w.count {
      if w.count == 0 {
        w' := Window(c, 1, None, []);
      } else if w.count == 1 {
        var count := (if w.min < c then c - w.min else w.min - c) + 1;
        var table := seq(count, _ => None);
        var min := if w.min < c then w.min else c;
        table := table[w.min - min := w.node];
        w' := Window(min, count, None, table);
      } else if w.min < c {
        var count := c - w.min + 1;
        w' := w.(count := count, table := w.table + seq(count - w.count, _ => None));
      } else {
        var count := w.min + w.count - c;
        w' := w.(min := c, count := count, table := seq(w.min - c, _ => None) + w.table);
      }
    }
  }

  lemma StoreKeepsTight<T>(w: Window<T>, live: nat, w': Window<T>, c: Byte, v: T)
    requires Tight(w, live) && WidenedTo(w, w', c)
    ensures Tight(Store(w', c, Some(v)), if Get(w, c).Some? then live else live + 1)
  {
    var s := Store(w', c, Some(v));
    assert Live(s) == Live(w) + {c};
    if w.count > 0 {
      assert Get(w', w.min) == Get(w, w.min);
      assert Get(w', w.min + w.count - 1) == Get(w, w.min + w.count - 1);
    }
  }

  lemma SingletonSet(s: set<Byte>, a: Byte, b: Byte)
    requires |s| == 1 && a in s && b in s
    ensures a == b
  {
    assert |s - {a}| == 0;
    assert b !in s - {a};
  }

  // A child other than c, when there are several.
  lemma OtherChild<T>(w: Window<T>, live: nat, c: Byte) returns (x: Byte)
    requires Tight(w, live) && live > 1
    ensures x != c && Get(w, x).Some?
  {
    if Live(w) - {c} == {} {
      assert Live(w) <= {c};
      SubsetSize(Live(w), {c});
    }
    x :| x in Live(w) - {c};
  }

  lemma SeveralChildren<T>(w: Window<T>, live: nat)
    requires Tight(w, live) && w.count > 1
    ensures live > 1
  {
    var ends := {w.min, w.min + w.count - 1};
    assert ends <= Live(w);
    SubsetSize(ends, Live(w));
  }

  lemma SubsetSize(s: set<Byte>, t: set<Byte>)
    requires s <= t
    ensures |s| <= |t|
  {
    assert t == s + (t - s);
  }

  // The table from slot lo up to slot hi, the others being empty.
  function Cut<T>(w: Window<T>, lo: nat, hi: nat): (w': Window<T>)
    requires Fits(w) && w.count > 1 && lo + 1 < hi <= w.count
    requires forall k | 0 <= k < w.count && !(lo <= k < hi) :: w.table[k].None?
    ensures Fits(w') && w'.min == w.min + lo && w'.count == hi - lo
    ensures forall x: Byte :: Get(w', x) == Get(w, x)
  {
    Window(w.min + lo, hi - lo, None, w.table[lo..hi])
  }

  // The single child of a table as a plain pointer.
  function Single<T>(w: Window<T>, i: nat): (w': Window<T>)
    requires Fits(w) && w.count > 1 && i < w.count
    requires forall k | 0 <= k < w.count && k != i :: w.table[k].None?
    ensures Fits(w') && w'.min == w.min + i && w'.count == 1
    ensures forall x: Byte :: Get(w', x) == Get(w, x)
  {
    Window(w.min + i, 1, w.table[i], [])
  }

  lemma OnlyChild<T>(w: Window<T>, i: nat)
    requires Fits(w) && w.count > 1 && i < w.count && w.table[i].Some? && |Live(w)| == 1
    ensures forall k | 0 <= k < w.count && k != i :: w.table[k].None?
  {
    forall k | 0 <= k < w.count && w.table[k].Some? ensures k == i {
      assert Get(w, w.min + k).Some? && Get(w, w.min + i).Some?;
      SingletonSet(Live(w), w.min + k, w.min + i);
    }
  }

  // The first child at or after slot i.
  method Forward<T>(table: seq<Option<T>>, start: nat, ghost some: nat) returns (i: nat)
    requires start <= some < |table| && table[some].Some?
    ensures start <= i <= some && table[i].Some?
    ensures forall k | start <= k < i :: table[k].None?
  {
    i := start;
    while i < |table| && table[i].None?
      invariant start <= i <= some
      invariant forall k | start <= k < i :: table[k].None?
    {
      i := i + 1;
    }
  }

  // The distance from the last slot back to a child, at least start.
  method Backward<T>(table: seq<Option<T>>, start: nat, ghost some: nat) returns (i: nat)
    requires some + start < |table| && table[some].Some?
    ensures start <= i < |table| - some && table[|table| - 1 - i].Some?
    ensures forall k | |table| - 1 - i < k < |table| - start :: table[k].None?
  {
    i := start;
    while i < |table| && table[|table| - 1 - i].None?
      invariant start <= i < |table| - some
      invariant forall k | |table| - 1 - i < k < |table| - start :: table[k].None?
    {
      i := i + 1;
    }
  }

  // A table of several children, cut or turned into a pointer, is tight again.
  lemma CutIsTight<T>(w: Window<T>, w': Window<T>)
    requires Fits(w) && Fits(w') && forall x: Byte :: Get(w', x) == Get(w, x)
    requires w'.count > 0 && Get(w, w'.min).Some? && Get(w, w'.min + w'.count - 1).Some?
    ensures Tight(w', |Live(w)|)
  {
    assert Live(w') == Live(w);
    assert w'.min in Live(w);
    assert Get(w', w'.min).Some? && Get(w', w'.min + w'.count - 1).Some?;
  }

  // The slots at either end that hold the children of a table.
  lemma SlotsSpread<T>(w: Window<T>, lo: nat, hi: nat)
    requires Fits(w) && w.count > 1 && |Live(w)| > 1 && lo < w.count && hi <= w.count
    requires forall k | 0 <= k < w.count && !(lo <= k < hi) :: w.table[k].None?
    ensures lo + 1 < hi
  {
    forall x | x in Live(w) ensures lo <= x - w.min < hi {
      assert w.table[x - w.min].Some?;
    }
    if hi <= lo + 1 {
      assert Live(w) <= {w.min + lo};
      SubsetSize(Live(w), {w.min + lo});
    }
  }

  lemma StoreNone<T>(w: Window<T>, c: Byte)
    requires Fits(w) && Get(w, c).Some?
    ensures Live(Store(w, c, None)) == Live(w) - {c} && |Live(Store(w, c, None))| == |Live(w)| - 1
  {
    assert Live(Store(w, c, None)) == Live(w) - {c};
    assert c in Live(w);
  }

  lemma StoreSome<T>(w: Window<T>, c: Byte, v: T)
    requires Fits(w) && Get(w, c).Some?
    ensures Live(Store(w, c, Some(v))) == Live(w)
  {
  }

  lemma EmptyIsTight<T>(w: Window<T>, c: Byte)
    requires Fits(w) && w.count == 1 && Get(w, c).Some?
    ensures |Live(w)| == 1 && Tight(w.(node := None, count := 0), 0)
  {
    assert Live(w) == {c};
    assert Live(w.(node := None, count := 0)) == {};
  }

  // mtrie.cpp lines 326-375: a table from which the child of c has gone.  A single
  // child left becomes a plain pointer, and a lost end is cut off.
  method Shrink<T>(w: Window<T>, live: nat, c: Byte, ghost other: Byte) returns (w': Window<T>)
    requires Fits(w) && w.count > 1 && w.min <= c < w.min + w.count && live == |Live(w)| > 0
    requires Get(w, c).None? && Get(w, other).Some?
    requires c != w.min ==> Get(w, w.min).Some?
    requires c != w.min + w.count - 1 ==> Get(w, w.min + w.count - 1).Some?
    ensures Tight(w', live) && forall x: Byte :: Get(w', x) == Get(w, x)
  {
    hide Live, Tight;
    assert w.table[other - w.min] == Get(w, other);
    if live == 1 {
      var i := Forward(w.table, 0, other - w.min);
      OnlyChild(w, i);
      w' := Single(w, i);
    } else if c == w.min {
      var i := Forward(w.table, 1, other - w.min);
      SlotsSpread(w, i, w.count);
      w' := Cut(w, i, w.count);
    } else if c == w.min + w.count - 1 {
      var i := Backward(w.table, 1, other - w.min);
      SlotsSpread(w, 0, w.count - i);
      w' := Cut(w, 0, w.count - i);
    } else {
      w' := w;
    }
    CutIsTight(w, w');
  }

  // mtrie.cpp lines 313-376: the child of c is gone.
  method Clear<T>(w: Window<T>, live: nat, c: Byte) returns (w': Window<T>, live': nat)
    requires Tight(w, live) && Get(w, c).Some?
    ensures Tight(w', live') && live' == live - 1
    ensures forall x: Byte :: Get(w', x) == if x == c then None else Get(w, x)
  {
    hide Live;
    live' := live - 1;
    if w.count == 1 {
      EmptyIsTight(w, c);
      w' := w.(node := None, count := 0);
      assert live' == 0;
    } else {
      SeveralChildren(w, live);
      assert live' > 0;
      ghost var other := OtherChild(w, live, c);
      StoreNone(w, c);
      w' := Shrink(Store(w, c, None), live', c, other);
    }
  }

  // What the loop of rm_helper (pipe) knows of the new ends once the first i
  // slots are done.
  ghost predicate EndsSoFar<T>(w: Window<T>, i: nat, newMin: Byte, newMax: Byte)
    requires Fits(w) && w.count > 1 && i <= w.count
  {
    && w.min <= newMin <= w.min + w.count - 1 && w.min <= newMax <= w.min + w.count - 1
    && (newMin == w.min + w.count - 1 || (newMin < w.min + i && Get(w, newMin).Some?))
    && (newMax == w.min || (newMax < w.min + i && Get(w, newMax).Some?))
    && (forall k | 0 <= k < i && w.table[k].Some? :: newMin <= w.min + k <= newMax)
  }

  // mtrie.cpp lines 238-278: the table after its redundant children are gone.
  method Compact<T>(w: Window<T>, live: nat, newMin: Byte, newMax: Byte) returns (w': Window<T>)
    requires Fits(w) && w.count > 1 && live == |Live(w)|
    requires EndsSoFar(w, w.count, newMin, newMax)
    ensures Tight(w', live)
    ensures forall x: Byte :: Get(w', x) == Get(w, x)
  {
    var lo, hi := newMin - w.min, newMax - w.min;
    if live == 0 {
      w' := w.(count := 0, table := []);
      forall x: Byte ensures Get(w, x).None? { assert x !in Live(w); }
      assert Live(w') == Live(w);
    } else {
      EndsAreChildren(w, newMin, newMax);
      hide Live;
      if live == 1 {
        OnlyChild(w, lo);
        assert newMin == newMax;
        w' := Single(w, lo);
        CutIsTight(w, w');
      } else if newMin > w.min || newMax < w.min + w.count - 1 {
        SlotsSpread(w, lo, hi + 1);
        assert newMax - newMin + 1 > 1;
        w' := Cut(w, lo, hi + 1);
        CutIsTight(w, w');
      } else {
        w' := w;
        CutIsTight(w, w');
      }
    }
  }

  lemma EndsAreChildren<T>(w: Window<T>, newMin: Byte, newMax: Byte)
    requires Fits(w) && w.count > 1 && |Live(w)| > 0
    requires EndsSoFar(w, w.count, newMin, newMax)
    ensures Get(w, newMin).Some? && Get(w, newMax).Some?
  {
    var x :| x in Live(w);
    assert w.table[x - w.min].Some?;
  }

  lemma EndsAtStart<T>(w: Window<T>)
    requires Fits(w) && w.count > 1
    ensures EndsSoFar(w, 0, w.min + w.count - 1, w.min)
  {
  }

  lemma EndsStep<T>(w: Window<T>, i: nat, newMin: Byte, newMax: Byte, v: Option<T>, newMin': Byte, newMax': Byte)
    requires Fits(w) && w.count > 1 && i < w.count && EndsSoFar(w, i, newMin, newMax)
    requires newMin' == if v.Some? && w.min + i < newMin then w.min + i else newMin
    requires newMax' == if v.Some? && w.min + i > newMax then w.min + i else newMax
    ensures EndsSoFar(Store(w, w.min + i, v), i + 1, newMin', newMax')
  {
  }

  lemma PointerIsOnly<T>(w: Window<T>, live: nat)
    requires Tight(w, live) && w.count == 1
    ensures live == 1 && forall x: Byte :: Get(w, x).Some? <==> x == w.min
  {
    assert Get(w, w.min).Some?;
    assert Live(w) == {w.min};
  }

  // Two tight windows with children for the same characters have the same bounds.
  lemma SameWindow<S, T>(w: Window<S>, live: nat, w': Window<T>, live': nat)
    requires Tight(w, live) && Tight(w', live')
    requires forall x: Byte :: Get(w, x).Some? <==> Get(w', x).Some?
    ensures live == live' && w.count == w'.count && (w.count > 0 ==> w.min == w'.min)
  {
    assert Live(w) == Live(w');
    if live == 0 {
    } else {
      assert w.count > 0 && w'.count > 0;
      assert Get(w, w'.min).Some? && Get(w', w.min).Some?;
      assert Get(w, w'.min + w'.count - 1).Some? && Get(w', w.min + w.count - 1).Some?;
    }
  }
}
