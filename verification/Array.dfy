/** array_t: a vector of pipes in which each pipe knows its own place. */
module Arrays {
  import opened Basics
  import Tries

  type PipeId = Tries.PipeId

  // array_item_t, the part of a pipe an array uses.
  class Item {
    const pipe: PipeId
    var arrayIndex: int

    constructor (pipe_: PipeId)
      ensures pipe == pipe_ && arrayIndex == -1
    {
      pipe, arrayIndex := pipe_, -1;
    }
  }

  // --- The array as a sequence of pipes ---

  function Swapped(s: seq<PipeId>, i: nat, j: nat): (r: seq<PipeId>)
    requires i < |s| && j < |s|
    ensures |r| == |s|
  {
    s[i := s[j]][j := s[i]]
  }

  // The last pipe moves into the hole.
  function Erased(s: seq<PipeId>, i: nat): (r: seq<PipeId>)
    requires i < |s|
  {
    s[i := s[|s| - 1]][..|s| - 1]
  }

  function Ids(s: seq<PipeId>): (r: set<PipeId>)
    ensures forall p :: p in r <==> p in s
  {
    set p | p in s
  }

  lemma SwappedDistinct(s: seq<PipeId>, i: nat, j: nat)
    requires i < |s| && j < |s| && Distinct(s)
    ensures Distinct(Swapped(s, i, j)) && Ids(Swapped(s, i, j)) == Ids(s)
  {
    var r := Swapped(s, i, j);
    forall p ensures p in r <==> p in s {
      assert r[i] == s[j] && r[j] == s[i];
      assert forall k | 0 <= k < |s| && k != i && k != j :: r[k] == s[k];
    }
  }

  // What a swap does to the set of the first n.
  lemma SwappedPrefix(s: seq<PipeId>, i: nat, j: nat, n: nat)
    requires i < |s| && j < |s| && n <= |s| && Distinct(s)
    ensures i < n <= j ==> Ids(Swapped(s, i, j)[..n]) == Ids(s[..n]) - {s[i]} + {s[j]}
    ensures (i < n <==> j < n) ==> Ids(Swapped(s, i, j)[..n]) == Ids(s[..n])
  {
    var r := Swapped(s, i, j);
    forall p | i < n <= j ensures p in r[..n] <==> (p in s[..n] && p != s[i]) || p == s[j] {
      assert r[..n][i] == s[j];
      if p in s[..n] && p != s[i] {
        var k :| 0 <= k < n && s[k] == p;
        assert r[..n][k] == p;
      }
      if p in r[..n] && p != s[j] {
        var k :| 0 <= k < n && r[k] == p;
        assert s[..n][k] == p;
      }
    }
    if i < n && j < n { SwappedDistinct(s[..n], i, j); assert r[..n] == Swapped(s[..n], i, j); }
    if n <= i && n <= j { assert r[..n] == s[..n]; }
  }

  lemma ErasedDistinct(s: seq<PipeId>, i: nat)
    requires i < |s| && Distinct(s)
    ensures Distinct(Erased(s, i)) && Ids(Erased(s, i)) == Ids(s) - {s[i]}
  {
    var r, n := Erased(s, i), |s| - 1;
    forall p ensures p in r <==> p in s && p != s[i] {
      if p in s && p != s[i] {
        var k :| 0 <= k < |s| && s[k] == p;
        assert r[if k == n then i else k] == p;
      }
      if p in r {
        var k :| 0 <= k < n && r[k] == p;
        assert s[if k == i then n else k] == p;
      }
    }
  }

  lemma SameMembers(s: seq<Item>, i: nat, j: nat)
    requires i < |s| && j < |s|
    ensures forall item :: item in s[i := s[j]][j := s[i]] <==> item in s
  {
    var r := s[i := s[j]][j := s[i]];
    assert r[i] == s[j] && r[j] == s[i];
    forall item ensures item in r <==> item in s {
      if item in s {
        var k :| 0 <= k < |s| && s[k] == item;
        assert k != i && k != j ==> r[k] == item;
      }
    }
  }

  class Array {
    var items: seq<Item>

    ghost function Order(): (s: seq<PipeId>)
      reads this
      ensures |s| == |items| && forall i | 0 <= i < |s| :: s[i] == items[i].pipe
    {
      seq(|items|, i requires 0 <= i < |items| reads this => items[i].pipe)
    }

    ghost function Members(): (s: set<Item>)
      reads this
    {
      set item | item in items
    }

    // Every stored index is right.
    ghost predicate Valid()
      reads this, Members()
    {
      && (forall i | 0 <= i < |items| :: items[i].arrayIndex == i)
      && Distinct(Order())
    }

    constructor ()
      ensures Valid() && Order() == [] && items == []
    {
      items := [];
    }

    method PushBack(item: Item)
      requires Valid() && item.pipe !in Order()
      modifies this, item
      ensures Valid() && items == old(items) + [item] && Order() == old(Order()) + [item.pipe]
      ensures Members() == old(Members()) + {item}
    {
      assert item !in items;
      item.arrayIndex := |items|;
      items := items + [item];
    }

    method Index(item: Item) returns (i: nat)
      requires Valid() && item in Members()
      ensures i < |items| && items[i] == item && Order()[i] == item.pipe && i == item.arrayIndex
    {
      i := item.arrayIndex;
    }

    method EraseAt(i: nat)
      requires Valid() && i < |items|
      modifies this, Members()
      ensures Valid() && Order() == Erased(old(Order()), i)
      ensures items == old(items[i := items[|items| - 1]][..|items| - 1])
    {
      ErasedDistinct(Order(), i);
      items[|items| - 1].arrayIndex := i;
      items := items[i := items[|items| - 1]];
      items := items[..|items| - 1];
    }

    method Erase(item: Item)
      requires Valid() && item in Members()
      modifies this, Members()
      ensures Valid() && 0 <= old(item.arrayIndex) < |old(Order())| && old(Order())[old(item.arrayIndex)] == item.pipe
      ensures Order() == Erased(old(Order()), old(item.arrayIndex))
    {
      EraseAt(item.arrayIndex);
    }

    method Swap(i: nat, j: nat)
      requires Valid() && i < |items| && j < |items|
      modifies this, Members()
      ensures Valid() && Order() == Swapped(old(Order()), i, j)
      ensures |items| == |old(items)| && items[j] == old(items)[i] && items[i] == old(items)[j]
      ensures items[j].arrayIndex == j && items[i].arrayIndex == i
      ensures Members() == old(Members())
    {
      SameMembers(items, i, j);
      SwappedDistinct(Order(), i, j);
      items[i].arrayIndex := j;
      items[j].arrayIndex := i;
      items := items[i := items[j]][j := items[i]];
    }

    method Get(i: nat) returns (item: Item)
      requires Valid() && i < |items|
      ensures item in Members() && item.arrayIndex == i && item.pipe == Order()[i]
    {
      item := items[i];
    }

    // swap (index (item), j).
    method SwapItem(item: Item, j: nat)
      requires Valid() && item in Members() && j < |items|
      modifies this, Members()
      ensures Valid() && Members() == old(Members()) && |items| == |old(items)|
      ensures 0 <= old(item.arrayIndex) < |items| && item.arrayIndex == j
      ensures Order() == Swapped(old(Order()), old(item.arrayIndex), j)
    {
      var i := Index(item);
      Swap(i, j);
    }
  }
}
