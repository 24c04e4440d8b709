/** fq_t as an object over the array. */
module Fqs {
  import opened Basics
  import opened Arrays
  import FqStates

  type Part = FqStates.Part

  class Fq {
    const pipes: Array
    var active: nat
    var current: nat
    var more: bool
    var ins: map<PipeId, seq<Part>>  // what the pipes have for reading

    ghost function View(): FqStates.State
      reads this, pipes
    {
      FqStates.State(pipes.Order(), active, current, more, ins)
    }

    ghost predicate Valid()
      reads this, pipes, pipes.Members()
    {
      pipes.Valid() && FqStates.Valid(View())
    }

    constructor ()
      ensures Valid() && View() == FqStates.State([], 0, 0, false, map[]) && fresh(pipes)
    {
      pipes := new Array();
      active, current, more, ins := 0, 0, false, map[];
    }

    method Attach(item: Item)
      requires Valid() && item.pipe !in pipes.Order() && item.pipe in ins
      modifies this`active, pipes, item, pipes.Members()
      ensures Valid() && View() == FqStates.Attached(old(View()), item.pipe)
    {
      hide Swapped, Distinct, Ids, Array.Order;
      FqStates.AttachedValid(View(), item.pipe);
      pipes.PushBack(item);
      pipes.Swap(active, |pipes.items| - 1);
      active := active + 1;
    }

    // Not in the middle of a message.
    method Terminate(item: Item)
      requires Valid() && item in pipes.Members() && !more
      modifies this`active, this`current, pipes, pipes.Members()
      ensures Valid() && 0 <= old(item.arrayIndex) < |old(pipes.Order())| && old(active) <= |old(pipes.Order())|
      ensures View() == FqStates.Terminated(old(View()), old(item.arrayIndex))
    {
      hide Swapped, Erased, Distinct, Ids, Array.Order;
      var index := pipes.Index(item);
      FqStates.TerminatedValid(View(), index);
      if index < active {
        active := active - 1;
        pipes.Swap(index, active);
        if current == active {
          current := 0;
        }
      }
      pipes.Erase(item);
    }

    method Activate(item: Item)
      requires Valid() && item in pipes.Members() && active <= item.arrayIndex
      modifies this`active, pipes, pipes.Members()
      ensures Valid() && old(item.arrayIndex) < |old(pipes.Order())|
      ensures View() == FqStates.Activated(old(View()), old(item.arrayIndex))
    {
      hide Swapped, Distinct, Ids, Array.Order;
      var index := pipes.Index(item);
      FqStates.ActivatedValid(View(), index);
      pipes.SwapItem(item, active);
      active := active + 1;
    }

    // The current pipe has nothing to read: it becomes passive.
    method Passivate()
      requires Valid() && active > 0 && !more
      modifies this`active, this`current, pipes, pipes.Members()
      ensures Valid() && View() == FqStates.Passivated(old(View()), old(current))
      ensures pipes.Members() == old(pipes.Members())
    {
      hide Swapped, Distinct, Ids, Array.Order;
      FqStates.PassivatedValid(View(), current);
      active := active - 1;
      pipes.Swap(current, active);
      if current == active {
        current := 0;
      }
    }

    // The current pipe has a part: its last part ends the turn.
    method Deliver(p: PipeId) returns (part: Part)
      requires Valid() && active > 0 && p in ins && ins[p] != [] && p == pipes.Order()[current]
      modifies this`current, this`more, this`ins
      ensures Valid() && (View(), p, part) == FqStates.Delivered(old(View()))
    {
      hide Swapped, Distinct, Ids, Array.Order;
      FqStates.DeliveredValid(View());
      part := ins[p][0];
      ins := ins[p := ins[p][1..]];
      more := part.more;
      if !more {
        current := (current + 1) % active;
      }
    }

    // The pipe a part came from, and the part.
    method Recv() returns (got: Option<(PipeId, Part)>)
      requires Valid()
      modifies this`active, this`current, this`more, this`ins, pipes, pipes.Members()
      ensures Valid() && (View(), got) == FqStates.Step(old(View()), FqStates.Recv)
    {
      hide Swapped, Distinct, Ids, Array.Order;
      ghost var s := View();
      FqStates.SkipValid(s);
      while active > 0
        invariant Valid() && FqStates.Skip(View()) == FqStates.Skip(s) && pipes.Members() == old(pipes.Members())
        invariant ins == s.ins && more == s.more
        decreases active
      {
        var item := pipes.Get(current);
        assert item.pipe in pipes.Order();
        if ins[item.pipe] != [] {
          var part := Deliver(item.pipe);
          return Some((item.pipe, part));
        }
        assert !more;
        Passivate();
      }
      return None;
    }

    method HasIn() returns (readable: bool)
      requires Valid()
      modifies this`active, this`current, pipes, pipes.Members()
      ensures Valid() && View() == FqStates.Step(old(View()), FqStates.HasIn).0 && readable == (active > 0)
      ensures readable ==> View().order[current] in ins && ins[View().order[current]] != []
    {
      hide Swapped, Distinct, Ids, Array.Order;
      ghost var s := View();
      FqStates.SkipValid(s);
      if more {
        assert View().order[current] in View().order;
        return true;
      }
      while active > 0
        invariant Valid() && FqStates.Skip(View()) == FqStates.Skip(s) && pipes.Members() == old(pipes.Members())
        invariant ins == s.ins && !more
        decreases active
      {
        var item := pipes.Get(current);
        assert item.pipe in pipes.Order();
        if ins[item.pipe] != [] {
          return true;
        }
        Passivate();
      }
      return false;
    }
  }
}
