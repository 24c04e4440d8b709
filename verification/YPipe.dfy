/** ypipe_t: the lock-free queue under pipes and mailboxes, as an ideal queue and
    as the four pointers of the source.  Positions count items since creation. */
module YPipes {
  import opened Basics

  // flushed items can be read, complete ones can be flushed, the rest belong to
  // an unfinished message.
  datatype Queue<T> = Queue(items: seq<T>, flushed: nat, complete: nat, asleep: bool)

  predicate WellFormed<T>(q: Queue<T>) {
    && q.flushed <= q.complete <= |q.items|
    && (q.asleep ==> q.flushed == 0)
  }

  function QWrite<T>(q: Queue<T>, v: T, incomplete: bool): Queue<T> {
    q.(items := q.items + [v], complete := if incomplete then q.complete else |q.items| + 1)
  }

  function QUnwrite<T>(q: Queue<T>): Queue<T>
    requires q.complete < |q.items|
  {
    q.(items := q.items[..|q.items| - 1])
  }

  // Unwriting until nothing incomplete is left.
  function QRollback<T>(q: Queue<T>): Queue<T> {
    if q.complete <= |q.items| then q.(items := q.items[..q.complete]) else q
  }

  // Whether the reader was awake, or needed no waking.
  function QFlushAwake<T>(q: Queue<T>): bool {
    q.flushed == q.complete || !q.asleep
  }

  function QFlush<T>(q: Queue<T>): Queue<T> {
    if q.flushed == q.complete then q else q.(flushed := q.complete, asleep := false)
  }

  function QCheckRead<T>(q: Queue<T>): Queue<T> {
    if q.flushed > 0 then q else q.(asleep := true)
  }

  function QRead<T>(q: Queue<T>): Queue<T>
    requires WellFormed(q) && q.flushed > 0
  {
    q.(items := q.items[1..], flushed := q.flushed - 1, complete := q.complete - 1)
  }

  class YPipe<T(0)> {
    var items: seq<T>   // from queue.front () up to queue.back ()
    var front: nat      // position of queue.front ()
    var w: nat          // first un-flushed item, writer only
    var f: nat          // first item to be flushed in the future, writer only
    var r: Option<nat>  // first un-prefetched item, reader only
    var c: Option<nat>  // past the last flushed item; None while the reader sleeps

    ghost predicate Valid()
      reads this
    {
      && front <= w <= f <= front + |items|
      && (c == None || c == Some(w))
      && (c == None ==> w == front)
      && (r.Some? ==> front <= r.value <= w)
    }

    // The ideal queue the pointers stand for.
    ghost function Model(): (q: Queue<T>)
      requires Valid()
      reads this
      ensures WellFormed(q)
    {
      Queue(items, w - front, f - front, c == None)
    }

    constructor ()
      ensures Valid() && Model() == Queue([], 0, 0, false)
    {
      items, front, w, f, r, c := [], 0, 0, 0, Some(0), Some(0);
    }

    // atomic_ptr_t::cas: the old value, and the new one stored if it was cmp.
    method Cas(cmp: nat, val: Option<nat>) returns (old_: Option<nat>)
      modifies `c
      ensures old_ == old(c) && c == if old(c) == Some(cmp) then val else old(c)
    {
      old_ := c;
      if c == Some(cmp) {
        c := val;
      }
    }

    method Write(value: T, incomplete: bool)
      requires Valid()
      modifies `items, `f
      ensures Valid() && Model() == QWrite(old(Model()), value, incomplete)
    {
      items := items + [value];
      if !incomplete {
        f := front + |items|;
      }
    }

    method Unwrite() returns (value: Option<T>)
      requires Valid()
      modifies `items
      ensures Valid()
      ensures value.None? <==> old(Model()).complete == |old(Model()).items|
      ensures value.None? ==> Model() == old(Model())
      ensures value.Some? ==> Model() == QUnwrite(old(Model()))
      ensures value.Some? ==> old(Model()).items == Model().items + [value.value]
    {
      if f == front + |items| {
        return None;
      }
      value := Some(items[|items| - 1]);
      items := items[..|items| - 1];
    }

    method Flush() returns (awake: bool)
      requires Valid()
      modifies `w, `c
      ensures Valid() && Model() == QFlush(old(Model())) && awake == QFlushAwake(old(Model()))
    {
      if w == f {
        return true;
      }
      var seen := Cas(w, Some(f));
      if seen != Some(w) {
        c := Some(f);
        w := f;
        return false;
      }
      w := f;
      return true;
    }

    method CheckRead() returns (ok: bool)
      requires Valid()
      modifies `r, `c
      ensures Valid() && Model() == QCheckRead(old(Model())) && ok == (old(Model()).flushed > 0)
      ensures ok ==> r.Some? && front < r.value
    {
      if r.Some? && r.value != front {
        return true;
      }
      r := Cas(front, None);
      return !(r == Some(front) || r == None);
    }

    // The head of the queue, which the caller knows to be readable.
    method Probe() returns (head: T)
      requires Valid() && Model().flushed > 0
      modifies `r, `c
      ensures Valid() && Model() == old(Model()) && head == Model().items[0]
    {
      var rc := CheckRead();
      assert rc;
      head := items[0];
    }

    method Read() returns (value: Option<T>)
      requires Valid()
      modifies this
      ensures Valid()
      ensures value.None? <==> old(Model()).flushed == 0
      ensures value.None? ==> Model() == QCheckRead(old(Model()))
      ensures value.Some? ==> value.value == old(Model()).items[0] && Model() == QRead(old(Model()))
    {
      var ok := CheckRead();
      if !ok {
        return None;
      }
      value := Some(items[0]);
      items := items[1..];
      front := front + 1;
    }
  }
}
