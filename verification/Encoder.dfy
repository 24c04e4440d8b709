/** encoder_t: batches of bytes out of a queue of messages. */
module Encoders {
  import opened Basics
  import opened Frames

  datatype Step = SizeReady | MessageReady

  // What is still to be written: the rest of the current chunk, the message it
  // belongs to, and the messages not yet pulled.
  datatype State = State(chunk: seq<Byte>, next: Step, beginning: bool, inProgress: Msg, queue: seq<Msg>)

  function Rest(e: State): seq<Byte> {
    e.chunk + (if e.next.SizeReady? then e.inProgress.body else []) + FrameAll(e.queue)
  }

  predicate WellFormed(e: State) { e.next.SizeReady? ==> !e.beginning }

  // Where the first multipart message starts after n bytes that end the
  // previous message, if those are not its last part.
  function FirstAfter(n: nat, ms: seq<Msg>): Option<nat>
    decreases ms
  {
    if ms == [] then None
    else if ms[0].more then FirstAfter(n + |Frame(ms[0])|, ms[1..])
    else Some(n + |Frame(ms[0])|)
  }

  // The first place in Rest where a multipart message can start: right after a
  // last part.
  function First(e: State): Option<nat> {
    var n := |e.chunk| + if e.next.SizeReady? then |e.inProgress.body| else 0;
    var last := if e.next.SizeReady? then !e.inProgress.more else e.beginning;
    if last then Some(n) else FirstAfter(n, e.queue)
  }

  function Later(p: Option<nat>, n: nat): Option<nat> {
    match p case None => None case Some(q) => Some(q + n)
  }

  // The offset reported for a batch of the given length: a place at its very end
  // only counts when the buffer had room for more.
  function OffsetIn(first: Option<nat>, length: nat, size: nat): int {
    if first.Some? && (first.value < length || first.value == length < size) then first.value else -1
  }

  lemma {:induction false} FirstAfterShifts(n: nat, k: nat, ms: seq<Msg>)
    ensures FirstAfter(n + k, ms) == Later(FirstAfter(n, ms), k)
    decreases ms
  {
    if ms != [] && ms[0].more { FirstAfterShifts(n + |Frame(ms[0])|, k, ms[1..]); }
  }

  // --- Joining a stream at the offset ---

  // The messages from k on start a multipart message.
  predicate StartsMessage(e: State, k: nat)
    requires k <= |e.queue|
  {
    if k > 0 then EndsAt(e.queue, k)
    else if e.next.SizeReady? then !e.inProgress.more
    else e.beginning
  }

  // The bytes before the frame of message k.
  function Before(e: State, k: nat): nat
    requires k <= |e.queue|
  {
    |e.chunk| + (if e.next.SizeReady? then |e.inProgress.body| else 0) + |FrameAll(e.queue[..k])|
  }

  // Message j - 1 is the last part of its message.
  predicate EndsAt(ms: seq<Msg>, j: nat) { 0 < j <= |ms| && !ms[j - 1].more }

  lemma {:induction false} FirstAfterIs(n: nat, ms: seq<Msg>) returns (k: nat)
    ensures FirstAfter(n, ms).Some? ==> EndsAt(ms, k) && FirstAfter(n, ms) == Some(n + |FrameAll(ms[..k])|)
    ensures forall j: nat | EndsAt(ms, j) :: FirstAfter(n, ms).Some? && k <= j
    decreases ms
  {
    k := 0;
    if ms != [] {
      if ms[0].more {
        var i := FirstAfterIs(n + |Frame(ms[0])|, ms[1..]);
        k := i + 1;
        if FirstAfter(n, ms).Some? {
          assert ms[..k][1..] == ms[1..][..i];
        }
        forall j: nat | EndsAt(ms, j) ensures FirstAfter(n, ms).Some? && k <= j {
          assert j > 1;
          assert EndsAt(ms[1..], j - 1);
        }
      } else {
        k := 1;
        assert ms[..1] == [ms[0]];
        assert FrameAll([ms[0]]) == Frame(ms[0]) + FrameAll([]);
      }
    }
  }

  lemma SplitAt(e: State, k: nat)
    requires k <= |e.queue|
    ensures Before(e, k) <= |Rest(e)| && Rest(e)[Before(e, k)..] == FrameAll(e.queue[k..])
  {
    FrameAllConcat(e.queue[..k], e.queue[k..]);
    assert e.queue[..k] + e.queue[k..] == e.queue;
    hide FrameAll;
    var ahead := e.chunk + if e.next.SizeReady? then e.inProgress.body else [];
    Regroup(ahead, FrameAll(e.queue[..k]), FrameAll(e.queue[k..]));
  }

  lemma RestGrows(e: State, m: Msg)
    ensures Rest(e.(queue := e.queue + [m])) == Rest(e) + FrameAll([m])
  {
    FrameAllConcat(e.queue, [m]);
    hide FrameAll;
    var ahead := e.chunk + if e.next.SizeReady? then e.inProgress.body else [];
    Regroup(ahead, FrameAll(e.queue), FrameAll([m]));
  }

  lemma BeforeGrows(e: State, k: nat, j: nat)
    requires k <= j <= |e.queue|
    ensures Before(e, k) <= Before(e, j)
  {
    assert e.queue[..j] == e.queue[..k] + e.queue[k..j];
    FrameAllConcat(e.queue[..k], e.queue[k..j]);
  }

  lemma NothingLeft(e: State)
    requires e.chunk == [] && e.next.MessageReady? && e.queue == []
    ensures Rest(e) == []
  {
  }

  lemma Regroup(a: seq<Byte>, b: seq<Byte>, c: seq<Byte>)
    ensures a + (b + c) == a + b + c
    ensures (a + b + c)[|a + b|..] == c
  {
  }

  // First is the least such place, and what follows it are whole messages.
  lemma JoinAt(e: State) returns (k: nat)
    ensures First(e).Some? ==> k <= |e.queue| && StartsMessage(e, k) && First(e) == Some(Before(e, k))
    ensures First(e).Some? ==> Before(e, k) <= |Rest(e)| && Rest(e)[Before(e, k)..] == FrameAll(e.queue[k..])
    ensures forall j | 0 <= j <= |e.queue| && StartsMessage(e, j) :: First(e).Some? && k <= j
  {
    hide Rest;
    if StartsMessage(e, 0) {
      k := 0;
      assert e.queue[..0] == [];
    } else {
      k := FirstAfterIs(|e.chunk| + if e.next.SizeReady? then |e.inProgress.body| else 0, e.queue);
    }
    if First(e).Some? { SplitAt(e, k); }
  }

  // Copying n bytes of the chunk out moves every place by n.
  lemma Copying(e: State, n: nat)
    requires n <= |e.chunk|
    ensures var e' := e.(chunk := e.chunk[n..]);
      Rest(e) == e.chunk[..n] + Rest(e') && First(e) == Later(First(e'), n)
  {
    var m := |e.chunk| - n + if e.next.SizeReady? then |e.inProgress.body| else 0;
    FirstAfterShifts(m, n, e.queue);
    assert e.chunk == e.chunk[..n] + e.chunk[n..];
  }

  // Between messages the next place is here or after a whole frame.
  lemma FirstBetween(e: State)
    requires e.chunk == [] && e.next.MessageReady?
    ensures e.beginning ==> First(e) == Some(0)
    ensures !e.beginning ==> First(e) != Some(0)
  {
    if e.queue != [] && e.queue[0].more {
      FirstAfterShifts(0, |Frame(e.queue[0])|, e.queue[1..]);
    }
  }

  // The offset after n bytes of a batch that started with first0 as its first
  // place: found, or first is what is still to come.
  predicate Tracks(first0: Option<nat>, first: Option<nat>, n: nat, size: nat, offset: int) {
    if offset == -1 then Later(first, n) == first0
    else 0 <= offset && first0 == Some(offset) && (offset < n || offset == n < size)
  }

  lemma TracksMore(first0: Option<nat>, first: Option<nat>, n: nat, k: nat, size: nat, offset: int)
    requires Tracks(first0, Later(first, k), n, size, offset) && n < size
    ensures Tracks(first0, first, n + k, size, offset)
  {
  }

  lemma TracksStart(first: Option<nat>, size: nat)
    ensures Tracks(first, first, 0, size, -1)
  {
  }

  // A place passed is a place found, now or before.
  lemma TracksFound(first0: Option<nat>, first: Option<nat>, n: nat, size: nat, offset: int)
    requires Tracks(first0, Some(0), n, size, offset) && n < size
    ensures Tracks(first0, first, n, size, if offset == -1 then n else offset)
  {
  }

  lemma TracksDone(first0: Option<nat>, first: Option<nat>, n: nat, size: nat, offset: int)
    requires Tracks(first0, first, n, size, offset) && (n < size && offset == -1 ==> first != Some(0))
    ensures offset == OffsetIn(first0, n, size)
  {
  }

  class Encoder {
    const bufsize: nat
    var writeBuf: seq<Byte>    // write_pos .. write_pos + to_write
    var next: Step
    var beginning: bool
    var inProgress: Msg
    var queue: seq<Msg>        // what the source will hand out
    var attached: bool         // msg_source is set

    ghost function View(): State
      reads this
    {
      State(writeBuf, next, beginning, inProgress, queue)
    }

    ghost predicate Valid()
      reads this
    {
      WellFormed(View())
    }

    constructor (bufsize_: nat)
      ensures Valid() && Rest(View()) == [] && First(View()) == Some(0) && queue == [] && bufsize == bufsize_
    {
      bufsize := bufsize_;
      writeBuf, next, beginning, inProgress := [], MessageReady, true, Msg([], false);
      queue, attached := [], false;
    }

    method SetMsgSource(attached_: bool)
      modifies `attached
      ensures attached == attached_
    {
      attached := attached_;
    }

    // size_ready and message_ready, called when nothing is left to write: the
    // chunk they provide is the next part of Rest.
    method NextStep() returns (ok: bool)
      requires Valid() && writeBuf == []
      modifies this
      ensures Valid() && attached == old(attached)
      ensures Rest(View()) == old(Rest(View()))
      ensures !ok || old(next.SizeReady? || !beginning) ==> First(View()) == old(First(View()))
      ensures ok == (old(next).SizeReady? || (attached && old(queue) != []))
      ensures ok && old(next).MessageReady? ==> writeBuf != [] && next.SizeReady?
      ensures ok && old(next).SizeReady? ==> next.MessageReady?
      ensures !ok ==> writeBuf == [] && next.MessageReady? && beginning == old(beginning) && queue == old(queue)
    {
      if next.SizeReady? {
        writeBuf, next, beginning := inProgress.body, MessageReady, !inProgress.more;
        return true;
      }
      inProgress := Msg([], false);
      if !attached || queue == [] {
        return false;
      }
      inProgress, queue := queue[0], queue[1..];
      var size := |inProgress.body| + 1;
      if size < 255 {
        writeBuf := [size, Flags(inProgress)];
      } else {
        writeBuf := [0xff] + Put(size, 8) + [Flags(inProgress)];
      }
      next, beginning := SizeReady, false;
      return true;
    }

    // Bytes out of the current chunk: the start of Rest.
    method Take(n: nat) returns (piece: seq<Byte>)
      requires Valid() && n <= |writeBuf|
      modifies `writeBuf
      ensures Valid() && |piece| == n && piece + Rest(View()) == old(Rest(View()))
      ensures old(First(View())) == Later(First(View()), n)
      ensures piece == old(writeBuf)[..n] && writeBuf == old(writeBuf)[n..]
    {
      Copying(View(), n);
      piece, writeBuf := writeBuf[..n], writeBuf[n..];
    }

    // Between chunks: note the place if a multipart message starts here, and run
    // the state machine.
    method Prepare(pos: nat, size: nat, offset0: int, ghost first: Option<nat>) returns (ok: bool, offset: int)
      requires Valid() && writeBuf == [] && pos < size
      requires Tracks(first, First(View()), pos, size, offset0)
      modifies this
      ensures Valid() && attached == old(attached) && Rest(View()) == old(Rest(View()))
      ensures Tracks(first, First(View()), pos, size, offset)
      ensures ok ==> (next.MessageReady? && old(next).SizeReady?) || (next.SizeReady? && writeBuf != [])
      ensures !ok ==> writeBuf == [] && next.MessageReady? && (attached ==> queue == [])
      ensures !ok ==> offset == OffsetIn(first, pos, size)
    {
      hide Rest, First, FirstAfter, Tracks, Later, OffsetIn;
      if next.MessageReady? { FirstBetween(View()); }
      offset := if beginning && offset0 == -1 then pos else offset0;
      ghost var here := beginning;
      ok := NextStep();
      if here { TracksFound(first, First(View()), pos, size, offset0); }
      if !ok { TracksDone(first, First(View()), pos, size, offset); }
    }

    // The copying: the batch grows by what there is room for, or, when it may and
    // the chunk is no smaller than the buffer, becomes the whole chunk uncopied.
    method Copy(data: seq<Byte>, size: nat, whole: bool, offset: int, ghost first: Option<nat>) returns (data': seq<Byte>)
      requires Valid() && |data| < size && (whole ==> data == [])
      requires Tracks(first, First(View()), |data|, size, offset)
      modifies `writeBuf
      ensures Valid() && data <= data' && data' + Rest(View()) == data + old(Rest(View()))
      ensures Tracks(first, First(View()), |data'|, size, offset)
      ensures if whole || |data| + |old(writeBuf)| <= size then data' == data + old(writeBuf) && writeBuf == []
              else |data'| == size
    {
      hide Rest, First, FirstAfter, Tracks, Later, OffsetIn, WellFormed;
      var room := size - |data|;
      var piece := Take(if whole || |writeBuf| <= room then |writeBuf| else room);
      Regroup(data, piece, Rest(View()));
      TracksMore(first, First(View()), |data|, |piece|, size, offset);
      data' := data + piece;
    }

    // A batch for the given buffer, or, with none given, for the encoder's own
    // buffer or a whole chunk without copying.  offset is where the first
    // multipart message of the batch starts, -1 if there is none.
    method GetData(given: Option<nat>) returns (data: seq<Byte>, offset: int)
      requires Valid()
      modifies this
      ensures Valid() && attached == old(attached)
      ensures data + Rest(View()) == old(Rest(View()))
      ensures var size := if given.Some? then given.value else bufsize;
        && (given.Some? ==> |data| <= size)
        && (|data| < size ==> writeBuf == [] && next.MessageReady? && (attached ==> queue == []))
        && offset == OffsetIn(old(First(View())), |data|, size)
    {
      hide Rest, First, FirstAfter, Tracks, Later, OffsetIn, WellFormed;
      var size := if given.Some? then given.value else bufsize;
      ghost var first := First(View());
      offset, data := -1, [];
      TracksStart(first, size);
      while |data| < size
        invariant Valid() && attached == old(attached) && |data| <= size
        invariant data + Rest(View()) == old(Rest(View()))
        invariant Tracks(first, First(View()), |data|, size, offset)
        decreases size - |data|, next.SizeReady?, writeBuf == []
      {
        if writeBuf == [] {
          var ok;
          ok, offset := Prepare(|data|, size, offset, first);
          if !ok {
            return;
          }
        }
        var whole := data == [] && given.None? && |writeBuf| >= size;
        data := Copy(data, size, whole, offset, first);
        if whole {
          break;
        }
      }
      TracksDone(first, First(View()), |data|, size, offset);
    }
  }
}
