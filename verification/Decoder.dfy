/** decoder_t: messages out of chunks of bytes, for a sink that may refuse them. */
module Decoders {
  import opened Frames

  // Dead: next is NULL after a decoding error.
  datatype Step = OneByteSizeReady | EightByteSizeReady | FlagsReady | MessageReady | Dead

  // What push_msg returns: success, EAGAIN, another error.
  datatype Answer = Accept | Again | Fail

  // target holds what has been read to where the step reads to.
  datatype State = State(step: Step, target: seq<Byte>, toRead: nat, size: nat, more: bool)

  const Fresh := State(OneByteSizeReady, [], 1, 0, false)

  // raw is what has been consumed of the current frame.
  predicate Matches(d: State, raw: seq<Byte>, max: int) {
    match d.step
    case OneByteSizeReady => raw == d.target && |d.target| + d.toRead == 1
    case EightByteSizeReady => raw == [0xff] + d.target && |d.target| + d.toRead == 8
    case FlagsReady => HeaderIs(d, raw, max) && raw[HeaderLength(raw)..] == d.target && |d.target| + d.toRead == 1
    case MessageReady =>
      && HeaderIs(d, raw, max) && HeaderLength(raw) < |raw| && d.more == (raw[HeaderLength(raw)] % 2 == 1)
      && raw[HeaderLength(raw) + 1..] == d.target && |d.target| + d.toRead == d.size
    case Dead => !Parse(raw, max).Incomplete?
  }

  predicate HeaderIs(d: State, raw: seq<Byte>, max: int) {
    raw != [] && HeaderLength(raw) <= |raw| && SizeField(raw) == d.size + 1 && Acceptable(d.size + 1, max)
  }

  // A complete message waits for the sink.
  predicate Blocked(d: State) { d.step.MessageReady? && d.toRead == 0 }

  function Waiting(d: State): seq<Msg> {
    if Blocked(d) then [Msg(d.target, d.more)] else []
  }

  // What the state says about the bytes of the current frame.
  lemma MatchesMeans(d: State, raw: seq<Byte>, max: int)
    requires Matches(d, raw, max)
    ensures Blocked(d) ==> Parse(raw, max) == Parsed(Msg(d.target, d.more), |raw|)
    ensures d.toRead > 0 && !d.step.Dead? ==> Parse(raw, max) == Incomplete
  {
  }

  lemma ParseNothing(max: int)
    ensures Parse([], max) == Incomplete
  {
  }

  // Reading on: k further bytes arrive at the target.
  function Fill(d: State, bytes: seq<Byte>): State
    requires |bytes| <= d.toRead
  {
    d.(target := d.target + bytes, toRead := d.toRead - |bytes|)
  }

  lemma HeaderExtends(d: State, raw: seq<Byte>, bytes: seq<Byte>, max: int)
    requires HeaderIs(d, raw, max)
    ensures HeaderIs(d, raw + bytes, max) && HeaderLength(raw + bytes) == HeaderLength(raw)
  {
    if raw[0] == 0xff { assert (raw + bytes)[1..9] == raw[1..9]; }
  }

  lemma FillMatches(d: State, bytes: seq<Byte>, raw: seq<Byte>, max: int)
    requires Matches(d, raw, max) && |bytes| <= d.toRead && !d.step.Dead?
    ensures Matches(Fill(d, bytes), raw + bytes, max)
  {
    if d.step.FlagsReady? || d.step.MessageReady? {
      HeaderExtends(d, raw, bytes, max);
      HeaderExtends(Fill(d, bytes), raw, bytes, max);
      var h := HeaderLength(raw);
      assert (raw + bytes)[h..] == raw[h..] + bytes;
      if h < |raw| { assert (raw + bytes)[h + 1..] == raw[h + 1..] + bytes; }
    }
  }

  class Decoder {
    const max: int            // maxmsgsize, no limit below zero
    const bufsize: nat
    var step: Step
    var target: seq<Byte>
    var toRead: nat
    var size: nat             // in_progress.size ()
    var more: bool
    var attached: bool        // msg_sink is set
    var answers: seq<Answer>  // what the sink will say, and then always yes
    var pushed: seq<Msg>      // what the sink has accepted
    ghost var done: seq<Byte> // consumed up to the last message pushed
    ghost var raw: seq<Byte>  // consumed of the frame after it
    ghost var refused: bool   // the sink has failed for good

    ghost function View(): State
      reads this
    {
      State(step, target, toRead, size, more)
    }

    // Everything consumed so far.
    ghost function Stream(): seq<Byte>
      reads this
    {
      done + raw
    }

    ghost predicate Valid()
      reads this
    {
      && Matches(View(), raw, max) && Decode(done, max) == Decoded(pushed, [], false)
      && (step.Dead? && !refused ==> Parse(raw, max).Malformed?)
    }

    // A sink that only ever takes messages or asks to try again.
    ghost predicate Patient()
      reads this
    {
      !refused && Fail !in answers
    }

    constructor (bufsize_: nat, max_: int)
      ensures Valid() && View() == Fresh && Stream() == [] && pushed == [] && max == max_ && bufsize == bufsize_
    {
      bufsize, max := bufsize_, max_;
      step, target, toRead, size, more := OneByteSizeReady, [], 1, 0, false;
      attached, answers, pushed, done, raw, refused := false, [], [], [], [], false;
    }

    // What the consumed bytes decode to: what has been pushed, and the message
    // that waits for the sink.
    lemma StreamDecoded()
      requires Valid() && (toRead > 0 || Blocked(View())) && !step.Dead?
      ensures var d := Decode(Stream(), max); !d.malformed && d.msgs == pushed + Waiting(View())
      ensures Decode(Stream(), max).rest == if Blocked(View()) then [] else raw
    {
      hide Decode, Parse, Matches;
      MatchesMeans(View(), raw, max);
      DecodeConcat(done, raw, max);
      assert [] + raw == raw;
      DecodeStep(raw, max);
      if Blocked(View()) {
        assert raw[|raw|..] == [];
        DecodeStep([], max);
        ParseNothing(max);
      }
    }

    // A stream that holds messages within the limit is never given up, and
    // exactly those messages are handed over, whatever the chunks and refusals.
    lemma Delivers(ms: seq<Msg>)
      requires Valid() && !refused && (toRead > 0 || Blocked(View()) || step.Dead?)
      requires Within(ms, max) && Stream() <= FrameAll(ms)
      ensures !step.Dead? && pushed + Waiting(View()) <= ms
      ensures Stream() == FrameAll(ms) ==> pushed + Waiting(View()) == ms
    {
      hide Decode, Parse, Matches, FrameAll, Blocked;
      DecodePrefix(ms, Stream(), max);
      DecodeFrames(ms, max);
      if step.Dead? { DeadOnlyMalformed(); } else { StreamDecoded(); }
    }

    lemma DeadOnlyMalformed()
      requires Valid() && step.Dead? && !refused
      ensures Decode(Stream(), max).malformed
    {
      hide Decode, Parse, Matches;
      DecodeConcat(done, raw, max);
      assert [] + raw == raw;
      DecodeStep(raw, max);
    }

    method NextStep(step_: Step, toRead_: nat)
      modifies `step, `target, `toRead
      ensures step == step_ && target == [] && toRead == toRead_
    {
      step, target, toRead := step_, [], toRead_;
    }

    method DecodingError()
      modifies `step
      ensures step == Dead
    {
      step := Dead;
    }

    method OneByteSize() returns (ok: bool)
      requires Valid() && step.OneByteSizeReady? && toRead == 0
      modifies `step, `target, `toRead, `size, `more
      ensures Valid() && ok == !step.Dead? && (ok ==> toRead > 0)
    {
      if target[0] == 0xff {
        NextStep(EightByteSizeReady, 8);
      } else {
        if target[0] == 0 {
          DecodingError();
          return false;
        }
        if max >= 0 && target[0] - 1 > max {
          DecodingError();
          return false;
        }
        size, more := target[0] - 1, false;
        NextStep(FlagsReady, 1);
      }
      return true;
    }

    method EightByteSize() returns (ok: bool)
      requires Valid() && step.EightByteSizeReady? && toRead == 0
      modifies `step, `target, `toRead, `size, `more
      ensures Valid() && ok == !step.Dead? && (ok ==> toRead > 0)
    {
      assert raw[1..9] == target;
      var payload := Get(target);
      if payload == 0 {
        DecodingError();
        return false;
      }
      if max >= 0 && payload - 1 > max {
        DecodingError();
        return false;
      }
      if payload - 1 > SIZE_MAX {
        DecodingError();
        return false;
      }
      size, more := payload - 1, false;
      NextStep(FlagsReady, 1);
      return true;
    }

    method StoreFlags() returns (ok: bool)
      requires Valid() && step.FlagsReady? && toRead == 0
      modifies `step, `target, `toRead, `more
      ensures Valid() && ok && step.MessageReady?
    {
      more := target[0] % 2 == 1;
      NextStep(MessageReady, size);
      return true;
    }

    method PushMessage() returns (ok: bool)
      requires Valid() && Blocked(View())
      modifies this
      ensures Valid() && Stream() == old(Stream()) && attached == old(attached) && (old(Patient()) ==> Patient())
      ensures ok == (attached && (old(answers) == [] || old(answers)[0].Accept?))
      ensures answers == if attached && old(answers) != [] then old(answers)[1..] else old(answers)
      ensures ok ==> View() == Fresh.(size := size, more := more) && pushed == old(pushed + Waiting(View()))
      ensures !ok ==> pushed == old(pushed) && (step.Dead? || View() == old(View()))
      ensures step.Dead? <==> attached && old(answers) != [] && old(answers)[0].Fail?
    {
      hide Decode, Parse;
      if !attached {
        return false;
      }
      var answer := if answers == [] then Accept else answers[0];
      if answers != [] {
        answers := answers[1..];
      }
      if answer != Accept {
        MatchesMeans(View(), raw, max);
        if answer != Again {
          DecodingError();
          refused := true;
        }
        return false;
      }
      StreamDecoded();
      pushed := pushed + [Msg(target, more)];
      done, raw := done + raw, [];
      NextStep(OneByteSizeReady, 1);
      assert done + raw == done;
      return true;
    }

    // The inner loop: take steps until there is something to read.  A message is
    // left waiting only if the sink has been asked, and has refused it, in this call.
    method Run() returns (ok: bool)
      requires Valid() && !step.Dead?
      modifies this
      ensures Valid() && Stream() == old(Stream()) && attached == old(attached) && old(pushed) <= pushed
      ensures old(Patient()) ==> Patient()
      ensures ok ==> toRead > 0 && !step.Dead?
      ensures !ok ==> step.Dead? || (Blocked(View()) && (attached ==> |answers| < |old(answers)|))
      ensures |answers| <= |old(answers)|
      ensures old(toRead) > 0 ==> ok && View() == old(View())
    {
      hide Decode, Parse, Matches;
      while toRead == 0
        invariant Valid() && !step.Dead?
        invariant Stream() == old(Stream()) && attached == old(attached) && old(pushed) <= pushed
        invariant old(Patient()) ==> Patient()
        invariant |answers| <= |old(answers)|
        invariant old(toRead) > 0 ==> View() == old(View()) && toRead > 0
        decreases toRead == 0, step.FlagsReady?
      {
        match step {
          case OneByteSizeReady => ok := OneByteSize();
          case EightByteSizeReady => ok := EightByteSize();
          case FlagsReady => ok := StoreFlags();
          case MessageReady => ok := PushMessage();
        }
        if !ok {
          return;
        }
      }
      return true;
    }

    // Where the caller should put its data: a large rest straight into the message.
    method GetBuffer() returns (direct: bool, length: nat)
      ensures direct ==> length == toRead >= bufsize
      ensures !direct ==> length == bufsize > toRead
    {
      if toRead >= bufsize {
        return true, toRead;
      }
      return false, bufsize;
    }

    method Receive(bytes: seq<Byte>)
      requires Valid() && !step.Dead? && |bytes| <= toRead
      modifies `target, `toRead, `raw
      ensures Valid() && View() == Fill(old(View()), bytes) && Stream() == old(Stream()) + bytes
    {
      hide Decode, Parse, Matches;
      FillMatches(View(), bytes, raw, max);
      assert done + (raw + bytes) == done + raw + bytes;
      target, toRead, raw := target + bytes, toRead - |bytes|, raw + bytes;
    }

    // Feed a chunk; direct says that it was put where GetBuffer pointed into the
    // message.  n is how much was used, -1 for an error.
    method ProcessBuffer(data: seq<Byte>, direct: bool) returns (n: int)
      requires Valid()
      requires direct ==> |data| <= toRead
      modifies this
      ensures Valid() && attached == old(attached) && old(pushed) <= pushed && (old(Patient()) ==> Patient())
      ensures n == -1 <==> step.Dead?
      ensures n != -1 ==> 0 <= n <= |data| && Stream() == old(Stream()) + data[..n]
      ensures n != -1 ==> toRead > 0 || (Blocked(View()) && (attached ==> |answers| < |old(answers)|))
      ensures 0 <= n < |data| ==> Blocked(View()) && !direct
      ensures n == -1 ==> exists k | 0 <= k <= |data| :: Stream() == old(Stream()) + data[..k]
    {
      hide Decode, Parse, Matches;
      assert data[..0] == [] && old(Stream()) + [] == old(Stream()) && data[..|data|] == data;
      if step.Dead? {
        return -1;
      }
      if direct {
        Receive(data);
        var ok := Run();
        return if step.Dead? then -1 else |data|;
      }
      var pos := 0;
      while true
        invariant Valid() && !step.Dead? && attached == old(attached) && old(pushed) <= pushed
        invariant old(Patient()) ==> Patient()
        invariant |answers| <= |old(answers)|
        invariant 0 <= pos <= |data| && Stream() == old(Stream()) + data[..pos]
        decreases |data| - pos
      {
        var ok := Run();
        if !ok {
          return if step.Dead? then -1 else pos;
        }
        if pos == |data| {
          return pos;
        }
        var n := if toRead <= |data| - pos then toRead else |data| - pos;
        Receive(data[pos..pos + n]);
        assert data[..pos + n] == data[..pos] + data[pos..pos + n];
        pos := pos + n;
      }
    }

    method Stalled() returns (stalled: bool)
      requires Valid()
      modifies this
      ensures Valid() && Stream() == old(Stream()) && attached == old(attached) && old(pushed) <= pushed
      ensures old(Patient()) ==> Patient()
      ensures stalled == (!step.Dead? && Blocked(View()))
      ensures stalled && attached ==> |answers| < |old(answers)|
    {
      hide Decode, Parse, Matches;
      if step.Dead? {
        return false;
      }
      var ok := Run();
      return !ok && !step.Dead?;
    }
  }
}
