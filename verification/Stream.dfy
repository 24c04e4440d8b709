/** Encoder and decoder at the two ends of a byte stream: the engine that moves
    bytes in pieces of any size, and a receiver that joins in the middle. */
module Streams {
  import opened Basics
  import opened Frames
  import Encoders
  import Decoders

  // stream_engine_t::out_event.
  class Sender {
    const encoder: Encoders.Encoder
    var outbuf: seq<Byte>               // outpos .. outpos + outsize
    ghost var supplied: seq<Msg>        // all messages handed to the source
    ghost var written: seq<Byte>        // all bytes the socket has taken

    ghost predicate Valid()
      reads this, encoder
    {
      encoder.Valid() && written + outbuf + Encoders.Rest(encoder.View()) == FrameAll(supplied)
    }

    constructor (bufsize: nat)
      ensures Valid() && supplied == [] && written == [] && fresh(encoder)
    {
      encoder := new Encoders.Encoder(bufsize);
      outbuf, supplied, written := [], [], [];
    }

    method Supply(m: Msg)
      requires Valid()
      modifies encoder`queue, `supplied
      ensures Valid() && supplied == old(supplied) + [m] && encoder.queue == old(encoder.queue) + [m]
    {
      hide Encoders.Rest, FrameAll;
      FrameAllConcat(supplied, [m]);
      Encoders.RestGrows(encoder.View(), m);
      Encoders.Regroup(written + outbuf, Encoders.Rest(encoder.View()), FrameAll([m]));
      encoder.queue, supplied := encoder.queue + [m], supplied + [m];
    }

    // The socket takes some of what it is offered.
    method OutEvent(accepted: nat) returns (more: bool)
      requires Valid()
      modifies this, encoder
      ensures Valid() && supplied == old(supplied) && old(written) <= written
      ensures !more ==> written == old(written) && outbuf == []
      ensures !more && encoder.bufsize > 0 && encoder.attached ==> written == FrameAll(supplied)
      ensures more && accepted > 0 ==> |written| > |old(written)|
    {
      hide Encoders.Rest, Encoders.First;
      if outbuf == [] {
        var offset;
        outbuf, offset := encoder.GetData(None);
        assert written + [] == written;
        Encoders.Regroup(written, outbuf, Encoders.Rest(encoder.View()));
        if outbuf == [] {
          if encoder.bufsize > 0 && encoder.attached { Encoders.NothingLeft(encoder.View()); }
          assert written + [] == written;
          return false;
        }
      }
      var n := if accepted <= |outbuf| then accepted else |outbuf|;
      assert written + outbuf == written + outbuf[..n] + outbuf[n..];
      written, outbuf := written + outbuf[..n], outbuf[n..];
      return true;
    }
  }

  // stream_engine_t::in_event up to a disconnection.
  class Receiver {
    const decoder: Decoders.Decoder
    var inbuf: seq<Byte>                // inpos .. inpos + insize
    var polling: bool
    ghost var received: seq<Byte>       // all bytes the socket has given

    ghost predicate Valid()
      reads this, decoder
    {
      && decoder.Valid() && (decoder.toRead > 0 || Decoders.Blocked(decoder.View()) || decoder.step.Dead?)
      && (!decoder.step.Dead? ==> received == decoder.Stream() + inbuf)
      && decoder.Stream() <= received
    }

    constructor (bufsize: nat, max: int)
      ensures Valid() && received == [] && fresh(decoder) && decoder.pushed == [] && decoder.max == max
    {
      decoder := new Decoders.Decoder(bufsize, max);
      inbuf, polling, received := [], true, [];
    }

    // Asks the socket for data when there is none left to process.
    method Fill(available: seq<Byte>) returns (direct: bool)
      requires Valid() && !decoder.step.Dead?
      modifies this
      ensures Valid() && polling == old(polling) && (direct ==> |inbuf| <= decoder.toRead)
      ensures old(inbuf) != [] ==> inbuf == old(inbuf) && received == old(received)
      ensures old(inbuf) == [] ==> inbuf <= available && received == old(received) + inbuf
      ensures old(inbuf) == [] && available != [] && decoder.bufsize > 0 ==> inbuf != []
    {
      hide Decoders.Blocked, Decode, Parse, Decoders.Matches, Decoders.Decoder.Valid, Decoders.Decoder.Patient, Decoders.Decoder.Stream;
      direct := false;
      if inbuf == [] {
        var length;
        direct, length := decoder.GetBuffer();
        inbuf := available[..if length <= |available| then length else |available|];
        received := received + inbuf;
      }
    }

    // The socket gives some of what is asked for.
    method InEvent(available: seq<Byte>) returns (ok: bool)
      requires Valid() && !decoder.step.Dead?
      modifies this, decoder
      ensures Valid() && ok == !decoder.step.Dead? && old(decoder.pushed) <= decoder.pushed
      ensures old(received) <= received <= old(received) + available
      ensures old(decoder.Patient()) ==> decoder.Patient()
      ensures old(inbuf) == [] && available != [] && decoder.bufsize > 0 ==> |received| > |old(received)|
      ensures ok ==> (inbuf == [] || Decoders.Blocked(decoder.View())) && polling == (old(polling) && inbuf == [])
    {
      hide Decoders.Blocked, Decode, Parse, Decoders.Matches, Decoders.Decoder.Valid, Decoders.Decoder.Patient, Decoders.Decoder.Stream;
      var direct := Fill(available);
      ghost var stream, offered := decoder.Stream(), inbuf;
      var processed := decoder.ProcessBuffer(inbuf, direct);
      if processed == -1 {
        ghost var k :| 0 <= k <= |offered| && decoder.Stream() == stream + offered[..k];
        return false;
      }
      if processed < |inbuf| {
        polling := false;
      }
      assert offered == offered[..processed] + offered[processed..];
      assert stream + offered[..processed] + offered[processed..] == stream + offered;
      inbuf := inbuf[processed..];
      return true;
    }
  }

  // Over any run: what the receiver has been given is part of what the sender has
  // written, so what it has pushed, with the message its sink still refuses, is a
  // prefix of what was supplied, and all of it once all bytes have been consumed.
  lemma EndToEnd(s: Sender, r: Receiver)
    requires s.Valid() && r.Valid() && !r.decoder.refused
    requires r.received <= s.written && Within(s.supplied, r.decoder.max)
    ensures !r.decoder.step.Dead? && r.decoder.pushed + Decoders.Waiting(r.decoder.View()) <= s.supplied
    ensures r.inbuf == [] && s.outbuf == [] && r.received == s.written && Encoders.Rest(s.encoder.View()) == [] ==>
      r.decoder.pushed + Decoders.Waiting(r.decoder.View()) == s.supplied
  {
    r.decoder.Delivers(s.supplied);
  }

  // What a batch promises about its offset: -1 only when no multipart message starts
  // in it, or at its end if it did not fill the buffer; otherwise from there on the
  // stream is whole messages that start with the first part of one, and a fresh decoder
  // gets exactly those.
  lemma JoinMidStream(e: Encoders.State, data: seq<Byte>, e': Encoders.State, offset: int, size: nat, max: int)
      returns (k: nat)
    requires data + Encoders.Rest(e') == Encoders.Rest(e)
    requires offset == Encoders.OffsetIn(Encoders.First(e), |data|, size)
    requires Within(e.queue, max)
    ensures offset == -1 ==>
      forall j | 0 <= j <= |e.queue| && Encoders.StartsMessage(e, j) ::
        Encoders.Before(e, j) >= |data| && (|data| < size ==> Encoders.Before(e, j) > |data|)
    ensures offset != -1 ==>
      && 0 <= offset <= |data| && k <= |e.queue| && Encoders.StartsMessage(e, k) && offset == Encoders.Before(e, k)
      && data[offset..] + Encoders.Rest(e') == FrameAll(e.queue[k..])
      && Decode(data[offset..] + Encoders.Rest(e'), max) == Decoded(e.queue[k..], [], false)
  {
    k := Encoders.JoinAt(e);
    forall j | 0 <= j <= |e.queue| && Encoders.StartsMessage(e, j)
      ensures Encoders.First(e).Some? && Encoders.First(e).value <= Encoders.Before(e, j)
    {
      Encoders.BeforeGrows(e, k, j);
    }
    if offset != -1 {
      assert (data + Encoders.Rest(e'))[offset..] == data[offset..] + Encoders.Rest(e');
      DecodeFrames(e.queue[k..], max);
    }
  }
}
