/** The wire format of messages, as a function from messages to bytes and as a
    parser of its own. */
module Frames {
  import Tries

  type Byte = Tries.Byte

  const SIZE_MAX := 0xFFFF_FFFF_FFFF_FFFF

  datatype Msg = Msg(body: seq<Byte>, more: bool)

  // The size with the flags byte fits a size_t.
  predicate Sized(m: Msg) { |m.body| < SIZE_MAX }

  // --- Network byte order ---

  function Put(value: nat, width: nat): (bytes: seq<Byte>)
    ensures |bytes| == width
  {
    if width == 0 then [] else Put(value / 256, width - 1) + [value % 256]
  }

  function Get(bytes: seq<Byte>): nat {
    if bytes == [] then 0 else Get(bytes[..|bytes| - 1]) * 256 + bytes[|bytes| - 1]
  }

  function Power256(width: nat): (p: nat)
    ensures p > 0
  {
    if width == 0 then 1 else Power256(width - 1) * 256
  }

  lemma {:induction false} GetPut(value: nat, width: nat)
    requires value < Power256(width)
    ensures Get(Put(value, width)) == value
  {
    if width > 0 {
      var bytes := Put(value, width);
      assert bytes[..|bytes| - 1] == Put(value / 256, width - 1);
      GetPut(value / 256, width - 1);
    }
  }

  lemma {:induction false} PutGet(bytes: seq<Byte>)
    ensures Put(Get(bytes), |bytes|) == bytes && Get(bytes) < Power256(|bytes|)
  {
    if bytes != [] { PutGet(bytes[..|bytes| - 1]); }
  }

  // put_uint64 and get_uint64 are the case of 8 bytes.
  lemma GetPut64(value: nat)
    requires value <= SIZE_MAX
    ensures Get(Put(value, 8)) == value && |Put(value, 8)| == 8
  {
    Power8();
    GetPut(value, 8);
  }

  // The most significant byte comes first.
  lemma {:induction false} PutDigits(value: nat, width: nat, i: nat)
    requires i < width
    ensures Put(value, width)[i] == value / Power256(width - 1 - i) % 256
  {
    if i == width - 1 {
      assert Power256(0) == 1;
    } else {
      PutDigits(value / 256, width - 1, i);
      DivDiv(value, Power256(width - 2 - i));
    }
  }

  lemma DivDiv(value: nat, d: nat)
    requires d > 0
    ensures value / 256 / d == value / (d * 256)
  {
    var q, r := value / 256, value % 256;
    var s, u := q / d, q % d;
    assert q == s * d + u && value == q * 256 + r;
    calc {
      value;
      (s * d + u) * 256 + r;
      s * d * 256 + u * 256 + r;
      { assert s * d * 256 == s * (d * 256) by { Times(s, d); } }
      s * (d * 256) + (u * 256 + r);
    }
    DivIs(value, d * 256, s, u * 256 + r);
  }

  lemma Times(s: nat, d: nat)
    ensures s * d * 256 == s * (d * 256)
  {
  }

  lemma DivIs(n: int, d: int, q: int, r: int)
    requires d > 0 && n == q * d + r && 0 <= r < d
    ensures n / d == q
  {
    assert n == n / d * d + n % d;
    if q > n / d { Apart(q, n / d, d); } else if q < n / d { Apart(n / d, q, d); }
  }

  lemma Apart(a: int, b: int, d: int)
    requires a > b && d > 0
    ensures a * d >= b * d + d
  {
    Distributes(b, a - b, d);
    AtLeast(a - b, d);
  }

  lemma Distributes(a: int, b: int, d: int)
    ensures (a + b) * d == a * d + b * d
  {
  }

  lemma AtLeast(k: int, d: int)
    requires k > 0 && d > 0
    ensures k * d >= d
  {
  }

  // The value of bytes with their weights.
  function Weighted(bytes: seq<Byte>): nat {
    if bytes == [] then 0 else bytes[0] * Power256(|bytes| - 1) + Weighted(bytes[1..])
  }

  lemma {:induction false} GetWeighs(bytes: seq<Byte>)
    ensures Get(bytes) == Weighted(bytes)
  {
    if bytes != [] {
      var n := |bytes| - 1;
      GetWeighs(bytes[..n]);
      WeightedAppend(bytes[..n], bytes[n]);
      assert bytes == bytes[..n] + [bytes[n]];
    }
  }

  lemma {:induction false} WeightedAppend(bytes: seq<Byte>, b: Byte)
    ensures Weighted(bytes + [b]) == Weighted(bytes) * 256 + b
  {
    if bytes == [] {
      assert Power256(0) == 1 && (bytes + [b])[1..] == [];
    } else {
      var n := |bytes| - 1;
      assert (bytes + [b])[1..] == bytes[1..] + [b];
      WeightedAppend(bytes[1..], b);
      Times(bytes[0], Power256(n));
      assert Weighted(bytes + [b]) == bytes[0] * (Power256(n) * 256) + (Weighted(bytes[1..]) * 256 + b);
    }
  }

  // --- Writing ---

  function Flags(m: Msg): Byte { if m.more then 1 else 0 }

  // Fewer than 255 bytes with the flags: one byte of size; otherwise the escape
  // and eight bytes.
  function Header(m: Msg): seq<Byte> {
    var size := |m.body| + 1;
    if size < 255 then [size, Flags(m)] else [0xff] + Put(size, 8) + [Flags(m)]
  }

  function Frame(m: Msg): seq<Byte> { Header(m) + m.body }

  function FrameAll(ms: seq<Msg>): seq<Byte> {
    if ms == [] then [] else Frame(ms[0]) + FrameAll(ms[1..])
  }

  lemma {:induction false} FrameAllConcat(a: seq<Msg>, b: seq<Msg>)
    ensures FrameAll(a + b) == FrameAll(a) + FrameAll(b)
  {
    if a == [] {
      assert a + b == b;
    } else {
      assert (a + b)[1..] == a[1..] + b;
      FrameAllConcat(a[1..], b);
    }
  }

  // --- Reading ---

  function HeaderLength(s: seq<Byte>): nat
    requires s != []
  {
    if s[0] == 0xff then 9 else 1
  }

  // The size field, counting the flags byte.
  function SizeField(s: seq<Byte>): nat
    requires s != [] && HeaderLength(s) <= |s|
  {
    if s[0] == 0xff then Get(s[1..9]) else s[0]
  }

  // maxmsgsize below zero is no limit.
  predicate Acceptable(size: nat, max: int) {
    size > 0 && (max >= 0 ==> size - 1 <= max) && size - 1 <= SIZE_MAX
  }

  datatype Parsed = Incomplete | Malformed | Parsed(msg: Msg, length: nat)

  function Parse(s: seq<Byte>, max: int): (p: Parsed)
    ensures p.Parsed? ==> 1 < p.length <= |s|
  {
    if s == [] || |s| < HeaderLength(s) then Incomplete
    else
      var h, size := HeaderLength(s), SizeField(s);
      if !Acceptable(size, max) then Malformed
      else if |s| < h + size then Incomplete
      else Parsed(Msg(s[h + 1..h + size], s[h] % 2 == 1), h + size)
  }

  // What a whole stream holds: messages, and a rest in which no message is complete.
  datatype Decoded = Decoded(msgs: seq<Msg>, rest: seq<Byte>, malformed: bool)

  function Decode(s: seq<Byte>, max: int): (d: Decoded)
    decreases |s|
  {
    match Parse(s, max)
    case Incomplete => Decoded([], s, false)
    case Malformed => Decoded([], s, true)
    case Parsed(m, n) =>
      var d := Decode(s[n..], max);
      d.(msgs := [m] + d.msgs)
  }

  // Parsing looks at no more than it consumes.
  lemma ParseExtends(s: seq<Byte>, t: seq<Byte>, max: int)
    ensures Parse(s, max).Parsed? ==> Parse(s + t, max) == Parse(s, max)
    ensures Parse(s, max).Malformed? ==> Parse(s + t, max).Malformed?
  {
    if s != [] && HeaderLength(s) <= |s| {
      var h, size := HeaderLength(s), SizeField(s);
      if s[0] == 0xff { assert (s + t)[1..9] == s[1..9]; }
      if Acceptable(size, max) && h + size <= |s| {
        assert (s + t)[h + 1..h + size] == s[h + 1..h + size];
      }
    }
  }

  lemma DecodeStep(s: seq<Byte>, max: int)
    ensures var p, d := Parse(s, max), Decode(s, max);
      && (!p.Parsed? ==> d == Decoded([], s, p.Malformed?))
      && (p.Parsed? ==> d.msgs == [p.msg] + Decode(s[p.length..], max).msgs)
      && (p.Parsed? ==> d.rest == Decode(s[p.length..], max).rest)
      && (p.Parsed? ==> d.malformed == Decode(s[p.length..], max).malformed)
  {
  }

  // Decoding a stream in two pieces: the rest of the first goes with the second.
  lemma {:induction false} DecodeConcat(s: seq<Byte>, t: seq<Byte>, max: int)
    requires !Decode(s, max).malformed
    ensures var d := Decode(s, max); var e := Decode(d.rest + t, max); var f := Decode(s + t, max);
      f.msgs == d.msgs + e.msgs && f.rest == e.rest && f.malformed == e.malformed
    decreases |s|
  {
    hide Parse, Decode;
    DecodeStep(s, max);
    var p := Parse(s, max);
    if p.Parsed? {
      var n := p.length;
      ParseExtends(s, t, max);
      DecodeStep(s + t, max);
      assert (s + t)[n..] == s[n..] + t;
      DecodeConcat(s[n..], t, max);
      var d := Decode(s[n..], max);
      var e := Decode(d.rest + t, max);
      assert [p.msg] + (d.msgs + e.msgs) == [p.msg] + d.msgs + e.msgs;
    }
  }

  lemma {:induction false} MalformedStays(s: seq<Byte>, t: seq<Byte>, max: int)
    requires Decode(s, max).malformed
    ensures Decode(s + t, max).malformed && Decode(s + t, max).msgs == Decode(s, max).msgs
    decreases |s|
  {
    ParseExtends(s, t, max);
    match Parse(s, max)
    case Malformed =>
    case Parsed(m, n) =>
      assert (s + t)[n..] == s[n..] + t;
      MalformedStays(s[n..], t, max);
  }

  // --- The bytes on the wire ---

  // Up to 253 bytes of body: size and flags; more: the escape, the size from its most
  // significant byte on, and the flags.  The size counts the flags byte.
  lemma HeaderBytes(m: Msg)
    ensures var h, size := Header(m), |m.body| + 1;
      && Frame(m) == h + m.body && h[|h| - 1] == (if m.more then 1 else 0)
      && if size < 255 then |h| == 2 && h[0] == size
         else |h| == 10 && h[0] == 255 && forall i | 1 <= i < 9 :: h[i] == size / Power256(8 - i) % 256
  {
    var size := |m.body| + 1;
    if size >= 255 {
      forall i | 1 <= i < 9 ensures Header(m)[i] == size / Power256(8 - i) % 256 { HeaderDigit(m, i); }
    }
  }

  lemma HeaderDigit(m: Msg, i: nat)
    requires |m.body| + 1 >= 255 && 1 <= i < 9
    ensures Header(m)[i] == (|m.body| + 1) / Power256(8 - i) % 256
  {
    PutDigits(|m.body| + 1, 8, i - 1);
  }

  lemma Powers()
    ensures Power256(0) == 1 && Power256(1) == 0x100 && Power256(2) == 0x1_0000 && Power256(3) == 0x100_0000
    ensures Power256(4) == 0x1_0000_0000 && Power256(5) == 0x100_0000_0000
    ensures Power256(6) == 0x1_0000_0000_0000 && Power256(7) == 0x100_0000_0000_0000
  {
  }

  // A message of 300 bytes.
  lemma HeaderOf300(m: Msg)
    requires |m.body| == 300 && !m.more
    ensures Header(m) == [0xff, 0, 0, 0, 0, 0, 0, 0x01, 0x2d, 0]
  {
    hide Header, Power256, Put, Get;
    HeaderBytes(m);
    Powers();
    HeaderDigit(m, 1);
    HeaderDigit(m, 2);
    HeaderDigit(m, 3);
    HeaderDigit(m, 4);
    HeaderDigit(m, 5);
    HeaderDigit(m, 6);
    HeaderDigit(m, 7);
    HeaderDigit(m, 8);
  }

  // The size a stream announces: its first byte, or after the escape eight bytes from
  // the most significant one on.
  predicate Announces(s: seq<Byte>, size: nat) {
    if s == [] then false
    else if s[0] != 255 then size == s[0]
    else |s| >= 9 && size == Weighted(s[1..9])
  }

  // A stream is malformed exactly when it announces nothing at all or more than the
  // limit, and this is found as soon as the size is there.
  lemma MalformedExactly(s: seq<Byte>, max: int)
    ensures Parse(s, max).Malformed? <==>
      exists size: nat :: Announces(s, size) && (size == 0 || (max >= 0 && size - 1 > max))
    ensures Parse(s, max).Incomplete? <==>
      forall size: nat | Announces(s, size) :: size != 0 && (max >= 0 ==> size - 1 <= max) && |s| < HeaderLength(s) + size
  {
    if s != [] && HeaderLength(s) <= |s| {
      var size := SizeField(s);
      if s[0] == 255 {
        GetWeighs(s[1..9]);
        PutGet(s[1..9]);
        Power8();
      }
      assert Announces(s, size);
      assert size <= SIZE_MAX + 1;
      assert forall n: nat | Announces(s, n) :: n == size;
    }
  }

  lemma Power8()
    ensures Power256(8) == 0x1_0000_0000_0000_0000
  {
    assert Power256(2) == 0x1_0000;
    assert Power256(4) == 0x1_0000_0000;
    assert Power256(6) == 0x1_0000_0000_0000;
  }

  // What is parsed is the announced number of bytes after the size, the low bit of the
  // first of which says whether more follows.
  lemma ParsedMeans(s: seq<Byte>, max: int)
    requires Parse(s, max).Parsed?
    ensures var p := Parse(s, max); var h := if s[0] == 255 then 9 else 1;
      && h < p.length <= |s| && Announces(s, p.length - h)
      && p.msg.body == s[h + 1..p.length] && (p.msg.more <==> s[h] % 2 == 1)
  {
    if s[0] == 255 { GetWeighs(s[1..9]); }
  }

  // --- Round trip ---

  // No message is larger than the decoder allows.
  ghost predicate Within(ms: seq<Msg>, max: int) {
    forall m | m in ms :: Sized(m) && (max >= 0 ==> |m.body| <= max)
  }

  lemma ParseFrame(m: Msg, t: seq<Byte>, max: int)
    requires Within([m], max)
    ensures Parse(Frame(m) + t, max) == Parsed(m, |Frame(m)|)
  {
    assert m in [m];
    var s, size := Frame(m) + t, |m.body| + 1;
    GetPut64(size);
    if size >= 255 { assert s[1..9] == Put(size, 8); }
    var h := HeaderLength(s);
    assert s[h + 1..h + size] == m.body;
  }

  lemma {:induction false} DecodeFrames(ms: seq<Msg>, max: int)
    requires Within(ms, max)
    ensures Decode(FrameAll(ms), max) == Decoded(ms, [], false)
  {
    if ms != [] {
      var s, t := Frame(ms[0]), FrameAll(ms[1..]);
      assert forall m | m in [ms[0]] :: m == ms[0];
      ParseFrame(ms[0], t, max);
      assert (s + t)[|s|..] == t;
      DecodeFrames(ms[1..], max);
    }
  }

  // Whatever part of a valid stream has arrived, what it decodes to is a prefix.
  lemma DecodePrefix(ms: seq<Msg>, s: seq<Byte>, max: int)
    requires Within(ms, max) && s <= FrameAll(ms)
    ensures !Decode(s, max).malformed && Decode(s, max).msgs <= ms
  {
    var t := FrameAll(ms)[|s|..];
    assert s + t == FrameAll(ms);
    DecodeFrames(ms, max);
    if Decode(s, max).malformed {
      MalformedStays(s, t, max);
    } else {
      DecodeConcat(s, t, max);
    }
  }
}
