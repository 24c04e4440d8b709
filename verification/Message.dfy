/** msg_t: short messages carry their body, long ones share a counted content. */
module Messages {
  import opened Frames

  const MAX_VSM_SIZE := 29

  class Content {
    const data: seq<Byte>
    var refcnt: nat
    var freed: bool
    ghost var holders: nat   // the messages that refer to it, promised copies included

    constructor (data_: seq<Byte>)
      ensures data == data_ && refcnt == 0 && !freed && holders == 1
    {
      data, refcnt, freed, holders := data_, 0, false, 1;
    }

    method Free()
      requires !freed
      modifies this`freed
      ensures freed
    {
      freed := true;
    }
  }

  // Closed is the invalid type close () leaves behind.
  datatype Value =
    | Vsm(body: seq<Byte>, more: bool)
    | Lmsg(content: Content, more: bool, shared: bool)
    | Delimiter
    | Closed

  const Empty := Vsm([], false)

  // A message that holds on to content: the content is there, and its count is
  // that of its holders, or this is the only one and nobody counts.
  ghost predicate Holds(m: Value)
    reads if m.Lmsg? then {m.content} else {}
  {
    m.Lmsg? ==> !m.content.freed && if m.shared then m.content.refcnt == m.content.holders > 0 else m.content.holders == 1
  }

  predicate Same(m: Value, n: Value) { m.Lmsg? && n.Lmsg? && m.content == n.content }

  // Two different messages of one content are two of its holders, and counted.
  ghost predicate Two(m: Value, n: Value)
    reads if m.Lmsg? then {m.content} else {}
  {
    Same(m, n) ==> m.shared && n.shared && m.content.holders >= 2
  }

  // What n holders letting go does: the last one frees.
  twostate predicate LetGo(c: Content, n: nat)
    reads c
  {
    old(c.holders) == c.holders + n && c.freed == (c.holders == 0)
  }

  class Message {
    var v: Value

    constructor ()
      ensures v == Empty
    {
      v := Empty;
    }

    method Init()
      modifies this
      ensures v == Empty
    {
      v := Empty;
    }

    // init_size and filling in the body.
    method InitData(body: seq<Byte>)
      modifies this
      ensures Holds(v) && !v.Closed?
      ensures v == Vsm(body, false) || (v.Lmsg? && fresh(v.content) && v.content.data == body && !v.shared && !v.more)
      ensures v.Vsm? <==> |body| <= MAX_VSM_SIZE
    {
      if |body| <= MAX_VSM_SIZE {
        v := Vsm(body, false);
      } else {
        var content := new Content(body);
        v := Lmsg(content, false, false);
      }
    }

    method Close() returns (ok: bool)
      requires Holds(v)
      modifies this, if v.Lmsg? then {v.content} else {}
      ensures ok == !old(v).Closed? && v == Closed
      ensures old(v).Lmsg? ==> LetGo(old(v).content, 1)
      ensures old(v).Lmsg? && old(v).shared ==> old(v).content.refcnt == old(v).content.holders
    {
      if v.Closed? {
        return false;
      }
      if v.Lmsg? {
        var last := !v.shared;
        if v.shared {
          v.content.refcnt := v.content.refcnt - 1;
          last := v.content.refcnt == 0;
        }
        if last {
          v.content.Free();
        }
        v.content.holders := v.content.holders - 1;
      }
      v := Closed;
      return true;
    }

    // The content moves without a change of its count.
    method Move(src: Message) returns (ok: bool)
      requires src != this && Holds(v) && Holds(src.v)
      requires Two(v, src.v)
      modifies this, src, if v.Lmsg? then {v.content} else {}
      ensures ok == !old(src.v.Closed? || v.Closed?)
      ensures ok ==> v == old(src.v) && src.v == Empty && Holds(v)
      ensures !old(src.v).Closed? && old(v).Lmsg? ==> LetGo(old(v).content, 1)
      ensures !ok ==> src.v == old(src.v) && Holds(src.v)
    {
      if src.v.Closed? {
        return false;
      }
      ok := Close();
      if !ok {
        return;
      }
      v := src.v;
      src.Init();
    }

    // Both messages hold the content afterwards.
    method Copy(src: Message) returns (ok: bool)
      requires src != this && Holds(v) && Holds(src.v)
      requires Two(v, src.v)
      modifies this, src, if v.Lmsg? then {v.content} else {}, if src.v.Lmsg? then {src.v.content} else {}
      ensures ok == !old(src.v.Closed? || v.Closed?)
      ensures ok ==> v == src.v && Holds(v)
      ensures ok && old(src.v).Lmsg? ==>
        && src.v == old(src.v).(shared := true)
        && src.v.content.holders == old(src.v.content.holders) + if Same(old(v), old(src.v)) then 0 else 1
      ensures ok && !old(src.v).Lmsg? ==> src.v == old(src.v)
      ensures !old(src.v).Closed? && old(v).Lmsg? && !Same(old(v), old(src.v)) ==> LetGo(old(v).content, 1)
      ensures !ok ==> src.v == old(src.v) && Holds(src.v)
    {
      if src.v.Closed? {
        return false;
      }
      ok := Close();
      if !ok {
        return;
      }
      if src.v.Lmsg? {
        if src.v.shared {
          src.v.content.refcnt := src.v.content.refcnt + 1;
        } else {
          src.v := src.v.(shared := true);
          src.v.content.refcnt := 2;
        }
        src.v.content.holders := src.v.content.holders + 1;
      }
      v := src.v;
    }

    // After this the message may be copied bit by bit refs times.
    method AddRefs(refs: nat)
      requires Holds(v)
      modifies this, if v.Lmsg? then {v.content} else {}
      ensures Holds(v) && (v == if old(v).Lmsg? && refs > 0 then old(v).(shared := true) else old(v))
      ensures v.Lmsg? ==> v.content.holders == old(v.content.holders) + refs && (v.shared ==> v.content.refcnt == v.content.holders)
    {
      if refs == 0 {
        return;
      }
      if v.Lmsg? {
        if v.shared {
          v.content.refcnt := v.content.refcnt + refs;
        } else {
          v.content.refcnt := refs + 1;
          v := v.(shared := true);
        }
        v.content.holders := v.content.holders + refs;
      }
    }

    // Takes back references that have not been used.
    method RmRefs(refs: nat) returns (left: bool)
      requires Holds(v) && !v.Closed?
      requires v.Lmsg? ==> refs <= v.content.holders
      modifies this, if v.Lmsg? then {v.content} else {}
      ensures refs == 0 ==> left && v == old(v) && (v.Lmsg? ==> LetGo(v.content, 0))
      ensures refs > 0 && old(v).Lmsg? ==> LetGo(old(v).content, refs) && left == !old(v).content.freed
      ensures refs > 0 && !old(v).Lmsg? ==> !left && v == Closed
      ensures old(v).Lmsg? && old(v).shared ==> v == old(v) && v.content.refcnt == v.content.holders
    {
      if refs == 0 {
        return true;
      }
      if !v.Lmsg? || !v.shared {
        var ok := Close();
        return false;
      }
      v.content.refcnt := v.content.refcnt - refs;
      v.content.holders := v.content.holders - refs;
      if v.content.refcnt == 0 {
        v.content.Free();
        return false;
      }
      return true;
    }

    // close and init again.
    method Drop()
      requires Holds(v) && !v.Closed?
      modifies this, if v.Lmsg? then {v.content} else {}
      ensures v == Empty && (old(v).Lmsg? ==> LetGo(old(v).content, 1))
    {
      var closed := Close();
      Init();
    }

    // Give back the copies that were not taken, and detach from the content.
    method Detach(unused: nat)
      requires Holds(v) && !v.Closed?
      requires v.Lmsg? ==> unused <= v.content.holders
      modifies this, if v.Lmsg? then {v.content} else {}
      ensures v == Empty && (old(v).Lmsg? ==> LetGo(old(v).content, unused))
    {
      if unused > 0 {
        var left := RmRefs(unused);
      }
      Init();
    }
  }
}
