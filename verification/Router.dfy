/** Messages on the wire and the control records inside them (tsm_router.c). */
module Router {
  import opened Wrappers
  import opened SkBuffs
  import opened Framing

  // ----- the message head -----

  const INT_RANGE := 0x1_0000_0000

  /** int2byteBE */
  function Be4(v: int): (b: bytes)
    ensures |b| == 4
  {
    var u := v % INT_RANGE;
    [u / 0x100_0000, u / 0x1_0000 % 256, u / 256 % 256, u % 256]
  }

  lemma Digits4(u: nat)
    requires u < 0x1_0000_0000
    ensures u / 0x100_0000 * 0x100_0000 + u / 0x1_0000 % 256 * 0x1_0000 + u / 256 % 256 * 0x100 + u % 256 == u
  {
    var a := u / 256;
    var b := a / 256;
    assert u / 0x1_0000 == b && u / 0x100_0000 == b / 256;
    assert u == 256 * a + u % 256 && a == 256 * b + a % 256 && b == 256 * (b / 256) + b % 256;
  }

  function FromBe4(b: bytes): nat
    requires |b| == 4
  {
    var x0: int, x1: int, x2: int, x3: int := b[0], b[1], b[2], b[3];
    x0 * 0x100_0000 + x1 * 0x1_0000 + x2 * 256 + x3
  }

  /** Highest byte first. */
  lemma Be4RoundTrip(v: int)
    ensures var b := Be4(v);
            (b[0] as int) * 0x100_0000 + (b[1] as int) * 0x1_0000 + (b[2] as int) * 0x100 + b[3] as int
            == v % 0x1_0000_0000
    ensures FromBe4(Be4(v)) == v % 0x1_0000_0000
  {
    Digits4(v % INT_RANGE);
  }

  /** What the writer sends: the whole message's length, the type and the session, then the content. */
  function Message(msg_type: int, session: int, content: bytes): bytes {
    Be4(|content| + MSG_HEAD_LEN) + Be4(msg_type) + Be4(session) + content
  }

  /** Four bytes read as an int. */
  function IntOf(b: bytes): int
    requires |b| == 4
  {
    var u := FromBe4(b);
    if u < INT_RANGE / 2 then u else u - INT_RANGE
  }

  /** What becomes of a message at router_do_read: the packet's type, session and window, and the rest of
      the stream; or the stream ends within the message; or the packet cannot be made, its allocation of
      a negative size failing or skb_put going into its panic loop over one of size 0. */
  datatype Arrival = Arrived(msg_type: int, session: int, window: bytes, rest: bytes) | Starved | NoPacket

  /** Reading the head, then the stated length less the head. */
  function Receive(stream: bytes): Arrival {
    if |stream| < MSG_HEAD_LEN then Starved
    else if IntOf(stream[..4]) <= 0 then NoPacket
    else
      var n := Content(IntOf(stream[..4]));
      if |stream| < MSG_HEAD_LEN + n then Starved
      else Arrived(IntOf(stream[4..8]), IntOf(stream[8..12]), stream[12..12 + n], stream[12 + n..])
  }

  /** How much of a message of the stated length follows its head. */
  function Content(len: int): nat {
    if len < MSG_HEAD_LEN then 0 else len - MSG_HEAD_LEN
  }

  function Zeros(n: nat): bytes {
    seq(n, _ => 0)
  }

  /** With the put as written, the field reads being as meant: skb_put is given the whole length, so that the
      bytes not read stay zero, inside the window. */
  function ReceiveOverlong(stream: bytes): Arrival {
    match Receive(stream)
    case Arrived(msg_type, session, window, rest) =>
      Arrived(msg_type, session, window + Zeros(IntOf(stream[..4]) - Content(IntOf(stream[..4]))), rest)
    case o => o
  }

  /** The packing of router_disaggregate_work, with the head counted in the length. */
  method PackHead(skb: SkBuff)
    requires skb.Valid() && skb.data >= MSG_HEAD_LEN
    modifies skb`data, skb`len, skb.buff
    ensures skb.Valid() && skb.Bytes() == Message(skb.msg_type, skb.session, old(skb.Bytes()))
    ensures var b, c := skb.Bytes(), old(skb.Bytes());
            && |b| == 12 + |c| && b[12..] == c && FromBe4(b[..4]) == (|c| + 12) % 0x1_0000_0000
            && FromBe4(b[4..8]) == skb.msg_type % 0x1_0000_0000 && FromBe4(b[8..12]) == skb.session % 0x1_0000_0000
  {
    ghost var content := skb.Bytes();
    var r := skb.PushBytes(Be4(skb.session));
    assert r.At?;
    r := skb.PushBytes(Be4(skb.msg_type));
    assert r.At?;
    r := skb.PushBytes(Be4(skb.len + 4));
    assert r.At?;
    Assemble(skb.msg_type, skb.session, content);
    HeadFields(|content| + MSG_HEAD_LEN, skb.msg_type, skb.session, content, []);
    Be4RoundTrip(|content| + MSG_HEAD_LEN);
    Be4RoundTrip(skb.msg_type);
    Be4RoundTrip(skb.session);
    assert Message(skb.msg_type, skb.session, content) + [] == Message(skb.msg_type, skb.session, content);
    assert content + [] == content;
  }

  lemma Assemble(msg_type: int, session: int, content: bytes)
    ensures Be4(|content| + 8 + 4) + (Be4(msg_type) + (Be4(session) + content)) == Message(msg_type, session, content)
  {
  }

  lemma HeadParts(a: bytes, b: bytes, c: bytes, content: bytes, more: bytes)
    requires |a| == |b| == |c| == 4
    ensures var s := a + b + c + content + more;
            s[..4] == a && s[4..8] == b && s[8..12] == c && s[12..] == content + more
  {
  }

  lemma HeadFields(n: int, msg_type: int, session: int, content: bytes, more: bytes)
    ensures var s := Be4(n) + Be4(msg_type) + Be4(session) + content + more;
            s[..4] == Be4(n) && s[4..8] == Be4(msg_type) && s[8..12] == Be4(session) && s[12..] == content + more
  {
    HeadParts(Be4(n), Be4(msg_type), Be4(session), content, more);
  }

  lemma IntFields(v: int)
    ensures -INT_RANGE / 2 <= v < INT_RANGE / 2 ==> IntOf(Be4(v)) == v
  {
    Be4RoundTrip(v);
  }

  /** What a receiver makes of any stated length before a content. */
  lemma ReceiveStated(len: int, msg_type: int, session: int, content: bytes, more: bytes)
    requires -INT_RANGE / 2 <= len < INT_RANGE / 2
    ensures var s, n := Be4(len) + Be4(msg_type) + Be4(session) + content + more, Content(len);
      && IntOf(s[..4]) == len
      && Receive(s) == if len <= 0 then NoPacket else if n > |content + more| then Starved
                       else Arrived(IntOf(Be4(msg_type)), IntOf(Be4(session)),
                                    (content + more)[..n], (content + more)[n..])
  {
    var s := Be4(len) + Be4(msg_type) + Be4(session) + content + more;
    HeadFields(len, msg_type, session, content, more);
    IntFields(len);
    var n := Content(len);
    if len > 0 && n <= |content + more| {
      assert s[12..12 + n] == s[12..][..n] && s[12 + n..] == s[12..][n..];
    }
  }

  /** A receiver gets back what was sent and leaves the stream at the next message. */
  lemma MessageRoundTrip(msg_type: int, session: int, content: bytes, more: bytes)
    requires |content| + MSG_HEAD_LEN < INT_RANGE / 2
    requires -INT_RANGE / 2 <= msg_type < INT_RANGE / 2 && -INT_RANGE / 2 <= session < INT_RANGE / 2
    ensures Receive(Message(msg_type, session, content) + more) == Arrived(msg_type, session, content, more)
  {
    ReceiveStated(|content| + MSG_HEAD_LEN, msg_type, session, content, more);
    IntFields(msg_type);
    IntFields(session);
    assert (content + more)[..|content|] == content && (content + more)[|content|..] == more;
  }

  /** As written the length is stored when only 8 of the head's 12 bytes have been pushed. */
  function MessageAsWritten(msg_type: int, session: int, content: bytes): bytes {
    Be4(|content| + 8) + Be4(msg_type) + Be4(session) + content
  }

  /** A reader that takes the stated length as meant then stops 4 bytes short: it gets the content only
      when there is none. */
  lemma MessageAsWrittenIff(msg_type: int, session: int, content: bytes)
    requires |content| + MSG_HEAD_LEN < INT_RANGE / 2
    ensures var r := Receive(MessageAsWritten(msg_type, session, content));
            && r.Arrived?
            && r.window == (if |content| < 4 then [] else content[..|content| - 4])
            && (r.window == content <==> content == [])
  {
    var s := MessageAsWritten(msg_type, session, content);
    ReceiveStated(|content| + 8, msg_type, session, content, []);
    assert s + [] == s && content + [] == content;
  }

  /** With that put no stated length at all gives the packet the content and leaves the stream
      at the next message: the window always ends in zeros that were not sent. */
  lemma OverlongNever(len: int, msg_type: int, session: int, content: bytes, more: bytes)
    requires -INT_RANGE / 2 <= len < INT_RANGE / 2
    ensures var r := ReceiveOverlong(Be4(len) + Be4(msg_type) + Be4(session) + content + more);
            !(r.Arrived? && r.window == content && r.rest == more)
  {
    ReceiveStated(len, msg_type, session, content, more);
  }

  /** The window alone is right exactly when the head is left out of the stated length and the content ends
      in the zeros that reading 12 bytes too few leaves. */
  lemma OverlongIff(len: int, msg_type: int, session: int, content: bytes, more: bytes)
    requires -INT_RANGE / 2 <= len < INT_RANGE / 2
    ensures var r := ReceiveOverlong(Be4(len) + Be4(msg_type) + Be4(session) + content + more);
            (r.Arrived? && r.window == content)
            <==> (len == |content| > 0 && content[Content(len)..] == Zeros(len - Content(len)))
  {
    ReceiveStated(len, msg_type, session, content, more);
    if len == |content| > 0 {
      var n := Content(len);
      assert (content + more)[..n] == content[..n] && content == content[..n] + content[n..];
      var w := content[..n] + Zeros(len - n);
      assert w[n..] == Zeros(len - n);
    }
  }

  /** With it a message whose length counts the head arrives with 12 zero bytes behind its content. */
  lemma ArrivesOverlong(msg_type: int, session: int, content: bytes, more: bytes)
    requires |content| + MSG_HEAD_LEN < INT_RANGE / 2
    requires -INT_RANGE / 2 <= msg_type < INT_RANGE / 2 && -INT_RANGE / 2 <= session < INT_RANGE / 2
    ensures ReceiveOverlong(Message(msg_type, session, content) + more)
         == Arrived(msg_type, session, content + Zeros(12), more)
  {
    MessageRoundTrip(msg_type, session, content, more);
    ReceiveStated(|content| + MSG_HEAD_LEN, msg_type, session, content, more);
  }

  // ----- router_do_read -----

  /** What read returns when asked for some bytes of a stream it hands out size + 1 at a time. */
  function Nread(stream: bytes, asked: nat, size: nat): (n: nat)
    ensures n <= |stream| && n <= asked && n <= size + 1 && (n == 0 <==> stream == [] || asked == 0)
  {
    var most := if asked < |stream| then asked else |stream|;
    if size < most then size + 1 else most
  }

  /** clear_buffer: reads until the peer has closed the stream. */
  method ClearBuffer(stream: bytes, sizes: nat -> nat) returns (rest: bytes)
    ensures rest == []
  {
    rest := stream;
    var turn := 0;
    while rest != []
      decreases |rest|
    {
      rest := rest[Nread(rest, 100, sizes(turn))..];
      turn := turn + 1;
    }
  }

  /** Both fields of the head arrive in one piece. */
  predicate Whole(stream: bytes, sizes: nat -> nat) {
    |stream| >= MSG_HEAD_LEN && sizes(0) >= 3 && sizes(1) >= 3
  }

  /** The loop over type and session, each read once, into the buffer as is meant; cut short when one does
      not come whole. */
  method ReadFields(stream: bytes, sizes: nat -> nat) returns (field: seq<int>)
    requires |stream| >= 4
    ensures if Whole(stream, sizes) then field == [IntOf(stream[4..8]), IntOf(stream[8..12])] else |field| < 2
  {
    field := [];
    for i := 0 to 2
      invariant |field| == i && |stream| >= 4 + 4 * i && forall k :: 0 <= k < i ==> sizes(k) >= 3
      invariant forall k :: 0 <= k < i ==> field[k] == IntOf(stream[4 + 4 * k..8 + 4 * k])
    {
      var left := stream[4 + 4 * i..];
      if Nread(left, 4, sizes(i)) != 4 {
        return;
      }
      field := field + [IntOf(left[..4])];
      assert left[..4] == stream[4 + 4 * i..8 + 4 * i];
    }
  }

  /** The same loop as it stands passes read a byte of the buffer, where it means the buffer, as the address.
      Below the lowest address of the process read fails. */
  method ReadFieldsLiterally(buf: array<byte>, stream: bytes, sizes: nat -> nat, lowest: nat) returns (done: bool)
    requires buf.Length == 4 && |stream| >= 4
    ensures done <==> Whole(stream, sizes) && buf[0] as int >= lowest && buf[1] as int >= lowest
    ensures lowest > 255 ==> !done
  {
    for i := 0 to 2
      invariant |stream| >= 4 + 4 * i && forall k :: 0 <= k < i ==> sizes(k) >= 3 && buf[k] as int >= lowest
    {
      var nread := if buf[i] as int < lowest then -1 else Nread(stream[4 + 4 * i..], 4, sizes(i));
      if nread != 4 {
        return false;
      }
    }
    done := true;
  }

  /** The loop of router_do_read from offset at of the buffer on. */
  method Fill(skb: SkBuff, at: nat, left0: nat, stream: bytes, sizes: nat -> nat) returns (rest: Option<bytes>)
    requires at + left0 <= skb.buff.Length
    modifies skb.buff
    ensures if left0 <= |stream| then rest == Some(stream[left0..]) && skb.buff[at..at + left0] == stream[..left0]
            else rest == None
    ensures forall i :: 0 <= i < skb.buff.Length && !(at <= i < at + left0) ==> skb.buff[i] == old(skb.buff[i])
  {
    var left, pos, turn := left0, at, 0;
    while left > 0
      invariant pos == at + (left0 - left) && 0 <= left <= left0 && left0 - left <= |stream|
      invariant forall i :: 0 <= i < left0 - left ==> skb.buff[at + i] == stream[i]
      invariant forall i :: 0 <= i < skb.buff.Length && !(at <= i < at + left0) ==> skb.buff[i] == old(skb.buff[i])
      decreases left
    {
      if pos - at == |stream| {
        return None;
      }
      var nread := Nread(stream[pos - at..], left, sizes(turn));
      CopyIn(skb.buff, pos, stream[pos - at..pos - at + nread]);
      left, pos, turn := left - nread, pos + nread, turn + 1;
    }
    rest := Some(stream[left0..]);
  }

  /** The packet that holds what a reader of a message has taken off the stream. */
  ghost predicate Holds(skb: SkBuff, r: Arrival)
    reads skb, skb.buff
  {
    r.Arrived? && skb.Valid() && skb.Bytes() == r.window && skb.msg_type == r.msg_type && skb.session == r.session
  }

  /** The packet before anything is read into it. */
  method NewPacket(msg_type: int, session: int, len: nat, put: nat) returns (skb: SkBuff)
    requires 0 < len && put <= len
    ensures fresh(skb) && fresh(skb.buff) && skb.Valid() && skb.data == 0 && skb.tail == put && skb.buff.Length == len
    ensures forall i :: 0 <= i < len ==> skb.buff[i] == 0
    ensures skb.msg_type == msg_type && skb.session == session && skb.isNew
  {
    skb := new SkBuff.AllocSkb(len);
    skb.msg_type, skb.session, skb.isNew := msg_type, session, true;
    var pos := skb.Put(put);
  }

  /** router_do_read, the caller having read the length, with put bytes of the packet being put into its
      window. When a field of the head does not come whole what is left of the stream is thrown away. */
  method ReadPacket(stream: bytes, len: int, put: nat, sizes: nat -> nat) returns (skb: SkBuff?, rest: bytes)
    requires |stream| >= 4 && len == IntOf(stream[..4]) && (len > 0 ==> Content(len) <= put <= len)
    ensures skb == null <==> !Whole(stream, sizes) || !Receive(stream).Arrived?
    ensures !Whole(stream, sizes) ==> rest == []
    ensures skb != null ==> fresh(skb) && skb.isNew && rest == Receive(stream).rest
    ensures skb != null ==>
              Holds(skb, Receive(stream).(window := Receive(stream).window + Zeros(put - Content(len))))
  {
    skb, rest := null, [];
    var field := ReadFields(stream, sizes);
    if |field| < 2 {
      rest := ClearBuffer(stream[4..], sizes);
    } else if len > 0 {
      var k := NewPacket(field[0], field[1], len, put);
      var r := Fill(k, 0, Content(len), stream[12..], k => sizes(k + 2));
      if r.Some? {
        WindowBytes(k.buff[..put], stream, Content(len));
        skb, rest := k, r.value;
      }
    }
  }

  lemma WindowBytes(b: bytes, stream: bytes, n: nat)
    requires n <= |b| && |stream| >= 12 + n && b[..n] == stream[12..][..n]
    requires forall i :: n <= i < |b| ==> b[i] == 0
    ensures b == stream[12..12 + n] + Zeros(|b| - n) && stream[12..][n..] == stream[12 + n..]
  {
    assert b[n..] == Zeros(|b| - n);
    assert b == b[..n] + b[n..];
  }

  /** With the put that is meant. */
  method RouterDoRead(stream: bytes, len: int, sizes: nat -> nat) returns (skb: SkBuff?, rest: bytes)
    requires |stream| >= 4 && len == IntOf(stream[..4])
    ensures skb == null <==> !Whole(stream, sizes) || !Receive(stream).Arrived?
    ensures !Whole(stream, sizes) ==> rest == []
    ensures skb != null ==> fresh(skb) && skb.isNew && rest == Receive(stream).rest && Holds(skb, Receive(stream))
  {
    skb, rest := ReadPacket(stream, len, Content(len), sizes);
    assert skb != null ==> Receive(stream).window + Zeros(0) == Receive(stream).window;
  }

  /** With the put as written, the field reads being as meant. */
  method RouterDoReadOverlong(stream: bytes, len: int, sizes: nat -> nat) returns (skb: SkBuff?, rest: bytes)
    requires |stream| >= 4 && len == IntOf(stream[..4])
    ensures skb == null <==> !Whole(stream, sizes) || !ReceiveOverlong(stream).Arrived?
    ensures skb != null ==>
              fresh(skb) && skb.isNew && rest == ReceiveOverlong(stream).rest && Holds(skb, ReceiveOverlong(stream))
  {
    skb, rest := ReadPacket(stream, len, if len > 0 then len else 0, sizes);
  }

  /** As it stands, where nothing is mapped at the lowest 256 addresses: no stream gives a packet, and what is
      left of it is thrown away. */
  method RouterDoReadLiterally(stream: bytes, sizes: nat -> nat, buf: array<byte>, lowest: nat)
    returns (skb: SkBuff?, rest: bytes)
    requires |stream| >= 4 && buf.Length == 4 && lowest > 255
    ensures skb == null && rest == []
  {
    skb, rest := null, stream[4..];
    var done := ReadFieldsLiterally(buf, stream, sizes, lowest);
    if !done {
      rest := ClearBuffer(rest, sizes);
    }
  }

  // ----- from queue to array -----

  /** From the VM's queue over the wire to the array of bodies. */
  lemma EndToEnd(bodies: seq<bytes>, msg_type: int, session: int)
    requires forall k :: 0 <= k < |bodies| ==> |bodies[k]| <= 254
    requires |Concat(Frames(bodies))| != 255 && |Concat(Frames(bodies))| + 16 < INT_RANGE / 2
    requires -INT_RANGE / 2 <= msg_type < INT_RANGE / 2 && -INT_RANGE / 2 <= session < INT_RANGE / 2
    ensures var r := Receive(Message(msg_type, session, FrameA1(Concat(Frames(bodies)))));
            && r.Arrived? && r.msg_type == msg_type && r.session == session && r.rest == []
            && SkipAx(r.window).Some?
            && SplitA0(SkipAx(r.window).value) == Some(bodies)
  {
    var c := Concat(Frames(bodies));
    var m := Message(msg_type, session, FrameA1(c));
    assert m + [] == m;
    MessageRoundTrip(msg_type, session, FrameA1(c), []);
    SkipFrame(c);
    SplitFrames(bodies, 1);
  }

  lemma {:induction false} SplitTrailing(bodies: seq<bytes>, first: nat)
    requires forall k :: 0 <= k < |bodies| ==> |bodies[k]| <= 254
    ensures SplitA0(Concat(FramesFrom(bodies, first)) + Zeros(12)) == None
  {
    if bodies == [] {
      assert [] + Zeros(12) == Zeros(12);
    } else {
      var rest := Concat(FramesFrom(bodies[1..], first + 1));
      FirstFrame(bodies, first);
      SplitTrailing(bodies[1..], first + 1);
      SplitOne(bodies[0], NumberAt(first, 0), rest + Zeros(12));
      assert FrameA0(bodies[0], NumberAt(first, 0)) + rest + Zeros(12)
          == FrameA0(bodies[0], NumberAt(first, 0)) + (rest + Zeros(12));
    }
  }

  /** With the put as written the bodies never arrive, even where everything else is as meant: the
      first of the zero bytes behind them reads as a frame of length 0. */
  lemma EndToEndOverlong(bodies: seq<bytes>, msg_type: int, session: int)
    requires forall k :: 0 <= k < |bodies| ==> |bodies[k]| <= 254
    requires |Concat(Frames(bodies))| != 255 && |Concat(Frames(bodies))| + 16 < INT_RANGE / 2
    requires -INT_RANGE / 2 <= msg_type < INT_RANGE / 2 && -INT_RANGE / 2 <= session < INT_RANGE / 2
    ensures var r := ReceiveOverlong(Message(msg_type, session, FrameA1(Concat(Frames(bodies)))));
            r.Arrived? && SkipAx(r.window).Some? && SplitA0(SkipAx(r.window).value) == None
  {
    var c := Concat(Frames(bodies));
    var m := Message(msg_type, session, FrameA1(c));
    assert m + [] == m;
    ArrivesOverlong(msg_type, session, FrameA1(c), []);
    var w := FrameA1(c) + Zeros(12);
    SkipFrame(c);
    assert SkipAx(w) == Some(c + Zeros(12)) by {
      if |c| > 255 { assert w[4..] == c + Zeros(12); } else { assert w[2..] == c + Zeros(12); }
    }
    SplitTrailing(bodies, 1);
  }

  // ----- control records -----

  datatype Tlv = Tlv(tag: byte, val: bytes)

  function PrintTlv(t: Tlv): bytes {
    [t.tag, |t.val| / 256 % 256, |t.val| % 256] + t.val
  }

  function PrintTlvs(ts: seq<Tlv>): bytes {
    if ts == [] then [] else PrintTlv(ts[0]) + PrintTlvs(ts[1..])
  }

  function LengthAt(b: bytes, i: nat): nat
    requires i + 2 < |b|
  {
    var hi: int, lo: int := b[i + 1], b[i + 2];
    hi * 256 + lo
  }

  /** The records of b; None when one runs past its end. */
  function ParseTlvs(b: bytes): Option<seq<Tlv>> {
    if b == [] then Some([])
    else if |b| < 3 || 3 + LengthAt(b, 0) > |b| then None
    else
      var n := LengthAt(b, 0);
      After([Tlv(b[0], b[3..3 + n])], ParseTlvs(b[3 + n..]))
  }

  function After(done: seq<Tlv>, rest: Option<seq<Tlv>>): Option<seq<Tlv>> {
    if rest.None? then None else Some(done + rest.value)
  }

  lemma AfterMore(done: seq<Tlv>, t: Tlv, rest: Option<seq<Tlv>>)
    ensures After(done, After([t], rest)) == After(done + [t], rest)
    ensures After([], rest) == rest && After(done, Some([])) == Some(done)
  {
    if rest.Some? {
      assert done + ([t] + rest.value) == done + [t] + rest.value && [] + rest.value == rest.value;
    }
    assert done + [] == done;
  }

  /** What standing at index i of the input means. */
  lemma ParseStep(str: bytes, i: nat, done: seq<Tlv>)
    requires i < |str|
    ensures i + 2 >= |str| || i + 3 + LengthAt(str, i) > |str| ==> ParseTlvs(str[i..]) == None
    ensures i + 2 < |str| && i + 3 + LengthAt(str, i) <= |str| ==>
              var n := LengthAt(str, i);
              After(done, ParseTlvs(str[i..]))
              == After(done + [Tlv(str[i], str[i + 3..i + 3 + n])], ParseTlvs(str[i + 3 + n..]))
  {
    if i + 2 < |str| && i + 3 + LengthAt(str, i) <= |str| {
      var n := LengthAt(str, i);
      SuffixParts(str, i, n);
      AfterMore(done, Tlv(str[i], str[i + 3..i + 3 + n]), ParseTlvs(str[i + 3 + n..]));
    }
  }

  lemma SuffixParts(str: bytes, i: nat, n: nat)
    requires i + 3 + n <= |str|
    ensures var b := str[i..];
            && b[0] == str[i] && LengthAt(b, 0) == LengthAt(str, i)
            && b[3..3 + n] == str[i + 3..i + 3 + n] && b[3 + n..] == str[i + 3 + n..]
  {
  }

  /** router_parse_tlv, copying from and stepping over the record it stands at. */
  method RouterParseTlv(str: bytes) returns (tlv_list: Option<seq<Tlv>>)
    ensures tlv_list == ParseTlvs(str)
  {
    var done: seq<Tlv> := [];
    var i := 0;
    assert str[0..] == str;
    AfterMore([], Tlv(0, []), ParseTlvs(str));
    while i < |str|
      invariant 0 <= i <= |str|
      invariant ParseTlvs(str) == After(done, ParseTlvs(str[i..]))
      decreases |str| - i
    {
      ParseStep(str, i, done);
      if i + 2 >= |str| {
        return None;
      }
      var len := LengthAt(str, i);
      if i + 3 + len > |str| {
        return None;
      }
      done := done + [Tlv(str[i], str[i + 3..i + 3 + len])];
      i := i + 3 + len;
    }
    AfterMore(done, Tlv(0, []), Some([]));
    tlv_list := Some(done);
  }

  lemma ParseOne(t: Tlv, rest: bytes)
    requires |t.val| < 0x1_0000
    ensures var b := PrintTlv(t) + rest;
            && |b| >= 3 && LengthAt(b, 0) == |t.val| && b[0] == t.tag
            && b[3..3 + |t.val|] == t.val && b[3 + |t.val|..] == rest
  {
    HighLow(|t.val|);
  }

  /** Parsing undoes printing for every list whose lengths fit their two bytes, zero lengths included. */
  lemma {:induction false} ParsePrint(ts: seq<Tlv>)
    requires forall k :: 0 <= k < |ts| ==> |ts[k].val| < 0x1_0000
    ensures ParseTlvs(PrintTlvs(ts)) == Some(ts)
  {
    if ts != [] {
      var rest := PrintTlvs(ts[1..]);
      ParseOne(ts[0], rest);
      ParsePrint(ts[1..]);
      assert (PrintTlv(ts[0]) + rest)[3 + |ts[0].val|..] == rest;
      assert ts == [Tlv(ts[0].tag, ts[0].val)] + ts[1..];
    }
  }

  /** The 12 zero bytes of the put as written make four empty records of a list of control records. */
  lemma {:induction false} ParseTrailing(ts: seq<Tlv>)
    requires forall k :: 0 <= k < |ts| ==> |ts[k].val| < 0x1_0000
    ensures ParseTlvs(PrintTlvs(ts) + Zeros(12)) == Some(ts + [Tlv(0, []), Tlv(0, []), Tlv(0, []), Tlv(0, [])])
  {
    var four := [Tlv(0, []), Tlv(0, []), Tlv(0, []), Tlv(0, [])];
    if ts == [] {
      assert Zeros(12) == PrintTlvs(four) by { FourRecords(); }
      ParsePrint(four);
      assert [] + Zeros(12) == Zeros(12) && [] + four == four;
    } else {
      PrintMore(ts, four);
      assert Zeros(12) == PrintTlvs(four) by { FourRecords(); }
      ParsePrint(ts + four);
    }
  }

  lemma FourRecords()
    ensures PrintTlvs([Tlv(0, []), Tlv(0, []), Tlv(0, []), Tlv(0, [])]) == Zeros(12)
  {
    var t := Tlv(0, []);
    assert [t, t, t, t][1..] == [t, t, t] && [t, t, t][1..] == [t, t] && [t, t][1..] == [t] && [t][1..] == [];
    assert PrintTlv(t) == Zeros(3);
  }

  lemma {:induction false} PrintMore(ts: seq<Tlv>, us: seq<Tlv>)
    ensures PrintTlvs(ts + us) == PrintTlvs(ts) + PrintTlvs(us)
  {
    if ts == [] {
      assert [] + us == us;
    } else {
      assert (ts + us)[1..] == ts[1..] + us;
      PrintMore(ts[1..], us);
    }
  }

  /** A record is its tag, its length in two bytes, the high one first, and as many bytes of value. */
  lemma ParseFirst(tag: byte, hi: byte, lo: byte, val: bytes, rest: bytes)
    requires |val| == 256 * (hi as int) + lo as int
    ensures ParseTlvs([tag, hi, lo] + val + rest)
         == match ParseTlvs(rest) { case None => None case Some(more) => Some([Tlv(tag, val)] + more) }
  {
    var b := [tag, hi, lo] + val + rest;
    assert b[3..3 + |val|] == val && b[3 + |val|..] == rest;
  }

  /** Nothing else is one: what ends within a record is not parsed. */
  lemma ParseCut(b: bytes)
    requires b != [] && (|b| < 3 || |b| < 3 + 256 * (b[1] as int) + b[2] as int)
    ensures ParseTlvs(b) == None
  {
  }

  lemma Reprint(b: bytes)
    requires |b| >= 3 && 3 + LengthAt(b, 0) <= |b|
    ensures PrintTlv(Tlv(b[0], b[3..3 + LengthAt(b, 0)])) == b[..3 + LengthAt(b, 0)]
  {
    var n := LengthAt(b, 0);
    var hi: int, lo: int := b[1], b[2];
    assert n == 256 * hi + lo;
    assert n / 256 == hi && n % 256 == lo;
    assert b[..3 + n] == [b[0], b[1], b[2]] + b[3..3 + n];
  }

  /** And printing undoes parsing: no two inputs parse alike. */
  lemma {:induction false} PrintParse(b: bytes)
    requires ParseTlvs(b).Some?
    ensures PrintTlvs(ParseTlvs(b).value) == b
    decreases |b|
  {
    if b != [] {
      var n := LengthAt(b, 0);
      var t := Tlv(b[0], b[3..3 + n]);
      var rest := ParseTlvs(b[3 + n..]);
      PrintParse(b[3 + n..]);
      Reprint(b);
      PrintCons(t, rest.value);
      assert b == b[..3 + n] + b[3 + n..];
    }
  }

  lemma PrintCons(t: Tlv, ts: seq<Tlv>)
    ensures PrintTlvs([t] + ts) == PrintTlv(t) + PrintTlvs(ts)
  {
    assert ([t] + ts)[1..] == ts;
  }

  // ----- the parser as written -----

  /** As written every value is copied from the start of the input and the index moves by the value's
      length only. None where it reads past the input or, at a zero length, never moves on. */
  function ParseAsWritten(b: bytes, i: nat): Option<seq<Tlv>>
    decreases |b| - i
  {
    if i >= |b| then Some([])
    else if i + 2 >= |b| then None
    else
      var n := LengthAt(b, i);
      if n == 0 || 3 + n > |b| then None
      else After([Tlv(b[i], b[3..3 + n])], ParseAsWritten(b, i + n))
  }

  function ValueBytes(ts: seq<Tlv>): nat {
    if ts == [] then 0 else |ts[0].val| + ValueBytes(ts[1..])
  }

  lemma {:induction false} AsWrittenCovers(b: bytes, i: nat)
    requires ParseAsWritten(b, i).Some?
    ensures i + ValueBytes(ParseAsWritten(b, i).value) >= |b|
    decreases |b| - i
  {
    if i < |b| {
      var n := LengthAt(b, i);
      var rest := ParseAsWritten(b, i + n).value;
      AsWrittenCovers(b, i + n);
      assert ([Tlv(b[i], b[3..3 + n])] + rest)[1..] == rest;
    }
  }

  lemma {:induction false} PrintedLength(ts: seq<Tlv>)
    ensures |PrintTlvs(ts)| == ValueBytes(ts) + 3 * |ts|
  {
    if ts != [] { PrintedLength(ts[1..]); }
  }

  /** It therefore never parses a printed list right, but for the empty one. */
  lemma ParseAsWrittenIff(ts: seq<Tlv>)
    ensures ParseAsWritten(PrintTlvs(ts), 0) == Some(ts) <==> ts == []
  {
    PrintedLength(ts);
    if ParseAsWritten(PrintTlvs(ts), 0) == Some(ts) { AsWrittenCovers(PrintTlvs(ts), 0); }
  }
}
