/** Loading a CAP file in LOAD commands (bc_gp.c, common/fm_Util.c). */
module Loads {
  import opened Wrappers
  import Lists
  import opened SkBuffs
  import opened Framing

  // ----- BER lengths -----

  /** The digits of n to base 256, most significant first. */
  function BigEndian(n: nat): (b: bytes)
    ensures b != []
  {
    if n < 256 then [n] else BigEndian(n / 256) + [n % 256]
  }

  function FromBigEndian(b: bytes): nat {
    if b == [] then 0 else 256 * FromBigEndian(b[..|b| - 1]) + b[|b| - 1]
  }

  function Digits(n: nat): (d: nat)
    ensures d >= 1
  {
    if n < 256 then 1 else Digits(n / 256) + 1
  }

  lemma {:induction false} BigEndianFacts(n: nat)
    ensures FromBigEndian(BigEndian(n)) == n && |BigEndian(n)| == Digits(n)
  {
    if n >= 256 {
      BigEndianFacts(n / 256);
      var b := BigEndian(n);
      assert b[..|b| - 1] == BigEndian(n / 256);
    }
  }

  lemma {:induction false} DigitsBound(n: nat)
    requires n < 0x1_0000_0000
    ensures Digits(n) <= 4
  {
    var a := n / 256;
    var b := a / 256;
    var c := b / 256;
    assert a < 0x100_0000 && b < 0x1_0000 && c < 256;
    assert Digits(c) == 1 && Digits(b) <= 2 && Digits(a) <= 3;
  }

  /** get_BERLen */
  function BerLen(n: nat): bytes
    requires n < 0x1_0000_0000
  {
    if n < 128 then [n] else DigitsBound(n); [128 + Digits(n)] + BigEndian(n)
  }

  /** A length below 2^32, byte by byte. */
  lemma BerForm(n: nat)
    requires n < 0x1_0000_0000
    ensures BerLen(n)
         == if n < 0x80 then [n]
            else if n < 0x100 then [0x81, n]
            else if n < 0x1_0000 then [0x82, n / 0x100, n % 0x100]
            else if n < 0x100_0000 then [0x83, n / 0x1_0000, n / 0x100 % 0x100, n % 0x100]
            else [0x84, n / 0x100_0000, n / 0x1_0000 % 0x100, n / 0x100 % 0x100, n % 0x100]
  {
    var a := n / 256;
    var b := a / 256;
    var c := b / 256;
    assert b == n / 0x1_0000 && c == n / 0x100_0000;
    BigEndianFacts(n);
    if n >= 0x100 {
      assert BigEndian(n) == BigEndian(a) + [n % 256];
      if n >= 0x1_0000 {
        assert BigEndian(a) == BigEndian(b) + [a % 256];
        if n >= 0x100_0000 { assert BigEndian(b) == BigEndian(c) + [b % 256] && BigEndian(c) == [c]; }
      }
    }
  }

  /** Reading a BER length off the front: the first byte is the length, or its low seven bits count the bytes
      of it that follow. */
  function ReadBer(b: bytes): Option<(nat, bytes)> {
    if b == [] then None
    else if b[0] < 0x80 then Some((b[0], b[1..]))
    else
      var d := b[0] - 0x80;
      if |b| < 1 + d then None else Some((FromBigEndian(b[1..1 + d]), b[1 + d..]))
  }

  /** What get_BERLen stores reads back as the length, whatever follows. */
  lemma BerRoundTrip(n: nat, rest: bytes)
    requires n < 0x1_0000_0000
    ensures ReadBer(BerLen(n) + rest) == Some((n, rest))
  {
    BigEndianFacts(n);
    DigitsBound(n);
    var b := BerLen(n) + rest;
    if n >= 0x80 {
      var d := Digits(n);
      assert b[0] == 0x80 + d && b[1..1 + d] == BigEndian(n) && b[1 + d..] == rest;
    }
  }

  /** The first loop of get_BERLen: how many bytes the length takes. */
  method CountBytes(len: nat) returns (cnt: nat)
    ensures cnt == Digits(len)
  {
    var length: nat := len / 256;
    cnt := 1;
    while length != 0
      invariant cnt + (if length == 0 then 0 else Digits(length)) == Digits(len)
      decreases length
    {
      length := length / 256;
      cnt := cnt + 1;
    }
  }

  lemma LastDigit(b: bytes, i: nat, length: nat)
    requires 0 < i <= |b| && b[..i] == BigEndian(length)
    ensures b[i - 1] == length % 256 && (i > 1 ==> b[..i - 1] == BigEndian(length / 256))
    ensures i == 1 ==> length < 256
  {
    BigEndianFacts(length);
    var c := b[..i];
    assert c[i - 1] == b[i - 1] && c[..i - 1] == b[..i - 1];
    if length >= 256 {
      BigEndianFacts(length / 256);
      assert c[..i - 1] == BigEndian(length / 256);
    }
  }

  /** The bytes behind the i-th are stored. */
  ghost predicate Stored(berlen: array<byte>, b: bytes, i: nat, first: byte)
    reads berlen
  {
    && i <= |b| < berlen.Length && berlen[0] == first
    && forall k :: i < k <= |b| ==> berlen[k] == b[k - 1]
  }

  /** The second: the bytes, last one first. */
  method StoreBytes(len: nat, cnt: nat, berlen: array<byte>)
    requires cnt == Digits(len) < berlen.Length
    modifies berlen
    ensures berlen[0] == old(berlen[0]) && berlen[1..cnt + 1] == BigEndian(len)
  {
    ghost var b := BigEndian(len);
    BigEndianFacts(len);
    var length: nat, i := len, cnt;
    assert b[..cnt] == b;
    while i > 0
      invariant 0 <= i <= cnt == |b| && Stored(berlen, b, i, old(berlen[0]))
      invariant i > 0 ==> b[..i] == BigEndian(length)
    {
      LastDigit(b, i, length);
      berlen[i] := length % 256;
      length := length / 256;
      i := i - 1;
    }
  }

  method GetBERLen(len: nat, berlen: array<byte>) returns (cnt: nat)
    requires len < 0x1_0000_0000 && berlen.Length >= 5
    modifies berlen
    ensures cnt <= berlen.Length && berlen[..cnt] == BerLen(len)
  {
    if len < 128 {
      berlen[0] := len;
      return 1;
    }
    DigitsBound(len);
    var lenFirst := CountBytes(len);
    berlen[0] := lenFirst + 128;
    StoreBytes(len, lenFirst, berlen);
    assert berlen[..lenFirst + 1] == [berlen[0]] + berlen[1..lenFirst + 1];
    cnt := lenFirst + 1;
  }

  // ----- LOAD blocks -----

  const LAST_BLOCK: byte := 0x80

  /** One LOAD command: P1, P2 and the data field. */
  datatype Block = Block(p1: byte, number: byte, data: bytes)

  function Datas(bs: seq<Block>): seq<bytes> {
    seq(|bs|, k requires 0 <= k < |bs| => bs[k].data)
  }

  /** The load file as the card is to see it: tag, length, content. */
  function LoadFile(content: bytes): bytes
    requires |content| < 0x1_0000_0000
  {
    [0xC4] + BerLen(|content|) + content
  }

  /** Blocks numbered without gaps, of which exactly the final one is marked last. */
  ghost predicate Numbered(bs: seq<Block>) {
    forall k :: 0 <= k < |bs| ==> bs[k].number == k % 256
  }

  ghost predicate LastMarked(bs: seq<Block>) {
    && |bs| > 0
    && forall k :: 0 <= k < |bs| ==> bs[k].p1 == if k == |bs| - 1 then LAST_BLOCK else 0
  }

  ghost predicate GoodLoad(bs: seq<Block>, content: bytes)
    requires |content| < 0x1_0000_0000
  {
    Concat(Datas(bs)) == LoadFile(content) && Numbered(bs) && LastMarked(bs)
  }

  /** A reader of the blocks put together finds the tag, the length and the content. */
  lemma LoadRead(bs: seq<Block>, content: bytes)
    requires |content| < 0x1_0000_0000 && GoodLoad(bs, content)
    ensures var file := Concat(Datas(bs));
            file != [] && file[0] == 0xC4 && ReadBer(file[1..]) == Some((|content|, content))
  {
    BerRoundTrip(|content|, content);
    assert LoadFile(content)[1..] == BerLen(|content|) + content;
  }

  lemma {:induction false} ConcatAppend(parts: seq<bytes>, b: bytes)
    ensures Concat(parts + [b]) == Concat(parts) + b
  {
    if parts == [] {
      assert [b][1..] == [] && b + [] == b;
    } else {
      assert (parts + [b])[1..] == parts[1..] + [b];
      ConcatAppend(parts[1..], b);
    }
  }

  lemma DatasAppend(bs: seq<Block>, b: Block)
    ensures Concat(Datas(bs + [b])) == Concat(Datas(bs)) + b.data
  {
    assert Datas(bs + [b]) == Datas(bs) + [b.data];
    ConcatAppend(Datas(bs), b.data);
  }

  /** What is left to send shrinks by a block each turn. */
  function BlocksFor(left: nat, block_max: nat): nat
    requires block_max > 0
  {
    if left == 0 then 0 else 1 + BlocksFor(if left > block_max then left - block_max else 0, block_max)
  }

  /** The blocks sent so far, with pos bytes of the content in them and left still to come. */
  ghost predicate Loading(bs: seq<Block>, content: bytes, pos: int, left: int)
    requires |content| < 0x1_0000_0000
  {
    && 0 <= pos && 0 <= left && pos + left == |content| && |bs| > 0
    && Concat(Datas(bs)) == [0xC4] + BerLen(|content|) + content[..pos]
    && Numbered(bs)
    && forall k :: 0 <= k < |bs| ==> bs[k].p1 == if k == |bs| - 1 && left == 0 then LAST_BLOCK else 0
  }

  lemma LoadingStart(content: bytes, first: nat)
    requires |content| < 0x1_0000_0000 && first <= |content|
    ensures var data := [0xC4] + BerLen(|content|) + content[..first];
            Loading([Block(if first == |content| then LAST_BLOCK else 0, 0, data)], content, first, |content| - first)
  {
    var data := [0xC4] + BerLen(|content|) + content[..first];
    var b := Block(if first == |content| then LAST_BLOCK else 0, 0, data);
    DatasAppend([], b);
    assert [] + [b] == [b] && Concat(Datas([])) == [];
  }

  lemma Extends(head: bytes, content: bytes, pos: nat, n: nat)
    requires pos + n <= |content|
    ensures head + content[..pos] + content[pos..pos + n] == head + content[..pos + n]
  {
    assert content[..pos] + content[pos..pos + n] == content[..pos + n];
  }

  lemma LoadingStep(bs: seq<Block>, content: bytes, pos: nat, left: nat, n: nat)
    requires |content| < 0x1_0000_0000 && Loading(bs, content, pos, left) && 0 < n <= left
    ensures Loading(bs + [Block(if n == left then LAST_BLOCK else 0, |bs| % 256, content[pos..pos + n])],
                    content, pos + n, left - n)
  {
    var b := Block(if n == left then LAST_BLOCK else 0, |bs| % 256, content[pos..pos + n]);
    DatasAppend(bs, b);
    Extends([0xC4] + BerLen(|content|), content, pos, n);
    forall k | 0 <= k <= |bs|
      ensures (bs + [b])[k].number == k % 256
      ensures (bs + [b])[k].p1 == if k == |bs| && left - n == 0 then LAST_BLOCK else 0
    {
      if k < |bs| { assert (bs + [b])[k] == bs[k]; }
    }
  }

  lemma LoadingDone(bs: seq<Block>, content: bytes, pos: nat)
    requires |content| < 0x1_0000_0000 && Loading(bs, content, pos, 0)
    ensures GoodLoad(bs, content)
  {
    assert content[..pos] == content;
  }

  /** The first block has head bytes of data; the others are as long as the limit, but for the last of all,
      which has what is left. */
  ghost predicate Fitting(bs: seq<Block>, left: int, head: nat, block_max: nat) {
    && |bs| > 0 && |bs[0].data| == head
    && (forall k :: 1 <= k < |bs| ==> 1 <= |bs[k].data| <= block_max)
    && forall k :: 1 <= k < |bs| && (k < |bs| - 1 || left > 0) ==> |bs[k].data| == block_max
  }

  lemma FittingStep(bs: seq<Block>, b: Block, left: int, head: nat, block_max: nat)
    requires Fitting(bs, left, head, block_max) && 0 < left
    requires |b.data| == if left > block_max then block_max else left
    requires block_max > 0
    ensures Fitting(bs + [b], left - |b.data|, head, block_max)
  {
  }

  /** One turn of the loop. */
  ghost predicate Sending(bs: seq<Block>, content: bytes, pos: int, left: int, head: nat, block_max: nat, count: nat)
    requires |content| < 0x1_0000_0000 && block_max > 0
  {
    && Loading(bs, content, pos, left) && Fitting(bs, left, head, block_max)
    && |bs| + BlocksFor(left, block_max) == count
  }

  lemma SendingStep(bs: seq<Block>, content: bytes, pos: nat, left: nat, head: nat, block_max: nat, count: nat, n: nat)
    requires |content| < 0x1_0000_0000 && block_max > 0 && Sending(bs, content, pos, left, head, block_max, count)
    requires left > 0 && n == if left > block_max then block_max else left
    ensures Sending(bs + [Block(if n == left then LAST_BLOCK else 0, |bs| % 256, content[pos..pos + n])],
                    content, pos + n, left - n, head, block_max, count)
  {
    LoadingStep(bs, content, pos, left, n);
    FittingStep(bs, Block(if n == left then LAST_BLOCK else 0, |bs| % 256, content[pos..pos + n]), left, head,
                block_max);
  }

  // ----- the loop as written -----

  const FIRST_BLOCK := 288
  const MAX_LOAD_DATA_SIZE := 232

  function Min(x: int, y: int): int {
    if x < y then x else y
  }

  /** content[pos..pos+n], as far as the content reaches. */
  function Slice(content: bytes, pos: nat, n: nat): bytes {
    if pos >= |content| then [] else content[pos..Min(pos + n, |content|)]
  }

  /** The loop as written: pos is a byte, it is subtracted from the rest instead of the block's size, and
      the two last-block flags are swapped. */
  function LoopAsWritten(content: bytes, pos: nat, cap_len: int, number: byte): seq<Block>
    decreases if cap_len < 0 then 0 else cap_len, Stalls(pos, cap_len)
  {
    if cap_len <= 0 then []
    else
      var n := Min(cap_len, MAX_LOAD_DATA_SIZE);
      var pos' := (pos + n) % 256;
      [Block(if cap_len > MAX_LOAD_DATA_SIZE then LAST_BLOCK else 0, number, Slice(content, pos, n))]
      + LoopAsWritten(content, pos', cap_len - pos', (number + 1) % 256)
  }

  /** A turn that brings pos to 0 subtracts nothing; the next one does. */
  function Stalls(pos: nat, cap_len: int): nat {
    if cap_len > 0 && (pos + Min(cap_len, MAX_LOAD_DATA_SIZE)) % 256 == 0 then 1 else 0
  }

  function LoadAsWritten(content: bytes): seq<Block>
    requires |content| < 0x1_0000_0000
  {
    var first := Min(|content|, FIRST_BLOCK);
    var buf := [0xC4] + BerLen(|content|) + content[..first];
    var pos := first % 256;
    [Block(if |content| < FIRST_BLOCK then LAST_BLOCK else 0, 0, buf[..|buf| % 256])]
    + LoopAsWritten(content, pos, |content| - pos, 1)
  }

  lemma BerLenSize(n: nat)
    requires n < 0x1_0000_0000
    ensures |BerLen(n)|
         == if n < 128 then 1 else if n < 256 then 2 else if n < 0x1_0000 then 3 else if n < 0x100_0000 then 4 else 5
  {
    BigEndianFacts(n);
    var a := n / 256;
    var b := a / 256;
    var c := b / 256;
    if n >= 128 {
      assert Digits(n) == if n < 256 then 1 else Digits(a) + 1;
      assert Digits(a) == if a < 256 then 1 else Digits(b) + 1;
      assert Digits(b) == if b < 256 then 1 else Digits(c) + 1;
      assert c < 256;
    }
  }

  lemma SmallAsWritten(content: bytes)
    requires |content| <= 252
    ensures GoodLoad(LoadAsWritten(content), content)
  {
    BerLenSize(|content|);
    var bs := LoadAsWritten(content);
    var file := LoadFile(content);
    assert content[..|content|] == content;
    assert |file| <= 255 && file[..|file|] == file;
    assert bs == [Block(LAST_BLOCK, 0, file)];
    DatasAppend([], bs[0]);
    assert [] + [bs[0]] == bs && Concat(Datas([])) == [];
  }

  lemma MiddleAsWritten(content: bytes)
    requires 252 < |content| < 256
    ensures !GoodLoad(LoadAsWritten(content), content)
  {
    BerLenSize(|content|);
    var bs := LoadAsWritten(content);
    assert |bs[0].data| == |content| + 3 - 256 && bs == [bs[0]];
    DatasAppend([], bs[0]);
    assert [] + [bs[0]] == bs && Concat(Datas([])) == [];
  }

  lemma LoopTurn(content: bytes, pos: nat, cap_len: int, number: byte)
    requires cap_len > 0
    ensures var bs := LoopAsWritten(content, pos, cap_len, number);
            var pos' := (pos + Min(cap_len, MAX_LOAD_DATA_SIZE)) % 256;
            && bs != [] && bs[1..] == LoopAsWritten(content, pos', cap_len - pos', (number + 1) % 256)
            && bs[0] == Block(if cap_len > MAX_LOAD_DATA_SIZE then LAST_BLOCK else 0, number,
                              Slice(content, pos, Min(cap_len, MAX_LOAD_DATA_SIZE)))
  {
  }

  lemma LoadTurn(content: bytes)
    requires |content| < 0x1_0000_0000
    ensures var bs, pos := LoadAsWritten(content), Min(|content|, FIRST_BLOCK) % 256;
            && bs[1..] == LoopAsWritten(content, pos, |content| - pos, 1)
            && bs[0].p1 == if |content| < FIRST_BLOCK then LAST_BLOCK else 0
  {
  }

  lemma TwoAsWritten(content: bytes)
    requires 256 <= |content| < FIRST_BLOCK
    ensures !GoodLoad(LoadAsWritten(content), content)
  {
    LoadTurn(content);
    LoopTurn(content, |content| - 256, 256, 1);
    NotLast(LoadAsWritten(content), content, 0);
  }

  /** The loop goes round twice at least and marks the block of its first turn. */
  lemma LoopTwice(content: bytes, left: nat)
    requires left >= 256
    ensures var more := LoopAsWritten(content, 32, left, 1); |more| >= 2 && more[0].p1 == LAST_BLOCK
  {
    LoopTurn(content, 32, left, 1);
    LoopTurn(content, 8, left - 8, 2);
  }

  lemma LargeAsWritten(content: bytes)
    requires FIRST_BLOCK <= |content| < 0x1_0000_0000
    ensures !GoodLoad(LoadAsWritten(content), content)
  {
    var bs := LoadAsWritten(content);
    LoadTurn(content);
    LoopTwice(content, |content| - 32);
    assert bs[1] == bs[1..][0];
    NotLast(bs, content, 1);
  }

  /** The second and the third block of every content that does not fit the first: both repeat bytes sent
      before, and are marked last. */
  lemma RepeatsAsWritten(content: bytes)
    requires 288 <= |content| < 0x1_0000_0000
    ensures var bs := LoadAsWritten(content);
            |bs| >= 3 && bs[1] == Block(0x80, 1, content[32..264]) && bs[2] == Block(0x80, 2, content[8..240])
  {
    var more := LoopAsWritten(content, 32, |content| - 32, 1);
    LoadTurn(content);
    assert LoadAsWritten(content)[1..] == more;
    SecondAsWritten(content, |content| - 32);
    ThirdAsWritten(content, |content| - 40);
    Behind(LoadAsWritten(content), more, LoopAsWritten(content, 8, |content| - 40, 2));
  }

  lemma Behind(bs: seq<Block>, more: seq<Block>, rest: seq<Block>)
    requires bs != [] && bs[1..] == more && more != [] && more[1..] == rest && rest != []
    ensures |bs| >= 3 && bs[1] == more[0] && bs[2] == rest[0]
  {
    assert bs[1] == bs[1..][0] && bs[2] == bs[1..][1] && more[1] == more[1..][0];
  }

  lemma SecondAsWritten(content: bytes, left: int)
    requires |content| >= 288 && left > 232
    ensures var bs := LoopAsWritten(content, 32, left, 1);
            bs != [] && bs[0] == Block(0x80, 1, content[32..264]) && bs[1..] == LoopAsWritten(content, 8, left - 8, 2)
  {
    LoopTurn(content, 32, left, 1);
  }

  lemma ThirdAsWritten(content: bytes, left: int)
    requires |content| >= 288 && left > 232
    ensures var bs := LoopAsWritten(content, 8, left, 2);
            bs != [] && bs[0] == Block(0x80, 2, content[8..240])
  {
    LoopTurn(content, 8, left, 2);
  }

  /** A block marked last before the final one. */
  lemma NotLast(bs: seq<Block>, content: bytes, k: nat)
    requires |content| < 0x1_0000_0000 && k + 1 < |bs| && bs[k].p1 == LAST_BLOCK
    ensures !GoodLoad(bs, content)
  {
  }

  /** As written the commands that _gp_load is asked for carry the load file whole exactly when it fits one
      data field. What _gp_make_apdu makes of the request is MakeAsWrittenIff. */
  lemma LoadAsWrittenIff(content: bytes)
    requires |content| < 0x1_0000_0000
    ensures GoodLoad(LoadAsWritten(content), content) <==> |content| <= 252
  {
    if |content| <= 252 {
      SmallAsWritten(content);
    } else if |content| < 256 {
      MiddleAsWritten(content);
    } else if |content| < FIRST_BLOCK {
      TwoAsWritten(content);
    } else {
      LargeAsWritten(content);
    }
  }

  // ----- the commands -----

  const MAX_APDU_LEN := 300

  /** The command bytes: header, data length, data. */
  function Apdu(cla: byte, ins: byte, p1: byte, p2: byte, data: bytes): bytes {
    [cla, ins, p1, p2, |data| % 256] + data
  }

  /** Reading a command back: the data as its length byte delimits it. */
  function ApduData(b: bytes): Option<bytes> {
    if |b| < 5 then None
    else
      var n: int := b[4];
      if |b| != 5 + n then None else Some(b[5..])
  }

  lemma ApduRoundTrip(cla: byte, ins: byte, p1: byte, p2: byte, data: bytes)
    ensures ApduData(Apdu(cla, ins, p1, p2, data)) == Some(data) <==> |data| <= 255
  {
    var b := Apdu(cla, ins, p1, p2, data);
    assert b[5..] == data;
  }

  /** apdu_preprocess */
  method ApduPreprocess() returns (skb: SkBuff)
    ensures fresh(skb) && fresh(skb.buff) && skb.Valid() && skb.Bytes() == []
    ensures skb.data == TAG_A0_HEAD_ROOM == 3 && skb.end == MAX_APDU_LEN == 300
  {
    skb := new SkBuff.AllocSkb(MAX_APDU_LEN);
    skb.Reserve(TAG_A0_HEAD_ROOM);
  }

  /** The header bytes of _gp_make_apdu. */
  method PutHeader(cla: byte, ins: byte, p1: byte, p2: byte, len: byte, out: SkBuff)
    requires out.Valid() && out.data_len != 0 && out.tail + 5 <= out.end
    modifies out`tail, out`len, out.buff
    ensures out.Valid() && out.Bytes() == old(out.Bytes()) + [cla, ins, p1, p2, len] && out.tail == old(out.tail) + 5
  {
    ghost var b := out.Bytes();
    var r := out.PutBytes([cla]);
    r := out.PutBytes([ins]);
    r := out.PutBytes([p1]);
    r := out.PutBytes([p2]);
    r := out.PutBytes([len]);
    assert r.At? && out.Bytes() == b + [cla] + [ins] + [p1] + [p2] + [len];
  }

  /** The data as far as the length byte counts it. */
  function Short(data: bytes): bytes {
    data[..|data| % 256]
  }

  /** _gp_make_apdu on a packet with room for the command: nothing panics. */
  method MakeApdu(cla: byte, ins: byte, p1: byte, p2: byte, data: bytes, out: SkBuff)
    requires out.Valid() && out.data_len != 0 && out.tail + 5 + |Short(data)| <= out.end
    modifies out`tail, out`len, out.buff
    ensures out.Valid()
    ensures out.Bytes() == old(out.Bytes()) + [cla, ins, p1, p2, |data| % 256] + data[..|data| % 256]
    ensures out.tail == old(out.tail) + 5 + |Short(data)|
  {
    ghost var b := out.Bytes();
    var len: byte := |data| % 256;
    PutHeader(cla, ins, p1, p2, len, out);
    if len != 0 {
      var r := out.PutBytes(data[..len]);
      assert r.At?;
    }
    assert b + [cla, ins, p1, p2, len] + [] == b + [cla, ins, p1, p2, len];
  }

  /** What _gp_make_apdu appends as written: the pointer to the data is kept in a byte, so that data is
      refused when its address is a multiple of 256 and otherwise copied from an address below 256, where
      nothing is mapped. */
  datatype Made = Made(command: bytes) | InvalidLen | Fault

  function MakeAsWritten(cla: byte, ins: byte, p1: byte, p2: byte, data: bytes, address: nat): Made {
    var len := |data| % 256;
    if len == 0 then Made([cla, ins, p1, p2, 0])
    else if address % 256 == 0 then InvalidLen
    else Fault
  }

  /** Wherever the data lies, the command comes out right exactly when there is none. */
  lemma MakeAsWrittenIff(cla: byte, ins: byte, p1: byte, p2: byte, data: bytes, address: nat)
    ensures MakeAsWritten(cla, ins, p1, p2, data, address) == Made(Apdu(cla, ins, p1, p2, data)) <==> data == []
  {
    if |data| % 256 == 0 && data != [] {
      assert |Apdu(cla, ins, p1, p2, data)| > 5;
    }
  }

  // ----- the status words -----

  const STATUS_WORD: bytes := [0x90, 0x00]

  /** The buffers have room behind their windows as free says, less two bytes for each of the first i. */
  ghost predicate Free(skbs: seq<SkBuff>, free: seq<int>, i: nat)
    reads skbs
  {
    && |free| == |skbs|
    && forall k {:trigger skbs[k]} {:trigger free[k]} :: 0 <= k < |skbs| ==>
         skbs[k].end - skbs[k].tail == if k < i then free[k] - 2 else free[k]
  }

  /** The contents after the first i have got their status word. */
  ghost function PartlyWorded(contents: seq<bytes>, i: nat): seq<bytes> {
    seq(|contents|, k requires 0 <= k < |contents| => if k < i then contents[k] + STATUS_WORD else contents[k])
  }

  ghost function Worded(contents: seq<bytes>): seq<bytes> {
    PartlyWorded(contents, |contents|)
  }

  method PutStatusWord(skb: SkBuff) returns (r: Place)
    requires skb.Valid()
    modifies skb`tail, skb`len, skb.buff
    ensures r.Panic? <==> old(skb.end - skb.tail) < 2
    ensures r.At? ==> skb.Valid() && skb.Bytes() == old(skb.Bytes()) + STATUS_WORD && skb.tail == old(skb.tail) + 2
  {
    ghost var b := skb.Bytes();
    r := skb.PutByte(0x90);
    if r.Panic? {
      return;
    }
    r := skb.PutByte(0x00);
    assert b + [0x90] + [0x00] == b + STATUS_WORD;
  }

  /** The status word of one packet of several leaves the others as they are. */
  method WordOne(skb: SkBuff, ghost skbs: seq<SkBuff>, ghost i: nat, ghost contents: seq<bytes>, ghost free: seq<int>)
    returns (r: Place)
    requires Hold(skbs, PartlyWorded(contents, i)) && i < |skbs| && skb == skbs[i] && Free(skbs, free, i)
    modifies skb`tail, skb`len, skb.buff
    ensures r.Panic? <==> free[i] < 2
    ensures r.At? ==> Hold(skbs, PartlyWorded(contents, i + 1)) && Free(skbs, free, i + 1)
  {
    assert PartlyWorded(contents, i)[i] == contents[i];
    assert PartlyWorded(contents, i + 1) == PartlyWorded(contents, i)[i := contents[i] + STATUS_WORD];
    r := PutStatusWord(skb);
  }

  /** The queue while its first i packets have got their status words. */
  ghost predicate Wording(q: SkbQueue, skbs: seq<SkBuff>, contents: seq<bytes>, free: seq<int>, i: nat)
    reads q, q.head, q.s, skbs, set k | 0 <= k < |skbs| :: skbs[k].buff
  {
    && i <= |skbs| == |contents| && Queued(q, skbs)
    && Hold(skbs, PartlyWorded(contents, i)) && Free(skbs, free, i) && Room(free[..i], 2)
  }

  method WordTurn(skb: SkBuff, ghost q: SkbQueue, ghost skbs: seq<SkBuff>, ghost contents: seq<bytes>,
                  ghost free: seq<int>, ghost i: nat)
    returns (r: Place)
    requires Wording(q, skbs, contents, free, i) && i < |skbs| && skb == skbs[i]
    modifies skb`tail, skb`len, skb.buff
    ensures r.Panic? ==> !Room(free, 2)
    ensures r.At? ==> Wording(q, skbs, contents, free, i + 1)
  {
    r := WordOne(skb, skbs, i, contents, free);
    assert free[..i + 1] == free[..i] + [free[i]];
  }

  lemma WordingStarts(q: SkbQueue, skbs: seq<SkBuff>, contents: seq<bytes>, free: seq<int>)
    requires Queued(q, skbs) && Hold(skbs, contents) && Free(skbs, free, 0)
    ensures Wording(q, skbs, contents, free, 0)
  {
    assert PartlyWorded(contents, 0) == contents;
  }

  lemma WordingDone(q: SkbQueue, skbs: seq<SkBuff>, contents: seq<bytes>, free: seq<int>, i: nat)
    requires Wording(q, skbs, contents, free, i) && Lists.At(q.head, q.s, i) == q.head
    ensures Queued(q, skbs) && Hold(skbs, Worded(contents)) && Room(free, 2)
    ensures forall k {:trigger skbs[k]} :: 0 <= k < |skbs| ==> skbs[k].Bytes() == contents[k] + [0x90, 0x00]
  {
    assert i == |skbs| && free[..i] == free;
    forall k {:trigger skbs[k]} | 0 <= k < |skbs|
      ensures skbs[k].Bytes() == contents[k] + [0x90, 0x00]
    {
      assert Worded(contents)[k] == contents[k] + [0x90, 0x00];
    }
  }

  /** _gp_padding_sw: every packet of the queue gets a status word; false if a put runs into the panic loop,
      which happens exactly when some buffer has no room for it. */
  method PaddingSw(q: SkbQueue, ghost skbs: seq<SkBuff>, ghost contents: seq<bytes>, ghost free: seq<int>)
    returns (ok: bool)
    requires Queued(q, skbs) && Hold(skbs, contents) && Free(skbs, free, 0)
    modifies skbs`tail, skbs`len, set k | 0 <= k < |skbs| :: skbs[k].buff
    ensures ok <==> Room(free, 2)
    ensures ok ==> Queued(q, skbs) && Hold(skbs, Worded(contents))
    ensures ok ==> forall k {:trigger skbs[k]} :: 0 <= k < |skbs| ==> skbs[k].Bytes() == contents[k] + [0x90, 0x00]
  {
    ghost var i := 0;
    WordingStarts(q, skbs, contents, free);
    var pos := q.head.next;
    while pos != q.head
      invariant Wording(q, skbs, contents, free, i) && pos == Lists.At(q.head, q.s, i)
      decreases |skbs| - i
    {
      var n := pos.next;
      var r := WordTurn(pos.item, q, skbs, contents, free, i);
      if r.Panic? {
        return false;
      }
      i := i + 1;
      pos := n;
    }
    WordingDone(q, skbs, contents, free, i);
    ok := true;
  }

  // ----- the queue of commands -----

  function Command(cla: byte, ins: byte, b: Block): bytes {
    Apdu(cla, ins, b.p1, b.number, Short(b.data))
  }

  function Commands(cla: byte, ins: byte, bs: seq<Block>): seq<bytes> {
    seq(|bs|, k requires 0 <= k < |bs| => Command(cla, ins, bs[k]))
  }

  /** The packets' bytes: class, instruction, P1, P2, length and data. */
  lemma CommandBytes(skbs: seq<SkBuff>, cla: byte, ins: byte, bs: seq<Block>)
    requires Hold(skbs, Commands(cla, ins, bs)) && Numbered(bs) && (bs != [] ==> LastMarked(bs))
    ensures |skbs| == |bs|
    ensures forall k {:trigger skbs[k]} :: 0 <= k < |skbs| ==>
              var b, n := skbs[k].Bytes(), |bs[k].data| % 256;
              && |b| == 5 + n && b[0] == cla && b[1] == ins
              && b[2] == (if k == |bs| - 1 then 0x80 else 0) && b[3] == k % 256
              && b[4] == n && b[5..] == bs[k].data[..n]
  {
    forall k {:trigger skbs[k]} | 0 <= k < |skbs|
      ensures skbs[k].Bytes() == Command(cla, ins, bs[k])
      ensures skbs[k].Bytes()[5..] == Short(bs[k].data)
    {
      assert Commands(cla, ins, bs)[k] == Command(cla, ins, bs[k]);
    }
  }

  /** A fresh packet holding one command. */
  method NewCommand(cla: byte, ins: byte, b: Block) returns (skb: SkBuff)
    ensures fresh(skb) && fresh(skb.buff) && skb.Valid() && skb.Bytes() == Command(cla, ins, b)
    ensures skb.data == TAG_A0_HEAD_ROOM && skb.end == MAX_APDU_LEN
  {
    skb := ApduPreprocess();
    MakeApdu(cla, ins, b.p1, b.number, b.data, skb);
    assert [] + [cla, ins, b.p1, b.number, |b.data| % 256] + Short(b.data) == Command(cla, ins, b);
  }

  /** The queue holds these commands, each as apdu_preprocess and _gp_make_apdu leave it; own has the packets
      and their buffers. */
  ghost predicate Filled(q: SkbQueue, skbs: seq<SkBuff>, own: set<object>, cla: byte, ins: byte, bs: seq<Block>)
    reads q, q.head, q.s, skbs, set k | 0 <= k < |skbs| :: skbs[k].buff
  {
    && Queued(q, skbs) && Hold(skbs, Commands(cla, ins, bs))
    && forall k {:trigger skbs[k]} :: 0 <= k < |skbs| ==>
         && skbs[k].data == TAG_A0_HEAD_ROOM && skbs[k].end == MAX_APDU_LEN
         && skbs[k] in own && skbs[k].buff in own
  }

  lemma FilledMore(q: SkbQueue, skbs: seq<SkBuff>, own: set<object>, cla: byte, ins: byte, bs: seq<Block>,
                   skb: SkBuff, b: Block)
    requires Hold(skbs, Commands(cla, ins, bs)) && skb !in own && skb.buff !in own
    requires forall k {:trigger skbs[k]} :: 0 <= k < |skbs| ==>
               && skbs[k].data == TAG_A0_HEAD_ROOM && skbs[k].end == MAX_APDU_LEN
               && skbs[k] in own && skbs[k].buff in own
    requires Queued(q, skbs + [skb]) && skb.Valid() && skb.Bytes() == Command(cla, ins, b)
    requires skb.data == TAG_A0_HEAD_ROOM && skb.end == MAX_APDU_LEN
    ensures Filled(q, skbs + [skb], own + {skb, skb.buff}, cla, ins, bs + [b])
  {
    assert Commands(cla, ins, bs + [b]) == Commands(cla, ins, bs) + [Command(cla, ins, b)];
  }

  /** One turn of a handler's loop: a packet more at the end of the queue. */
  method QueueCommand(q: SkbQueue, cla: byte, ins: byte, b: Block, ghost skbs: seq<SkBuff>, ghost own: set<object>,
                      ghost bs: seq<Block>)
    returns (ghost skbs': seq<SkBuff>, ghost own': set<object>)
    requires Filled(q, skbs, own, cla, ins, bs)
    modifies q`qlen, q`s, q.head`next, q.head`prev, Lists.Members(q.s)`next
    ensures fresh(own' - own) && fresh(Lists.Members(q.s) - old(Lists.Members(q.s)))
    ensures Filled(q, skbs', own', cla, ins, bs + [b])
  {
    var skb := NewCommand(cla, ins, b);
    var link := new Lists.Node<SkBuff?>(skb);
    assert Hold(skbs, Commands(cla, ins, bs));
    q.QueueTail(link);
    assert Hold(skbs, Commands(cla, ins, bs)) && skb.Bytes() == Command(cla, ins, b);
    skbs', own' := skbs + [skb], own + {skb, skb.buff};
    FilledMore(q, skbs, own, cla, ins, bs, skb, b);
  }

  // ----- the LOAD handler -----

  const CLA_GP: byte := 0x80
  const INS_LOAD: byte := 0xE8

  /** How much of the content is left to the later blocks. */
  function Later(content: bytes, first_max: nat): nat {
    if |content| > first_max then |content| - first_max else 0
  }

  lemma NextNumber(n: nat)
    ensures (n % 256 + 1) % 256 == (n + 1) % 256
  {
  }

  lemma SendingDone(bs: seq<Block>, content: bytes, pos: nat, head: nat, block_max: nat, count: nat)
    requires |content| < 0x1_0000_0000 && block_max > 0 && Sending(bs, content, pos, 0, head, block_max, count)
    ensures GoodLoad(bs, content) && Fitting(bs, 0, head, block_max) && |bs| == count
  {
    LoadingDone(bs, content, pos);
  }

  /** The state of the handler's loop: blocks made and queued, pos bytes of the content sent, left to come. */
  ghost predicate AtTurn(q: SkbQueue, skbs: seq<SkBuff>, own: set<object>, blocks: seq<Block>, content: bytes,
                         pos: int, left: int, number: byte, head: nat, block_max: nat, count: nat)
    reads q, q.head, q.s, skbs, set k | 0 <= k < |skbs| :: skbs[k].buff
    requires |content| < 0x1_0000_0000 && block_max > 0
  {
    && Sending(blocks, content, pos, left, head, block_max, count) && number == |blocks| % 256
    && Filled(q, skbs, own, CLA_GP, INS_LOAD, blocks)
  }

  /** The first block of a load, queued. */
  method FirstBlock(q: SkbQueue, content: bytes, first: nat, ghost first_max: nat, ghost block_max: nat)
    returns (ghost blocks: seq<Block>, ghost skbs: seq<SkBuff>, ghost own: set<object>)
    requires |content| < 0x1_0000_0000 && block_max > 0 && q.Valid() && q.s == []
    requires first == |content| - Later(content, first_max)
    modifies q`qlen, q`s, q.head`next, q.head`prev
    ensures AtTurn(q, skbs, own, blocks, content, first, |content| - first, 1, 1 + |BerLen(|content|)| + first,
                   block_max, 1 + BlocksFor(Later(content, first_max), block_max))
    ensures fresh(own) && fresh(Lists.Members(q.s))
  {
    var b := Block(if first == |content| then LAST_BLOCK else 0, 0, [0xC4] + BerLen(|content|) + content[..first]);
    LoadingStart(content, first);
    assert Filled(q, [], {}, CLA_GP, INS_LOAD, []);
    skbs, own := QueueCommand(q, CLA_GP, INS_LOAD, b, [], {}, []);
    blocks := [b];
    assert [] + [b] == [b];
  }

  /** A further one. */
  method NextBlock(q: SkbQueue, content: bytes, pos: nat, cap_len: nat, number: byte, block_max: nat,
                   ghost head: nat, ghost count: nat, ghost blocks: seq<Block>, ghost skbs: seq<SkBuff>,
                   ghost own: set<object>)
    returns (pos': nat, left: nat, number': byte, ghost blocks': seq<Block>, ghost skbs': seq<SkBuff>,
             ghost own': set<object>)
    requires |content| < 0x1_0000_0000 && block_max > 0 && cap_len > 0
    requires AtTurn(q, skbs, own, blocks, content, pos, cap_len, number, head, block_max, count)
    modifies q`qlen, q`s, q.head`next, q.head`prev, Lists.Members(q.s)`next
    ensures left < cap_len && AtTurn(q, skbs', own', blocks', content, pos', left, number', head, block_max, count)
    ensures fresh(own' - own) && fresh(Lists.Members(q.s) - old(Lists.Members(q.s)))
  {
    var n := if cap_len > block_max then block_max else cap_len;
    SendingStep(blocks, content, pos, cap_len, head, block_max, count, n);
    var b := Block(if cap_len > block_max then 0 else LAST_BLOCK, number, content[pos..pos + n]);
    skbs', own' := QueueCommand(q, CLA_GP, INS_LOAD, b, skbs, own, blocks);
    blocks', number', pos', left := blocks + [b], (number + 1) % 256, pos + n, cap_len - n;
    NextNumber(|blocks|);
  }

  /** The loop of gp_install_for_load_and_load, with the sent part and the rest counted apart and the
      last-block bit on the final block. */
  method LaterBlocks(q: SkbQueue, content: bytes, first: nat, block_max: nat, ghost head: nat, ghost count: nat,
                     ghost blocks0: seq<Block>, ghost skbs0: seq<SkBuff>, ghost own0: set<object>)
    returns (ghost blocks: seq<Block>, ghost skbs: seq<SkBuff>, ghost own: set<object>)
    requires |content| < 0x1_0000_0000 && block_max > 0 && first <= |content|
    requires AtTurn(q, skbs0, own0, blocks0, content, first, |content| - first, 1, head, block_max, count)
    modifies q`qlen, q`s, q.head`next, q.head`prev, Lists.Members(q.s)`next
    ensures Sending(blocks, content, |content|, 0, head, block_max, count)
    ensures Filled(q, skbs, own, CLA_GP, INS_LOAD, blocks)
    ensures fresh(own - own0) && fresh(Lists.Members(q.s) - old(Lists.Members(q.s)))
  {
    var pos, cap_len, block_num := first, |content| - first, 1;
    blocks, skbs, own := blocks0, skbs0, own0;
    while cap_len > 0
      invariant AtTurn(q, skbs, own, blocks, content, pos, cap_len, block_num, head, block_max, count)
      invariant fresh(own - own0) && fresh(Lists.Members(q.s) - old(Lists.Members(q.s)))
      decreases cap_len
    {
      pos, cap_len, block_num, blocks, skbs, own :=
        NextBlock(q, content, pos, cap_len, block_num, block_max, head, count, blocks, skbs, own);
    }
  }

  /** The blocks of a load, queued, with the block limits as parameters. */
  method LoadBlocks(q: SkbQueue, content: bytes, first_max: nat, block_max: nat)
    returns (ghost blocks: seq<Block>, ghost skbs: seq<SkBuff>, ghost own: set<object>)
    requires |content| < 0x1_0000_0000 && block_max > 0 && q.Valid() && q.s == []
    modifies q`qlen, q`s, q.head`next, q.head`prev
    ensures GoodLoad(blocks, content)
    ensures var first := if |content| < first_max then |content| else first_max;
            && |blocks| > 0 && |blocks[0].data| == 1 + |BerLen(|content|)| + first
            && (forall k :: 1 <= k < |blocks| - 1 ==> |blocks[k].data| == block_max)
            && (|blocks| > 1 ==> 1 <= |blocks[|blocks| - 1].data| <= block_max)
    ensures |blocks| == 1 + BlocksFor(Later(content, first_max), block_max)
    ensures Filled(q, skbs, own, CLA_GP, INS_LOAD, blocks) && fresh(own) && fresh(Lists.Members(q.s))
    ensures |skbs| == |blocks| && forall k {:trigger skbs[k]} :: 0 <= k < |skbs| ==>
              var b, n := skbs[k].Bytes(), |blocks[k].data| % 256;
              && |b| == 5 + n && b[0] == 0x80 && b[1] == 0xE8
              && b[2] == (if k == |skbs| - 1 then 0x80 else 0) && b[3] == k % 256
              && b[4] == n && b[5..] == blocks[k].data[..n]
  {
    var first := if |content| < first_max then |content| else first_max;
    ghost var count, head := 1 + BlocksFor(Later(content, first_max), block_max), 1 + |BerLen(|content|)| + first;
    blocks, skbs, own := FirstBlock(q, content, first, first_max, block_max);
    blocks, skbs, own := LaterBlocks(q, content, first, block_max, head, count, blocks, skbs, own);
    SendingDone(blocks, content, |content|, head, block_max, count);
    CommandBytes(skbs, CLA_GP, INS_LOAD, blocks);
  }

  /** A command with its status word, as the body of a frame. */
  function Body(b: Block): bytes {
    Apdu(CLA_GP, INS_LOAD, b.p1, b.number, b.data) + STATUS_WORD
  }

  function Bodies(bs: seq<Block>): seq<bytes> {
    seq(|bs|, k requires 0 <= k < |bs| => Body(bs[k]))
  }

  /** Every block of a load survives framing whole exactly when no data field is longer than 247 bytes:
      that, not the 255 of a command's length byte, is what the limits must respect. */
  lemma LoadSurvivesFraming(bs: seq<Block>)
    ensures SplitA0(Concat(Frames(Bodies(bs)))) == Some(Bodies(bs))
       <==> forall k :: 0 <= k < |bs| ==> |bs[k].data| <= 247
  {
    SplitFrames(Bodies(bs), 1);
    forall k | 0 <= k < |bs|
      ensures |Bodies(bs)[k]| == |bs[k].data| + 7
    {
    }
    if forall k :: 0 <= k < |Bodies(bs)| ==> |Bodies(bs)[k]| <= 254 {
      assert forall k :: 0 <= k < |bs| ==> |Bodies(bs)[k]| == |bs[k].data| + 7 <= 254;
    }
  }

  /** Commands whose length byte counts all of their data get the bodies that are meant. */
  lemma WordedBodies(bs: seq<Block>)
    requires forall k :: 0 <= k < |bs| ==> |bs[k].data| <= 255
    ensures Worded(Commands(CLA_GP, INS_LOAD, bs)) == Bodies(bs)
  {
    forall k | 0 <= k < |bs|
      ensures Worded(Commands(CLA_GP, INS_LOAD, bs))[k] == Bodies(bs)[k]
    {
      assert Short(bs[k].data) == bs[k].data;
    }
  }

  /** There is room for the status words behind the commands and for the heads in front. */
  method PadAndWriteBack(q: SkbQueue, session: int, cla: byte, ins: byte, ghost bs: seq<Block>,
                         ghost skbs: seq<SkBuff>, ghost own: set<object>)
    returns (w: Written)
    requires Filled(q, skbs, own, cla, ins, bs)
    modifies skbs, set k | 0 <= k < |skbs| :: skbs[k].buff
    ensures w.NullSkb? <==> bs == []
    ensures w.Sent? <==> bs != []
    ensures w.Sent? ==> fresh(w.out) && w.out.Valid() && w.out.session == session
    ensures w.Sent? ==> w.out.Bytes() == FrameA1(Concat(Frames(Worded(Commands(cla, ins, bs)))))
  {
    ghost var contents := Commands(cla, ins, bs);
    ghost var free := seq(|bs|, k requires 0 <= k < |bs| => MAX_APDU_LEN - TAG_A0_HEAD_ROOM - |contents[k]|);
    ghost var from := seq(|bs|, _ => TAG_A0_HEAD_ROOM as int);
    var ok := PaddingSw(q, skbs, contents, free);
    assert ok;
    w := WriteBack(q, session, skbs, Worded(contents), from);
  }

  /** From a content to the packet for the agent: the queue emptied, filled with the LOAD commands, given
      status words and written back. Within the limits the card's side gets every block back whole. */
  method LoadWrittenBack(q: SkbQueue, content: bytes, first_max: nat, block_max: nat, session: int)
    returns (w: Written, ghost blocks: seq<Block>)
    requires |content| < 0x1_0000_0000 && block_max > 0 && q.Valid()
    modifies q`qlen, q`s, q.head`next, q.head`prev, Lists.Members(q.s)`next, Lists.Members(q.s)`prev
    ensures GoodLoad(blocks, content) && |blocks| == 1 + BlocksFor(Later(content, first_max), block_max)
    ensures w.Sent? && fresh(w.out) && w.out.Valid()
    ensures w.out.Bytes() == FrameA1(Concat(Frames(Worded(Commands(CLA_GP, INS_LOAD, blocks)))))
    ensures 1 + |BerLen(|content|)| + first_max <= 247 && block_max <= 247
            && |Concat(Frames(Bodies(blocks)))| != 255 ==>
              SkipAx(w.out.Bytes()).Some? && SplitA0(SkipAx(w.out.Bytes()).value) == Some(Bodies(blocks))
    ensures forall k :: 0 <= k < |blocks| ==>
              Bodies(blocks)[k] == [0x80, 0xE8, if k == |blocks| - 1 then 0x80 else 0, k % 256, |blocks[k].data| % 256]
                                   + blocks[k].data + [0x90, 0x00]
  {
    var freed := q.Purge();
    ghost var skbs, own;
    blocks, skbs, own := LoadBlocks(q, content, first_max, block_max);
    w := PadAndWriteBack(q, session, CLA_GP, INS_LOAD, blocks, skbs, own);
    if 1 + |BerLen(|content|)| + first_max <= 247 && block_max <= 247 {
      forall k | 0 <= k < |blocks|
        ensures |blocks[k].data| <= 247
      {
      }
      Arrives(blocks);
    }
  }

  lemma Arrives(bs: seq<Block>)
    requires forall k :: 0 <= k < |bs| ==> |bs[k].data| <= 247
    ensures Worded(Commands(CLA_GP, INS_LOAD, bs)) == Bodies(bs)
    ensures |Concat(Frames(Bodies(bs)))| != 255 ==>
              var r := SkipAx(FrameA1(Concat(Frames(Bodies(bs)))));
              r.Some? && SplitA0(r.value) == Some(Bodies(bs))
  {
    WordedBodies(bs);
    LoadSurvivesFraming(bs);
    SkipFrame(Concat(Frames(Bodies(bs))));
  }

  // ----- STORE DATA -----

  /** The blocks for the first i of n parameters. */
  ghost predicate Storing(blocks: seq<Block>, parms: seq<bytes>, i: nat) {
    && i <= |parms| && |blocks| == i && Datas(blocks) == parms[..i]
    && forall k :: 0 <= k < i ==>
         blocks[k].number == k % 256 && blocks[k].p1 == if k == |parms| - 1 then LAST_BLOCK else 0
  }

  lemma StoringStep(blocks: seq<Block>, parms: seq<bytes>, i: nat, b: Block)
    requires Storing(blocks, parms, i) && i < |parms|
    requires b == Block(if i == |parms| - 1 then LAST_BLOCK else 0, i % 256, parms[i])
    ensures Storing(blocks + [b], parms, i + 1)
  {
    assert Datas(blocks + [b]) == Datas(blocks) + [parms[i]];
    assert parms[..i] + [parms[i]] == parms[..i + 1];
  }

  const INS_STORE_DATA: byte := 0xE2

  /** The block of one parameter, queued. */
  method StoreOne(q: SkbQueue, parms: seq<bytes>, i: nat, number: byte, ghost blocks: seq<Block>,
                  ghost skbs: seq<SkBuff>, ghost own: set<object>)
    returns (number': byte, ghost blocks': seq<Block>, ghost skbs': seq<SkBuff>, ghost own': set<object>)
    requires Storing(blocks, parms, i) && i < |parms| && number == i % 256
    requires Filled(q, skbs, own, CLA_GP, INS_STORE_DATA, blocks)
    modifies q`qlen, q`s, q.head`next, q.head`prev, Lists.Members(q.s)`next
    ensures Storing(blocks', parms, i + 1) && number' == (i + 1) % 256
    ensures Filled(q, skbs', own', CLA_GP, INS_STORE_DATA, blocks')
    ensures fresh(Lists.Members(q.s) - old(Lists.Members(q.s)))
  {
    var b := Block(if i == |parms| - 1 then LAST_BLOCK else 0, number, parms[i]);
    StoringStep(blocks, parms, i, b);
    skbs', own' := QueueCommand(q, CLA_GP, INS_STORE_DATA, b, skbs, own, blocks);
    blocks', number' := blocks + [b], (number + 1) % 256;
    NextNumber(i);
  }

  /** The loop of gp_store_data over the parameters' values. */
  method StoreData(q: SkbQueue, parms: seq<bytes>)
    returns (ghost blocks: seq<Block>, ghost skbs: seq<SkBuff>, ghost own: set<object>)
    requires q.Valid() && q.s == []
    modifies q`qlen, q`s, q.head`next, q.head`prev
    ensures Datas(blocks) == parms && Numbered(blocks)
    ensures parms != [] ==> LastMarked(blocks)
    ensures Filled(q, skbs, own, CLA_GP, INS_STORE_DATA, blocks)
    ensures |skbs| == |parms| && forall k {:trigger skbs[k]} :: 0 <= k < |skbs| ==>
              var b, n := skbs[k].Bytes(), |parms[k]| % 256;
              && |b| == 5 + n && b[0] == 0x80 && b[1] == 0xE2
              && b[2] == (if k == |skbs| - 1 then 0x80 else 0) && b[3] == k % 256
              && b[4] == n && b[5..] == parms[k][..n]
  {
    blocks, skbs, own := [], [], {};
    var blk_num: byte := 0;
    for i := 0 to |parms|
      invariant Storing(blocks, parms, i) && blk_num == i % 256
      invariant Filled(q, skbs, own, CLA_GP, INS_STORE_DATA, blocks)
      invariant fresh(Lists.Members(q.s))
    {
      blk_num, blocks, skbs, own := StoreOne(q, parms, i, blk_num, blocks, skbs, own);
    }
    CommandBytes(skbs, CLA_GP, INS_STORE_DATA, blocks);
    assert forall k {:trigger parms[k]} :: 0 <= k < |parms| ==> Datas(blocks)[k] == blocks[k].data;
  }
}
