/** Tag framing of the packets between VM and agents (tsm_vm.c, tsm_router.c, bc_data.c, common/fm_Util.c). */
module Framing {
  import opened Wrappers
  import opened SkBuffs

  const TAG_A0: byte := 0xA0
  const TAG_A1: byte := 0xA1
  const TAG_A0_HEAD_ROOM := 3
  const TAG_A1_HEAD_ROOM := 4
  const MSG_HEAD_LEN := 12

  type bytes = seq<byte>

  // ----- A0 frames -----

  /** One body with its tag, its length byte, which counts the sequence number, and that number. */
  function FrameA0(body: bytes, number: byte): bytes {
    [TAG_A0, (|body| + 1) % 256, number] + body
  }

  /** The frames of the bodies, numbered from first on modulo 256. */
  function FramesFrom(bodies: seq<bytes>, first: nat): seq<bytes> {
    if bodies == [] then [] else [FrameA0(bodies[0], first % 256)] + FramesFrom(bodies[1..], first + 1)
  }

  function Frames(bodies: seq<bytes>): seq<bytes> {
    FramesFrom(bodies, 1)
  }

  function Concat(parts: seq<bytes>): bytes {
    if parts == [] then [] else parts[0] + Concat(parts[1..])
  }

  /** tagA0s_to_fmBytesarray: the bodies of a run of frames; None when a length byte is zero or leads
      past the end. */
  function SplitA0(b: bytes): Option<seq<bytes>> {
    if b == [] then Some([])
    else if |b| < 3 then None
    else
      var n: int := b[1];
      if n == 0 || 2 + n > |b| then None
      else
        match SplitA0(b[2 + n..])
        case None => None
        case Some(rest) => Some([b[3..2 + n]] + rest)
  }

  lemma SplitOne(body: bytes, number: byte, rest: bytes)
    requires |body| <= 254
    ensures SplitA0(FrameA0(body, number) + rest)
         == match SplitA0(rest) { case None => None case Some(more) => Some([body] + more) }
  {
    var b := FrameA0(body, number) + rest;
    var n: int := b[1];
    assert n == |body| + 1;
    assert b[3..2 + n] == body && b[2 + n..] == rest;
  }

  lemma SplitTooLong(body: bytes, number: byte, rest: bytes)
    requires |body| > 254
    ensures var r := SplitA0(FrameA0(body, number) + rest); r.Some? ==> |r.value| > 0 && r.value[0] != body
  {
    var b := FrameA0(body, number) + rest;
    assert b[1] == (|body| + 1) % 256;
  }

  lemma SplitOneIff(bodies: seq<bytes>, number: byte, rest: bytes)
    requires bodies != []
    ensures SplitA0(FrameA0(bodies[0], number) + rest) == Some(bodies)
       <==> |bodies[0]| <= 254 && SplitA0(rest) == Some(bodies[1..])
  {
    if |bodies[0]| <= 254 {
      SplitOne(bodies[0], number, rest);
      if SplitA0(rest).Some? {
        assert ([bodies[0]] + SplitA0(rest).value)[1..] == SplitA0(rest).value;
        assert bodies == [bodies[0]] + bodies[1..];
      }
    } else {
      SplitTooLong(bodies[0], number, rest);
    }
  }

  /** Splitting undoes framing exactly when no body is longer than its length byte can say. */
  lemma {:induction false} SplitFrames(bodies: seq<bytes>, first: nat)
    ensures SplitA0(Concat(FramesFrom(bodies, first))) == Some(bodies)
       <==> forall k :: 0 <= k < |bodies| ==> |bodies[k]| <= 254
  {
    if bodies != [] {
      var tail := bodies[1..];
      FirstFrame(bodies, first);
      SplitOneIff(bodies, NumberAt(first, 0), Concat(FramesFrom(tail, first + 1)));
      SplitFrames(tail, first + 1);
      assert forall k :: 0 <= k < |tail| ==> tail[k] == bodies[k + 1];
      if forall k :: 0 <= k < |tail| ==> |tail[k]| <= 254 {
        assert forall k :: 1 <= k < |bodies| ==> bodies[k] == tail[k - 1];
      }
    }
  }

  /** Frames with any tags and numbers. */
  function Joined(heads: seq<(byte, byte)>, frags: seq<bytes>): bytes
    requires |heads| == |frags|
  {
    if heads == [] then []
    else [heads[0].0, (|frags[0]| + 1) % 256, heads[0].1] + frags[0] + Joined(heads[1..], frags[1..])
  }

  lemma {:induction false} SplitJoined(heads: seq<(byte, byte)>, frags: seq<bytes>)
    requires |heads| == |frags| && forall k :: 0 <= k < |frags| ==> |frags[k]| <= 254
    ensures SplitA0(Joined(heads, frags)) == Some(frags)
  {
    if heads != [] {
      var b, n, rest := Joined(heads, frags), |frags[0]| + 1, Joined(heads[1..], frags[1..]);
      SplitJoined(heads[1..], frags[1..]);
      assert b[1] == n && b[3..2 + n] == frags[0] && b[2 + n..] == rest;
      assert frags == [frags[0]] + frags[1..];
    }
  }

  lemma JoinOne(h: (byte, byte), heads: seq<(byte, byte)>, f: bytes, frags: seq<bytes>)
    requires |heads| == |frags|
    ensures Joined([h] + heads, [f] + frags) == [h.0, (|f| + 1) % 256, h.1] + f + Joined(heads, frags)
  {
    assert ([h] + heads)[1..] == heads && ([f] + frags)[1..] == frags;
  }

  lemma FrontFrame(b: bytes, n: nat)
    requires |b| >= 3 && b[1] == n > 0 && 2 + n <= |b|
    ensures b == [b[0], (|b[3..2 + n]| + 1) % 256, b[2]] + b[3..2 + n] + b[2 + n..]
  {
  }

  lemma ShortAll(f: bytes, frags: seq<bytes>)
    requires |f| <= 254 && forall k :: 0 <= k < |frags| ==> |frags[k]| <= 254
    ensures forall k :: 0 <= k < |[f] + frags| ==> |([f] + frags)[k]| <= 254
  {
  }

  lemma {:induction false} JoinSplit(b: bytes) returns (heads: seq<(byte, byte)>)
    requires SplitA0(b).Some?
    ensures var frags := SplitA0(b).value;
            |heads| == |frags| && b == Joined(heads, frags) && forall k :: 0 <= k < |frags| ==> |frags[k]| <= 254
    decreases |b|
  {
    heads := [];
    if b != [] {
      var n: int := b[1];
      var rest := JoinSplit(b[2 + n..]);
      var frags := SplitA0(b[2 + n..]).value;
      FrontFrame(b, n);
      JoinOne((b[0], b[2]), rest, b[3..2 + n], frags);
      ShortAll(b[3..2 + n], frags);
      heads := [(b[0], b[2])] + rest;
    }
  }

  /** What splitting accepts: exactly the frames, whatever their tags and numbers, of bodies of up to 254
      bytes, and it gives those bodies. */
  lemma SplitIff(b: bytes, frags: seq<bytes>)
    ensures SplitA0(b) == Some(frags)
       <==> (forall k :: 0 <= k < |frags| ==> |frags[k]| <= 254)
            && exists heads: seq<(byte, byte)> :: |heads| == |frags| && b == Joined(heads, frags)
  {
    if SplitA0(b) == Some(frags) {
      var heads := JoinSplit(b);
    } else if forall k :: 0 <= k < |frags| ==> |frags[k]| <= 254 {
      forall heads: seq<(byte, byte)> | |heads| == |frags|
        ensures b != Joined(heads, frags)
      {
        SplitJoined(heads, frags);
      }
    }
  }

  /** A frame byte by byte. */
  lemma {:induction false} FrameBytes(bodies: seq<bytes>, first: nat, k: nat)
    requires k < |bodies|
    ensures |FramesFrom(bodies, first)| == |bodies|
    ensures FramesFrom(bodies, first)[k] == [0xA0, (|bodies[k]| + 1) % 256, (first + k) % 256] + bodies[k]
  {
    FramesLength(bodies, first);
    if k > 0 { FrameBytes(bodies[1..], first + 1, k - 1); }
  }

  // ----- the A1 frame -----

  function FrameA1(b: bytes): bytes {
    (if |b| > 255 then [TAG_A1, 0xFF, (|b| / 256) % 256, |b| % 256] else [TAG_A1, |b|]) + b
  }

  /** skip_tagAx, with the length byte itself tested. */
  function SkipAx(b: bytes): Option<bytes> {
    if |b| < 2 then None
    else if b[1] != 0xFF then Some(b[2..])
    else if |b| < 4 then None
    else Some(b[4..])
  }

  /** Skipping undoes the A1 frame for every content but those of length 255, whose one-byte length reads
      as the marker of the long form. */
  lemma SkipFrame(b: bytes)
    ensures SkipAx(FrameA1(b)) == Some(b) <==> |b| != 255
  {
    var f := FrameA1(b);
    if |b| > 255 {
      assert f[4..] == b;
    } else {
      assert f[2..] == b;
      if |b| == 255 { assert |f[4..]| == 253; }
    }
  }

  // ----- lookup by number -----

  lemma HighLow(n: nat)
    requires n < 65536
    ensures (n / 256) % 256 == n / 256 && n / 256 * 256 + n % 256 == n
  {
  }

  lemma FrameLength(b: bytes)
    requires |b| != 255 && |b| < 65536
    ensures AxLen(FrameA1(b)) == Some(|b|)
  {
    HighLow(|b|);
  }

  /** _get_Tag_Ax_len */
  function AxLen(b: bytes): (n: Option<nat>)
    ensures n.Some? <==> SkipAx(b).Some?
  {
    if |b| < 2 then None
    else if b[1] != 0xFF then Some(b[1])
    else if |b| < 4 then None
    else
      var hi: int := b[2];
      Some(hi * 256 + b[3])
  }

  datatype Reply = Found(data: bytes) | Missing | Overrun

  /** The search among the frames in b: past the end of the data it runs over. */
  function LookupIn(b: bytes, number: byte): Reply {
    if b == [] || b[0] != TAG_A0 then Missing
    else if AxLen(b).None? || SkipAx(b).value == [] then Overrun
    else
      var n, rest := AxLen(b).value, SkipAx(b).value;
      if rest[0] == number then if n < 3 || n - 2 > |rest| then Overrun else Found(rest[1..n - 2])
      else if n >= |rest| then Missing
      else LookupIn(rest[n..], number)
  }

  /** _get_Tag_A0_at on a whole A1 frame. */
  function Lookup(p: bytes, number: byte): Reply {
    if AxLen(p).None? || AxLen(p).value > |SkipAx(p).value| then Overrun
    else LookupIn(SkipAx(p).value[..AxLen(p).value], number)
  }

  method GetTagA0At(p: bytes, number: byte) returns (r: Reply)
    ensures r == Lookup(p, number)
  {
    if AxLen(p).None? || AxLen(p).value > |SkipAx(p).value| {
      return Overrun;
    }
    var point := SkipAx(p).value[..AxLen(p).value];  // the source's point .. end
    while point != [] && point[0] == TAG_A0
      invariant Lookup(p, number) == LookupIn(point, number)
      decreases |point|
    {
      if AxLen(point).None? || SkipAx(point).value == [] {
        return Overrun;
      }
      var len, rest := AxLen(point).value, SkipAx(point).value;
      if rest[0] == number {
        if len < 3 || len - 2 > |rest| {
          return Overrun;
        }
        return Found(rest[1..len - 2]);
      }
      if len >= |rest| {
        return Missing;
      }
      point := rest[len..];
    }
    r := Missing;
  }

  lemma Middle(first: byte, body: bytes, rest: bytes)
    requires |body| >= 2
    ensures ([first] + (body + rest))[1..|body| - 1] == body[..|body| - 2]
  {
    var c := [first] + (body + rest);
    assert forall k :: 0 <= k < |body| - 2 ==> c[1 + k] == body[k];
  }

  lemma LookupOne(body: bytes, first: byte, rest: bytes, number: byte)
    requires 2 <= |body| <= 253
    ensures LookupIn(FrameA0(body, first) + rest, number)
         == if first == number then Found(body[..|body| - 2]) else LookupIn(rest, number)
  {
    var b := FrameA0(body, first) + rest;
    var n := |body| + 1;
    assert b[1] == n && AxLen(b) == Some(n);
    var c := [first] + (body + rest);
    assert SkipAx(b) == Some(c) by { assert b[2..] == c; }
    assert c[n..] == rest;
    if first == number {
      Middle(first, body, rest);
    }
  }

  /** The number of the frame j places after one numbered from first. */
  function NumberAt(first: nat, j: nat): (n: byte) {
    (first + j) % 256
  }

  lemma NumbersDiffer(first: nat, j: nat)
    requires 0 < j < 256
    ensures NumberAt(first, j) != NumberAt(first, 0) && NumberAt(first, j) == NumberAt(first + 1, j - 1)
  {
  }

  /** Among at most 256 frames the j-th is the one with its number. */
  lemma {:induction false} LookupFrames(bodies: seq<bytes>, first: nat, j: nat, number: byte)
    requires forall k :: 0 <= k < |bodies| ==> 2 <= |bodies[k]| <= 253
    requires j < 256 && number == NumberAt(first, j)
    ensures LookupIn(Concat(FramesFrom(bodies, first)), number)
         == if j < |bodies| then Found(bodies[j][..|bodies[j]| - 2]) else Missing
    decreases |bodies|
  {
    if bodies != [] {
      var rest := FramesFrom(bodies[1..], first + 1);
      FirstFrame(bodies, first);
      LookupOne(bodies[0], NumberAt(first, 0), Concat(rest), number);
      if j > 0 {
        NumbersDiffer(first, j);
        LookupFrames(bodies[1..], first + 1, j - 1, number);
      }
    }
  }

  lemma FirstFrame(bodies: seq<bytes>, first: nat)
    requires bodies != []
    ensures Concat(FramesFrom(bodies, first))
         == FrameA0(bodies[0], NumberAt(first, 0)) + Concat(FramesFrom(bodies[1..], first + 1))
  {
    assert FramesFrom(bodies, first)[1..] == FramesFrom(bodies[1..], first + 1);
  }

  lemma LookupWhole(p: bytes, c: bytes, number: byte)
    requires AxLen(p) == Some(|c|) && SkipAx(p) == Some(c)
    ensures Lookup(p, number) == LookupIn(c, number)
  {
    assert c[..|c|] == c;
  }

  /** Looking up the number of the j-th body in a framed queue gives that body without its status word,
      and the number of no body gives nothing: the A1 length must not be 255, which reads as the long
      form, nor reach 2^16. */
  lemma LookupFramed(bodies: seq<bytes>, j: nat)
    requires forall k :: 0 <= k < |bodies| ==> 2 <= |bodies[k]| <= 253
    requires |Concat(Frames(bodies))| != 255 && |Concat(Frames(bodies))| < 65536
    requires j < 256
    ensures Lookup(FrameA1(Concat(Frames(bodies))), NumberAt(1, j))
         == if j < |bodies| then Found(bodies[j][..|bodies[j]| - 2]) else Missing
  {
    var c := Concat(Frames(bodies));
    SkipFrame(c);
    FrameLength(c);
    LookupWhole(FrameA1(c), c, NumberAt(1, j));
    LookupFrames(bodies, 1, j, NumberAt(1, j));
  }

  /** What is found lies inside what was searched. */
  lemma {:induction false} FoundInside(b: bytes, number: byte)
    ensures LookupIn(b, number).Found? ==> |LookupIn(b, number).data| + 3 <= |b|
    decreases |b|
  {
    if b != [] && b[0] == TAG_A0 && AxLen(b).Some? && SkipAx(b).value != [] {
      var n, rest := AxLen(b).value, SkipAx(b).value;
      if rest[0] != number && n < |rest| { FoundInside(rest[n..], number); }
    }
  }

  /** The length byte of a body of 254 bytes reads as the long form. Framed alone it is found only when it
      is numbered 0 and spells out, over and over, the length and number that are then read. */
  lemma LookupLongestIff(body: bytes, number: byte)
    requires |body| == 254
    ensures LookupIn(FrameA0(body, number), number) == Found(body[..252])
       <==> number == 0 && body[0] == 255 && body[1] == 0 && body[2..] == body[..252]
  {
    var b := FrameA0(body, number);
    var n, rest := number as int * 256 + body[0] as int, body[1..];
    assert b[1] == 0xFF && b[4..] == rest && AxLen(b) == Some(n) && SkipAx(b) == Some(rest);
    if rest[0] == number {
      if n == 255 { assert rest[1..253] == body[2..]; }
    } else if n < |rest| {
      FoundInside(rest[n..], number);
    }
  }

  /** A frame too short or too long for the lookup does not give its body to its own number; one of 254
      bytes, whose length byte reads as the long form, if its second byte is that number. */
  lemma LookupUnfit(body: bytes, number: byte, rest: bytes)
    requires number != 0 && |body| < 510 && !(2 <= |body| <= 253)
    requires |body| == 254 ==> body[1] == number
    ensures var r := LookupIn(FrameA0(body, number) + rest, number);
            r.Found? && |body| >= 2 ==> r.data != body[..|body| - 2]
  {
    var b := FrameA0(body, number) + rest;
    if |body| == 254 {
      assert b[1] == 0xFF && AxLen(b).value == number as int * 256 + body[0] as int;
      assert SkipAx(b).value == b[4..] && b[4] == body[1];
    } else {
      assert b[1] == (|body| + 1) % 256 != 0xFF;
      assert SkipAx(b).value == b[2..] && b[2] == number;
    }
  }

  function LookupFrom(bodies: seq<bytes>, first: nat, number: byte): Reply {
    LookupIn(Concat(FramesFrom(bodies, first)), number)
  }

  lemma LookupSkips(bodies: seq<bytes>, first: nat, number: byte)
    requires bodies != [] && Fit(bodies[0]) && NumberAt(first, 0) != number
    ensures LookupFrom(bodies, first, number) == LookupFrom(bodies[1..], first + 1, number)
  {
    FirstFrame(bodies, first);
    LookupOne(bodies[0], NumberAt(first, 0), Concat(FramesFrom(bodies[1..], first + 1)), number);
  }

  /** A lookup passes over the fit bodies before the one it asks for. */
  lemma {:induction false} LookupReaches(bodies: seq<bytes>, first: nat, j: nat, number: byte)
    requires j < |bodies| && j < 256 && number == NumberAt(first, j)
    requires forall k :: 0 <= k < j ==> Fit(bodies[k])
    ensures LookupFrom(bodies, first, number) == LookupFrom(bodies[j..], first + j, number)
    decreases j
  {
    if j > 0 {
      var tail := bodies[1..];
      NumbersDiffer(first, j);
      LookupSkips(bodies, first, number);
      LookupReaches(tail, first + 1, j - 1, number);
      assert tail[j - 1..] == bodies[j..];
    } else {
      assert bodies[0..] == bodies;
    }
  }

  predicate LookedUp(bodies: seq<bytes>, j: nat)
    requires j < |bodies|
  {
    |bodies[j]| >= 2 && Lookup(FrameA1(Concat(Frames(bodies))), NumberAt(1, j)) == Found(bodies[j][..|bodies[j]| - 2])
  }

  predicate Fit(body: bytes) {
    2 <= |body| <= 253
  }

  lemma UnfitFirst(bodies: seq<bytes>, first: nat, number: byte)
    requires bodies != [] && !Fit(bodies[0]) && |bodies[0]| < 510 && number == NumberAt(first, 0) != 0
    requires |bodies[0]| == 254 ==> bodies[0][1] == number
    ensures var r := LookupFrom(bodies, first, number);
            r.Found? && |bodies[0]| >= 2 ==> r.data != bodies[0][..|bodies[0]| - 2]
  {
    FirstFrame(bodies, first);
    LookupUnfit(bodies[0], number, Concat(FramesFrom(bodies[1..], first + 1)));
  }

  lemma LookupContent(bodies: seq<bytes>, number: byte)
    requires |Concat(Frames(bodies))| != 255 && |Concat(Frames(bodies))| < 65536
    ensures Lookup(FrameA1(Concat(Frames(bodies))), number) == LookupFrom(bodies, 1, number)
  {
    var c := Concat(Frames(bodies));
    SkipFrame(c);
    FrameLength(c);
    LookupWhole(FrameA1(c), c, number);
  }

  lemma UnfitNotFound(bodies: seq<bytes>, j: nat)
    requires |bodies| <= 255 && |Concat(Frames(bodies))| != 255 && |Concat(Frames(bodies))| < 65536
    requires j < |bodies| && !Fit(bodies[j]) && forall i :: 0 <= i < j ==> Fit(bodies[i])
    requires |bodies[j]| < 510 && (|bodies[j]| == 254 ==> bodies[j][1] == NumberAt(1, j))
    ensures !LookedUp(bodies, j)
  {
    var number, rest := NumberAt(1, j), bodies[j..];
    LookupContent(bodies, number);
    LookupReaches(bodies, 1, j, number);
    assert rest[0] == bodies[j];
    UnfitFirst(rest, 1 + j, number);
  }

  /** An A1 content of 255 bytes reads as longer than it is. */
  lemma Lookup255(bodies: seq<bytes>)
    requires bodies != [] && |Concat(Frames(bodies))| == 255
    ensures !LookedUp(bodies, 0)
  {
    FirstFrame(bodies, 1);
    var f := FrameA1(Concat(Frames(bodies)));
    assert f[1] == 0xFF && f[2] == TAG_A0;
  }

  predicate SameLengths(a: seq<bytes>, b: seq<bytes>) {
    |a| == |b| && forall k :: 0 <= k < |a| ==> |a[k]| == |b[k]|
  }

  lemma {:induction false} SameTotal(a: seq<bytes>, b: seq<bytes>, first: nat)
    requires SameLengths(a, b)
    ensures |Concat(FramesFrom(a, first))| == |Concat(FramesFrom(b, first))|
    decreases |a|
  {
    if a != [] {
      FirstFrame(a, first);
      FirstFrame(b, first);
      SameTotal(a[1..], b[1..], first + 1);
    }
  }

  ghost predicate AllLookedUp(bodies: seq<bytes>) {
    forall j :: 0 <= j < |bodies| ==> LookedUp(bodies, j)
  }

  lemma UnfitQueue(bodies: seq<bytes>, k: nat) returns (other: seq<bytes>)
    requires |bodies| <= 255 && |Concat(Frames(bodies))| != 255 && |Concat(Frames(bodies))| < 65536
    requires k < |bodies| && !Fit(bodies[k]) && |bodies[k]| < 510
    requires forall i :: 0 <= i < k ==> Fit(bodies[i])
    ensures SameLengths(bodies, other) && !AllLookedUp(other)
  {
    other := bodies[k := seq(|bodies[k]|, _ => NumberAt(1, k))];
    SameTotal(bodies, other, 1);
    UnfitNotFound(other, k);
  }

  /** The lengths for which every lookup in a queue is right, whatever the bytes: each body with its status
      word has 2 to 253 bytes, and the frames are not 255 bytes together. */
  lemma LookupAllIff(bodies: seq<bytes>)
    requires |bodies| <= 255 && |Concat(Frames(bodies))| < 65536
    requires forall k :: 0 <= k < |bodies| ==> |bodies[k]| < 510
    ensures (forall other :: SameLengths(bodies, other) ==> AllLookedUp(other))
       <==> |Concat(Frames(bodies))| != 255 && forall k :: 0 <= k < |bodies| ==> Fit(bodies[k])
  {
    if |Concat(Frames(bodies))| == 255 {
      Lookup255(bodies);
      assert SameLengths(bodies, bodies) && !AllLookedUp(bodies);
    } else if exists k :: 0 <= k < |bodies| && !Fit(bodies[k]) {
      var k := FirstUnfit(bodies);
      var other := UnfitQueue(bodies, k);
    } else {
      forall other | SameLengths(bodies, other)
        ensures AllLookedUp(other)
      {
        SameTotal(bodies, other, 1);
        AllFitLookedUp(other);
      }
    }
  }

  lemma {:induction false} FirstUnfit(bodies: seq<bytes>) returns (k: nat)
    requires exists i :: 0 <= i < |bodies| && !Fit(bodies[i])
    ensures k < |bodies| && !Fit(bodies[k]) && forall i :: 0 <= i < k ==> Fit(bodies[i])
  {
    k := 0;
    if Fit(bodies[0]) {
      var i :| 0 <= i < |bodies| && !Fit(bodies[i]);
      assert bodies[1..][i - 1] == bodies[i];
      k := FirstUnfit(bodies[1..]);
      k := k + 1;
    }
  }

  lemma AllFitLookedUp(bodies: seq<bytes>)
    requires |bodies| <= 255 && |Concat(Frames(bodies))| != 255 && |Concat(Frames(bodies))| < 65536
    requires forall k :: 0 <= k < |bodies| ==> Fit(bodies[k])
    ensures AllLookedUp(bodies)
  {
    forall j | 0 <= j < |bodies|
      ensures LookedUp(bodies, j)
    {
      LookupFramed(bodies, j);
    }
  }

  // ----- framing on packet buffers -----

  /** The packets are distinct, in distinct buffers, and hold the contents. */
  ghost predicate Hold(skbs: seq<SkBuff>, contents: seq<bytes>)
    reads skbs, set k | 0 <= k < |skbs| :: skbs[k].buff
  {
    && |skbs| == |contents|
    && (forall k {:trigger skbs[k]} :: 0 <= k < |skbs| ==> skbs[k].Valid() && skbs[k].Bytes() == contents[k])
    && (forall j, k :: 0 <= j < k < |skbs| ==> skbs[j] != skbs[k] && skbs[j].buff != skbs[k].buff)
  }

  /** The queue's packets, front to back. */
  ghost predicate Queued(q: SkbQueue, skbs: seq<SkBuff>)
    reads q, q.head, q.s
  {
    && q.Valid() && |q.s| == |skbs|
    && forall k {:trigger q.s[k].item} {:trigger skbs[k]} :: 0 <= k < |skbs| ==> q.s[k].item == skbs[k]
  }

  /** One turn of padding_tagA0. The length pushed is the one before the push that stores it. */
  method PushA0(skb: SkBuff, number: byte) returns (r: Place)
    requires skb.Valid()
    modifies skb`data, skb`len, skb.buff
    ensures r.Panic? <==> old(skb.data) < TAG_A0_HEAD_ROOM
    ensures r.At? ==> skb.Valid() && skb.Bytes() == FrameA0(old(skb.Bytes()), number)
    ensures r.At? ==> skb.data == old(skb.data) - TAG_A0_HEAD_ROOM
  {
    r := skb.PushByte(number);
    if r.Panic? {
      return;
    }
    r := skb.PushByte(skb.len % 256);
    if r.Panic? {
      return;
    }
    r := skb.PushByte(TAG_A0);
  }

  /** The contents after the first i have been framed. */
  ghost function PartlyFramed(bodies: seq<bytes>, i: nat): seq<bytes>
    requires i <= |bodies|
  {
    FramesFrom(bodies[..i], 1) + bodies[i..]
  }

  function TotalLength(parts: seq<bytes>): nat {
    if parts == [] then 0 else |parts[0]| + TotalLength(parts[1..])
  }

  lemma {:induction false} FramesAppend(bodies: seq<bytes>, b: bytes, first: nat)
    ensures FramesFrom(bodies + [b], first) == FramesFrom(bodies, first) + [FrameA0(b, (first + |bodies|) % 256)]
  {
    if bodies == [] {
      assert FramesFrom([b], first) == [FrameA0(b, first % 256)] + FramesFrom([b][1..], first + 1);
    } else {
      assert (bodies + [b])[1..] == bodies[1..] + [b];
      FramesAppend(bodies[1..], b, first + 1);
    }
  }

  lemma {:induction false} FramesLength(bodies: seq<bytes>, first: nat)
    ensures |FramesFrom(bodies, first)| == |bodies|
  {
    if bodies != [] { FramesLength(bodies[1..], first + 1); }
  }

  lemma PartlyStep(bodies: seq<bytes>, i: nat)
    requires i < |bodies|
    ensures |PartlyFramed(bodies, i)| == |bodies| && PartlyFramed(bodies, i)[i] == bodies[i]
    ensures PartlyFramed(bodies, i + 1) == PartlyFramed(bodies, i)[i := FrameA0(bodies[i], (1 + i) % 256)]
  {
    FramesLength(bodies[..i], 1);
    FramesAppend(bodies[..i], bodies[i], 1);
    assert bodies[..i + 1] == bodies[..i] + [bodies[i]];
  }

  /** Every packet has room for n bytes more. */
  ghost predicate Room(left: seq<int>, n: nat) {
    forall k :: 0 <= k < |left| ==> left[k] >= n
  }

  /** The windows begin where from says, but for the first i, which have been framed. */
  ghost predicate Begin(skbs: seq<SkBuff>, from: seq<int>, i: nat)
    reads skbs
  {
    && |from| == |skbs|
    && forall k {:trigger skbs[k]} {:trigger from[k]} :: 0 <= k < |skbs| ==>
         skbs[k].data == if k < i then from[k] - TAG_A0_HEAD_ROOM else from[k]
  }

  /** Framing one packet of several leaves the others as they are. */
  method PushOne(skb: SkBuff, number: byte, ghost skbs: seq<SkBuff>, ghost i: nat, ghost contents: seq<bytes>,
                 ghost from: seq<int>)
    returns (r: Place)
    requires Hold(skbs, contents) && i < |skbs| && skb == skbs[i] && Begin(skbs, from, i)
    modifies skb`data, skb`len, skb.buff
    ensures r.Panic? <==> from[i] < TAG_A0_HEAD_ROOM
    ensures r.At? ==> Hold(skbs, contents[i := FrameA0(contents[i], number)]) && Begin(skbs, from, i + 1)
  {
    r := PushA0(skb, number);
  }

  lemma {:induction false} TotalAppend(parts: seq<bytes>, b: bytes)
    ensures TotalLength(parts + [b]) == TotalLength(parts) + |b|
  {
    if parts == [] {
      assert [b][1..] == [];
    } else {
      assert (parts + [b])[1..] == parts[1..] + [b];
      TotalAppend(parts[1..], b);
    }
  }

  lemma TotalStep(bodies: seq<bytes>, i: nat)
    requires i < |bodies|
    ensures TotalLength(FramesFrom(bodies[..i + 1], 1))
         == TotalLength(FramesFrom(bodies[..i], 1)) + |bodies[i]| + TAG_A0_HEAD_ROOM
  {
    assert bodies[..i + 1] == bodies[..i] + [bodies[i]];
    FramesAppend(bodies[..i], bodies[i], 1);
    TotalAppend(FramesFrom(bodies[..i], 1), FrameA0(bodies[i], (1 + i) % 256));
  }

  lemma NextNumber(i: nat)
    ensures ((1 + i) % 256 + 1) % 256 == (1 + (i + 1)) % 256
  {
  }

  lemma AllFramed(bodies: seq<bytes>)
    ensures PartlyFramed(bodies, 0) == bodies && PartlyFramed(bodies, |bodies|) == Frames(bodies)
    ensures bodies[..|bodies|] == bodies
  {
    assert bodies[..|bodies|] == bodies;
  }

  /** The queue while its first i packets have been framed, with the next number and the length so far. */
  ghost predicate Padding(q: SkbQueue, skbs: seq<SkBuff>, bodies: seq<bytes>, from: seq<int>, i: nat, number: byte,
                          len: nat)
    reads q, q.head, q.s, skbs, set k | 0 <= k < |skbs| :: skbs[k].buff
  {
    && i <= |skbs| == |bodies| && Queued(q, skbs)
    && Hold(skbs, PartlyFramed(bodies, i)) && Begin(skbs, from, i) && Room(from[..i], TAG_A0_HEAD_ROOM)
    && number == (1 + i) % 256 && len == TotalLength(FramesFrom(bodies[..i], 1))
  }

  /** One turn of padding_tagA0's walk. */
  method PadOne(skb: SkBuff, number: byte, len: nat, ghost q: SkbQueue, ghost skbs: seq<SkBuff>,
                ghost bodies: seq<bytes>, ghost from: seq<int>, ghost i: nat)
    returns (r: Place, number': byte, len': nat)
    requires Padding(q, skbs, bodies, from, i, number, len) && i < |skbs| && skb == skbs[i]
    modifies skb`data, skb`len, skb.buff
    ensures r.Panic? ==> !Room(from, TAG_A0_HEAD_ROOM)
    ensures r.At? ==> Padding(q, skbs, bodies, from, i + 1, number', len')
  {
    PartlyStep(bodies, i);
    TotalStep(bodies, i);
    NextNumber(i);
    r := PushOne(skb, number, skbs, i, PartlyFramed(bodies, i), from);
    if r.Panic? {
      return r, number, len;
    }
    assert skbs[i].Bytes() == FrameA0(bodies[i], number);
    assert from[..i + 1] == from[..i] + [from[i]];
    number', len' := (number + 1) % 256, len + skb.len;
  }

  /** padding_tagA0: every packet of the queue gets its tag, length and number, in queue order, and the total
      length is returned; None if a push runs into the panic loop, which happens exactly when some packet
      has too little room in front. */
  method PaddingTagA0(q: SkbQueue, ghost skbs: seq<SkBuff>, ghost bodies: seq<bytes>, ghost from: seq<int>)
    returns (len: Option<nat>)
    requires Queued(q, skbs) && Hold(skbs, bodies) && Begin(skbs, from, 0)
    modifies skbs, set k | 0 <= k < |skbs| :: skbs[k].buff
    ensures len.Some? <==> Room(from, 3)
    ensures len.Some? ==> Queued(q, skbs) && Hold(skbs, Frames(bodies)) && Begin(skbs, from, |skbs|)
    ensures len.Some? ==> len.value == TotalLength(Frames(bodies))
    ensures len.Some? ==> |skbs| == |bodies| && forall k {:trigger skbs[k]} :: 0 <= k < |skbs| ==>
              skbs[k].Bytes() == [0xA0, (|bodies[k]| + 1) % 256, (1 + k) % 256] + bodies[k]
  {
    var seq_: byte, total := 1, 0;
    ghost var i := 0;
    PaddingStarts(q, skbs, bodies, from);
    var pos := q.head.next;
    while pos != q.head
      invariant Padding(q, skbs, bodies, from, i, seq_, total) && pos == Lists.At(q.head, q.s, i)
      decreases |skbs| - i
    {
      var n := pos.next;
      var r;
      r, seq_, total := PadOne(pos.item, seq_, total, q, skbs, bodies, from, i);
      if r.Panic? {
        return None;
      }
      i := i + 1;
      pos := n;
    }
    PaddingDone(q, skbs, bodies, from, i, seq_, total);
    len := Some(total);
  }

  lemma PaddingStarts(q: SkbQueue, skbs: seq<SkBuff>, bodies: seq<bytes>, from: seq<int>)
    requires Queued(q, skbs) && Hold(skbs, bodies) && Begin(skbs, from, 0)
    ensures Padding(q, skbs, bodies, from, 0, 1, 0)
  {
    AllFramed(bodies);
  }

  lemma PaddingDone(q: SkbQueue, skbs: seq<SkBuff>, bodies: seq<bytes>, from: seq<int>, i: nat, number: byte, len: nat)
    requires Padding(q, skbs, bodies, from, i, number, len) && Lists.At(q.head, q.s, i) == q.head
    ensures i == |skbs| && Queued(q, skbs) && Hold(skbs, Frames(bodies)) && len == TotalLength(Frames(bodies))
    ensures Room(from, TAG_A0_HEAD_ROOM)
    ensures |skbs| == |bodies| && forall k {:trigger skbs[k]} :: 0 <= k < |skbs| ==>
              skbs[k].Bytes() == [0xA0, (|bodies[k]| + 1) % 256, (1 + k) % 256] + bodies[k]
  {
    assert i == |bodies| && from[..i] == from;
    AllFramed(bodies);
    forall k {:trigger skbs[k]} | 0 <= k < |skbs|
      ensures skbs[k].Bytes() == [0xA0, (|bodies[k]| + 1) % 256, (1 + k) % 256] + bodies[k]
    {
      FrameBytes(bodies, 1, k);
    }
  }

  lemma {:induction false} TotalIsConcat(parts: seq<bytes>)
    ensures TotalLength(parts) == |Concat(parts)|
  {
    if parts != [] { TotalIsConcat(parts[1..]); }
  }

  lemma {:induction false} ConcatSplit(parts: seq<bytes>, i: nat)
    requires i <= |parts|
    ensures Concat(parts) == Concat(parts[..i]) + Concat(parts[i..])
  {
    if i == 0 {
      assert parts[0..] == parts;
    } else {
      ConcatSplit(parts[1..], i - 1);
      assert parts[..i][1..] == parts[1..][..i - 1];
      assert parts[1..][i - 1..] == parts[i..];
    }
  }

  lemma ConcatStep(parts: seq<bytes>, i: nat)
    requires i < |parts|
    ensures Concat(parts[..i + 1]) == Concat(parts[..i]) + parts[i]
    ensures |Concat(parts[..i + 1])| <= |Concat(parts)|
  {
    ConcatSplit(parts[..i + 1], i);
    assert parts[..i + 1][..i] == parts[..i] && parts[..i + 1][i..] == [parts[i]];
    assert Concat([parts[i]]) == parts[i] + Concat([parts[i]][1..]);
    ConcatSplit(parts, i + 1);
  }

  /** out is apart from the packets of the queue. */
  ghost predicate Apart(out: SkBuff, skbs: seq<SkBuff>)
    reads out, skbs
  {
    forall k {:trigger skbs[k]} :: 0 <= k < |skbs| ==> skbs[k] != out && skbs[k].buff != out.buff
  }

  /** The loop of padding_tagA1: the packets' contents one after the other. */
  method GatherPackets(out: SkBuff, q: SkbQueue, ghost skbs: seq<SkBuff>, ghost frames: seq<bytes>)
    requires Queued(q, skbs) && Hold(skbs, frames) && Apart(out, skbs)
    requires out.Valid() && out.Bytes() == [] && out.data_len != 0 && out.tail + |Concat(frames)| <= out.end
    modifies out`tail, out`len, out.buff
    ensures out.Valid() && out.Bytes() == Concat(frames) && out.tail == old(out.tail) + |Concat(frames)|
    ensures Hold(skbs, frames)
  {
    ghost var i := 0;
    var pos := q.head.next;
    while pos != q.head
      invariant i <= |skbs| && pos == Lists.At(q.head, q.s, i)
      invariant Queued(q, skbs) && Hold(skbs, frames) && Apart(out, skbs)
      invariant out.Valid() && out.Bytes() == Concat(frames[..i]) && out.tail == old(out.tail) + |Concat(frames[..i])|
      decreases |skbs| - i
    {
      ConcatStep(frames, i);
      var skb: SkBuff := pos.item;
      var r := out.PutBytes(skb.buff[skb.data..skb.tail]);
      assert r.At?;
      i := i + 1;
      pos := pos.next;
    }
    assert frames[..i] == frames;
  }

  /** The two further bytes of a long length, pushed last one first. */
  method PushLong(out: SkBuff, len: nat)
    requires out.Valid() && out.data >= 2
    modifies out`data, out`len, out.buff
    ensures out.Valid() && out.Bytes() == [0xFF, len / 256 % 256] + old(out.Bytes()) && out.data == old(out.data) - 2
  {
    ghost var b := out.Bytes();
    var r := out.PushByte(len / 256 % 256);
    r := out.PushByte(0xFF);
    assert out.Bytes() == [0xFF] + ([len / 256 % 256] + b);
  }

  /** The head of the A1 frame, pushed last byte first, with the length saved before the pushes. */
  method PushHeadA1(out: SkBuff)
    requires out.Valid() && out.data >= TAG_A1_HEAD_ROOM
    modifies out`data, out`len, out.buff
    ensures out.Valid() && out.Bytes() == FrameA1(old(out.Bytes()))
    ensures out.data >= old(out.data) - TAG_A1_HEAD_ROOM
  {
    ghost var b := out.Bytes();
    var len := out.len;
    var r := out.PushByte(len % 256);
    if len > 255 {
      PushLong(out, len);
    }
    r := out.PushByte(TAG_A1);
    HeadBytes(b);
  }

  lemma HeadBytes(b: bytes)
    ensures var n := |b|;
            [TAG_A1] + (if n > 255 then [0xFF, n / 256 % 256] + ([n % 256] + b) else [n % 256] + b) == FrameA1(b)
  {
  }

  method PaddingTagA1(out: SkBuff, q: SkbQueue, ghost skbs: seq<SkBuff>, ghost frames: seq<bytes>)
    requires Queued(q, skbs) && Hold(skbs, frames) && Apart(out, skbs)
    requires out.Valid() && out.Bytes() == [] && out.data_len != 0
    requires out.tail + TAG_A1_HEAD_ROOM + |Concat(frames)| <= out.end
    modifies out`data, out`tail, out`len, out.buff
    ensures out.Valid() && out.Bytes() == FrameA1(Concat(frames)) && out.data >= old(out.data)
    ensures var c, n := Concat(frames), |Concat(frames)|;
            out.Bytes() == (if n > 255 then [0xA1, 0xFF, n / 256 % 256, n % 256] else [0xA1, n]) + c
    ensures out.tail == old(out.tail) + TAG_A1_HEAD_ROOM + |Concat(frames)|
    ensures Queued(q, skbs) && Hold(skbs, frames)
  {
    out.Reserve(TAG_A1_HEAD_ROOM);
    GatherPackets(out, q, skbs, frames);
    PushHeadA1(out);
  }

  /** The packet the VM allocates for frames of len bytes, with room reserved for the message head. */
  method AllocOut(len: nat, session: int) returns (out: SkBuff)
    ensures fresh(out) && fresh(out.buff) && out.Valid() && out.Bytes() == [] && out.session == session
    ensures out.data == out.tail == MSG_HEAD_LEN == 12 && out.end == len + MSG_HEAD_LEN + TAG_A1_HEAD_ROOM == len + 16
  {
    out := new SkBuff.AllocSkb(len + MSG_HEAD_LEN + TAG_A1_HEAD_ROOM);
    out.session := session;
    out.Reserve(MSG_HEAD_LEN);
  }

  /** What comes of a write-back: the packet for the writer; or the agent's name is read through the NULL that
      skb_peek returns for an empty queue; or skb_push or skb_put runs into its panic loop. */
  datatype Written = Sent(out: SkBuff) | NullSkb | PanicLoop

  /** A packet for the frames, empty and just large enough. */
  ghost predicate Allocated(out: SkBuff, skbs: seq<SkBuff>, frames: seq<bytes>)
    reads out, out.buff, skbs
  {
    && out.Valid() && out.Bytes() == [] && out.data == out.tail == MSG_HEAD_LEN && out.data_len != 0
    && out.end == MSG_HEAD_LEN + TAG_A1_HEAD_ROOM + |Concat(frames)| && Apart(out, skbs)
  }

  /** The queue framed, and the packet allocated for it. */
  method FrameQueue(q: SkbQueue, session: int, ghost skbs: seq<SkBuff>, ghost bodies: seq<bytes>, ghost from: seq<int>)
    returns (w: Written)
    requires Queued(q, skbs) && Hold(skbs, bodies) && Begin(skbs, from, 0)
    modifies skbs, set k | 0 <= k < |skbs| :: skbs[k].buff
    ensures w.PanicLoop? <==> !Room(from, 3)
    ensures w.NullSkb? <==> bodies == []
    ensures w.Sent? ==> fresh(w.out) && fresh(w.out.buff) && Allocated(w.out, skbs, Frames(bodies))
    ensures w.Sent? ==> w.out.session == session && Queued(q, skbs) && Hold(skbs, Frames(bodies))
    ensures w.Sent? ==> Begin(skbs, from, |skbs|)
  {
    TotalIsConcat(Frames(bodies));
    var len := PaddingTagA0(q, skbs, bodies, from);
    if len.None? {
      return PanicLoop;
    }
    var out := AllocOut(len.value, session);
    var first := q.Peek();
    if first == null {
      return NullSkb;
    }
    w := Sent(out);
  }

  /** The VM's write-back, with the head of the frame pushed: the framed packets of the queue, with room kept
      for the message head and the body ending where the buffer does. It fails exactly when there is no
      packet or one has too little room in front. */
  method WriteBack(q: SkbQueue, session: int, ghost skbs: seq<SkBuff>, ghost bodies: seq<bytes>, ghost from: seq<int>)
    returns (w: Written)
    requires Queued(q, skbs) && Hold(skbs, bodies) && Begin(skbs, from, 0)
    modifies skbs, set k | 0 <= k < |skbs| :: skbs[k].buff
    ensures w.PanicLoop? <==> !Room(from, 3)
    ensures w.NullSkb? <==> bodies == []
    ensures w.Sent? ==> fresh(w.out) && w.out.Valid() && w.out.Bytes() == FrameA1(Concat(Frames(bodies)))
    ensures w.Sent? ==> w.out.session == session && w.out.data >= MSG_HEAD_LEN && w.out.tail == w.out.end
    ensures w.Sent? ==> Queued(q, skbs) && Hold(skbs, Frames(bodies)) && Begin(skbs, from, |skbs|)
  {
    w := FrameQueue(q, session, skbs, bodies, from);
    if w.Sent? {
      PaddingTagA1(w.out, q, skbs, Frames(bodies));
    }
  }

  /** A second write-back of a queue that has not been filled again, which gp_msg_macing asks for: there must
      have been room for both heads, and the packets are framed twice. */
  method WriteBackAgain(q: SkbQueue, session: int, ghost skbs: seq<SkBuff>, ghost bodies: seq<bytes>,
                        ghost from: seq<int>)
    returns (first: Written, second: Written)
    requires Queued(q, skbs) && Hold(skbs, bodies) && Begin(skbs, from, 0)
    modifies skbs, set k | 0 <= k < |skbs| :: skbs[k].buff
    ensures first.Sent? && !Room(from, 6) ==> second.PanicLoop?
    ensures first.Sent? && Room(from, 6) ==>
              second.Sent? && second.out.Valid() && second.out.Bytes() == FrameA1(Concat(Frames(Frames(bodies))))
  {
    first := WriteBack(q, session, skbs, bodies, from);
    second := first;
    if first.Sent? {
      ghost var less := seq(|from|, k requires 0 <= k < |from| => from[k] - TAG_A0_HEAD_ROOM);
      second := WriteBack(q, session, skbs, Frames(bodies), less);
    }
  }

  /** padding_tagA1 as written puts its head after the contents, last byte first; there is no room there
      when the contents end where the buffer does. */
  method PaddingTagA1AsWritten(out: SkBuff, q: SkbQueue, ghost skbs: seq<SkBuff>, ghost frames: seq<bytes>)
    returns (r: Place)
    requires Queued(q, skbs) && Hold(skbs, frames) && Apart(out, skbs)
    requires out.Valid() && out.Bytes() == [] && out.data_len != 0
    requires out.tail + TAG_A1_HEAD_ROOM + |Concat(frames)| == out.end
    modifies out`data, out`tail, out`len, out.buff
    ensures r == Panic
  {
    out.Reserve(TAG_A1_HEAD_ROOM);
    GatherPackets(out, q, skbs, frames);
    r := out.PutByte(out.len % 256);
  }

  /** In the buffer the VM allocates the first such put runs into the panic loop: as written no write-back ends
      in a packet. */
  method WriteBackAsWritten(q: SkbQueue, session: int, ghost skbs: seq<SkBuff>, ghost bodies: seq<bytes>,
                            ghost from: seq<int>)
    returns (w: Written)
    requires Queued(q, skbs) && Hold(skbs, bodies) && Begin(skbs, from, 0)
    modifies skbs, set k | 0 <= k < |skbs| :: skbs[k].buff
    ensures w == if bodies == [] then NullSkb else PanicLoop
  {
    w := FrameQueue(q, session, skbs, bodies, from);
    if w.Sent? {
      var r := PaddingTagA1AsWritten(w.out, q, skbs, Frames(bodies));
      w := PanicLoop;
    }
  }

  // ----- reading a packet -----

  /** skip_tagAx with the length byte tested; false where the source would follow a NULL pointer. */
  method SkipTagAx(skb: SkBuff) returns (ok: bool)
    requires skb.Valid()
    modifies skb`data, skb`len
    ensures skb.Valid() && ok == SkipAx(old(skb.Bytes())).Some?
    ensures ok ==> skb.Bytes() == SkipAx(old(skb.Bytes())).value
    ensures var b := old(skb.Bytes());
            if |b| < 2 || (b[1] == 0xFF && |b| < 4) then !ok
            else ok && skb.Bytes() == b[if b[1] == 0xFF then 4 else 2..]
  {
    if skb.len < 2 {
      return false;
    }
    ghost var b := skb.Bytes();
    var tag := skb.Consume(1);
    var len := skb.Consume(1);
    assert len[0] == b[1] && skb.Bytes() == b[2..];
    if len[0] == 0xFF {
      if skb.len < 2 {
        return false;
      }
      var long := skb.Consume(2);
      assert skb.Bytes() == b[4..];
    }
    ok := true;
  }

  /** The fragments read so far before what is still to come. */
  function Before(read: seq<bytes>, rest: Option<seq<bytes>>): Option<seq<bytes>> {
    if rest.None? then None else Some(read + rest.value)
  }

  lemma BeforeEnds(read: seq<bytes>, rest: Option<seq<bytes>>)
    ensures Before([], rest) == rest && Before(read, Some([])) == Some(read)
  {
    assert rest.Some? ==> [] + rest.value == rest.value;
    assert read + [] == read;
  }

  lemma BeforeMore(read: seq<bytes>, frag: bytes, rest: Option<seq<bytes>>)
    ensures Before(read, Before([frag], rest)) == Before(read + [frag], rest)
  {
    if rest.Some? { assert read + ([frag] + rest.value) == read + [frag] + rest.value; }
  }

  lemma SplitStep(b: bytes, n: int, read: seq<bytes>)
    requires |b| >= 3 && n == b[1]
    ensures n == 0 || 2 + n > |b| ==> Before(read, SplitA0(b)) == None
    ensures n > 0 && 2 + n <= |b| ==> Before(read, SplitA0(b)) == Before(read + [b[3..2 + n]], SplitA0(b[2 + n..]))
  {
    if n > 0 && 2 + n <= |b| {
      BeforeMore(read, b[3..2 + n], SplitA0(b[2 + n..]));
    }
  }

  /** One turn of tagA0s_to_fmBytesarray. */
  method TakeFragment(skb: SkBuff) returns (frag: Option<bytes>)
    requires skb.Valid() && skb.len > 0
    modifies skb`data, skb`len
    ensures skb.Valid()
    ensures var b := old(skb.Bytes());
            if |b| >= 3 && b[1] > 0 && |b| >= b[1] as int + 2
            then frag == Some(b[3..2 + b[1] as int]) && skb.Bytes() == b[2 + b[1] as int..]
            else frag == None
  {
    ghost var b := skb.Bytes();
    if skb.len < 3 {
      return None;
    }
    var tag := skb.Consume(1);
    var len := skb.Consume(1);
    var number := skb.Consume(1);
    assert len[0] == b[1] && skb.Bytes() == b[3..];
    var n: int := len[0];
    if n == 0 || n - 1 > skb.len {
      return None;
    }
    assert b[3..][..n - 1] == b[3..2 + n] && b[3..][n - 1..] == b[2 + n..];
    var body := skb.Consume(n - 1);
    frag := Some(body);
  }

  /** The fragment goes behind those read so far. */
  method AddFragment(skb: SkBuff, array_: seq<bytes>, ghost all: Option<seq<bytes>>) returns (r: Option<seq<bytes>>)
    requires skb.Valid() && skb.len > 0 && all == Before(array_, SplitA0(skb.Bytes()))
    modifies skb`data, skb`len
    ensures skb.Valid() && (r == None ==> all == None)
    ensures r.Some? ==> skb.len < old(skb.len) && all == Before(r.value, SplitA0(skb.Bytes()))
  {
    ghost var b := skb.Bytes();
    if |b| >= 3 { SplitStep(b, b[1], array_); }
    var frag := TakeFragment(skb);
    if frag == None {
      return None;
    }
    r := Some(array_ + [frag.value]);
  }

  /** tagA0s_to_fmBytesarray with a growing array. */
  method TagA0sToArray(skb: SkBuff) returns (fba: Option<seq<bytes>>)
    requires skb.Valid()
    modifies skb`data, skb`len
    ensures skb.Valid() && fba == SplitA0(old(skb.Bytes()))
    ensures fba.Some? ==> skb.Bytes() == []
  {
    ghost var all := SplitA0(skb.Bytes());
    fba := Some([]);
    BeforeEnds([], all);
    while skb.len > 0
      invariant skb.Valid() && fba.Some? && all == Before(fba.value, SplitA0(skb.Bytes()))
      decreases skb.len
    {
      fba := AddFragment(skb, fba.value, all);
      if fba == None {
        return;
      }
    }
    BeforeEnds(fba.value, all);
  }

  // ----- the readers as written -----

  /** skip_tagAx as written tests the byte after the length byte; a last pull that asks for more than is
      left is refused and changes nothing. None where it reads past the packet. */
  function SkipAsWritten(b: bytes): Option<bytes> {
    if |b| < 3 then None
    else if b[2] != 0xFF || |b| < 4 then Some(b[2..])
    else Some(b[4..])
  }

  /** It undoes the A1 frame exactly for short contents that do not begin with 0xFF, or are that one byte,
      and for long ones whose high length byte is 0xFF. */
  lemma SkipAsWrittenIff(b: bytes)
    ensures SkipAsWritten(FrameA1(b)) == Some(b)
       <==> if |b| > 255 then (|b| / 256) % 256 == 0xFF else |b| > 0 && (b[0] != 0xFF || |b| == 1)
  {
    var f := FrameA1(b);
    if |b| > 255 {
      assert f[4..] == b && |f[2..]| == |b| + 2;
    } else {
      assert f[2..] == b;
    }
  }

  /** skip_tagAx as written, on the packet window. */
  method SkipTagAxAsWritten(skb: SkBuff) returns (ok: bool)
    requires skb.Valid()
    modifies skb`data, skb`len
    ensures skb.Valid() && ok == SkipAsWritten(old(skb.Bytes())).Some?
    ensures ok ==> skb.Bytes() == SkipAsWritten(old(skb.Bytes())).value
    ensures var b := old(skb.Bytes());
            if |b| < 3 then !ok else ok && skb.Bytes() == b[if b[2] == 0xFF && |b| >= 4 then 4 else 2..]
  {
    if skb.len < 3 {
      return false;
    }
    ghost var b := skb.Bytes();
    var p := skb.Pull(1);
    p := skb.Pull(1);
    assert skb.Bytes() == b[2..];
    if skb.buff[p] == 0xFF {
      p := skb.Pull(2);
    }
    ok := true;
  }

  /** tagA0s_to_fmBytesarray as written takes the number for the length and copies from behind the bytes
      it consumes; a pull that asks for more than is left is refused and yields an empty fragment. None
      where it reads outside the packet, or leaves a NULL fragment for the number 0. */
  function SplitAsWritten(b: bytes): Option<seq<bytes>> {
    if b == [] then Some([])
    else if |b| < 3 || b[2] == 0 then None
    else
      var n: int := b[2] - 1;
      if n > |b| - 3 then Before([[]], SplitAsWritten(b[3..]))
      else if 3 + 2 * n > |b| then None
      else Before([b[3 + n..3 + 2 * n]], SplitAsWritten(b[3 + n..]))
  }

  lemma BeforeOne(frag: bytes, rest: Option<seq<bytes>>, bodies: seq<bytes>)
    requires bodies != []
    ensures Before([frag], rest) == Some(bodies) <==> frag == bodies[0] && rest == Some(bodies[1..])
  {
    if rest.Some? {
      var r := [frag] + rest.value;
      assert r[0] == frag && r[1..] == rest.value;
      assert bodies == [bodies[0]] + bodies[1..];
    }
  }

  lemma FrameParts(body: bytes, number: byte, rest: bytes, n: nat)
    ensures var b := FrameA0(body, number) + rest;
      && b[2] == number && b[3..] == body + rest
      && (n == |body| <= |rest| ==> b[3 + n..] == rest && b[3 + n..3 + 2 * n] == rest[..n])
  {
    var b := FrameA0(body, number) + rest;
    assert b[3..] == body + rest;
    if n == |body| <= |rest| {
      assert b[3 + n..] == rest;
      assert b[3 + n..3 + 2 * n] == rest[..n];
    }
  }

  predicate LuckyOne(body: bytes, number: byte, rest: bytes) {
    && number > 0
    && var n := number - 1;
    && if n > |body| + |rest| then body == [] else |body| == n <= |rest| && body == rest[..n]
  }

  lemma SplitOneAsWritten(bodies: seq<bytes>, number: byte, rest: bytes)
    requires bodies != []
    ensures SplitAsWritten(FrameA0(bodies[0], number) + rest) == Some(bodies)
       <==> LuckyOne(bodies[0], number, rest) && SplitAsWritten(rest) == Some(bodies[1..])
  {
    var b := FrameA0(bodies[0], number) + rest;
    if number > 0 {
      var n: nat := number - 1;
      FrameParts(bodies[0], number, rest, n);
      if n > |bodies[0]| + |rest| {
        BeforeOne([], SplitAsWritten(b[3..]), bodies);
        if bodies[0] == [] { assert b[3..] == rest; }
      } else if 3 + 2 * n <= |b| {
        BeforeOne(b[3 + n..3 + 2 * n], SplitAsWritten(b[3 + n..]), bodies);
      }
    }
  }

  /** The bodies it happens to get right, numbered from first on: each is one byte shorter than its number
      and repeats what follows it, or is empty with too little following. */
  predicate Lucky(bodies: seq<bytes>, first: nat) {
    bodies != [] ==>
      && LuckyOne(bodies[0], NumberAt(first, 0), Concat(FramesFrom(bodies[1..], first + 1)))
      && Lucky(bodies[1..], first + 1)
  }

  /** As written splitting undoes framing for exactly those bodies. */
  lemma {:induction false} SplitAsWrittenIff(bodies: seq<bytes>, first: nat)
    ensures SplitAsWritten(Concat(FramesFrom(bodies, first))) == Some(bodies) <==> Lucky(bodies, first)
    decreases |bodies|
  {
    if bodies != [] {
      FirstFrame(bodies, first);
      SplitOneAsWritten(bodies, NumberAt(first, 0), Concat(FramesFrom(bodies[1..], first + 1)));
      SplitAsWrittenIff(bodies[1..], first + 1);
    }
  }

  /** Bodies that carry a status word are never split right, but for none at all. */
  lemma SplitAsWrittenNever(bodies: seq<bytes>)
    requires forall k :: 0 <= k < |bodies| ==> |bodies[k]| >= 2
    ensures SplitAsWritten(Concat(Frames(bodies))) == Some(bodies) <==> bodies == []
  {
    SplitAsWrittenIff(bodies, 1);
  }
}
