/** Packet buffers and packet queues (common/fm_skbuff.c). */
module SkBuffs {
  import opened Lists

  type byte = x: int | 0 <= x < 256

  /** Where a window operation leaves its caller: a pointer into the buffer, or the endless loop of the
      panic branch. */
  datatype Place = At(pos: nat) | Panic

  /** memcpy */
  method CopyIn(buf: array<byte>, pos: nat, src: seq<byte>)
    requires pos + |src| <= buf.Length
    modifies buf
    ensures forall i :: 0 <= i < buf.Length ==> buf[i] == if pos <= i < pos + |src| then src[i - pos] else old(buf[i])
    ensures buf[pos..pos + |src|] == src
  {
    for k := 0 to |src|
      invariant forall i :: 0 <= i < buf.Length ==> buf[i] == if pos <= i < pos + k then src[i - pos] else old(buf[i])
    {
      buf[pos + k] := src[k];
    }
  }

  class SkBuff {
    const buff: array<byte>
    const data_len: nat      // size of buff
    const head: int := 0     // pointers are offsets into buff
    const end: int
    var data: int
    var tail: int
    var len: int
    var session: int
    var msg_type: int
    var isNew: bool

    ghost predicate Valid()
      reads this
    {
      && data_len == buff.Length == end
      && head <= data <= tail <= end
      && len == tail - data
    }

    /** The bytes in the window. */
    ghost function Bytes(): seq<byte>
      reads this, buff
      requires Valid()
    {
      buff[data..tail]
    }

    constructor AllocSkb(size: nat)
      ensures Valid() && fresh(buff) && data_len == size
      ensures data == tail == 0 && Bytes() == []
      ensures forall i :: 0 <= i < size ==> buff[i] == 0
    {
      buff := new byte[size](_ => 0);
      data_len, end := size, size;
      data, tail, len := 0, 0, 0;
      session, msg_type, isNew := 0, 0, false;
    }

    /** data_len is tested, not whether there are fragments. */
    predicate IsNonlinear() {
      data_len != 0
    }

    method Put(n: nat) returns (r: Place)
      requires Valid()
      modifies this`tail, this`len
      ensures r == if data_len == 0 || old(tail) + n > end then Panic else At(old(tail))
      ensures r.At? ==> Valid() && tail == old(tail) + n
      ensures r.At? ==> Bytes() == old(Bytes()) + buff[old(tail)..old(tail) + n]
    {
      var tmp := tail;
      if !IsNonlinear() {
        return Panic;
      }
      tail := tail + n;
      len := len + n;
      if tail > end {
        return Panic;
      }
      r := At(tmp);
    }

    method Push(n: nat) returns (r: Place)
      requires Valid()
      modifies this`data, this`len
      ensures r == if old(data) - n < head then Panic else At(old(data) - n)
      ensures r.At? ==> Valid() && data == old(data) - n
      ensures r.At? ==> Bytes() == buff[data..old(data)] + old(Bytes())
    {
      data := data - n;
      len := len + n;
      if data < head {
        return Panic;
      }
      r := At(data);
    }

    /** skb_pull as written: the pointer it returns is past the bytes it drops; -1 is NULL. */
    method Pull(n: nat) returns (r: int)
      requires Valid()
      modifies this`data, this`len
      ensures Valid()
      ensures if n > old(len) then r == -1 && data == old(data) && Bytes() == old(Bytes())
              else r == data == old(data) + n && Bytes() == old(Bytes())[n..]
    {
      if n > len {
        return -1;
      }
      len := len - n;
      data := data + n;
      r := data;
    }

    method Trim(n: nat)
      requires Valid()
      modifies this`tail, this`len
      ensures Valid() && data == old(data)
      ensures Bytes() == if old(len) > n then old(Bytes())[..n] else old(Bytes())
    {
      if len > n {
        if !IsNonlinear() {
          return;
        }
        len := n;
        tail := data + n;
      }
    }

    /** skb_reserve checks nothing: the window stays one exactly when it stays inside the buffer. */
    method Reserve(n: int)
      requires Valid()
      modifies this`data, this`tail
      ensures data == old(data) + n && tail == old(tail) + n
      ensures Valid() <==> head <= old(data) + n && old(tail) + n <= end
    {
      data := data + n;
      tail := tail + n;
    }

    /** *(skb_put(skb, 1)) = b */
    method PutByte(b: byte) returns (r: Place)
      requires Valid()
      modifies this`tail, this`len, buff
      ensures r.Panic? <==> data_len == 0 || old(tail) == end
      ensures r.At? ==> Valid() && tail == old(tail) + 1 && Bytes() == old(Bytes()) + [b]
    {
      r := Put(1);
      if r.At? {
        buff[r.pos] := b;
      }
    }

    /** *(skb_push(skb, 1)) = b */
    method PushByte(b: byte) returns (r: Place)
      requires Valid()
      modifies this`data, this`len, buff
      ensures r.Panic? <==> old(data) == head
      ensures r.At? ==> Valid() && data == old(data) - 1 && Bytes() == [b] + old(Bytes())
    {
      r := Push(1);
      if r.At? {
        buff[r.pos] := b;
      }
    }

    /** memcpy(skb_put(skb, n), src, n) */
    method PutBytes(src: seq<byte>) returns (r: Place)
      requires Valid()
      modifies this`tail, this`len, buff
      ensures r.Panic? <==> data_len == 0 || old(tail) + |src| > end
      ensures r.At? ==> Valid() && tail == old(tail) + |src| && Bytes() == old(Bytes()) + src
    {
      r := Put(|src|);
      if r.At? {
        ghost var before := buff[data..r.pos];
        CopyIn(buff, r.pos, src);
        assert buff[data..tail] == buff[data..r.pos] + buff[r.pos..tail];
        assert buff[data..r.pos] == before;
      }
    }

    /** memcpy(skb_push(skb, n), src, n) */
    method PushBytes(src: seq<byte>) returns (r: Place)
      requires Valid()
      modifies this`data, this`len, buff
      ensures r.Panic? <==> old(data) - |src| < head
      ensures r.At? ==> Valid() && data == old(data) - |src| && Bytes() == src + old(Bytes())
    {
      ghost var after := Bytes();
      r := Push(|src|);
      if r.At? {
        CopyIn(buff, r.pos, src);
        assert buff[data..tail] == buff[data..data + |src|] + buff[data + |src|..tail];
        assert buff[data + |src|..tail] == after;
      }
    }

    /** The first n bytes of the window, which the window then drops: what the callers of skb_pull mean. */
    method Consume(n: nat) returns (bytes: seq<byte>)
      requires Valid() && n <= len
      modifies this`data, this`len
      ensures Valid() && tail == old(tail) && bytes == old(Bytes())[..n] && Bytes() == old(Bytes())[n..]
    {
      ghost var window := Bytes();
      bytes := buff[data..data + n];
      assert bytes == window[..n];
      var p := Pull(n);
    }
  }

  // ----- queues -----

  /** A packet as a queue sees it: its links, and the packet in the item. The queue head is cast to a
      packet by the source; here it is a node without one. */
  type Link = Node<SkBuff?>

  /** __skb_insert, but for the counter. */
  method InsertLinks(newsk: Link, prev: Link, next: Link, ghost head: Link, ghost s: seq<Link>, ghost k: nat)
    requires Ring(head, s) && k <= |s| && newsk != head && newsk !in s
    requires prev == Lists.At(head, s, k - 1) && next == Lists.At(head, s, k)
    modifies newsk`next, newsk`prev, prev`next, next`prev
    ensures Ring(head, Spliced(s, [newsk], k))
  {
    newsk.next := next;
    newsk.prev := prev;
    next.prev := newsk;
    prev.next := newsk;
    RingWith(newsk, head, s, k);
  }

  /** __skb_unlink, but for the counter. */
  method UnlinkLinks(skb: Link, ghost head: Link, ghost s: seq<Link>, ghost k: nat)
    requires Ring(head, s) && k < |s| && s[k] == skb
    modifies skb`next, skb`prev, Lists.At(head, s, k - 1)`next, Lists.At(head, s, k + 1)`prev
    ensures Ring(head, Without(s, k)) && skb.next == null && skb.prev == null
  {
    var next := skb.next;
    var prev := skb.prev;
    skb.next, skb.prev := null, null;
    next.prev := prev;
    prev.next := next;
    RingWithout(head, s, k);
  }

  /** sk_buff_head: a sentinel in a circular list of packets, and their number. */
  class SkbQueue {
    const head: Link
    var qlen: int
    ghost var s: seq<Link>

    ghost predicate Valid()
      reads this, head, s
    {
      Ring(head, s) && qlen == |s|
    }

    constructor QueueHeadInit()
      ensures Valid() && s == [] && fresh(head)
    {
      var h: Link := new Node<SkBuff?>(null);
      head := h;
      qlen, s := 0, [];
      new;
      InitListHead(head);
    }

    method Insert(newsk: Link, prev: Link, next: Link, ghost k: nat)
      requires Valid() && k <= |s| && newsk != head && newsk !in s
      requires prev == Lists.At(head, s, k - 1) && next == Lists.At(head, s, k)
      modifies this`qlen, this`s, newsk`next, newsk`prev, prev`next, next`prev
      ensures Valid() && s == Spliced(old(s), [newsk], k)
    {
      InsertLinks(newsk, prev, next, head, s, k);
      Count(1, Spliced(s, [newsk], k));
    }

    /** The counter, kept with the links. */
    method Count(change: int, ghost s': seq<Link>)
      requires Ring(head, s') && qlen + change == |s'|
      modifies this`qlen, this`s
      ensures Valid() && s == s'
    {
      qlen := qlen + change;
      s := s';
    }

    method QueueHead(newsk: Link)
      requires Valid() && newsk != head && newsk !in s
      modifies this`qlen, this`s, newsk`next, newsk`prev, head`next, head`prev, Lists.Members(s)`prev
      ensures Valid() && s == [newsk] + old(s)
    {
      assert Spliced(s, [newsk], 0) == [newsk] + s;
      Insert(newsk, head, head.next, 0);
    }

    method QueueTail(newsk: Link)
      requires Valid() && newsk != head && newsk !in s
      modifies this`qlen, this`s, newsk`next, newsk`prev, head`next, head`prev, Lists.Members(s)`next
      ensures Valid() && s == old(s) + [newsk]
    {
      assert Spliced(s, [newsk], |s|) == s + [newsk];
      Insert(newsk, head.prev, head, |s|);
    }

    method Unlink(skb: Link, ghost k: nat)
      requires Valid() && k < |s| && s[k] == skb
      modifies this`qlen, this`s, head`next, head`prev, Lists.Members(s)`next, Lists.Members(s)`prev
      ensures Valid() && s == Without(old(s), k) && skb.next == null && skb.prev == null
    {
      UnlinkLinks(skb, head, s, k);
      Count(-1, Without(s, k));
    }

    method Peek() returns (skb: Node?<SkBuff?>)
      requires Valid()
      ensures skb == if s == [] then null else s[0]
    {
      skb := head.next;
      if skb == head {
        skb := null;
      }
    }

    method PeekTail() returns (skb: Node?<SkBuff?>)
      requires Valid()
      ensures skb == if s == [] then null else s[|s| - 1]
    {
      skb := head.prev;
      if skb == head {
        skb := null;
      }
    }

    method Dequeue() returns (skb: Node?<SkBuff?>)
      requires Valid()
      modifies this`qlen, this`s, head`next, head`prev, Lists.Members(s)`next, Lists.Members(s)`prev
      ensures Valid()
      ensures if old(s) == [] then skb == null && s == [] else skb == old(s)[0] && s == old(s)[1..]
    {
      skb := Peek();
      if skb != null {
        Unlink(skb, 0);
      }
    }

    method DequeueTail() returns (skb: Node?<SkBuff?>)
      requires Valid()
      modifies this`qlen, this`s, head`next, head`prev, Lists.Members(s)`next, Lists.Members(s)`prev
      ensures Valid()
      ensures if old(s) == [] then skb == null && s == []
              else skb == old(s)[|old(s)| - 1] && s == old(s)[..|old(s)| - 1]
    {
      skb := PeekTail();
      if skb != null {
        Unlink(skb, |s| - 1);
      }
    }

    /** Every packet is dequeued and freed, once, front to back. */
    method Purge() returns (freed: seq<Link>)
      requires Valid()
      modifies this`qlen, this`s, head`next, head`prev, Lists.Members(s)`next, Lists.Members(s)`prev
      ensures Valid() && s == [] && freed == old(s)
    {
      freed := [];
      var skb := Dequeue();
      while skb != null
        invariant Valid() && Lists.Members(s) <= old(Lists.Members(s))
        invariant skb == null ==> s == [] && freed == old(s)
        invariant skb != null ==> freed + [skb] + s == old(s)
        decreases skb != null, |s|
      {
        freed := freed + [skb];
        skb := Dequeue();
      }
    }

    /** skb_del unlinks without the counter: the queue is one packet shorter than qlen says. */
    method SkbDel(skb: Link, ghost k: nat)
      requires Valid() && k < |s| && s[k] == skb
      modifies this`s, head`next, head`prev, Lists.Members(s)`next, Lists.Members(s)`prev
      ensures Ring(head, s) && s == Without(old(s), k) && qlen == |s| + 1
    {
      ListUnhook(skb.prev, skb.next, head, s, k);
      s := Without(s, k);
    }

    predicate QueueEmpty()
      reads this, head
    {
      head.next == head
    }

    lemma EmptyMeans()
      requires Valid()
      ensures QueueEmpty() <==> s == []
      ensures QueueEmpty() <==> qlen == 0
    {
      RingTests(head, s);
    }
  }
}
