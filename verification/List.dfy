/** Intrusive circular lists with a sentinel head (common/fm_List.h, common/fm_List.c). */
module Lists {

  /** A list_head together with the structure it is embedded in; a sentinel's item is not used. */
  class Node<T> {
    var prev: Node?<T>
    var next: Node?<T>
    var item: T

    constructor (item: T)
      ensures this.item == item && prev == null && next == null
    {
      this.item := item;
      prev, next := null, null;
    }
  }

  /** The k-th node after head, counting from 0; one step past either end is head itself. */
  ghost function At<T>(head: Node<T>, s: seq<Node<T>>, k: int): Node<T> {
    if 0 <= k < |s| then s[k] else head
  }

  ghost predicate Distinct<T>(s: seq<Node<T>>) {
    forall j, k :: 0 <= j < k < |s| ==> s[j] != s[k]
  }

  ghost function Members<T>(s: seq<Node<T>>): set<Node<T>> {
    set k | 0 <= k < |s| :: s[k]
  }

  /** head, then s, then head again, with next and prev inverse to one another all the way round. */
  ghost predicate Ring<T>(head: Node<T>, s: seq<Node<T>>)
    reads {head}`next, {head}`prev, s`next, s`prev
  {
    && (forall k :: 0 <= k < |s| ==> s[k] != head)
    && Distinct(s)
    && head.next == At(head, s, 0) && head.prev == At(head, s, |s| - 1)
    && (forall k {:trigger s[k].next} :: 0 <= k < |s| ==> s[k].next == At(head, s, k + 1))
    && (forall k {:trigger s[k].prev} :: 0 <= k < |s| ==> s[k].prev == At(head, s, k - 1))
  }

  method InitListHead<T>(list: Node<T>)
    modifies list`next, list`prev
    ensures Ring(list, [])
  {
    list.next := list;
    list.prev := list;
  }

  ghost function Spliced<T>(s: seq<T>, l: seq<T>, k: nat): seq<T>
    requires k <= |s|
  {
    s[..k] + l + s[k..]
  }

  lemma SplicedAt<T>(head: Node<T>, s: seq<Node<T>>, l: seq<Node<T>>, k: nat, j: int)
    requires k <= |s|
    ensures At(head, Spliced(s, l, k), j)
         == if j < k then At(head, s, j) else if j < k + |l| then At(head, l, j - k) else At(head, s, j - |l|)
  {
  }

  lemma SplicedDistinct<T>(h: Node<T>, s: seq<Node<T>>, g: Node<T>, l: seq<Node<T>>, k: nat)
    requires Distinct(s) && Distinct(l) && Apart(g, l, h, s) && k <= |s|
    requires forall j :: 0 <= j < |s| ==> s[j] != h
    ensures Distinct(Spliced(s, l, k)) && forall j :: 0 <= j < |Spliced(s, l, k)| ==> Spliced(s, l, k)[j] != h
  {
  }

  /** The links of a ring but for the next of node i and the prev of node i + 1; -1 and |s| are the head. */
  ghost predicate LinksBut<T>(head: Node<T>, s: seq<Node<T>>, i: int, j: int)
    reads {head}`next, {head}`prev, s`next, s`prev
  {
    && (forall k :: 0 <= k < |s| ==> s[k] != head)
    && Distinct(s)
    && (i != -1 ==> head.next == At(head, s, 0)) && (j != |s| ==> head.prev == At(head, s, |s| - 1))
    && (forall k {:trigger s[k].next} :: 0 <= k < |s| && k != i ==> s[k].next == At(head, s, k + 1))
    && (forall k {:trigger s[k].prev} :: 0 <= k < |s| && k != j ==> s[k].prev == At(head, s, k - 1))
  }

  lemma LinkWith<T>(new_: Node<T>, head: Node<T>, s: seq<Node<T>>, k: nat, j: int)
    requires k <= |s| && LinksBut(head, s, k - 1, k) && new_ != head && new_ !in s
    requires new_.prev == At(head, s, k - 1) && new_.next == At(head, s, k)
    requires At(head, s, k - 1).next == new_ && At(head, s, k).prev == new_
    requires -1 <= j <= |s| + 1
    ensures var u := Spliced(s, [new_], k);
            && (j <= |s| ==> At(head, u, j).next == At(head, u, j + 1))
            && (j >= 0 ==> At(head, u, j).prev == At(head, u, j - 1))
  {
    SplicedAt(head, s, [new_], k, j);
    SplicedAt(head, s, [new_], k, j + 1);
    SplicedAt(head, s, [new_], k, j - 1);
  }

  lemma WithDistinct<T>(new_: Node<T>, head: Node<T>, s: seq<Node<T>>, k: nat)
    requires k <= |s| && Distinct(s) && new_ != head && new_ !in s && forall j :: 0 <= j < |s| ==> s[j] != head
    ensures Distinct(Spliced(s, [new_], k))
    ensures forall j :: 0 <= j < |Spliced(s, [new_], k)| ==> Spliced(s, [new_], k)[j] != head
  {
  }

  /** What __list_add and __skb_insert leave behind is the ring with the node in its k-th gap. */
  lemma RingWith<T>(new_: Node<T>, head: Node<T>, s: seq<Node<T>>, k: nat)
    requires k <= |s| && LinksBut(head, s, k - 1, k) && new_ != head && new_ !in s
    requires new_.prev == At(head, s, k - 1) && new_.next == At(head, s, k)
    requires At(head, s, k - 1).next == new_ && At(head, s, k).prev == new_
    ensures Ring(head, Spliced(s, [new_], k))
  {
    var u := Spliced(s, [new_], k);
    WithDistinct(new_, head, s, k);
    forall j | 0 <= j < |u|
      ensures u[j].next == At(head, u, j + 1) && u[j].prev == At(head, u, j - 1)
    {
      LinkWith(new_, head, s, k, j);
    }
    LinkWith(new_, head, s, k, -1);
    LinkWith(new_, head, s, k, |s| + 1);
  }

  /** __list_add between two known neighbours, the k-th gap of the ring. */
  method ListAdd<T>(new_: Node<T>, prev: Node<T>, next: Node<T>, ghost head: Node<T>, ghost s: seq<Node<T>>,
                    ghost k: nat)
    requires Ring(head, s) && k <= |s|
    requires prev == At(head, s, k - 1) && next == At(head, s, k)
    requires new_ != head && new_ !in s
    modifies new_`next, new_`prev, next`prev, prev`next
    ensures Ring(head, Spliced(s, [new_], k))
  {
    next.prev := new_;
    new_.next := next;
    new_.prev := prev;
    prev.next := new_;
    RingWith(new_, head, s, k);
  }

  method ListAddTail<T>(new_: Node<T>, head: Node<T>, ghost s: seq<Node<T>>)
    requires Ring(head, s) && new_ != head && new_ !in s
    modifies new_`next, new_`prev, head`prev, At(head, s, |s| - 1)`next
    ensures Ring(head, s + [new_])
  {
    ListAdd(new_, head.prev, head, head, s, |s|);
    assert Spliced(s, [new_], |s|) == s + [new_];
  }

  ghost function Without<T>(s: seq<T>, k: nat): seq<T>
    requires k < |s|
  {
    s[..k] + s[k + 1..]
  }

  /** A walk that has come to b[i], having kept a: what stepping over, or taking out, that node means. */
  lemma StepSplit<T>(a: seq<T>, b: seq<T>, i: nat)
    requires i < |b|
    ensures (a + b[i..])[|a|] == b[i]
    ensures a + b[i..] == a + [b[i]] + b[i + 1..]
    ensures Without(a + b[i..], |a|) == a + b[i + 1..]
  {
    var s := a + b[i..];
    assert s[..|a|] == a && s[|a| + 1..] == b[i + 1..];
  }

  lemma WithoutAt<T>(head: Node<T>, s: seq<Node<T>>, k: nat, j: int)
    requires k < |s|
    ensures At(head, Without(s, k), j) == At(head, s, if j < k then j else j + 1)
  {
  }

  lemma LinkWithout<T>(head: Node<T>, s: seq<Node<T>>, k: nat, i: int)
    requires k < |s| && Distinct(s) && forall j :: 0 <= j < |s| ==> s[j] != head
    requires At(head, s, k - 1).next == At(head, s, k + 1) && At(head, s, k + 1).prev == At(head, s, k - 1)
    requires k != 0 ==> head.next == At(head, s, 0)
    requires k != |s| - 1 ==> head.prev == At(head, s, |s| - 1)
    requires forall j {:trigger s[j].next} :: 0 <= j < |s| && j != k - 1 && j != k ==> s[j].next == At(head, s, j + 1)
    requires forall j {:trigger s[j].prev} :: 0 <= j < |s| && j != k + 1 && j != k ==> s[j].prev == At(head, s, j - 1)
    requires -1 <= i < |s|
    ensures var u := Without(s, k);
            && (i < |s| - 1 ==> At(head, u, i).next == At(head, u, i + 1))
            && (i >= 0 ==> At(head, u, i).prev == At(head, u, i - 1))
  {
    WithoutAt(head, s, k, i);
    WithoutAt(head, s, k, i + 1);
    WithoutAt(head, s, k, i - 1);
  }

  lemma WithoutDistinct<T>(head: Node<T>, s: seq<Node<T>>, k: nat)
    requires k < |s| && Distinct(s) && forall j :: 0 <= j < |s| ==> s[j] != head
    ensures Distinct(Without(s, k)) && forall j :: 0 <= j < |Without(s, k)| ==> Without(s, k)[j] != head
  {
  }

  /** What __list_del and __skb_unlink leave behind is the ring without its k-th node. */
  lemma RingWithout<T>(head: Node<T>, s: seq<Node<T>>, k: nat)
    requires k < |s| && Distinct(s) && forall j :: 0 <= j < |s| ==> s[j] != head
    requires At(head, s, k - 1).next == At(head, s, k + 1) && At(head, s, k + 1).prev == At(head, s, k - 1)
    requires k != 0 ==> head.next == At(head, s, 0)
    requires k != |s| - 1 ==> head.prev == At(head, s, |s| - 1)
    requires forall j {:trigger s[j].next} :: 0 <= j < |s| && j != k - 1 && j != k ==> s[j].next == At(head, s, j + 1)
    requires forall j {:trigger s[j].prev} :: 0 <= j < |s| && j != k + 1 && j != k ==> s[j].prev == At(head, s, j - 1)
    ensures Ring(head, Without(s, k))
  {
    var u := Without(s, k);
    WithoutDistinct(head, s, k);
    forall i | 0 <= i < |u|
      ensures u[i].next == At(head, u, i + 1) && u[i].prev == At(head, u, i - 1)
    {
      LinkWithout(head, s, k, i);
    }
    LinkWithout(head, s, k, -1);
    LinkWithout(head, s, k, |s| - 1);
  }

  method ListUnhook<T>(prev: Node<T>, next: Node<T>, ghost head: Node<T>, ghost s: seq<Node<T>>, ghost k: nat)
    requires Ring(head, s) && k < |s|
    requires prev == At(head, s, k - 1) && next == At(head, s, k + 1)
    modifies next`prev, prev`next
    ensures Ring(head, Without(s, k))
  {
    next.prev := prev;
    prev.next := next;
    RingWithout(head, s, k);
  }

  /** list_del; the poison values left in the entry are modelled as null. */
  method ListDel<T>(entry: Node<T>, ghost head: Node<T>, ghost s: seq<Node<T>>, ghost k: nat)
    requires Ring(head, s) && k < |s| && s[k] == entry
    modifies entry`next, entry`prev, At(head, s, k - 1)`next, At(head, s, k + 1)`prev
    ensures Ring(head, Without(s, k)) && entry.next == null && entry.prev == null
  {
    ListUnhook(entry.prev, entry.next, head, s, k);
    entry.next := null;
    entry.prev := null;
  }

  method ListDelInit<T>(entry: Node<T>, ghost head: Node<T>, ghost s: seq<Node<T>>, ghost k: nat)
    requires Ring(head, s) && k < |s| && s[k] == entry
    modifies entry`next, entry`prev, At(head, s, k - 1)`next, At(head, s, k + 1)`prev
    ensures Ring(head, Without(s, k)) && Ring(entry, [])
  {
    ListUnhook(entry.prev, entry.next, head, s, k);
    InitListHead(entry);
  }

  predicate ListEmpty<T>(head: Node<T>)
    reads head`next
  {
    head.next == head
  }

  predicate ListIsSingular<T>(head: Node<T>)
    reads head`next, head`prev
  {
    !ListEmpty(head) && head.next == head.prev
  }

  predicate ListIsLast<T>(list: Node<T>, head: Node<T>)
    reads list`next
  {
    list.next == head
  }

  /** What the pointer tests mean on a ring. */
  lemma RingTests<T>(head: Node<T>, s: seq<Node<T>>)
    requires Ring(head, s)
    ensures ListEmpty(head) <==> s == []
    ensures ListIsSingular(head) <==> |s| == 1
  {
  }

  lemma RingLast<T>(head: Node<T>, s: seq<Node<T>>, k: nat)
    requires Ring(head, s) && k < |s|
    ensures ListIsLast(s[k], head) <==> k == |s| - 1
  {
    if k + 1 < |s| { assert s[k + 1] != head; }
  }

  /** list_move_tail of the k-th entry within its own list. */
  method ListMoveTail<T>(list: Node<T>, head: Node<T>, ghost s: seq<Node<T>>, ghost k: nat)
    requires Ring(head, s) && k < |s| && s[k] == list
    modifies head`next, head`prev, Members(s)`next, Members(s)`prev
    ensures Ring(head, Without(s, k) + [list])
  {
    ghost var t := Without(s, k);
    assert forall j :: 0 <= j < |t| ==> t[j] != list;
    ListUnhook(list.prev, list.next, head, s, k);
    ListAddTail(list, head, t);
  }

  /** list_move_tail of the k-th entry to another list. */
  method ListMoveTailTo<T>(list: Node<T>, from: Node<T>, head: Node<T>, ghost s: seq<Node<T>>,
                           ghost k: nat, ghost t: seq<Node<T>>)
    requires Ring(from, s) && Ring(head, t) && Apart(from, s, head, t)
    requires k < |s| && s[k] == list
    modifies from`next, from`prev, head`next, head`prev, Members(s)`next, Members(s)`prev, Members(t)`next
    ensures Ring(from, Without(s, k)) && Ring(head, t + [list]) && Apart(from, Without(s, k), head, t + [list])
  {
    ListUnhook(list.prev, list.next, from, s, k);
    ListAddTail(list, head, t);
  }

  method ListRotateLeft<T>(head: Node<T>, ghost s: seq<Node<T>>)
    requires Ring(head, s)
    modifies head`next, head`prev, Members(s)`next, Members(s)`prev
    ensures Ring(head, if s == [] then [] else s[1..] + [s[0]])
  {
    RingTests(head, s);
    if !ListEmpty(head) {
      var first := head.next;
      ListMoveTail(first, head, s, 0);
      assert Without(s, 0) == s[1..];
    }
  }

  ghost predicate Apart<T>(h: Node<T>, s: seq<Node<T>>, g: Node<T>, t: seq<Node<T>>) {
    && h != g
    && (forall k :: 0 <= k < |t| ==> t[k] != h)
    && (forall k :: 0 <= k < |s| ==> s[k] != g)
    && forall j, k :: 0 <= j < |s| && 0 <= k < |t| ==> s[j] != t[k]
  }

  lemma RingFront<T>(list: Node<T>, s: seq<Node<T>>, k: nat)
    requires k < |s| && Distinct(s) && forall j :: 0 <= j < |s| ==> s[j] != list
    requires list.next == s[0] && s[0].prev == list && list.prev == s[k] && s[k].next == list
    requires forall j {:trigger s[j].next} :: 0 <= j < k ==> s[j].next == s[j + 1]
    requires forall j {:trigger s[j].prev} :: 0 < j <= k ==> s[j].prev == s[j - 1]
    ensures Ring(list, s[..k + 1])
  {
    var l := s[..k + 1];
    forall j | 0 <= j <= k
      ensures l[j].next == At(list, l, j + 1) && l[j].prev == At(list, l, j - 1)
    {
      assert l[j] == s[j];
    }
  }

  lemma RingBack<T>(head: Node<T>, s: seq<Node<T>>, k: nat)
    requires k < |s| && Distinct(s) && forall j :: 0 <= j < |s| ==> s[j] != head
    requires head.next == At(head, s, k + 1) && At(head, s, k + 1).prev == head
    requires k + 1 < |s| ==> head.prev == s[|s| - 1]
    requires forall j {:trigger s[j].next} :: k < j < |s| ==> s[j].next == At(head, s, j + 1)
    requires forall j {:trigger s[j].prev} :: k + 1 < j < |s| ==> s[j].prev == s[j - 1]
    ensures Ring(head, s[k + 1..])
  {
    var t := s[k + 1..];
    forall j | 0 <= j < |t|
      ensures t[j].next == At(head, t, j + 1) && t[j].prev == At(head, t, j - 1)
    {
      assert t[j] == s[k + 1 + j];
    }
  }

  lemma CutApart<T>(list: Node<T>, head: Node<T>, s: seq<Node<T>>, k: nat)
    requires k < |s| && Distinct(s) && list != head && forall j :: 0 <= j < |s| ==> s[j] != head && s[j] != list
    ensures Apart(list, s[..k + 1], head, s[k + 1..])
  {
  }

  /** __list_cut_position at the k-th entry: the first k + 1 entries go to list. */
  method ListCut<T>(list: Node<T>, head: Node<T>, entry: Node<T>, ghost s: seq<Node<T>>, ghost k: nat)
    requires Ring(head, s) && k < |s| && entry == s[k]
    requires list != head && forall j :: 0 <= j < |s| ==> s[j] != list
    modifies list`next, list`prev, At(head, s, 0)`prev, entry`next, head`next, At(head, s, k + 1)`prev
    ensures Ring(list, s[..k + 1]) && Ring(head, s[k + 1..])
    ensures Apart(list, s[..k + 1], head, s[k + 1..])
  {
    var new_first := entry.next;
    list.next := head.next;
    list.next.prev := list;
    list.prev := entry;
    entry.next := list;
    head.next := new_first;
    new_first.prev := head;
    RingFront(list, s, k);
    RingBack(head, s, k);
    CutApart(list, head, s, k);
  }

  /** list_cut_position. entry is an element of head, the k-th one, or head itself (k == -1). */
  method ListCutPosition<T>(list: Node<T>, head: Node<T>, entry: Node<T>, ghost s: seq<Node<T>>, ghost k: int)
    requires Ring(head, s) && -1 <= k < |s| && entry == At(head, s, k)
    requires list != head && forall j :: 0 <= j < |s| ==> s[j] != list
    modifies list`next, list`prev, head`next, head`prev, Members(s)`next, Members(s)`prev
    ensures s != [] ==> Ring(list, s[..k + 1]) && Ring(head, s[k + 1..]) && Apart(list, s[..k + 1], head, s[k + 1..])
    ensures s == [] ==> Ring(head, s) && list.next == old(list.next) && list.prev == old(list.prev)
  {
    RingTests(head, s);
    if ListEmpty(head) {
      return;
    }
    if ListIsSingular(head) && head.next != entry && head != entry {
      return;
    }
    if entry == head {
      InitListHead(list);
    } else {
      ListCut(list, head, entry, s, k);
    }
  }

  /** __list_splice: the entries of list go into the k-th gap of the ring of head. */
  method ListSplice<T>(list: Node<T>, prev: Node<T>, next: Node<T>, ghost l: seq<Node<T>>,
                       ghost head: Node<T>, ghost s: seq<Node<T>>, ghost k: nat)
    requires Ring(list, l) && l != [] && Ring(head, s) && k <= |s| && Apart(list, l, head, s)
    requires prev == At(head, s, k - 1) && next == At(head, s, k)
    modifies At(list, l, 0)`prev, prev`next, At(list, l, |l| - 1)`next, next`prev
    ensures Ring(head, Spliced(s, l, k))
  {
    var first := list.next;
    var last := list.prev;
    first.prev := prev;
    prev.next := first;
    last.next := next;
    next.prev := last;
    SplicedDistinct(head, s, list, l, k);
    forall j | 0 <= j < |s| + |l|
      ensures Spliced(s, l, k)[j].next == At(head, Spliced(s, l, k), j + 1)
      ensures Spliced(s, l, k)[j].prev == At(head, Spliced(s, l, k), j - 1)
    {
      SplicedAt(head, s, l, k, j);
      SplicedAt(head, s, l, k, j + 1);
      SplicedAt(head, s, l, k, j - 1);
    }
  }

  /** list_splice: list's own pointers are left as they were at its two ends. */
  method ListSpliceHead<T>(list: Node<T>, head: Node<T>, ghost l: seq<Node<T>>, ghost s: seq<Node<T>>)
    requires Ring(list, l) && Ring(head, s) && Apart(list, l, head, s)
    modifies head`next, head`prev, Members(l)`next, Members(l)`prev, Members(s)`prev
    ensures Ring(head, l + s)
  {
    if !ListEmpty(list) {
      ListSplice(list, head, head.next, l, head, s, 0);
    }
    assert Spliced(s, l, 0) == l + s;
    assert l == [] ==> l + s == s;
  }

  method ListSpliceTail<T>(list: Node<T>, head: Node<T>, ghost l: seq<Node<T>>, ghost s: seq<Node<T>>)
    requires Ring(list, l) && Ring(head, s) && Apart(list, l, head, s)
    modifies head`next, head`prev, Members(l)`next, Members(l)`prev, Members(s)`next
    ensures Ring(head, s + l)
  {
    if !ListEmpty(list) {
      ListSplice(list, head.prev, head, l, head, s, |s|);
    }
    assert Spliced(s, l, |s|) == s + l;
    assert l == [] ==> s + l == s;
  }

  method ListSpliceInit<T>(list: Node<T>, head: Node<T>, ghost l: seq<Node<T>>, ghost s: seq<Node<T>>)
    requires Ring(list, l) && Ring(head, s) && Apart(list, l, head, s)
    modifies list`next, list`prev, head`next, head`prev, Members(l)`next, Members(l)`prev, Members(s)`prev
    ensures Ring(head, l + s) && Ring(list, [])
  {
    if !ListEmpty(list) {
      ListSplice(list, head, head.next, l, head, s, 0);
      InitListHead(list);
    }
    assert Spliced(s, l, 0) == l + s;
    assert l == [] ==> l + s == s;
  }

  method ListSpliceTailInit<T>(list: Node<T>, head: Node<T>, ghost l: seq<Node<T>>, ghost s: seq<Node<T>>)
    requires Ring(list, l) && Ring(head, s) && Apart(list, l, head, s)
    modifies list`next, list`prev, head`next, head`prev, Members(l)`next, Members(l)`prev, Members(s)`next
    ensures Ring(head, s + l) && Ring(list, [])
  {
    if !ListEmpty(list) {
      ListSplice(list, head.prev, head, l, head, s, |s|);
      InitListHead(list);
    }
    assert Spliced(s, l, |s|) == s + l;
    assert l == [] ==> s + l == s;
  }

  /** Splicing a cut back at the head restores the list. */
  method CutThenSplice<T>(list: Node<T>, head: Node<T>, entry: Node<T>, ghost s: seq<Node<T>>, ghost k: int)
    requires Ring(head, s) && s != [] && -1 <= k < |s| && entry == At(head, s, k)
    requires list != head && forall j :: 0 <= j < |s| ==> s[j] != list
    modifies list`next, list`prev, head`next, head`prev, Members(s)`next, Members(s)`prev
    ensures Ring(head, s) && Ring(list, [])
  {
    ListCutPosition(list, head, entry, s, k);
    ghost var l, t := s[..k + 1], s[k + 1..];
    assert Members(l) <= Members(s) && Members(t) <= Members(s);
    ListSpliceInit(list, head, l, t);
    assert l + t == s;
  }
}
