/** The software timers (common/fm_timer.c): what each operation does to the two lists. */
module Timers {
  import opened Wrappers
  import opened Lists

  // ----- timers as values -----

  const INT_MIN := -0x8000_0000
  const UINT := 0x1_0000_0000

  /** Conversion to int, and int arithmetic, taken as two's-complement wrap-around. */
  function Int32(x: int): (r: int)
    ensures INT_MIN <= r < -INT_MIN
  {
    (x - INT_MIN) % UINT + INT_MIN
  }

  datatype Timer = Timer(expires: int, function_: Option<int>, data: int, timerID: nat)

  /** The list state: both lists front to back, the counters, and what to_handler has drained. */
  datatype State = State(active: seq<Timer>, expired: seq<Timer>, timerID: nat,
                         active_cnt: int, expire_cnt: int, sem_timer: nat, fired: seq<Timer>)

  function Ticked(t: Timer, interval: int): Timer {
    t.(expires := Int32(t.expires - interval))
  }

  /** The timers a tick leaves on the active list, in order. */
  function Kept(ts: seq<Timer>, interval: int): seq<Timer> {
    if ts == [] then []
    else
      var t := Ticked(ts[|ts| - 1], interval);
      Kept(ts[..|ts| - 1], interval) + if t.expires <= 0 then [] else [t]
  }

  /** The timers a tick moves to the expire list, in order. */
  function Moved(ts: seq<Timer>, interval: int): seq<Timer> {
    if ts == [] then []
    else
      var t := Ticked(ts[|ts| - 1], interval);
      Moved(ts[..|ts| - 1], interval) + if t.expires <= 0 then [t] else []
  }

  function Tick(st: State, interval: int): State {
    var moved := Moved(st.active, interval);
    var cnt := st.expire_cnt + |moved|;
    st.(active := Kept(st.active, interval), expired := st.expired + moved,
        active_cnt := st.active_cnt - |moved|, expire_cnt := cnt,
        sem_timer := st.sem_timer + if cnt > 0 then 1 else 0)
  }

  function Add(st: State, to: int, function_: Option<int>, data: int): State {
    st.(active := st.active + [Timer(Int32(to), function_, data, st.timerID)],
        timerID := st.timerID + 1, active_cnt := st.active_cnt + 1)
  }

  /** The first timer with that ID, or the number of timers. */
  function Find(ts: seq<Timer>, id: int): (i: nat)
    ensures i <= |ts| && (i < |ts| ==> ts[i].timerID == id)
    ensures forall j :: 0 <= j < i ==> ts[j].timerID != id
  {
    if ts == [] then 0
    else
      var i := Find(ts[..|ts| - 1], id);
      if i < |ts| - 1 || ts[|ts| - 1].timerID == id then i else |ts|
  }

  function Rearm(st: State, id: int, new_expire: int): State {
    var i := Find(st.active, id);
    if i < |st.active| then st.(active := st.active[i := st.active[i].(expires := new_expire)]) else st
  }

  /** The timers with another ID, in order. */
  function Others(ts: seq<Timer>, id: int): seq<Timer> {
    if ts == [] then []
    else Others(ts[..|ts| - 1], id) + if ts[|ts| - 1].timerID == id then [] else [ts[|ts| - 1]]
  }

  function Delete(st: State, id: int): State {
    var rest := Others(st.active, id);
    st.(active := rest, active_cnt := st.active_cnt - (|st.active| - |rest|))
  }

  /** One pass of to_handler, once sem_wait has returned. */
  function Handle(st: State): State
    requires st.sem_timer > 0
  {
    st.(sem_timer := st.sem_timer - 1, expired := [], fired := st.fired + st.expired)
  }

  // ----- timers on the heap -----

  /** The nodes s carry the timers ts. */
  ghost predicate Carry(s: seq<Node<Timer>>, ts: seq<Timer>)
    reads s`item
  {
    |s| == |ts| && forall k :: 0 <= k < |s| ==> s[k].item == ts[k]
  }

  lemma CarryBoth(s: seq<Node<Timer>>, ss: seq<Timer>, t: seq<Node<Timer>>, tt: seq<Timer>)
    requires Carry(s, ss) && Carry(t, tt)
    ensures Carry(s + t, ss + tt)
  {
    forall k | 0 <= k < |s + t|
      ensures (s + t)[k].item == (ss + tt)[k]
    {
      if k < |s| { assert s[k].item == ss[k]; } else { assert t[k - |s|].item == tt[k - |s|]; }
    }
  }

  /** list_del, which poisons the entry, followed by list_add_tail on another list. */
  method MoveTo(entry: Node<Timer>, from: Node<Timer>, to: Node<Timer>,
                ghost s: seq<Node<Timer>>, ghost k: nat, ghost t: seq<Node<Timer>>)
    requires Ring(from, s) && Ring(to, t) && Apart(from, s, to, t)
    requires k < |s| && s[k] == entry
    modifies from`next, from`prev, to`next, to`prev, Members(s)`next, Members(s)`prev, Members(t)`next
    ensures Ring(from, Without(s, k)) && Ring(to, t + [entry]) && Apart(from, Without(s, k), to, t + [entry])
  {
    ListDel(entry, from, s, k);
    ListAddTail(entry, to, t);
  }

  ghost predicate Linked(active_list: Node<Timer>, expire_list: Node<Timer>, a: seq<Node<Timer>>, e: seq<Node<Timer>>)
    reads active_list`next, active_list`prev, expire_list`next, expire_list`prev, a`next, a`prev, e`next, e`prev
  {
    Ring(active_list, a) && Ring(expire_list, e) && Apart(active_list, a, expire_list, e)
  }

  // ----- the tick's walk -----

  /** The walk after i nodes: the nodes a0 and e0 carried the timers ts and es when it began, and those
      visited so far have been kept or moved. */
  datatype Walk = Walk(a0: seq<Node<Timer>>, ts: seq<Timer>, e0: seq<Node<Timer>>, es: seq<Timer>,
                       i: nat, kept: seq<Node<Timer>>, moved: seq<Node<Timer>>)
  {
    ghost predicate InRange() {
      && i <= |a0| == |ts|
      && (forall k :: 0 <= k < |kept| ==> kept[k] in a0) && (forall k :: 0 <= k < |moved| ==> moved[k] in a0)
    }

    ghost function Active(): seq<Node<Timer>>
      requires i <= |a0|
    {
      kept + a0[i..]
    }

    ghost function Expired(): seq<Node<Timer>> {
      e0 + moved
    }

    /** One node further. */
    ghost function Next(out: bool): Walk
      requires i < |a0|
    {
      var pos := a0[i];
      this.(i := i + 1, kept := if out then kept else kept + [pos], moved := if out then moved + [pos] else moved)
    }

    lemma StepLists(interval: int)
      requires i < |a0| == |ts|
      ensures var t := Ticked(ts[i], interval);
              && Kept(ts[..i + 1], interval) == Kept(ts[..i], interval) + (if t.expires <= 0 then [] else [t])
              && Moved(ts[..i + 1], interval) == Moved(ts[..i], interval) + (if t.expires <= 0 then [t] else [])
    {
      assert ts[..i + 1][..i] == ts[..i];
    }

    ghost predicate Carried(interval: int)
      requires InRange()
      reads kept`item, a0`item, e0`item, moved`item
    {
      && Carry(kept, Kept(ts[..i], interval)) && Carry(moved, Moved(ts[..i], interval))
      && (forall k :: i <= k < |a0| ==> a0[k].item == ts[k])
      && Carry(e0, es)
    }
  }

  ghost predicate Walking(active_list: Node<Timer>, expire_list: Node<Timer>, interval: int, w: Walk)
    reads active_list, expire_list, w.kept, w.a0, w.e0, w.moved
  {
    w.InRange() && Linked(active_list, expire_list, w.Active(), w.Expired()) && w.Carried(interval)
  }

  lemma PosApart(active_list: Node<Timer>, expire_list: Node<Timer>, w: Walk)
    requires w.InRange() && w.i < |w.a0| && Linked(active_list, expire_list, w.Active(), w.Expired())
    ensures var pos := w.a0[w.i];
            && pos != active_list && pos.next == At(active_list, w.a0, w.i + 1)
            && (forall k :: 0 <= k < |w.kept| ==> w.kept[k] != pos)
            && (forall k :: 0 <= k < |w.moved| ==> w.moved[k] != pos)
            && (forall k :: 0 <= k < |w.e0| ==> w.e0[k] != pos)
            && (forall k :: w.i < k < |w.a0| ==> w.a0[k] != pos)
  {
    var s, e, n := w.Active(), w.Expired(), |w.kept|;
    assert s[n] == w.a0[w.i];
    assert forall k :: 0 <= k < n ==> s[k] == w.kept[k];
    assert forall k :: 0 <= k < |w.e0| ==> e[k] == w.e0[k];
    assert forall k :: 0 <= k < |w.moved| ==> e[|w.e0| + k] == w.moved[k];
    assert forall k :: w.i < k < |w.a0| ==> s[n + k - w.i] == w.a0[k];
  }

  lemma Regroup(w: Walk)
    requires w.i < |w.a0|
    ensures w.Active()[|w.kept|] == w.a0[w.i]
    ensures w.Next(false).Active() == w.Active() && w.Next(false).Expired() == w.Expired()
    ensures w.Next(true).Active() == Without(w.Active(), |w.kept|)
    ensures w.Next(true).Expired() == w.Expired() + [w.a0[w.i]]
  {
    StepSplit(w.kept, w.a0, w.i);
    assert w.e0 + (w.moved + [w.a0[w.i]]) == w.e0 + w.moved + [w.a0[w.i]];
  }

  /** One turn of the walk: counting down. */
  method TickItem(pos: Node<Timer>, ghost active_list: Node<Timer>, ghost expire_list: Node<Timer>, interval: int,
                  ghost w: Walk)
    returns (out: bool)
    requires Walking(active_list, expire_list, interval, w) && w.i < |w.a0| && pos == w.a0[w.i]
    modifies pos`item
    ensures Linked(active_list, expire_list, w.Active(), w.Expired())
    ensures w.Next(out).InRange() && w.Next(out).Carried(interval)
  {
    PosApart(active_list, expire_list, w);
    out := Countdown(pos, interval, w);
  }

  method Countdown(pos: Node<Timer>, interval: int, ghost w: Walk) returns (out: bool)
    requires w.InRange() && w.i < |w.a0| && pos == w.a0[w.i] && w.Carried(interval)
    requires forall k :: 0 <= k < |w.kept| ==> w.kept[k] != pos
    requires forall k :: 0 <= k < |w.moved| ==> w.moved[k] != pos
    requires forall k :: 0 <= k < |w.e0| ==> w.e0[k] != pos
    requires forall k :: w.i < k < |w.a0| ==> w.a0[k] != pos
    modifies pos`item
    ensures w.Next(out).InRange() && w.Next(out).Carried(interval)
  {
    w.StepLists(interval);
    pos.item := Ticked(pos.item, interval);
    out := pos.item.expires <= 0;
    assert Carry(w.kept, Kept(w.ts[..w.i], interval)) && Carry(w.moved, Moved(w.ts[..w.i], interval));
    assert Carry([pos], [pos.item]);
    if out {
      CarryBoth(w.moved, Moved(w.ts[..w.i], interval), [pos], [pos.item]);
    } else {
      CarryBoth(w.kept, Kept(w.ts[..w.i], interval), [pos], [pos.item]);
    }
  }

  /** One turn of the walk: relinking a node that has run out. */
  method TickRelink(out: bool, pos: Node<Timer>, active_list: Node<Timer>, expire_list: Node<Timer>,
                    ghost a: seq<Node<Timer>>, ghost k: nat, ghost e: seq<Node<Timer>>)
    requires Linked(active_list, expire_list, a, e) && k < |a| && a[k] == pos
    modifies active_list`next, active_list`prev, expire_list`next, expire_list`prev
    modifies Members(a)`next, Members(a)`prev, Members(e)`next
    ensures if out then Linked(active_list, expire_list, Without(a, k), e + [pos])
            else Linked(active_list, expire_list, a, e)
  {
    if out {
      MoveTo(pos, active_list, expire_list, a, k, e);
    }
  }

  /** The nodes that a turn may touch are those the walk began with. */
  lemma WalkMembers(w: Walk)
    requires w.InRange()
    ensures forall n :: n in Members(w.Active()) ==> n in w.a0
    ensures forall n :: n in Members(w.Expired()) ==> n in w.e0 || n in w.a0
  {
  }

  method TickMove(out: bool, pos: Node<Timer>, active_list: Node<Timer>, expire_list: Node<Timer>, ghost w: Walk)
    requires w.InRange() && w.i < |w.a0| && pos == w.a0[w.i]
    requires Linked(active_list, expire_list, w.Active(), w.Expired())
    modifies active_list`next, active_list`prev, expire_list`next, expire_list`prev
    modifies w.a0`next, w.a0`prev, w.e0`next
    ensures Linked(active_list, expire_list, w.Next(out).Active(), w.Next(out).Expired())
  {
    Regroup(w);
    WalkMembers(w);
    TickRelink(out, pos, active_list, expire_list, w.Active(), |w.kept|, w.Expired());
  }

  /** The node after the kept ones is not the head, and leads to the next of a0. */
  lemma RestNext(head: Node<Timer>, kept: seq<Node<Timer>>, a0: seq<Node<Timer>>, i: nat)
    requires i < |a0| && Ring(head, kept + a0[i..])
    ensures a0[i] != head && a0[i].next == At(head, a0, i + 1)
  {
    assert (kept + a0[i..])[|kept|] == a0[i];
  }

  /** One turn of the walk. */
  method TickNode(pos: Node<Timer>, active_list: Node<Timer>, expire_list: Node<Timer>, interval: int, ghost w: Walk)
    returns (out: bool)
    requires Walking(active_list, expire_list, interval, w) && w.i < |w.a0| && pos == w.a0[w.i]
    modifies active_list, expire_list, w.a0, w.e0
    ensures Walking(active_list, expire_list, interval, w.Next(out))
    ensures |w.Next(out).moved| == |w.moved| + if out then 1 else 0
  {
    out := TickItem(pos, active_list, expire_list, interval, w);
    ghost var w' := w.Next(out);
    TickMove(out, pos, active_list, expire_list, w);
    assert w'.InRange() && Linked(active_list, expire_list, w'.Active(), w'.Expired());
    assert w'.Carried(interval);
  }

  lemma WalkDone(active_list: Node<Timer>, expire_list: Node<Timer>, interval: int, w: Walk)
    requires Walking(active_list, expire_list, interval, w) && At(active_list, w.a0, w.i) == active_list
    ensures Linked(active_list, expire_list, w.kept, w.Expired())
    ensures Carry(w.kept, Kept(w.ts, interval)) && Carry(w.Expired(), w.es + Moved(w.ts, interval))
    ensures |w.moved| == |Moved(w.ts, interval)|
  {
    if w.i < |w.a0| { PosApart(active_list, expire_list, w); }
    assert w.ts[..w.i] == w.ts && w.Active() == w.kept;
    CarryBoth(w.e0, w.es, w.moved, Moved(w.ts, interval));
  }

  lemma WalkStart(active_list: Node<Timer>, expire_list: Node<Timer>, interval: int, w: Walk)
    requires Linked(active_list, expire_list, w.a0, w.e0) && Carry(w.a0, w.ts) && Carry(w.e0, w.es)
    requires w.i == 0 && w.kept == w.moved == []
    ensures Walking(active_list, expire_list, interval, w)
  {
    assert w.Active() == w.a0 && w.Expired() == w.e0;
  }

  /** The locked walk of the tick, returning how many nodes it moved. */
  method TickWalk(active_list: Node<Timer>, expire_list: Node<Timer>, interval: int, ghost w0: Walk)
    returns (cnt: nat, ghost w: Walk)
    requires Linked(active_list, expire_list, w0.a0, w0.e0) && Carry(w0.a0, w0.ts) && Carry(w0.e0, w0.es)
    requires w0.i == 0 && w0.kept == w0.moved == []
    modifies active_list, expire_list, w0.a0, w0.e0
    ensures w == w0.(i := w.i, kept := w.kept, moved := w.moved) && w.InRange()
    ensures Linked(active_list, expire_list, w.kept, w.Expired())
    ensures Carry(w.kept, Kept(w.ts, interval)) && Carry(w.Expired(), w.es + Moved(w.ts, interval))
    ensures cnt == |Moved(w.ts, interval)|
  {
    cnt, w := 0, w0;
    WalkStart(active_list, expire_list, interval, w);
    var pos := active_list.next;
    var n := pos.next;
    while pos != active_list
      invariant w == w0.(i := w.i, kept := w.kept, moved := w.moved)
      invariant Walking(active_list, expire_list, interval, w)
      invariant pos == At(active_list, w.a0, w.i) && n == pos.next && cnt == |w.moved|
      decreases |w.a0| - w.i
    {
      RestNext(active_list, w.kept, w.a0, w.i);
      var out := TickNode(pos, active_list, expire_list, interval, w);
      cnt, w := cnt + (if out then 1 else 0), w.Next(out);
      pos := n;
      n := pos.next;
    }
    WalkDone(active_list, expire_list, interval, w);
  }

  // ----- the other walks -----

  /** The nodes of a0 that carry the timers of ts with another ID. */
  ghost function Surviving(a0: seq<Node<Timer>>, ts: seq<Timer>, id: int): seq<Node<Timer>>
    requires |a0| == |ts|
  {
    if ts == [] then []
    else
      var n := |ts| - 1;
      Surviving(a0[..n], ts[..n], id) + if ts[n].timerID == id then [] else [a0[n]]
  }

  lemma {:induction false} SurvivingCarry(a0: seq<Node<Timer>>, ts: seq<Timer>, id: int)
    requires Carry(a0, ts)
    ensures Carry(Surviving(a0, ts, id), Others(ts, id))
  {
    if ts != [] { SurvivingCarry(a0[..|ts| - 1], ts[..|ts| - 1], id); }
  }

  lemma {:induction false} SurvivingIn(a0: seq<Node<Timer>>, ts: seq<Timer>, id: int)
    requires |a0| == |ts|
    ensures forall k :: 0 <= k < |Surviving(a0, ts, id)| ==> Surviving(a0, ts, id)[k] in a0
  {
    if ts != [] { SurvivingIn(a0[..|ts| - 1], ts[..|ts| - 1], id); }
  }

  lemma SurvivingStep(a0: seq<Node<Timer>>, ts: seq<Timer>, id: int, i: nat)
    requires |a0| == |ts| && i < |ts|
    ensures Surviving(a0[..i + 1], ts[..i + 1], id)
         == Surviving(a0[..i], ts[..i], id) + if ts[i].timerID == id then [] else [a0[i]]
  {
    assert a0[..i + 1][..i] == a0[..i] && ts[..i + 1][..i] == ts[..i];
  }

  /** One turn of del's walk: the node after the kept ones goes, or joins them. */
  method DelNode(pos: Node<Timer>, active_list: Node<Timer>, gone: bool, ghost kept: seq<Node<Timer>>, ghost i: nat,
                 ghost a0: seq<Node<Timer>>, ghost expire_list: Node<Timer>, ghost expired: seq<Node<Timer>>)
    requires i < |a0| && pos == a0[i] && Linked(active_list, expire_list, kept + a0[i..], expired)
    requires forall k :: 0 <= k < |kept| ==> kept[k] in a0
    modifies active_list`next, active_list`prev, a0`next, a0`prev
    ensures Linked(active_list, expire_list, kept + (if gone then [] else [pos]) + a0[i + 1..], expired)
  {
    StepSplit(kept, a0, i);
    if gone {
      ListDel(pos, active_list, kept + a0[i..], |kept|);
    }
    assert kept + [] == kept;
  }

  /** del's walk after i nodes of a0, which carry ts, with cnt of them gone. */
  ghost predicate Deleting(active_list: Node<Timer>, expire_list: Node<Timer>, id: int, i: nat, a0: seq<Node<Timer>>,
                           ts: seq<Timer>, kept: seq<Node<Timer>>, expired: seq<Node<Timer>>, cnt: nat)
    reads active_list, expire_list, a0, kept, expired
  {
    && i <= |a0| == |ts| && kept == Surviving(a0[..i], ts[..i], id) && cnt == i - |kept|
    && Linked(active_list, expire_list, kept + a0[i..], expired)
  }

  lemma DelStart(active_list: Node<Timer>, expire_list: Node<Timer>, id: int, a0: seq<Node<Timer>>, ts: seq<Timer>,
                 expired: seq<Node<Timer>>)
    requires Linked(active_list, expire_list, a0, expired) && |a0| == |ts|
    ensures Deleting(active_list, expire_list, id, 0, a0, ts, [], expired, 0)
  {
    assert [] + a0[0..] == a0;
  }

  method DelStep(pos: Node<Timer>, active_list: Node<Timer>, id: int, cnt: nat, ghost i: nat,
                 ghost a0: seq<Node<Timer>>, ghost ts: seq<Timer>, ghost kept: seq<Node<Timer>>,
                 ghost expire_list: Node<Timer>, ghost expired: seq<Node<Timer>>)
    returns (cnt': nat, ghost kept': seq<Node<Timer>>)
    requires Deleting(active_list, expire_list, id, i, a0, ts, kept, expired, cnt)
    requires i < |a0| && pos == a0[i] && Carry(a0, ts)
    modifies active_list`next, active_list`prev, a0`next, a0`prev
    ensures Deleting(active_list, expire_list, id, i + 1, a0, ts, kept', expired, cnt') && Carry(a0, ts)
  {
    SurvivingIn(a0[..i], ts[..i], id);
    SurvivingStep(a0, ts, id, i);
    var gone := pos.item.timerID == id;
    kept' := kept + if gone then [] else [pos];
    cnt' := cnt + if gone then 1 else 0;
    DelNode(pos, active_list, gone, kept, i, a0, expire_list, expired);
  }

  method DelWalk(active_list: Node<Timer>, id: int, ghost a0: seq<Node<Timer>>, ghost ts: seq<Timer>,
                 ghost expire_list: Node<Timer>, ghost expired: seq<Node<Timer>>)
    returns (cnt: nat)
    requires Linked(active_list, expire_list, a0, expired) && Carry(a0, ts)
    modifies active_list`next, active_list`prev, a0`next, a0`prev
    ensures Linked(active_list, expire_list, Surviving(a0, ts, id), expired)
    ensures cnt == |ts| - |Surviving(a0, ts, id)|
  {
    cnt := 0;
    ghost var i: nat, kept: seq<Node<Timer>> := 0, [];
    DelStart(active_list, expire_list, id, a0, ts, expired);
    var pos := active_list.next;
    var n := pos.next;
    while pos != active_list
      invariant Deleting(active_list, expire_list, id, i, a0, ts, kept, expired, cnt) && Carry(a0, ts)
      invariant pos == At(active_list, a0, i) && n == pos.next
      decreases |a0| - i
    {
      RestNext(active_list, kept, a0, i);
      cnt, kept := DelStep(pos, active_list, id, cnt, i, a0, ts, kept, expire_list, expired);
      i := i + 1;
      pos := n;
      n := pos.next;
    }
    DelDone(active_list, expire_list, id, i, a0, ts, kept, expired, cnt);
  }

  lemma DelDone(active_list: Node<Timer>, expire_list: Node<Timer>, id: int, i: nat, a0: seq<Node<Timer>>,
                ts: seq<Timer>, kept: seq<Node<Timer>>, expired: seq<Node<Timer>>, cnt: nat)
    requires Deleting(active_list, expire_list, id, i, a0, ts, kept, expired, cnt)
    requires At(active_list, a0, i) == active_list
    ensures i == |a0| && kept == Surviving(a0, ts, id) && Linked(active_list, expire_list, kept, expired)
    ensures cnt == |ts| - |kept|
  {
    if i < |a0| { RestNext(active_list, kept, a0, i); }
    assert a0[..i] == a0 && ts[..i] == ts;
    assert kept + [] == kept;
  }

  method RearmWalk(active_list: Node<Timer>, id: int, new_expire: int, ghost a0: seq<Node<Timer>>, ghost ts: seq<Timer>)
    returns (rc: int)
    requires Ring(active_list, a0) && Carry(a0, ts)
    modifies a0`item
    ensures var i := Find(ts, id);
            if i < |ts| then rc == 0 && Carry(a0, ts[i := ts[i].(expires := new_expire)]) else rc == -1 && Carry(a0, ts)
  {
    ghost var i := 0;
    var pos := active_list.next;
    while pos != active_list
      invariant i <= |a0| && pos == At(active_list, a0, i)
      invariant forall j :: 0 <= j < i ==> ts[j].timerID != id
      invariant Carry(a0, ts)
      decreases |a0| - i
    {
      if pos.item.timerID == id {
        pos.item := pos.item.(expires := new_expire);
        return 0;
      }
      i := i + 1;
      pos := pos.next;
    }
    rc := -1;
  }

  /** One turn of the drain: unlink, run the function, free. */
  method DrainNode(pos: Node<Timer>, expire_list: Node<Timer>, ghost e0: seq<Node<Timer>>, ghost i: nat)
    returns (t: Timer)
    requires i < |e0| && pos == e0[i] && Ring(expire_list, e0[i..])
    modifies expire_list`next, expire_list`prev, e0[i..]`next, e0[i..]`prev
    ensures Ring(expire_list, e0[i + 1..]) && t == pos.item
  {
    ghost var rest := e0[i..];
    assert rest[0] == pos && Without(rest, 0) == e0[i + 1..];
    ListDel(pos, expire_list, rest, 0);
    t := pos.item;
  }

  method DrainWalk(expire_list: Node<Timer>, ghost e0: seq<Node<Timer>>, ghost es: seq<Timer>)
    returns (fired: seq<Timer>)
    requires Ring(expire_list, e0) && Carry(e0, es)
    modifies expire_list`next, expire_list`prev, e0`next, e0`prev
    ensures Ring(expire_list, []) && fired == es
  {
    fired := [];
    ghost var i := 0;
    assert e0[0..] == e0;
    var pos := expire_list.next;
    var n := pos.next;
    while pos != expire_list
      invariant i <= |e0| && pos == At(expire_list, e0, i) && n == pos.next
      invariant Ring(expire_list, e0[i..]) && fired == es[..i]
      decreases |e0| - i
    {
      assert e0[i..][0] == pos;
      var t := DrainNode(pos, expire_list, e0, i);
      fired := fired + [t];
      i := i + 1;
      pos := n;
      n := pos.next;
    }
    assert i == |e0|;
  }

  /** What the pointers of the two lists represent. */
  datatype View = View(active: seq<Node<Timer>>, expired: seq<Node<Timer>>, nodes: set<Node<Timer>>, st: State)

  class TimerList {
    const active_list: Node<Timer>
    const expire_list: Node<Timer>
    var active_cnt: int
    var expire_cnt: int
    const interval: int
    var sem_timer: nat
    var timerID: nat
    var fired: seq<Timer>              // the timers to_handler has run and freed, in order

    ghost var w: View

    ghost predicate Valid()
      reads this, active_list, expire_list, w.nodes
    {
      && Links()
      && w.st.timerID == timerID && w.st.active_cnt == active_cnt && w.st.expire_cnt == expire_cnt
      && w.st.sem_timer == sem_timer && w.st.fired == fired
    }

    ghost predicate Links()
      reads this`w, active_list, expire_list, w.nodes
    {
      && (forall k :: 0 <= k < |w.active| ==> w.active[k] in w.nodes)
      && (forall k :: 0 <= k < |w.expired| ==> w.expired[k] in w.nodes)
      && Linked(active_list, expire_list, w.active, w.expired)
      && Carry(w.active, w.st.active) && Carry(w.expired, w.st.expired)
    }

    constructor (interval: int)
      ensures Valid() && w.st == State([], [], 0, 0, 0, 0, []) && this.interval == interval
      ensures fresh(active_list) && fresh(expire_list) && w.nodes == {}
    {
      var a := new Node(Timer(0, None, 0, 0));
      var e := new Node(Timer(0, None, 0, 0));
      active_list, expire_list := a, e;
      active_cnt, expire_cnt, sem_timer, timerID := 0, 0, 0, 0;
      this.interval := interval;
      fired := [];
      w := View([], [], {}, State([], [], 0, 0, 0, 0, []));
      new;
      InitListHead(active_list);
      InitListHead(expire_list);
    }

    /** The field updates that end an operation, once the nodes are linked as v says. */
    method Install(ghost v: View, active_cnt': int, expire_cnt': int, sem_timer': nat, timerID': nat,
                   fired': seq<Timer>)
      requires (forall k :: 0 <= k < |v.active| ==> v.active[k] in v.nodes)
      requires (forall k :: 0 <= k < |v.expired| ==> v.expired[k] in v.nodes)
      requires Linked(active_list, expire_list, v.active, v.expired)
      requires Carry(v.active, v.st.active) && Carry(v.expired, v.st.expired)
      requires v.st == State(v.st.active, v.st.expired, timerID', active_cnt', expire_cnt', sem_timer', fired')
      modifies this
      ensures Valid() && w == v
    {
      active_cnt, expire_cnt, sem_timer, timerID, fired := active_cnt', expire_cnt', sem_timer', timerID', fired';
      w := v;
    }

    method ClocktickHandler()
      requires Valid()
      modifies this, active_list, expire_list, w.nodes
      ensures Valid() && w.st == Tick(old(w.st), interval) && w.nodes == old(w.nodes)
      ensures sem_timer == old(sem_timer) + if expire_cnt > 0 then 1 else 0
    {
      ghost var v;
      var cnt;
      cnt, v := TickWalk(active_list, expire_list, interval,
                         Walk(w.active, w.st.active, w.expired, w.st.expired, 0, [], []));
      ghost var w' := w.(active := v.kept, expired := w.expired + v.moved, st := Tick(w.st, interval));
      Install(w', active_cnt - cnt, expire_cnt + cnt, sem_timer + (if expire_cnt + cnt > 0 then 1 else 0),
              timerID, fired);
    }

    method FmtimerAdd(to: int, function_: Option<int>, data: int) returns (id: int)
      requires Valid() && 0 <= to < UINT
      modifies this, active_list, w.nodes
      ensures Valid() && w.st == Add(old(w.st), to, function_, data) && id == old(timerID)
      ensures fresh(w.nodes - old(w.nodes))
    {
      id := timerID;
      var node := new Node(Timer(Int32(to), function_, data, timerID));
      ListAddTail(node, active_list, w.active);
      ghost var w' := w.(active := w.active + [node], nodes := w.nodes + {node}, st := Add(w.st, to, function_, data));
      Install(w', active_cnt + 1, expire_cnt, sem_timer, timerID + 1, fired);
    }

    method FmtimerRearm(id: int, new_expire: int) returns (rc: int)
      requires Valid()
      modifies this, w.nodes
      ensures Valid() && w.st == Rearm(old(w.st), id, new_expire) && w.nodes == old(w.nodes)
      ensures rc == if exists t :: t in old(w.st).active && t.timerID == id then 0 else -1
    {
      rc := RearmWalk(active_list, id, new_expire, w.active, w.st.active);
      Install(w.(st := Rearm(w.st, id, new_expire)), active_cnt, expire_cnt, sem_timer, timerID, fired);
    }

    method FmtimerDel(id: int)
      requires Valid()
      modifies this, active_list, w.nodes
      ensures Valid() && w.st == Delete(old(w.st), id) && w.nodes == old(w.nodes)
    {
      var cnt := DelWalk(active_list, id, w.active, w.st.active, expire_list, w.expired);
      SurvivingCarry(w.active, w.st.active, id);
      SurvivingIn(w.active, w.st.active, id);
      ghost var w' := w.(active := Surviving(w.active, w.st.active, id), st := Delete(w.st, id));
      Install(w', active_cnt - cnt, expire_cnt, sem_timer, timerID, fired);
    }

    /** One pass of to_handler, from a sem_wait that has returned. */
    method ToHandler()
      requires Valid() && sem_timer > 0
      modifies this, expire_list, w.nodes
      ensures Valid() && w.st == Handle(old(w.st)) && w.nodes == old(w.nodes)
      ensures w.st.expired == [] && fired == old(fired) + old(w.st.expired) && expire_cnt == old(expire_cnt)
    {
      var ran := DrainWalk(expire_list, w.expired, w.st.expired);
      Install(w.(expired := [], st := Handle(w.st)), active_cnt, expire_cnt, sem_timer - 1, timerID, fired + ran);
    }
  }
}
