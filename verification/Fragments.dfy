/** Each worker's fragment array across the turns of its loop (tsm_vm.c). */
module Fragments {
  import opened Wrappers
  import opened Protocol

  /** The protocol's state, the array that each thread's variable fba points to, the packets that have been
      split into an array, and the arrays that have been freed. An array goes by its packet's number; None
      is a variable that has not been set. */
  datatype World = World(s: State, fba: seq<Option<nat>>, split: set<nat>, gone: multiset<Option<nat>>)

  function Begin(n: nat): World {
    World(Start(n), seq(n + 2, _ => None), {}, multiset{})
  }

  /** A worker takes a packet that is new off the queue, and splits it. */
  predicate TakesNew(w: World, e: Event) {
    && e.Go? && e.i < |w.s.actors| && w.s.actors[e.i] == Woken(Rpkg)
    && w.s.r.q != [] && w.s.r.q[0].id !in w.split
  }

  /** A worker finds write_back set, and frees what its variable points to. */
  predicate Frees(w: World, e: Event) {
    && e.Go? && e.i < |w.s.actors| && w.s.actors[e.i].Ran?
    && w.s.actors[e.i].c < |w.s.ccbs| && w.s.ccbs[w.s.actors[e.i].c].writeBack
  }

  function Turn(w: World, e: Event): World
    requires Do(w.s, e).Next? && e.i < |w.fba|
  {
    var gone := if Frees(w, e) then w.gone + multiset{w.fba[e.i]} else w.gone;
    if TakesNew(w, e) then World(Do(w.s, e).s, w.fba[e.i := Some(w.s.r.q[0].id)], w.split + {w.s.r.q[0].id}, gone)
    else World(Do(w.s, e).s, w.fba, w.split, gone)
  }

  function Follow(w: World, es: seq<Event>): Option<World>
    decreases |es|
  {
    if es == [] then Some(w)
    else if Do(w.s, es[0]).Next? && es[0].i < |w.fba| then Follow(Turn(w, es[0]), es[1..])
    else None
  }

  /** Each array is with one worker at most, and is freed only after its packet has been split. */
  ghost predicate Sound(w: World) {
    && |w.fba| == |w.s.actors|
    && (forall i {:trigger w.fba[i]} :: 0 <= i < |w.fba| && w.fba[i].Some? ==> w.fba[i].value in w.split)
    && (forall i, j :: 0 <= i < |w.fba| && 0 <= j < |w.fba| && i != j && w.fba[i].Some? ==> w.fba[i] != w.fba[j])
    && (forall id {:trigger id in w.split} :: id !in w.split ==> w.gone[Some(id)] == 0)
  }

  lemma SoundTurn(w: World, e: Event)
    requires Sound(w) && Do(w.s, e).Next?
    ensures e.i < |w.fba| && Sound(Turn(w, e))
  {
    RoleStep(w.s, e);
  }

  /** The array is followed along with the protocol: it changes nothing there. */
  lemma {:induction false} FollowTrace(w: World, es: seq<Event>)
    requires Sound(w)
    ensures Follow(w, es).Some? <==> Trace(w.s, es).Next?
    ensures Follow(w, es).Some? ==> Follow(w, es).value.s == Trace(w.s, es).s && Sound(Follow(w, es).value)
    decreases |es|
  {
    if es != [] && Do(w.s, es[0]).Next? {
      SoundTurn(w, es[0]);
      FollowTrace(Turn(w, es[0]), es[1..]);
    }
  }

  // ----- who has a packet's array -----

  /** Worker j's variable points to the packet's own array, which has not been freed. */
  predicate Own(w: World, j: nat, id: nat) {
    j < |w.fba| && w.fba[j] == Some(id) && w.gone[Some(id)] == 0
  }

  /** On the way worker i splits another packet or writes back. */
  predicate Disturbed(w: World, es: seq<Event>, i: nat)
    decreases |es|
  {
    && es != [] && Do(w.s, es[0]).Next? && es[0].i < |w.fba|
    && ((es[0].i == i && (TakesNew(w, es[0]) || Frees(w, es[0]))) || Disturbed(Turn(w, es[0]), es[1..], i))
  }

  ghost predicate Forgotten(w: World, id: nat) {
    id in w.split && forall j :: !Own(w, j, id)
  }

  lemma {:induction false} StaysForgotten(w: World, es: seq<Event>, id: nat)
    requires Sound(w) && Forgotten(w, id) && Follow(w, es).Some?
    ensures Forgotten(Follow(w, es).value, id)
    decreases |es|
  {
    if es != [] {
      var t := Turn(w, es[0]);
      SoundTurn(w, es[0]);
      forall j
        ensures !Own(t, j, id)
      {
        assert !Own(w, j, id);
      }
      StaysForgotten(t, es[1..], id);
    }
  }

  /** A step of worker i that disturbs it, and any other step. */
  lemma OwnTurn(w: World, e: Event, i: nat, id: nat)
    requires Sound(w) && Own(w, i, id) && Do(w.s, e).Next? && e.i < |w.fba|
    ensures if e.i == i && (TakesNew(w, e) || Frees(w, e)) then Forgotten(Turn(w, e), id) else Own(Turn(w, e), i, id)
  {
    var t := Turn(w, e);
    if e.i == i && (TakesNew(w, e) || Frees(w, e)) {
      forall j
        ensures !Own(t, j, id)
      {
        assert j != i ==> !Own(w, j, id);
      }
    } else if Frees(w, e) {
      assert w.fba[e.i] != Some(id);
    }
  }

  /** An array is kept exactly by the worker that has it, and until that one splits another packet or
      writes back. */
  lemma {:induction false} KeptIff(w: World, es: seq<Event>, i: nat, id: nat, j: nat)
    requires Sound(w) && Own(w, i, id) && Follow(w, es).Some?
    ensures Own(Follow(w, es).value, j, id) <==> j == i && !Disturbed(w, es, i)
    decreases |es|
  {
    if es != [] {
      var e, t := es[0], Turn(w, es[0]);
      OwnTurn(w, e, i, id);
      SoundTurn(w, e);
      if e.i == i && (TakesNew(w, e) || Frees(w, e)) {
        StaysForgotten(t, es[1..], id);
      } else {
        KeptIff(t, es[1..], i, id, j);
      }
    } else {
      assert j != i && j < |w.fba| ==> w.fba[j] != w.fba[i];
    }
  }

  // ----- every dispatch -----

  /** The packet that a worker holds. */
  function HeldBy(pc: Pc): Option<nat> {
    match pc
    case Got(p) => Some(p.id)
    case Found(p, _) => Some(p.id)
    case Ran(p, _) => Some(p.id)
    case Clearing(p, _) => Some(p.id)
    case Replying(_, p, _) => Some(p.id)
    case Posting(_, ToTest(p, _)) => Some(p.id)
    case Testing(p, _, _) => Some(p.id)
    case Rebooting(p, _, _) => Some(p.id)
    case Requeueing(p, _) => Some(p.id)
    case _ => None
  }

  /** Only taking one off the queue gives a worker another packet. */
  ghost predicate SameHeld(s: State, t: State, i: nat) {
    i < |s.actors| == |t.actors| && (HeldBy(t.actors[i]).Some? ==> HeldBy(t.actors[i]) == HeldBy(s.actors[i]))
  }

  lemma HeldAtFlags(s: State, i: nat, c: nat)
    requires i < |s.actors| && c < |s.ccbs| && AtFlags(s.actors[i], c) > 0
    ensures SameHeld(s, GoFlags(s, i, c), i)
  {
  }

  lemma HeldAtReader(s: State, i: nat, p: Packet, msg: Msg)
    requires i < |s.actors| && s.actors[i] == Received(p, msg)
    ensures SameHeld(s, GoReceived(s, i, p, msg), i)
  {
  }

  lemma HeldStep(s: State, e: Event)
    requires Do(s, e).Next? && !(e.Go? && s.actors[e.i] == Woken(Rpkg))
    ensures SameHeld(s, Do(s, e).s, e.i)
  {
    if e.Go? {
      match s.actors[e.i] {
        case Received(p, msg) => HeldAtReader(s, e.i, p, msg);
        case Ran(_, c) => HeldAtFlags(s, e.i, c);
        case Clearing(_, c) => HeldAtFlags(s, e.i, c);
        case Testing(_, c, _) => HeldAtFlags(s, e.i, c);
        case Rebooting(_, c, _) => HeldAtFlags(s, e.i, c);
        case Waiting(_) =>
        case Woken(_) =>
        case Posting(_, _) =>
        case Acking =>
        case Got(p) =>
        case Replying(_, _, _) =>
        case Requeueing(_, _) =>
        case Sending(_) =>
      }
    }
  }

  /** What a worker holds has been split. */
  ghost predicate HeldSplit(w: World) {
    forall i {:trigger w.s.actors[i]} :: 0 <= i < |w.s.actors| && HeldBy(w.s.actors[i]).Some? ==>
      HeldBy(w.s.actors[i]).value in w.split
  }

  lemma HeldSplitTurn(w: World, e: Event)
    requires Sound(w) && HeldSplit(w) && Do(w.s, e).Next? && e.i < |w.fba|
    ensures HeldSplit(Turn(w, e))
  {
    RoleStep(w.s, e);
    if !(e.Go? && w.s.actors[e.i] == Woken(Rpkg)) { HeldStep(w.s, e); }
  }

  lemma {:induction false} HeldSplitRun(w: World, es: seq<Event>)
    requires Sound(w) && HeldSplit(w) && Follow(w, es).Some?
    ensures HeldSplit(Follow(w, es).value)
    decreases |es|
  {
    if es != [] {
      HeldSplitTurn(w, es[0]);
      SoundTurn(w, es[0]);
      HeldSplitRun(Turn(w, es[0]), es[1..]);
    }
  }

  /** Step k of the run takes packet id new. */
  ghost predicate SplitAt(w: World, es: seq<Event>, k: nat, id: nat) {
    && k < |es| && Follow(w, es[..k]).Some?
    && var v := Follow(w, es[..k]).value;
       Do(v.s, es[k]).Next? && es[k].i < |v.fba| && TakesNew(v, es[k]) && v.s.r.q[0].id == id
       && Follow(Turn(v, es[k]), es[k + 1..]) == Follow(w, es)
  }

  lemma {:induction false} WhenSplit(w: World, es: seq<Event>, id: nat) returns (k: nat)
    requires Follow(w, es).Some? && id in Follow(w, es).value.split && id !in w.split
    ensures SplitAt(w, es, k, id)
    decreases |es|
  {
    k := 0;
    assert es != [];
    var t := Turn(w, es[0]);
    if id !in t.split {
      k := WhenSplit(t, es[1..], id);
      assert es[..k + 1][1..] == es[1..][..k] && es[1..][k + 1..] == es[k + 2..];
      k := k + 1;
    } else {
      assert es[..0] == [];
    }
  }

  lemma BeginSound(n: nat)
    ensures Sound(Begin(n)) && HeldSplit(Begin(n))
  {
  }

  /** At every dispatch of every run, for any number of workers: the packet was split once before, at step k
      by worker es[k].i, and worker j runs its bytecode with the packet's own array, not yet freed, exactly
      when j is that worker and has since neither split another packet nor written back. */
  lemma DispatchIff(n: nat, es: seq<Event>, j: nat) returns (k: nat)
    requires Follow(Begin(n), es).Some?
    requires j < |Follow(Begin(n), es).value.s.actors| && Follow(Begin(n), es).value.s.actors[j].Found?
    ensures SplitAt(Begin(n), es, k, Follow(Begin(n), es).value.s.actors[j].p.id)
    ensures Own(Follow(Begin(n), es).value, j, Follow(Begin(n), es).value.s.actors[j].p.id)
       <==> j == es[k].i && !Disturbed(Turn(Follow(Begin(n), es[..k]).value, es[k]), es[k + 1..], es[k].i)
  {
    var o, g := Begin(n), Follow(Begin(n), es).value;
    var id := g.s.actors[j].p.id;
    BeginSound(n);
    HeldSplitRun(o, es);
    assert HeldBy(g.s.actors[j]) == Some(id);
    k := WhenSplit(o, es, id);
    var v := Follow(o, es[..k]).value;
    FollowTrace(o, es[..k]);
    SoundTurn(v, es[k]);
    KeptIff(Turn(v, es[k]), es[k + 1..], es[k].i, id, j);
  }

  // ----- what is freed -----

  /** Every write-back on the way frees an array, and one not freed before. */
  predicate FreesFresh(w: World, es: seq<Event>)
    decreases |es|
  {
    es != [] && Do(w.s, es[0]).Next? && es[0].i < |w.fba| ==>
      && (Frees(w, es[0]) ==> w.fba[es[0].i].Some? && w.fba[es[0].i] !in w.gone)
      && FreesFresh(Turn(w, es[0]), es[1..])
  }

  ghost predicate FreedOnce(w: World) {
    w.gone[None] == 0 && forall id {:trigger w.gone[Some(id)]} :: w.gone[Some(id)] <= 1
  }

  lemma {:induction false} GoneGrows(w: World, es: seq<Event>, a: Option<nat>)
    requires Follow(w, es).Some?
    ensures w.gone[a] <= Follow(w, es).value.gone[a]
    decreases |es|
  {
    if es != [] { GoneGrows(Turn(w, es[0]), es[1..], a); }
  }

  lemma {:induction false} FreedOnceIff(w: World, es: seq<Event>)
    requires FreedOnce(w) && Follow(w, es).Some?
    ensures FreedOnce(Follow(w, es).value) <==> FreesFresh(w, es)
    decreases |es|
  {
    if es != [] {
      var e, t := es[0], Turn(w, es[0]);
      if Frees(w, e) && !(w.fba[e.i].Some? && w.fba[e.i] !in w.gone) {
        GoneGrows(t, es[1..], w.fba[e.i]);
      } else {
        FreedOnceIff(t, es[1..]);
      }
    }
  }

  // ----- runs of packets in turn -----

  ghost predicate InTurnTo(o: World, es: seq<Event>, w: World) {
    AllInTurn(o.s, es) && AllOpened(o.s, es) && Follow(o, es) == Some(w)
  }

  ghost predicate Gets(o: World, w: World) {
    exists es :: InTurnTo(o, es, w)
  }

  lemma Stay(w: World)
    ensures Gets(w, w)
  {
    assert InTurnTo(w, [], w);
  }

  lemma {:induction false} OneMore(o: World, es: seq<Event>, w: World, e: Event)
    requires InTurnTo(o, es, w) && InTurn(w.s, e) && Opened(w.s, e) && Do(w.s, e).Next? && e.i < |w.fba|
    ensures InTurnTo(o, es + [e], Turn(w, e))
    decreases |es|
  {
    if es == [] {
      assert (es + [e])[1..] == [] && (es + [e])[0] == e;
    } else {
      assert (es + [e])[1..] == es[1..] + [e] && (es + [e])[0] == es[0];
      OneMore(Turn(o, es[0]), es[1..], w, e);
    }
  }

  lemma Hop(o: World, w: World, e: Event, t: World)
    requires Gets(o, w) && InTurn(w.s, e) && Opened(w.s, e) && Do(w.s, e).Next? && e.i < |w.fba| && t == Turn(w, e)
    ensures Gets(o, t)
  {
    var es :| InTurnTo(o, es, w);
    OneMore(o, es, w, e);
  }

  /** A step that neither takes a packet nor comes to write_back. */
  lemma Glide(o: World, w: World, s: State, e: Event, s': State)
    requires Gets(o, w.(s := s)) && !e.Receive? && Do(s, e) == Next(s') && e.i < |s.actors| == |w.fba|
    requires s.actors[e.i] != Woken(Rpkg) && !s.actors[e.i].Ran?
    ensures Gets(o, w.(s := s'))
  {
    Hop(o, w.(s := s), e, w.(s := s'));
  }

  /** Worker i has just run a bytecode; no flag but bootstrap is set. */
  lemma Tests(o: World, w: World, s: State, i: nat, s': State)
    requires Gets(o, w.(s := s)) && i < |s.actors| == |w.fba| && s.actors[i].Ran? && s.actors[i].c < |s.ccbs|
    requires !s.ccbs[s.actors[i].c].writeBack
    requires s' == s.(actors := s.actors[i := Testing(s.actors[i].p, s.actors[i].c, true)])
    ensures Gets(o, w.(s := s'))
  {
    Hop(o, w.(s := s), Go(i), w.(s := s'));
  }

  /** Worker i frees its packet and what its variable points to. */
  lemma Lets(o: World, w: World, s: State, i: nat, s': State)
    requires Gets(o, w.(s := s)) && i < |s.actors| == |w.fba| && s.actors[i].Ran? && s.actors[i].c < |s.ccbs|
    requires s.ccbs[s.actors[i].c].writeBack
    requires s' == s.(freed := s.freed + multiset{s.actors[i].p.id},
                      actors := s.actors[i := Clearing(s.actors[i].p, s.actors[i].c)])
    ensures Gets(o, w.(s := s', gone := w.gone + multiset{w.fba[i]}))
  {
    Hop(o, w.(s := s), Go(i), w.(s := s', gone := w.gone + multiset{w.fba[i]}));
  }

  /** Worker i takes the front packet. */
  lemma Dequeues(o: World, w: World, s: State, i: nat, s': State)
    requires Gets(o, w.(s := s)) && i < |s.actors| == |w.fba| && s.actors[i] == Woken(Rpkg) && s.r.q != []
    requires s' == s.(r := Channel(s.r.q[1..], s.r.sem), actors := s.actors[i := Got(s.r.q[0])])
    ensures Gets(o, Split(w, s', i, s.r.q[0].id))
  {
    var id := s.r.q[0].id;
    assert id in w.split ==> w.split + {id} == w.split;
    Hop(o, w.(s := s), Go(i), Split(w, s', i, id));
  }

  /** The world when worker i has split packet id, if that is new. */
  function Split(w: World, s: State, i: nat, id: nat): World
    requires i < |w.fba|
  {
    World(s, if id in w.split then w.fba else w.fba[i := Some(id)], w.split + {id}, w.gone)
  }

  /** The first packet of a session arrives. */
  lemma Arrives(o: World, w: World, x: int) returns (s: State)
    requires Gets(o, w) && |w.s.actors| == |w.fba| > 0 && w.s.actors[0] == Polling && InService(w.s, x) == 0
    ensures Gets(o, w.(s := s))
    ensures s == w.s.(next := w.s.next + 1, ccbs := w.s.ccbs + [Ccb(x, false, false)],
                      actors := w.s.actors[0 := Received(Packet(w.s.next, x), Data)])
  {
    var s0, p := w.s, Packet(w.s.next, x);
    var s1 := s0.(next := s0.next + 1, actors := s0.actors[0 := Received(p, CreateCcb)]);
    Hop(o, w, Receive(0, CreateCcb, x), w.(s := s1));
    s := s1.(ccbs := s0.ccbs + [Ccb(x, false, false)], actors := s0.actors[0 := Received(p, Data)]);
    assert s1.actors[0 := Received(p, Data)] == s.actors;
    Glide(o, w, s1, Go(0), s);
  }

  /** And is queued. */
  lemma Queues(o: World, w: World, s: State, p: Packet) returns (t: State)
    requires Gets(o, w.(s := s)) && |s.actors| == |w.fba| > 0 && s.actors[0] == Received(p, Data)
    ensures Gets(o, w.(s := t))
    ensures t == s.(r := Channel(s.r.q + [p], s.r.sem + 1), actors := s.actors[0 := Polling])
  {
    var s1 := s.(r := Channel(s.r.q + [p], s.r.sem), actors := s.actors[0 := Posting(Rpkg, ToPoll)]);
    Glide(o, w, s, Go(0), s1);
    t := s.(r := Channel(s.r.q + [p], s.r.sem + 1), actors := s.actors[0 := Polling]);
    assert s1.actors[0 := Polling] == t.actors;
    Glide(o, w, s1, Go(0), t);
  }

  lemma Enters(o: World, w: World, x: int) returns (t: World)
    requires Gets(o, w) && |w.s.actors| == |w.fba| > 0 && w.s.actors[0] == Polling && InService(w.s, x) == 0
    ensures Gets(o, t)
    ensures t == w.(s := w.s.(next := w.s.next + 1, ccbs := w.s.ccbs + [Ccb(x, false, false)],
                              r := Channel(w.s.r.q + [Packet(w.s.next, x)], w.s.r.sem + 1)))
  {
    var s1 := Arrives(o, w, x);
    var s2 := Queues(o, w, s1, Packet(w.s.next, x));
    assert s2.actors == w.s.actors;
    t := w.(s := s2);
  }

  /** Worker i takes the front packet and fetches its CCB. */
  lemma Takes(o: World, w: World, i: nat) returns (t: World)
    requires Gets(o, w) && i < |w.s.actors| == |w.fba| && w.s.actors[i] == Waiting(Rpkg)
    requires w.s.r.q != [] && w.s.r.sem > 0 && Known(w.s.ccbs, w.s.r.q[0].session)
    ensures Gets(o, t)
    ensures var p := w.s.r.q[0];
            t == Split(w, w.s.(r := Channel(w.s.r.q[1..], w.s.r.sem - 1),
                               actors := w.s.actors[i := Found(p, Fetch(w.s.ccbs, p.session))]), i, p.id)
  {
    var s, p := w.s, w.s.r.q[0];
    var s1 := s.(r := Channel(s.r.q, s.r.sem - 1), actors := s.actors[i := Woken(Rpkg)]);
    Glide(o, w, s, Go(i), s1);
    var s2 := s.(r := Channel(s.r.q[1..], s.r.sem - 1), actors := s.actors[i := Got(p)]);
    assert s1.actors[i := Got(p)] == s2.actors;
    Dequeues(o, w, s1, i, s2);
    t := Split(w, s2, i, p.id);
    Fetches(o, t, i);
    t := t.(s := s2.(actors := s2.actors[i := Found(p, Fetch(s.ccbs, p.session))]));
    assert s2.actors[i := Found(p, Fetch(s.ccbs, p.session))] == s.actors[i := Found(p, Fetch(s.ccbs, p.session))];
  }

  lemma Fetches(o: World, w: World, i: nat)
    requires Gets(o, w) && i < |w.s.actors| == |w.fba| && w.s.actors[i].Got?
    requires Known(w.s.ccbs, w.s.actors[i].p.session)
    ensures var p := w.s.actors[i].p;
            Gets(o, w.(s := w.s.(actors := w.s.actors[i := Found(p, Fetch(w.s.ccbs, p.session))])))
  {
    var p := w.s.actors[i].p;
    Glide(o, w, w.s, Go(i), w.s.(actors := w.s.actors[i := Found(p, Fetch(w.s.ccbs, p.session))]));
  }

  predicate AtClear(s: State, i: nat) {
    && i < |s.actors| && s.actors[i].Found? && s.actors[i].c < |s.ccbs|
    && !s.ccbs[s.actors[i].c].writeBack && !s.ccbs[s.actors[i].c].bootstrap
  }

  /** A bytecode that asks for a bootstrap. */
  lemma Asks(o: World, w: World, i: nat) returns (s: State)
    requires Gets(o, w) && |w.s.actors| == |w.fba| && AtClear(w.s, i)
    ensures Gets(o, w.(s := s))
    ensures var p, c := w.s.actors[i].p, w.s.actors[i].c;
            s == w.s.(ccbs := w.s.ccbs[c := w.s.ccbs[c].(bootstrap := true)],
                      actors := w.s.actors[i := Testing(p, c, true)])
  {
    var s0, p, c := w.s, w.s.actors[i].p, w.s.actors[i].c;
    var s1 := s0.(ccbs := s0.ccbs[c := s0.ccbs[c].(bootstrap := true)], actors := s0.actors[i := Ran(p, c)]);
    Glide(o, w, s0, Run(i, ExtAuth), s1);
    s := s1.(actors := s0.actors[i := Testing(p, c, true)]);
    assert s1.actors[i := Testing(p, c, true)] == s.actors;
    Tests(o, w, s1, i, s);
  }

  /** It is found. */
  lemma Finds(o: World, w: World, s: State, i: nat) returns (t: State)
    requires Gets(o, w.(s := s)) && i < |s.actors| == |w.fba| && s.actors[i].Testing?
    requires s.actors[i].c < |s.ccbs| && s.ccbs[s.actors[i].c].bootstrap
    ensures Gets(o, w.(s := t))
    ensures var c := s.actors[i].c;
            t == s.(ccbs := s.ccbs[c := s.ccbs[c].(bootstrap := false)],
                    actors := s.actors[i := Requeueing(s.actors[i].p, s.actors[i].live)])
  {
    var p, c, live := s.actors[i].p, s.actors[i].c, s.actors[i].live;
    var s1 := s.(actors := s.actors[i := Rebooting(p, c, live)]);
    Glide(o, w, s, Go(i), s1);
    t := s.(ccbs := s.ccbs[c := s.ccbs[c].(bootstrap := false)], actors := s.actors[i := Requeueing(p, live)]);
    assert s1.actors[i := Requeueing(p, live)] == t.actors;
    Glide(o, w, s1, Go(i), t);
  }

  lemma FindsBootstrap(o: World, w: World, i: nat) returns (s: State)
    requires Gets(o, w) && |w.s.actors| == |w.fba| && AtClear(w.s, i)
    ensures Gets(o, w.(s := s)) && s == w.s.(actors := w.s.actors[i := Requeueing(w.s.actors[i].p, true)])
  {
    var s1 := Asks(o, w, i);
    s := Finds(o, w, s1, i);
    assert s.actors == w.s.actors[i := Requeueing(w.s.actors[i].p, true)] && s.ccbs == w.s.ccbs;
  }

  /** And the packet goes back to the queue. */
  lemma Returns(o: World, w: World, s: State, i: nat) returns (t: State)
    requires Gets(o, w.(s := s)) && i < |s.actors| == |w.fba| && s.actors[i].Requeueing? && s.actors[i].live
    ensures Gets(o, w.(s := t))
    ensures t == s.(r := Channel(s.r.q + [s.actors[i].p], s.r.sem + 1), actors := s.actors[i := Waiting(Rpkg)])
  {
    var p := s.actors[i].p;
    var s1 := s.(r := Channel(s.r.q + [p], s.r.sem), actors := s.actors[i := Posting(Rpkg, ToWait)]);
    Glide(o, w, s, Go(i), s1);
    t := s.(r := Channel(s.r.q + [p], s.r.sem + 1), actors := s.actors[i := Waiting(Rpkg)]);
    assert s1.actors[i := Waiting(Rpkg)] == t.actors;
    Glide(o, w, s1, Go(i), t);
  }

  lemma Bootstraps(o: World, w: World, i: nat) returns (t: World)
    requires Gets(o, w) && |w.s.actors| == |w.fba| && AtClear(w.s, i)
    ensures Gets(o, t)
    ensures t == w.(s := w.s.(r := Channel(w.s.r.q + [w.s.actors[i].p], w.s.r.sem + 1),
                              actors := w.s.actors[i := Waiting(Rpkg)]))
  {
    var s1 := FindsBootstrap(o, w, i);
    var s2 := Returns(o, w, s1, i);
    assert s2.actors == w.s.actors[i := Waiting(Rpkg)];
    t := w.(s := s2);
  }

  /** A bytecode that replies: the packet is freed, and what the worker's variable points to. */
  lemma Answers(o: World, w: World, i: nat) returns (s: State)
    requires Gets(o, w) && |w.s.actors| == |w.fba| && AtClear(w.s, i)
    ensures Gets(o, w.(s := s, gone := w.gone + multiset{w.fba[i]}))
    ensures var p, c := w.s.actors[i].p, w.s.actors[i].c;
            s == w.s.(ccbs := w.s.ccbs[c := w.s.ccbs[c].(writeBack := true)], freed := w.s.freed + multiset{p.id},
                      actors := w.s.actors[i := Clearing(p, c)])
  {
    var s0, p, c := w.s, w.s.actors[i].p, w.s.actors[i].c;
    var s1 := s0.(ccbs := s0.ccbs[c := s0.ccbs[c].(writeBack := true)], actors := s0.actors[i := Ran(p, c)]);
    Glide(o, w, s0, Run(i, Select), s1);
    s := s1.(freed := s0.freed + multiset{p.id}, actors := s0.actors[i := Clearing(p, c)]);
    assert s1.actors[i := Clearing(p, c)] == s.actors;
    Lets(o, w, s1, i, s);
  }

  /** The worker's own steps from there to its wait. */
  lemma Replies(o: World, w: World, i: nat) returns (s: State)
    requires Gets(o, w) && i < |w.s.actors| == |w.fba| && w.s.actors[i].Clearing? && w.s.actors[i].c < |w.s.ccbs|
    ensures Gets(o, w.(s := s))
    ensures var c, p, q := w.s.actors[i].c, w.s.actors[i].p, w.s.w.q;
            s == w.s.(ccbs := w.s.ccbs[c := w.s.ccbs[c].(writeBack := false)], next := w.s.next + 1,
                      w := Channel(q + [Packet(w.s.next, w.s.ccbs[c].session)], w.s.w.sem),
                      actors := w.s.actors[i := Posting(Wpkg, ToTest(p, c))])
  {
    var a, p, c := w.s.actors, w.s.actors[i].p, w.s.actors[i].c;
    var off := w.s.ccbs[c := w.s.ccbs[c].(writeBack := false)];
    var out := Packet(w.s.next, w.s.ccbs[c].session);
    var s1 := w.s.(ccbs := off, next := w.s.next + 1, actors := a[i := Replying(out, p, c)]);
    Glide(o, w, w.s, Go(i), s1);
    s := s1.(w := Channel(w.s.w.q + [out], w.s.w.sem), actors := a[i := Posting(Wpkg, ToTest(p, c))]);
    assert s1.actors[i := Posting(Wpkg, ToTest(p, c))] == s.actors;
    Glide(o, w, s1, Go(i), s);
  }

  lemma Rests(o: World, w: World, i: nat) returns (s: State)
    requires Gets(o, w) && i < |w.s.actors| == |w.fba| && w.s.actors[i].Posting? && w.s.actors[i].ch == Wpkg
    requires w.s.actors[i].back.ToTest? && w.s.actors[i].back.c < |w.s.ccbs|
    requires !w.s.ccbs[w.s.actors[i].back.c].bootstrap
    ensures Gets(o, w.(s := s)) && s.ccbs == w.s.ccbs && s.r == w.s.r && s.actors == w.s.actors[i := Waiting(Rpkg)]
  {
    var a, p, c := w.s.actors, w.s.actors[i].back.p, w.s.actors[i].back.c;
    var s1 := w.s.(w := Channel(w.s.w.q, w.s.w.sem + 1), actors := a[i := Testing(p, c, false)]);
    Glide(o, w, w.s, Go(i), s1);
    s := s1.(actors := a[i := Waiting(Rpkg)]);
    assert s1.actors[i := Waiting(Rpkg)] == s.actors;
    Glide(o, w, s1, Go(i), s);
  }

  lemma WritesBack(o: World, w: World, i: nat) returns (t: World)
    requires Gets(o, w) && |w.s.actors| == |w.fba| && AtClear(w.s, i)
    ensures Gets(o, t) && t.fba == w.fba && t.split == w.split && t.gone == w.gone + multiset{w.fba[i]}
    ensures t.s.r == w.s.r && t.s.ccbs == w.s.ccbs && t.s.actors == w.s.actors[i := Waiting(Rpkg)]
  {
    var c := w.s.actors[i].c;
    var s1 := Answers(o, w, i);
    t := w.(s := s1, gone := w.gone + multiset{w.fba[i]});
    var s2 := Replies(o, t, i);
    assert s2.ccbs == w.s.ccbs;
    t := t.(s := s2);
    var s3 := Rests(o, t, i);
    assert s3.actors == w.s.actors[i := Waiting(Rpkg)];
    t := t.(s := s3);
  }

  lemma NoneServed(n: nat, x: int)
    ensures InService(Start(n), x) == 0
  {
    CountIdle(Start(n).actors, Served(x));
  }

  /** A worker about to run a packet's bytecode, with what its variable points to. */
  predicate Dispatching(w: World, i: nat, p: Packet, a: Option<nat>) {
    i < |w.s.actors| == |w.fba| && w.s.actors[i].Found? && w.s.actors[i].p == p && w.fba[i] == a
  }

  lemma ServedMore(s: State, t: State, p: Packet, x: int)
    requires t.actors == s.actors && t.r.q == s.r.q + [p]
    ensures InService(t, x) == InService(s, x) + One(p.session == x)
  {
    CountAppend(s.r.q, p, Served(x));
  }

  /** The first packets of two sessions. */
  lemma BothEnter(o: World, w: World, x: int, y: int) returns (t: World)
    requires Gets(o, w) && |w.s.actors| == |w.fba| > 0 && w.s.actors[0] == Polling
    requires InService(w.s, x) == 0 && InService(w.s, y) == 0 && x != y
    ensures Gets(o, t)
    ensures var ccbs := w.s.ccbs + [Ccb(x, false, false)] + [Ccb(y, false, false)];
            var q := w.s.r.q + [Packet(w.s.next, x)] + [Packet(w.s.next + 1, y)];
            t == w.(s := w.s.(next := w.s.next + 2, ccbs := ccbs, r := Channel(q, w.s.r.sem + 2)))
  {
    t := Enters(o, w, x);
    ServedMore(w.s, t.s, Packet(w.s.next, x), y);
    t := Enters(o, t, y);
  }

  /** Worker i takes the front packet, which goes back to the queue. */
  lemma GoesRound(o: World, w: World, i: nat) returns (t: World)
    requires Gets(o, w) && i < |w.s.actors| == |w.fba| && w.s.actors[i] == Waiting(Rpkg)
    requires w.s.r.q != [] && w.s.r.sem > 0
    requires var c := Fetch(w.s.ccbs, w.s.r.q[0].session);
             c < |w.s.ccbs| && !w.s.ccbs[c].writeBack && !w.s.ccbs[c].bootstrap
    ensures Gets(o, t)
    ensures var p := w.s.r.q[0];
            t == Split(w, w.s.(r := Channel(w.s.r.q[1..] + [p], w.s.r.sem)), i, p.id)
  {
    t := Takes(o, w, i);
    t := Bootstraps(o, t, i);
    assert t.s.actors == w.s.actors;
  }

  /** A packet that worker 2 has split is back in the queue. */
  lemma BackInQueue(n: nat) returns (w: World)
    requires n >= 2
    ensures Gets(Begin(n), w) && w.s.r == Channel([Packet(0, 7)], 1) && w.s.ccbs == [Ccb(7, false, false)]
    ensures |w.s.actors| == |w.fba| == n + 2 && w.s.actors[3] == Waiting(Rpkg) && w.fba[3] == None
    ensures w.split == {0} && w.gone == multiset{}
  {
    var o := Begin(n);
    Stay(o);
    NoneServed(n, 7);
    w := Enters(o, o, 7);
    assert w.s.r.q == [Packet(0, 7)] && w.s.ccbs == [Ccb(7, false, false)];
    w := GoesRound(o, w, 2);
  }

  /** Even when packets come in turn: of two workers the one to which a bootstrapped packet comes back may
      never have split any, and then runs the packet's bytecode with a variable that has not been set, and
      frees what that points to. */
  lemma UnsetInTurn(n: nat) returns (w: World, t: World)
    requires n >= 2
    ensures Gets(Begin(n), w) && Dispatching(w, 3, Packet(0, 7), None)
    ensures Gets(w, t) && t.gone == multiset{None}
  {
    w := BackInQueue(n);
    w := Takes(Begin(n), w, 3);
    Stay(w);
    t := WritesBack(w, w, 3);
  }

  /** A packet of session 7 is bootstrapped behind one of session 8. */
  lemma Overtaken(n: nat) returns (w: World)
    requires n >= 1
    ensures Gets(Begin(n), w) && w.s.r == Channel([Packet(1, 8), Packet(0, 7)], 2)
    ensures w.s.ccbs == [Ccb(7, false, false), Ccb(8, false, false)]
    ensures |w.s.actors| == |w.fba| == n + 2 && w.s.actors[2] == Waiting(Rpkg)
    ensures w.split == {0} && w.gone == multiset{}
  {
    var o := Begin(n);
    Stay(o);
    NoneServed(n, 7);
    NoneServed(n, 8);
    w := BothEnter(o, o, 7, 8);
    assert w.s.r.q == [Packet(0, 7), Packet(1, 8)] && w.s.ccbs == [Ccb(7, false, false), Ccb(8, false, false)];
    w := GoesRound(o, w, 2);
  }

  /** With any number of workers, another packet may come in between: the first then runs with the other's
      array, which has been freed, and frees it again. */
  lemma FreedTwiceInTurn(n: nat) returns (w: World, t: World)
    requires n >= 1
    ensures Gets(Begin(n), w) && Dispatching(w, 2, Packet(0, 7), Some(1)) && w.gone == multiset{Some(1)}
    ensures Gets(w, t) && t.gone == multiset{Some(1), Some(1)}
  {
    var o := Begin(n);
    w := Overtaken(n);
    w := Takes(o, w, 2);
    w := WritesBack(o, w, 2);
    assert w.s.r.q == [Packet(0, 7)];
    w := Takes(o, w, 2);
    Stay(w);
    t := WritesBack(w, w, 2);
  }
}
