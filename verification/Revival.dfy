/** When a packet may arrive: exactly when none of its session is in service (tsm_vm.c, tsm_router.c). */
module Revival {
  import opened Protocol

  // ----- runs without arrivals -----

  predicate Quiet(es: seq<Event>) {
    forall e :: e in es ==> !e.Receive?
  }

  ghost predicate Reaches(s: State, t: State) {
    exists es :: Quiet(es) && Trace(s, es) == Next(t)
  }

  lemma {:induction false} TraceOn(s: State, es: seq<Event>, e: Event)
    requires Trace(s, es).Next?
    ensures Trace(s, es + [e]) == Do(Trace(s, es).s, e)
    decreases |es|
  {
    if es == [] {
      assert (es + [e])[0] == e && (es + [e])[1..] == [];
    } else {
      assert (es + [e])[1..] == es[1..] + [e];
      TraceOn(Do(s, es[0]).s, es[1..], e);
    }
  }

  lemma Stay(s: State)
    ensures Reaches(s, s)
  {
    assert Quiet([]) && Trace(s, []) == Next(s);
  }

  lemma Hop(o: State, s: State, t: State, e: Event)
    requires Reaches(o, s) && !e.Receive? && Do(s, e) == Next(t)
    ensures Reaches(o, t)
  {
    var es :| Quiet(es) && Trace(o, es) == Next(s);
    TraceOn(o, es, e);
    assert Quiet(es + [e]) && Trace(o, es + [e]) == Next(t);
  }

  // ----- what one worker does with one packet -----

  predicate Clear(s: State, c: nat) {
    c < |s.ccbs| && !s.ccbs[c].writeBack && !s.ccbs[c].bootstrap
  }

  /** The reader queues the packet it has received. */
  lemma Queued(o: State, s: State, p: Packet) returns (t: State)
    requires Reaches(o, s) && |s.actors| > 0 && s.actors[0] == Received(p, Data)
    ensures Reaches(o, t)
    ensures t == s.(r := Channel(s.r.q + [p], s.r.sem + 1), actors := s.actors[0 := Polling])
  {
    var s1 := s.(r := Channel(s.r.q + [p], s.r.sem), actors := s.actors[0 := Posting(Rpkg, ToPoll)]);
    Hop(o, s, s1, Go(0));
    t := s.(r := Channel(s.r.q + [p], s.r.sem + 1), actors := s.actors[0 := Polling]);
    assert s1.actors[0 := Polling] == t.actors;
    Hop(o, s1, t, Go(0));
  }

  /** Worker i takes the front packet and fetches the CCB of its session. */
  lemma Taken(o: State, s: State, i: nat) returns (t: State)
    requires Reaches(o, s) && i < |s.actors| && s.actors[i] == Waiting(Rpkg)
    requires s.r.q != [] && s.r.sem > 0 && Known(s.ccbs, s.r.q[0].session)
    ensures Reaches(o, t)
    ensures t == s.(r := Channel(s.r.q[1..], s.r.sem - 1),
                    actors := s.actors[i := Found(s.r.q[0], Fetch(s.ccbs, s.r.q[0].session))])
  {
    var p := s.r.q[0];
    var s1 := s.(r := Channel(s.r.q, s.r.sem - 1), actors := s.actors[i := Woken(Rpkg)]);
    Hop(o, s, s1, Go(i));
    var s2 := s.(r := Channel(s.r.q[1..], s.r.sem - 1), actors := s.actors[i := Got(p)]);
    assert s1.actors[i := Got(p)] == s2.actors;
    Hop(o, s1, s2, Go(i));
    t := s2.(actors := s.actors[i := Found(p, Fetch(s.ccbs, p.session))]);
    assert s2.actors[i := Found(p, Fetch(s.ccbs, p.session))] == t.actors;
    Hop(o, s2, t, Go(i));
  }

  /** A bytecode that sets no flag: the packet is dropped. */
  lemma Dropped(o: State, s: State, i: nat) returns (t: State)
    requires Reaches(o, s) && i < |s.actors| && s.actors[i].Found? && Clear(s, s.actors[i].c)
    ensures Reaches(o, t)
    ensures t == s.(lost := s.lost + multiset{s.actors[i].p.id}, actors := s.actors[i := Waiting(Rpkg)])
  {
    var p, c := s.actors[i].p, s.actors[i].c;
    var s1 := s.(actors := s.actors[i := Ran(p, c)]);
    assert s.ccbs[c := s.ccbs[c]] == s.ccbs;
    Hop(o, s, s1, Run(i, Other));
    var s2 := s.(actors := s.actors[i := Testing(p, c, true)]);
    assert s1.actors[i := Testing(p, c, true)] == s2.actors;
    Hop(o, s1, s2, Go(i));
    t := s.(lost := s.lost + multiset{p.id}, actors := s.actors[i := Waiting(Rpkg)]);
    assert s2.actors[i := Waiting(Rpkg)] == t.actors;
    Hop(o, s2, t, Go(i));
  }

  lemma Freed(o: State, s: State, i: nat) returns (t: State)
    requires Reaches(o, s) && i < |s.actors| && s.actors[i].Found? && Clear(s, s.actors[i].c)
    ensures Reaches(o, t)
    ensures t == s.(next := s.next + 1, freed := s.freed + multiset{s.actors[i].p.id},
                    actors := s.actors[i := Replying(Packet(s.next, s.ccbs[s.actors[i].c].session),
                                                     s.actors[i].p, s.actors[i].c)])
  {
    var p, c := s.actors[i].p, s.actors[i].c;
    var ccb := s.ccbs[c];
    var s1 := s.(ccbs := s.ccbs[c := ccb.(writeBack := true)], actors := s.actors[i := Ran(p, c)]);
    Hop(o, s, s1, Run(i, Select));
    var s2 := s1.(freed := s.freed + multiset{p.id}, actors := s.actors[i := Clearing(p, c)]);
    assert s1.actors[i := Clearing(p, c)] == s2.actors;
    Hop(o, s1, s2, Go(i));
    t := s.(next := s.next + 1, freed := s.freed + multiset{p.id},
            actors := s.actors[i := Replying(Packet(s.next, ccb.session), p, c)]);
    assert s2.actors[i := t.actors[i]] == t.actors && s1.ccbs[c := ccb] == s.ccbs;
    Hop(o, s2, t, Go(i));
  }

  /** A bytecode that replies: the packet is freed, and the worker is yet to test bootstrap. */
  lemma Replied(o: State, s: State, i: nat) returns (t: State)
    requires Reaches(o, s) && i < |s.actors| && s.actors[i].Found? && Clear(s, s.actors[i].c)
    ensures Reaches(o, t)
    ensures t == s.(next := s.next + 1, freed := s.freed + multiset{s.actors[i].p.id},
                    w := Channel(s.w.q + [Packet(s.next, s.ccbs[s.actors[i].c].session)], s.w.sem + 1),
                    actors := s.actors[i := Testing(s.actors[i].p, s.actors[i].c, false)])
  {
    var p, c := s.actors[i].p, s.actors[i].c;
    var s1 := Freed(o, s, i);
    var out := Packet(s.next, s.ccbs[c].session);
    var s2 := s1.(w := Channel(s.w.q + [out], s.w.sem), actors := s.actors[i := Posting(Wpkg, ToTest(p, c))]);
    assert s1.actors[i := s2.actors[i]] == s2.actors;
    Hop(o, s1, s2, Go(i));
    t := s2.(w := Channel(s.w.q + [out], s.w.sem + 1), actors := s.actors[i := Testing(p, c, false)]);
    assert s2.actors[i := t.actors[i]] == t.actors;
    Hop(o, s2, t, Go(i));
  }

  /** Worker j runs a bytecode that asks for a bootstrap while worker i, on the same CCB, has freed its
      packet and is yet to test bootstrap: worker i queues the freed packet. */
  lemma Revived(o: State, s: State, i: nat, j: nat) returns (t: State)
    requires Reaches(o, s) && i < |s.actors| && j < |s.actors| && i != j
    requires s.actors[i].Testing? && !s.actors[i].live && s.actors[j].Found?
    requires s.actors[i].c == s.actors[j].c < |s.ccbs|
    ensures Reaches(o, t) && t.next == s.next && t.freed == s.freed && t.r.q == s.r.q + [s.actors[i].p]
    ensures t.revived == s.revived + multiset{s.actors[i].p.id}
  {
    var p, c := s.actors[i].p, s.actors[i].c;
    var s1 := s.(ccbs := s.ccbs[c := s.ccbs[c].(bootstrap := true)], actors := s.actors[j := Ran(s.actors[j].p, c)]);
    Hop(o, s, s1, Run(j, ExtAuth));
    t := Requeued(o, s1, i);
  }

  lemma Requeued(o: State, s: State, i: nat) returns (t: State)
    requires Reaches(o, s) && i < |s.actors| && s.actors[i].Testing? && !s.actors[i].live
    requires s.actors[i].c < |s.ccbs| && s.ccbs[s.actors[i].c].bootstrap
    ensures Reaches(o, t) && t.next == s.next && t.freed == s.freed && t.r.q == s.r.q + [s.actors[i].p]
    ensures t.revived == s.revived + multiset{s.actors[i].p.id}
  {
    var p, c := s.actors[i].p, s.actors[i].c;
    var s1 := s.(actors := s.actors[i := Rebooting(p, c, false)]);
    Hop(o, s, s1, Go(i));
    var s2 := s1.(ccbs := s.ccbs[c := s.ccbs[c].(bootstrap := false)], actors := s1.actors[i := Requeueing(p, false)]);
    Hop(o, s1, s2, Go(i));
    t := s2.(revived := s.revived + multiset{p.id}, r := Channel(s.r.q + [p], s.r.sem),
             actors := s2.actors[i := Posting(Rpkg, ToWait)]);
    Hop(o, s2, t, Go(i));
  }

  /** Worker j asks for a bootstrap while worker i, on the same CCB with a live packet, is yet to test for
      one: both find it. */
  lemma BothFind(o: State, s: State, i: nat, j: nat) returns (t: State)
    requires Reaches(o, s) && i < |s.actors| && j < |s.actors| && i != j
    requires s.actors[i].Testing? && s.actors[i].live && s.actors[j].Found? && s.actors[i].c == s.actors[j].c
    requires Clear(s, s.actors[i].c)
    ensures Reaches(o, t)
    ensures var c := s.actors[i].c;
            t == s.(ccbs := s.ccbs[c := s.ccbs[c].(bootstrap := true)],
                    actors := s.actors[i := Rebooting(s.actors[i].p, c, true)][j := Rebooting(s.actors[j].p, c, true)])
  {
    var p, p2, c := s.actors[i].p, s.actors[j].p, s.actors[i].c;
    var a := s.actors[i := Rebooting(p, c, true)];
    var s1 := s.(ccbs := s.ccbs[c := s.ccbs[c].(bootstrap := true)], actors := s.actors[j := Ran(p2, c)]);
    Hop(o, s, s1, Run(j, ExtAuth));
    var s2 := s1.(actors := a[j := Ran(p2, c)]);
    assert s1.actors[i := Rebooting(p, c, true)] == s2.actors;
    Hop(o, s1, s2, Go(i));
    var s3 := s1.(actors := a[j := Testing(p2, c, true)]);
    assert s2.actors[j := Testing(p2, c, true)] == s3.actors;
    Hop(o, s2, s3, Go(j));
    t := s1.(actors := a[j := Rebooting(p2, c, true)]);
    assert s3.actors[j := Rebooting(p2, c, true)] == t.actors;
    Hop(o, s3, t, Go(j));
  }

  /** Both clear it, and both packets are on their way back to the queue. */
  lemma BothClear(o: State, s: State, i: nat, j: nat) returns (t: State)
    requires Reaches(o, s) && i < |s.actors| && j < |s.actors| && i != j
    requires s.actors[i].Rebooting? && s.actors[j].Rebooting? && s.actors[i].c == s.actors[j].c < |s.ccbs|
    ensures Reaches(o, t)
    ensures var c := s.actors[i].c;
            t == s.(ccbs := s.ccbs[c := s.ccbs[c].(bootstrap := false)],
                    actors := s.actors[i := Requeueing(s.actors[i].p, s.actors[i].live)]
                              [j := Requeueing(s.actors[j].p, s.actors[j].live)])
  {
    var c := s.actors[i].c;
    var off := s.ccbs[c := s.ccbs[c].(bootstrap := false)];
    var a := s.actors[i := Requeueing(s.actors[i].p, s.actors[i].live)];
    var s1 := s.(ccbs := off, actors := a);
    Hop(o, s, s1, Go(i));
    t := s.(ccbs := off, actors := a[j := Requeueing(s.actors[j].p, s.actors[j].live)]);
    assert off[c := off[c].(bootstrap := false)] == off;
    Hop(o, s1, t, Go(j));
  }

  /** A live packet goes back to the queue. */
  lemma Returned(o: State, s: State, i: nat) returns (t: State)
    requires Reaches(o, s) && i < |s.actors| && s.actors[i].Requeueing? && s.actors[i].live
    ensures Reaches(o, t)
    ensures t == s.(r := Channel(s.r.q + [s.actors[i].p], s.r.sem + 1), actors := s.actors[i := Waiting(Rpkg)])
  {
    var p := s.actors[i].p;
    var s1 := s.(r := Channel(s.r.q + [p], s.r.sem), actors := s.actors[i := Posting(Rpkg, ToWait)]);
    Hop(o, s, s1, Go(i));
    t := s.(r := Channel(s.r.q + [p], s.r.sem + 1), actors := s.actors[i := Waiting(Rpkg)]);
    assert s1.actors[i := Waiting(Rpkg)] == t.actors;
    Hop(o, s1, t, Go(i));
  }

  // ----- serving the queue -----

  predicate AllClear(s: State) {
    forall c :: 0 <= c < |s.ccbs| ==> !s.ccbs[c].writeBack && !s.ccbs[c].bootstrap
  }

  predicate AllKnown(s: State) {
    forall k :: 0 <= k < |s.r.q| ==> Known(s.ccbs, s.r.q[k].session)
  }

  /** Worker j drops the first m packets and holds the next. */
  lemma {:induction false} Drained(o: State, s: State, j: nat, m: nat) returns (t: State)
    requires Reaches(o, s) && j < |s.actors| && s.actors[j] == Waiting(Rpkg)
    requires m < |s.r.q| <= s.r.sem && AllKnown(s) && AllClear(s)
    ensures Reaches(o, t)
    ensures t == s.(r := Channel(s.r.q[m + 1..], s.r.sem - m - 1), lost := t.lost,
                    actors := s.actors[j := Found(s.r.q[m], Fetch(s.ccbs, s.r.q[m].session))])
    decreases m
  {
    t := Taken(o, s, j);
    if m > 0 {
      t := Dropped(o, t, j);
      assert t.actors == s.actors && t.r.q == s.r.q[1..];
      t := Drained(o, t, j, m - 1);
      assert s.r.q[1..][m..] == s.r.q[m + 1..];
    }
  }

  /** Two workers hold packets of one session before its bytecode: one replies, the other asks for a
      bootstrap, and the first packet is queued although it has been freed. */
  lemma Clash(o: State, s: State, i: nat, j: nat) returns (t: State)
    requires Reaches(o, s) && i < |s.actors| && j < |s.actors| && i != j
    requires s.actors[i].Found? && s.actors[j].Found? && s.actors[i].c == s.actors[j].c && Clear(s, s.actors[i].c)
    ensures Reaches(o, t) && t.revived == s.revived + multiset{s.actors[i].p.id}
  {
    t := Replied(o, s, i);
    t := Revived(o, t, i, j);
  }

  /** Both packets are at the front of an otherwise empty queue. */
  lemma ClashAgain(o: State, s: State, i: nat, j: nat) returns (t: State)
    requires Reaches(o, s) && i < |s.actors| && j < |s.actors| && i != j && s.r.q == [] && AllClear(s)
    requires s.actors[i].Requeueing? && s.actors[i].live && s.actors[j].Requeueing? && s.actors[j].live
    requires s.actors[i].p.session == s.actors[j].p.session && Known(s.ccbs, s.actors[i].p.session)
    ensures Reaches(o, t) && t.revived == s.revived + multiset{s.actors[i].p.id}
  {
    var p, p2 := s.actors[i].p, s.actors[j].p;
    t := Returned(o, s, i);
    t := Returned(o, t, j);
    assert t.r.q == [p, p2] && t.r.sem >= 2;
    t := Taken(o, t, i);
    assert t.r.q == [p2];
    t := Taken(o, t, j);
    t := Clash(o, t, i, j);
  }

  // ----- bringing every worker to a stop -----

  predicate Stands(a: seq<Pc>) {
    && |a| >= 4 && a[0] == Polling && RoleOf(a[1]) == Writer
    && forall k :: 2 <= k < |a| ==> RoleOf(a[k]) == Worker
  }

  ghost predicate Steady(s: State) {
    Alone(s) && Counted(s) && AllPlaced(s) && Stands(s.actors)
  }

  /** A worker asleep, or with a packet of session x and nothing to find at its test of bootstrap. */
  predicate Parked(s: State, k: nat, x: int)
    requires k < |s.actors|
  {
    var pc := s.actors[k];
    pc.Waiting? || (pc.Testing? && pc.p.session == x && pc.c < |s.ccbs| && !s.ccbs[pc.c].bootstrap)
  }

  /** The next step of worker k, which asks for a bootstrap if its packet is of session x. */
  function Ahead(s: State, k: nat, x: int): Event
    requires k < |s.actors|
  {
    var pc := s.actors[k];
    if pc.Found? then Run(k, if pc.p.session == x then ExtAuth else Other) else Go(k)
  }

  ghost predicate Nearer(s: State, t: State, k: nat, x: int) {
    && k < |s.actors| && k < |t.actors|
    && Rank(t.actors[k]) < Rank(s.actors[k]) && Leaves(s.actors[k], t.actors[k], x) == 0
  }

  lemma RankAtFlags(s: State, k: nat, c: nat, x: int)
    requires k < |s.actors| && c < |s.ccbs| && AtFlags(s.actors[k], c) > 0 && !Parked(s, k, x)
    ensures Nearer(s, GoFlags(s, k, c), k, x)
  {
  }

  lemma RankAtQueue(s: State, k: nat, x: int)
    requires k < |s.actors| && RoleOf(s.actors[k]) == Worker && (s.actors[k].Woken? || s.actors[k].Posting?)
    requires CountedAt(s, Rpkg)
    ensures GoQueue(s, k).Next? && Nearer(s, GoQueue(s, k).s, k, x)
  {
    CountedStepAt(s, Go(k), Rpkg);
  }

  lemma RankDrops(s: State, k: nat, x: int)
    requires k < |s.actors| && RoleOf(s.actors[k]) == Worker && !Parked(s, k, x)
    requires CountedAt(s, Rpkg) && Placed(s.ccbs, s.actors[k])
    ensures Do(s, Ahead(s, k, x)).Next? && Nearer(s, Do(s, Ahead(s, k, x)).s, k, x)
  {
    match s.actors[k] {
      case Ran(_, c) => RankAtFlags(s, k, c, x);
      case Clearing(_, c) => RankAtFlags(s, k, c, x);
      case Testing(_, c, _) => RankAtFlags(s, k, c, x);
      case Rebooting(_, c, _) => RankAtFlags(s, k, c, x);
      case Woken(_) => RankAtQueue(s, k, x);
      case Posting(_, _) => RankAtQueue(s, k, x);
      case Got(_) =>
      case Found(_, _) =>
      case Replying(_, _, _) =>
      case Requeueing(_, _) =>
    }
  }

  lemma SameService(s: State, e: Event, x: int)
    requires !e.Receive? && Do(s, e).Next? && Leaves(s.actors[e.i], Do(s, e).s.actors[e.i], x) == 0
    ensures InService(Do(s, e).s, x) == InService(s, x)
  {
    if e.Go? { NoMoreGo(s, e.i, x); }
    CountUpdate(s.actors, e.i, Do(s, e).s.actors[e.i], Served(x));
  }

  lemma SteadyStep(s: State, e: Event)
    requires Steady(s) && !e.Receive? && e.i != 0 && Do(s, e).Next?
    ensures Steady(Do(s, e).s)
  {
    AloneStep(s, e);
    CountedStep(s, e);
    AllPlacedStep(s, e);
    RoleStep(s, e);
  }

  lemma Swap(a: seq<Pc>, i: nat, x: Pc, pc: Pc)
    requires 0 < i < |a|
    ensures a[0 := pc][i := x] == a[i := x][0 := pc]
  {
  }

  lemma ElsewhereFlags(s: State, i: nat, c: nat, pc: Pc)
    requires 0 < i < |s.actors| && c < |s.ccbs| && AtFlags(s.actors[i], c) > 0
    ensures 0 < |GoFlags(s, i, c).actors| && GoFlags(s.To(0, pc), i, c) == GoFlags(s, i, c).To(0, pc)
  {
    Swap(s.actors, i, GoFlags(s, i, c).actors[i], pc);
    match s.actors[i] {
      case Ran(p, _) =>
      case Clearing(p, _) =>
      case Testing(p, _, live) =>
      case Rebooting(p, _, live) =>
    }
  }

  lemma ElsewhereQueue(s: State, i: nat, pc: Pc)
    requires 0 < i < |s.actors| && GoQueue(s, i).Next?
    ensures 0 < |GoQueue(s, i).s.actors| && GoQueue(s.To(0, pc), i) == Next(GoQueue(s, i).s.To(0, pc))
  {
    Swap(s.actors, i, GoQueue(s, i).s.actors[i], pc);
    match s.actors[i] {
      case Waiting(ch) =>
      case Woken(ch) =>
      case Posting(ch, back) =>
    }
  }

  /** What the reader has in hand makes no difference to a worker. */
  lemma Elsewhere(s: State, e: Event, pc: Pc)
    requires !e.Receive? && 0 < e.i < |s.actors| && RoleOf(s.actors[e.i]) == Worker && Do(s, e).Next?
    ensures 0 < |Do(s, e).s.actors| && Do(s.To(0, pc), e) == Next(Do(s, e).s.To(0, pc))
  {
    var i := e.i;
    if e.Run? {
      Swap(s.actors, i, Do(s, e).s.actors[i], pc);
    } else {
      match s.actors[i] {
        case Ran(_, c) => ElsewhereFlags(s, i, c, pc);
        case Clearing(_, c) => ElsewhereFlags(s, i, c, pc);
        case Testing(_, c, _) => ElsewhereFlags(s, i, c, pc);
        case Rebooting(_, c, _) => ElsewhereFlags(s, i, c, pc);
        case Waiting(_) => ElsewhereQueue(s, i, pc);
        case Woken(_) => ElsewhereQueue(s, i, pc);
        case Posting(_, _) => ElsewhereQueue(s, i, pc);
        case Got(p) => Swap(s.actors, i, Do(s, e).s.actors[i], pc);
        case Replying(_, _, _) => Swap(s.actors, i, Do(s, e).s.actors[i], pc);
        case Requeueing(_, _) => Swap(s.actors, i, Do(s, e).s.actors[i], pc);
      }
    }
  }

  lemma StepsAhead(s: State, k: nat, x: int) returns (t: State)
    requires Steady(s) && 2 <= k < |s.actors| && !Parked(s, k, x)
    ensures Do(s, Ahead(s, k, x)) == Next(t) && Steady(t) && |t.actors| == |s.actors|
    ensures InService(t, x) == InService(s, x) && Count(t.actors, StepsLeft) < Count(s.actors, StepsLeft)
  {
    var e := Ahead(s, k, x);
    RankDrops(s, k, x);
    t := Do(s, e).s;
    SteadyStep(s, e);
    SameService(s, e, x);
    RoleStep(s, e);
    CountUpdate(s.actors, k, t.actors[k], StepsLeft);
  }

  /** One step of that, with the reader at pc. */
  lemma ParksOne(o: State, s: State, pc: Pc, k: nat, x: int) returns (t: State)
    requires Steady(s) && Reaches(o, s.To(0, pc)) && 2 <= k < |s.actors| && !Parked(s, k, x)
    ensures Steady(t) && |t.actors| == |s.actors| && Reaches(o, t.To(0, pc)) && InService(t, x) == InService(s, x)
    ensures Count(t.actors, StepsLeft) < Count(s.actors, StepsLeft)
  {
    t := StepsAhead(s, k, x);
    Elsewhere(s, Ahead(s, k, x), pc);
    Hop(o, s.To(0, pc), t.To(0, pc), Ahead(s, k, x));
  }

  /** Every worker can be brought to a stop without a packet of session x leaving service. */
  lemma Parks(o: State, s: State, pc: Pc, x: int) returns (v: State)
    requires Steady(s) && Reaches(o, s.To(0, pc))
    ensures Steady(v) && |v.actors| == |s.actors| && Reaches(o, v.To(0, pc)) && InService(v, x) == InService(s, x)
    ensures forall k :: 2 <= k < |v.actors| ==> Parked(v, k, x)
    decreases Count(s.actors, StepsLeft)
  {
    v := s;
    if k :| 2 <= k < |s.actors| && !Parked(s, k, x) {
      var t := ParksOne(o, s, pc, k, x);
      v := Parks(o, t, pc, x);
    }
  }

  // ----- a second packet -----

  /** Every worker stopped: what is in the queue has been posted, and no flag is set. */
  ghost predicate Still(v: State, x: int) {
    Steady(v) && forall k :: 2 <= k < |v.actors| ==> Parked(v, k, x)
  }

  lemma StillCounted(v: State, x: int)
    requires Still(v, x)
    ensures |v.r.q| == v.r.sem
  {
    forall pc | pc in v.actors
      ensures Weight(pc, Owed(Rpkg)) == 0
    {
      var k :| 0 <= k < |v.actors| && v.actors[k] == pc;
      if k >= 2 { assert Parked(v, k, x); }
    }
    CountIdle(v.actors, Owed(Rpkg));
  }

  lemma StillClear(v: State, x: int)
    requires Still(v, x)
    ensures AllClear(v)
  {
    forall c | 0 <= c < |v.ccbs|
      ensures !v.ccbs[c].writeBack && !v.ccbs[c].bootstrap
    {
      if Count(v.actors, Flagging(c)) > 0 {
        var k := CountFrom(v.actors, Flagging(c));
        assert Settled(v.ccbs, v.actors[k]) && RoleOf(v.actors[k]) == Worker;
        assert k >= 2 && Parked(v, k, x);
      } else {
        assert !Flagged(v, c);
      }
    }
  }

  lemma {:induction false} QueuedOf(q: seq<Packet>, x: int) returns (m: nat)
    requires CountIn(q, Served(x)) > 0
    ensures m < |q| && q[m].session == x
  {
    m := 0;
    if q[0].session != x {
      m := QueuedOf(q[1..], x);
      m := m + 1;
    }
  }

  /** With the first packet in the queue, two workers fetch the two. */
  lemma BothQueued(o: State, s: State, m: nat) returns (t: State)
    requires Reaches(o, s) && |s.actors| >= 4 && s.actors[2] == Waiting(Rpkg) && s.actors[3] == Waiting(Rpkg)
    requires m + 1 < |s.r.q| <= s.r.sem && AllKnown(s) && AllClear(s)
    requires s.r.q[m].session == s.r.q[|s.r.q| - 1].session
    ensures Reaches(o, t) && t.revived == s.revived + multiset{s.r.q[m].id}
  {
    var n := |s.r.q| - m - 2;
    var a := Drained(o, s, 2, m);
    assert forall k :: 0 <= k <= n ==> a.r.q[k] == s.r.q[m + 1 + k];
    t := Drained(o, a, 3, n);
    t := Clash(o, t, 2, 3);
  }

  /** With the first packet at worker i's test, worker j fetches the second. */
  lemma OneHeld(o: State, s: State, i: nat, j: nat) returns (t: State)
    requires Reaches(o, s) && i < |s.actors| && j < |s.actors| && i != j && s.actors[j] == Waiting(Rpkg)
    requires s.r.q != [] && |s.r.q| <= s.r.sem && AllKnown(s) && AllClear(s)
    requires s.actors[i].Testing? && s.actors[i].p.session == s.r.q[|s.r.q| - 1].session
    requires s.actors[i].c == Fetch(s.ccbs, s.actors[i].p.session)
    ensures Reaches(o, t) && t.revived == s.revived + multiset{s.actors[i].p.id}
  {
    assert Known(s.ccbs, s.r.q[|s.r.q| - 1].session);
    t := Drained(o, s, j, |s.r.q| - 1);
    if s.actors[i].live {
      t := BothFind(o, t, i, j);
      t := BothClear(o, t, i, j);
      assert t.ccbs == s.ccbs;
      t := ClashAgain(o, t, i, j);
    } else {
      t := Revived(o, t, i, j);
    }
  }

  /** From every stop with a packet of session x in service, a second one that the reader has leads to
      a freed packet in the queue. */
  lemma Doubled(o: State, v: State, p: Packet) returns (t: State)
    requires Still(v, p.session) && InService(v, p.session) > 0 && Known(v.ccbs, p.session)
    requires Reaches(o, v.To(0, Received(p, Data)))
    ensures Reaches(o, t) && t.revived != multiset{}
  {
    var x := p.session;
    StillCounted(v, x);
    StillClear(v, x);
    assert v.actors[0 := Received(p, Data)][0 := Polling] == v.actors;
    var z := Queued(o, v.To(0, Received(p, Data)), p);
    assert z == v.(r := Channel(v.r.q + [p], v.r.sem + 1));
    assert AllKnown(z);
    assert Parked(v, 2, x) && Parked(v, 3, x);
    if Count(v.actors, Served(x)) > 0 {
      var i := CountFrom(v.actors, Served(x));
      var j := if i == 2 then 3 else 2;
      HeldAlone(v, i, j, x);
      t := OneHeld(o, z, i, j);
    } else {
      var m := QueuedOf(v.r.q, x);
      HeldByNone(v, x);
      t := BothQueued(o, z, m);
    }
  }

  lemma HeldAlone(v: State, i: nat, j: nat, x: int)
    requires Still(v, x) && i < |v.actors| && Serves(v.actors[i], x) > 0 && 2 <= j < |v.actors| && i != j
    ensures v.actors[i].Testing? && v.actors[i].p.session == x && v.actors[i].c == Fetch(v.ccbs, x)
    ensures v.actors[j] == Waiting(Rpkg)
  {
    assert i >= 2 && RoleOf(v.actors[i]) == Worker && Parked(v, i, x) && Placed(v.ccbs, v.actors[i]);
    NotTwo(v, i, j, x);
    assert RoleOf(v.actors[j]) == Worker && Parked(v, j, x);
  }

  lemma HeldByNone(v: State, x: int)
    requires Still(v, x) && Count(v.actors, Served(x)) == 0
    ensures v.actors[2] == Waiting(Rpkg) && v.actors[3] == Waiting(Rpkg)
  {
    CountUpdate(v.actors, 2, Polling, Served(x));
    CountUpdate(v.actors, 3, Polling, Served(x));
    assert Parked(v, 2, x) && Parked(v, 3, x);
    assert RoleOf(v.actors[2]) == Worker && RoleOf(v.actors[3]) == Worker;
  }

  // ----- exactly when -----

  /** Some run without another arrival brings a packet to more or fewer than one place. */
  ghost predicate CanMisplace(s: State) {
    exists es: seq<Event>, id: nat ::
      Quiet(es) && Trace(s, es).Next? && Places(Trace(s, es).s, id) != One(id < Trace(s, es).s.next)
  }

  lemma {:induction false} QuietInTurn(s: State, es: seq<Event>)
    requires Quiet(es)
    ensures AllInTurn(s, es)
    decreases |es|
  {
    if es != [] && Do(s, es[0]).Next? {
      assert !es[0].Receive?;
      QuietInTurn(Do(s, es[0]).s, es[1..]);
    }
  }

  /** A packet that is in turn misplaces none. */
  lemma InTurnSafe(s: State, msg: Msg, x: int)
    requires Alone(s) && (forall id: nat :: Accounted(s, id)) && |s.actors| > 0 && s.actors[0] == Polling
    requires InTurn(s, Receive(0, msg, x))
    ensures !CanMisplace(Do(s, Receive(0, msg, x)).s)
  {
    var e := Receive(0, msg, x);
    var t := Do(s, e).s;
    AloneStep(s, e);
    forall es: seq<Event>, id: nat | Quiet(es) && Trace(t, es).Next?
      ensures Places(Trace(t, es).s, id) == One(id < Trace(t, es).s.next)
    {
      QuietInTurn(t, es);
      AloneTrace(t, es);
      AccountStep(s, e, id);
      AccountTrace(t, es, id);
    }
  }

  /** Nor does any packet where there is one worker. */
  lemma SoleSafe(s: State, e: Event)
    requires Calm(s) && Sole(s) && (forall id: nat :: Accounted(s, id)) && Do(s, e).Next?
    ensures !CanMisplace(Do(s, e).s)
  {
    var t := Do(s, e).s;
    SoleApart(s);
    CalmStep(s, e);
    RoleStep(s, e);
    forall es: seq<Event>, id: nat | Quiet(es) && Trace(t, es).Next?
      ensures Places(Trace(t, es).s, id) == One(id < Trace(t, es).s.next)
    {
      SoleTrace(t, es);
      AccountStep(s, e, id);
      AccountTrace(t, es, id);
    }
  }

  /** The number of the next packet makes no difference. */
  lemma NumberMatters(s: State, n: nat)
    requires Steady(s)
    ensures Steady(s.(next := n)) && forall x :: InService(s.(next := n), x) == InService(s, x)
  {
    var u := s.(next := n);
    forall x
      ensures InService(u, x) == InService(s, x) <= 1
    {
    }
    forall c: nat | Flagged(u, c)
      ensures Count(u.actors, Flagging(c)) > 0
    {
      assert Flagged(s, c);
    }
  }

  /** Nor does a further CCB, of which no worker knows. */
  lemma OneMoreCcb(s: State, x: int)
    requires Steady(s)
    ensures var u := s.(ccbs := s.ccbs + [Ccb(x, false, false)]);
            Steady(u) && InService(u, x) == InService(s, x) && Known(u.ccbs, x)
  {
    var u := s.(ccbs := s.ccbs + [Ccb(x, false, false)]);
    assert u.ccbs[|s.ccbs|].session == x;
    forall k: nat | k < |u.actors|
      ensures Settled(u.ccbs, u.actors[k]) && Placed(u.ccbs, u.actors[k])
    {
      assert Settled(s.ccbs, s.actors[k]) && Placed(s.ccbs, s.actors[k]);
      PlacedGrown(s.ccbs, u.ccbs, s.actors[k]);
    }
    forall c: nat | Flagged(u, c)
      ensures Count(u.actors, Flagging(c)) > 0
    {
      assert Flagged(s, c);
    }
    forall p | p in u.r.q
      ensures Known(u.ccbs, p.session)
    {
      KnownGrown(s.ccbs, u.ccbs, p.session);
    }
    forall y
      ensures InService(u, y) == InService(s, y)
    {
    }
  }

  /** A session that is being served has a CCB. */
  lemma InServiceKnown(s: State, x: int)
    requires AllPlaced(s) && Stands(s.actors) && InService(s, x) > 0
    ensures Known(s.ccbs, x)
  {
    if CountIn(s.r.q, Served(x)) > 0 {
      var m := QueuedOf(s.r.q, x);
      assert s.r.q[m] in s.r.q;
    } else {
      var k := CountFrom(s.actors, Served(x));
      assert k >= 2 && Placed(s.ccbs, s.actors[k]) && RoleOf(s.actors[k]) == Worker;
    }
  }

  /** A second packet of a session in service can be misplaced, or the first. */
  lemma SecondMisplaces(o: State, u: State, p: Packet)
    requires Steady(u) && Reaches(o, u.To(0, Received(p, Data))) && forall id: nat :: Accounted(o, id)
    requires Known(o.ccbs, p.session) && InService(u, p.session) > 0
    ensures CanMisplace(o)
  {
    var v := Parks(o, u, Received(p, Data), p.session);
    KnownKept(o, v.To(0, Received(p, Data)), p.session);
    var t := Doubled(o, v, p);
    var es :| Quiet(es) && Trace(o, es) == Next(t);
    var id :| id in t.revived;
    AccountTrace(o, es, id);
    assert Places(t, id) != One(id < t.next);
  }

  /** A packet for the workers that is not in turn can misplace one. */
  lemma OutOfTurn(s: State, msg: Msg, x: int)
    requires Steady(s) && (forall id: nat :: Accounted(s, id)) && InService(s, x) > 0 && (msg.Data? || msg.CreateCcb?)
    ensures CanMisplace(Do(s, Receive(0, msg, x)).s)
  {
    var e, p, u := Receive(0, msg, x), Packet(s.next, x), s.(next := s.next + 1);
    var o := Do(s, e).s;
    assert o == u.To(0, Received(p, msg));
    Stay(o);
    NumberMatters(s, s.next + 1);
    InServiceKnown(s, x);
    forall id: nat
      ensures Accounted(o, id)
    {
      AccountStep(s, e, id);
    }
    if msg.CreateCcb? {
      var u' := u.(ccbs := u.ccbs + [Ccb(x, false, false)]);
      OneMoreCcb(u, x);
      assert o.actors[0 := Received(p, Data)] == u'.To(0, Received(p, Data)).actors;
      Hop(o, o, u'.To(0, Received(p, Data)), Go(0));
      SecondMisplaces(o, u', p);
    } else {
      SecondMisplaces(o, u, p);
    }
  }

  lemma KnownKept(s: State, t: State, x: int)
    requires Reaches(s, t) && Known(s.ccbs, x)
    ensures Known(t.ccbs, x)
  {
    var es :| Quiet(es) && Trace(s, es) == Next(t);
    KnownTrace(s, es, x);
  }

  lemma {:induction false} KnownTrace(s: State, es: seq<Event>, x: int)
    requires Known(s.ccbs, x) && Trace(s, es).Next?
    ensures Known(Trace(s, es).s.ccbs, x)
    decreases |es|
  {
    if es != [] {
      GrownStep(s, es[0]);
      KnownGrown(s.ccbs, Do(s, es[0]).s.ccbs, x);
      KnownTrace(Do(s, es[0]).s, es[1..], x);
    }
  }

  /** The states that runs of packets in turn, for sessions that have been opened, lead to. */
  lemma SteadyRun(n: nat, run: seq<Event>)
    requires n >= 2 && AllInTurn(Start(n), run) && AllOpened(Start(n), run) && Trace(Start(n), run).Next?
    ensures var s := Trace(Start(n), run).s;
            && |s.actors| == n + 2 && (s.actors[0] == Polling ==> Steady(s)) && Alone(s)
            && forall id: nat :: Accounted(s, id)
  {
    var o, s := Start(n), Trace(Start(n), run).s;
    OnePlaceInTurn(n, run);
    OnePlaceIff(n, run);
    SemaphoresCount(n, run);
    AllPlacedTrace(o, run);
    RoleTrace(o, run);
    assert forall k :: 2 <= k < |o.actors| ==> RoleOf(o.actors[k]) == Worker;
    assert RoleOf(o.actors[1]) == Writer;
  }

  /** For every state that packets in turn lead to, and any number of workers: a packet that arrives now
      leaves every packet in exactly one place, whatever the threads then do, exactly when there are not
      two workers, or it is not for them, or none of its session is in service. */
  lemma ArrivesSafelyIff(n: nat, run: seq<Event>, msg: Msg, x: int)
    requires AllInTurn(Start(n), run) && AllOpened(Start(n), run) && Trace(Start(n), run).Next?
    requires |Trace(Start(n), run).s.actors| > 0 && Trace(Start(n), run).s.actors[0] == Polling
    ensures !CanMisplace(Do(Trace(Start(n), run).s, Receive(0, msg, x)).s)
       <==> n < 2 || !(msg.Data? || msg.CreateCcb?) || InService(Trace(Start(n), run).s, x) == 0
  {
    var s := Trace(Start(n), run).s;
    if n < 2 {
      StartCalm(n);
      SoleTrace(Start(n), run);
      OnePlaceIff(n, run);
      SoleSafe(s, Receive(0, msg, x));
    } else {
      SteadyRun(n, run);
      if InTurn(s, Receive(0, msg, x)) { InTurnSafe(s, msg, x); } else { OutOfTurn(s, msg, x); }
    }
  }

  /** A packet that opens session 7 is received, queued and posted. */
  function Opening(): seq<Event> {
    [Receive(0, CreateCcb, 7), Go(0), Go(0), Go(0)]
  }

  lemma FirstStep(s: State, es: seq<Event>, t: State)
    requires es != [] && Do(s, es[0]) == Next(t) && InTurn(s, es[0]) && Opened(s, es[0])
    ensures Trace(s, es) == Trace(t, es[1..])
    ensures AllInTurn(t, es[1..]) ==> AllInTurn(s, es)
    ensures AllOpened(t, es[1..]) ==> AllOpened(s, es)
  {
  }

  /** Of four steps all but the first are no arrivals. */
  lemma FourSteps(s0: State, s1: State, s2: State, s3: State, s4: State, e: Event)
    requires Do(s0, e) == Next(s1) && InTurn(s0, e) && Opened(s0, e)
    requires Do(s1, Go(0)) == Next(s2) && Do(s2, Go(0)) == Next(s3) && Do(s3, Go(0)) == Next(s4)
    ensures var es := [e, Go(0), Go(0), Go(0)];
            Trace(s0, es) == Next(s4) && AllInTurn(s0, es) && AllOpened(s0, es)
  {
    var es := [e, Go(0), Go(0), Go(0)];
    assert es[1..] == [Go(0), Go(0), Go(0)] && es[1..][1..] == [Go(0), Go(0)];
    assert [Go(0), Go(0)][1..] == [Go(0)] && [Go(0)][1..] == [];
    FirstStep(s0, es, s1);
    FirstStep(s1, [Go(0), Go(0), Go(0)], s2);
    FirstStep(s2, [Go(0), Go(0)], s3);
    FirstStep(s3, [Go(0)], s4);
  }

  /** The reader opens session x and queues the packet. */
  lemma Opens(s: State, x: int) returns (t: State)
    requires |s.actors| > 0 && s.actors[0] == Polling && InService(s, x) == 0
    ensures var es := [Receive(0, CreateCcb, x), Go(0), Go(0), Go(0)];
            Trace(s, es) == Next(t) && AllInTurn(s, es) && AllOpened(s, es)
    ensures t == s.(next := s.next + 1, ccbs := s.ccbs + [Ccb(x, false, false)],
                    r := Channel(s.r.q + [Packet(s.next, x)], s.r.sem + 1))
  {
    var p := Packet(s.next, x);
    var s1 := s.(next := s.next + 1, actors := s.actors[0 := Received(p, CreateCcb)]);
    var s2 := s1.(ccbs := s.ccbs + [Ccb(x, false, false)], actors := s.actors[0 := Received(p, Data)]);
    var s3 := s2.(r := Channel(s.r.q + [p], s.r.sem), actors := s.actors[0 := Posting(Rpkg, ToPoll)]);
    t := s2.(r := Channel(s.r.q + [p], s.r.sem + 1), actors := s.actors);
    assert s1.actors[0 := Received(p, Data)] == s2.actors;
    assert s2.actors[0 := Posting(Rpkg, ToPoll)] == s3.actors;
    assert s3.actors[0 := Polling] == t.actors;
    FourSteps(s, s1, s2, s3, t, Receive(0, CreateCcb, x));
  }

  /** A run of two workers that misplaces a packet: session 7 is opened, a second packet of it arrives while
      the first is queued, and from there no third is needed. */
  lemma MisplacedRun() returns (rest: seq<Event>, id: nat)
    ensures Quiet(rest)
    ensures var es := Opening() + [Receive(0, Data, 7)] + rest;
            Trace(Start(2), es).Next? && Places(Trace(Start(2), es).s, id) != One(id < Trace(Start(2), es).s.next)
  {
    CountIdle(Start(2).actors, Served(7));
    var s := Opens(Start(2), 7);
    assert CountIn(s.r.q, Served(7)) > 0;
    ArrivesSafelyIff(2, Opening(), Data, 7);
    var e := Receive(0, Data, 7);
    var o := Do(s, e).s;
    rest, id :| Quiet(rest) && Trace(o, rest).Next? && Places(Trace(o, rest).s, id) != One(id < Trace(o, rest).s.next);
    TraceOn(Start(2), Opening(), e);
    TraceJoins(Start(2), Opening() + [e], rest);
  }

  lemma {:induction false} TraceJoins(s: State, es: seq<Event>, more: seq<Event>)
    requires Trace(s, es).Next?
    ensures Trace(s, es + more) == Trace(Trace(s, es).s, more)
    decreases |es|
  {
    if es == [] {
      assert es + more == more;
    } else {
      assert (es + more)[1..] == es[1..] + more;
      TraceJoins(Do(s, es[0]).s, es[1..], more);
    }
  }

  // ----- the agent that answers at once -----

  /** An idle system: reader, writer and two workers asleep, the flags of the session's CCB clear. */
  predicate Idle(s: State, x: int) {
    && |s.actors| >= 4
    && s.actors[0] == Polling && s.actors[1] == Waiting(Wpkg)
    && s.actors[2] == Waiting(Rpkg) && s.actors[3] == Waiting(Rpkg)
    && s.r == Channel([], 0) && s.w == Channel([], 0)
    && Clear(s, Fetch(s.ccbs, x))
  }

  /** The writer sends the one packet that is queued for it. */
  lemma Sent(o: State, s: State, k: Packet) returns (t: State)
    requires Reaches(o, s) && 1 < |s.actors| && s.actors[1] == Waiting(Wpkg) && s.w == Channel([k], 1)
    ensures Reaches(o, t) && t == s.(w := Channel([], 0), freed := s.freed + multiset{k.id})
  {
    var s1 := s.(w := Channel([k], 0), actors := s.actors[1 := Woken(Wpkg)]);
    Hop(o, s, s1, Go(1));
    var s2 := s.(w := Channel([], 0), actors := s.actors[1 := Sending(k)]);
    assert s1.actors[1 := Sending(k)] == s2.actors && [k][1..] == [];
    Hop(o, s1, s2, Go(1));
    t := s.(w := Channel([], 0), freed := s.freed + multiset{k.id});
    assert s2.actors[1 := Waiting(Wpkg)] == t.actors;
    Hop(o, s2, t, Go(1));
  }

  /** A packet that arrives in an otherwise empty system comes to worker i. */
  lemma Delivered(s: State, i: nat, x: int) returns (t: State)
    requires 1 < i < |s.actors| && s.actors[0] == Polling && s.actors[i] == Waiting(Rpkg) && s.r == Channel([], 0)
    requires Known(s.ccbs, x)
    ensures Reaches(Do(s, Receive(0, Data, x)).s, t)
    ensures t == s.(next := s.next + 1, actors := s.actors[i := Found(Packet(s.next, x), Fetch(s.ccbs, x))])
  {
    var p := Packet(s.next, x);
    var o := s.(next := s.next + 1, actors := s.actors[0 := Received(p, Data)]);
    Stay(o);
    var s1 := Queued(o, o, p);
    assert s1.actors == s.actors && s1.r.q == [p];
    t := Taken(o, s1, i);
  }

  /** Waiting for the reply is not enough: from every idle state an agent that sends its next packet
      only when the reply to the last has gone out can have a packet queued that was freed. */
  lemma AnsweredTooSoon(s: State, x: int) returns (sent: State, t: State)
    requires Idle(s, x)
    ensures Reaches(Do(s, Receive(0, Data, x)).s, sent)
    ensures |sent.actors| == |s.actors| && sent.actors[0] == Polling
    ensures sent.r.q == [] && sent.w.q == [] && sent.next == s.next + 2
    ensures sent.freed == s.freed + multiset{s.next} + multiset{s.next + 1}
    ensures Reaches(Do(sent, Receive(0, Data, x)).s, t) && t.freed == sent.freed
    ensures t.r.q == [Packet(s.next, x)] && t.revived == s.revived + multiset{s.next}
  {
    var o := Do(s, Receive(0, Data, x)).s;
    sent := Delivered(s, 2, x);
    sent := Replied(o, sent, 2);
    sent := Sent(o, sent, Packet(s.next + 1, x));
    var o2 := Do(sent, Receive(0, Data, x)).s;
    t := Delivered(sent, 3, x);
    t := Revived(o2, t, 2, 3);
  }
}
