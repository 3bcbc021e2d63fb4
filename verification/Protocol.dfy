/** The reader, the workers and the writer at their shared queues (tsm_vm.c, tsm_router.c). */
module Protocol {
  datatype Packet = Packet(id: nat, session: int)

  /** rpkg_list with sem_vm, wpkg_list with sem_router_w, ppkg_list with sem_probe. */
  datatype Chan = Rpkg | Wpkg | Ppkg

  datatype Channel = Channel(q: seq<Packet>, sem: nat)

  datatype Ccb = Ccb(session: int, writeBack: bool, bootstrap: bool)

  datatype Msg = CreateCcb | RegAgent | OtherControl | ToolData | Data

  /** The bytecode functions that set a flag; Other is any of the rest. */
  datatype Code =
    | Select | InitUpdate | Traverse | MsgMacing
    | ExtAuth | GetStatus | InstallForInstall | InstallForPersonalize | PutKey | Load | Extradition | StoreData
    | Other

  predicate SetsWriteBack(b: Code) {
    b.Select? || b.InitUpdate? || b.Traverse? || b.MsgMacing?
  }

  predicate SetsBootstrap(b: Code) {
    b.ExtAuth? || b.GetStatus? || b.InstallForInstall? || b.InstallForPersonalize? || b.PutKey? || b.Load?
    || b.Extradition? || b.StoreData?
  }

  /** Where a thread is. c is the index of the CCB that the worker fetched; live says that p has not
      been freed by this worker. */
  datatype Pc =
    | Polling                                       // reader, in epoll
    | Received(p: Packet, msg: Msg)
    | Acking                                        // registration packet freed, acknowledgement to send
    | Waiting(ch: Chan)                             // worker or writer, in sem_wait
    | Woken(ch: Chan)                               // past sem_wait, before the dequeue
    | Got(p: Packet)
    | Found(p: Packet, c: nat)
    | Ran(p: Packet, c: nat)                        // before the test of write_back
    | Clearing(p: Packet, c: nat)                   // p freed, write_back still set
    | Replying(out: Packet, p: Packet, c: nat)
    | Testing(p: Packet, c: nat, live: bool)        // before the test of bootstrap
    | Rebooting(p: Packet, c: nat, live: bool)      // bootstrap still set
    | Requeueing(p: Packet, live: bool)
    | Sending(p: Packet)                            // writer
    | Posting(ch: Chan, back: Home)                 // enqueued, before sem_post

  datatype Home = ToPoll | ToWait | ToTest(p: Packet, c: nat)

  /** freed, lost and revived record what has happened to packets: passed to kfree_skb, dropped without
      being freed, and queued again after their worker had freed them. */
  datatype State = State(r: Channel, w: Channel, p: Channel, ccbs: seq<Ccb>, actors: seq<Pc>, next: nat,
                         freed: multiset<nat>, lost: multiset<nat>, revived: multiset<nat>)
  {
    function At(ch: Chan): Channel {
      match ch case Rpkg => r case Wpkg => w case Ppkg => p
    }

    function With(ch: Chan, c: Channel): State {
      match ch case Rpkg => this.(r := c) case Wpkg => this.(w := c) case Ppkg => this.(p := c)
    }

    function Enqueue(ch: Chan, k: Packet): State {
      With(ch, Channel(At(ch).q + [k], At(ch).sem))
    }

    function To(i: nat, pc: Pc): State
      requires i < |actors|
    {
      this.(actors := actors[i := pc])
    }
  }

  /** One reader, one writer and n workers; all queues empty and all semaphores 0. */
  function Start(n: nat): State {
    State(Channel([], 0), Channel([], 0), Channel([], 0), [],
          [Polling, Waiting(Wpkg)] + seq(n, _ => Waiting(Rpkg)), 0, multiset{}, multiset{}, multiset{})
  }

  /** A packet arrives at reader i; worker i runs bytecode; thread i takes its next step. */
  datatype Event = Receive(i: nat, msg: Msg, session: int) | Run(i: nat, code: Code) | Go(i: nat)

  /** Blocked: the thread cannot take that step now. NullPacket, NullCcb: it uses a null pointer. */
  datatype Outcome = Blocked | NullPacket | NullCcb | Next(s: State)

  /** fetch_ccb: the first CCB of the session; |ccbs| if there is none. */
  function Fetch(ccbs: seq<Ccb>, session: int): (c: nat)
    ensures c <= |ccbs|
    ensures c < |ccbs| ==> ccbs[c].session == session
    ensures forall k :: 0 <= k < c ==> ccbs[k].session != session
  {
    if ccbs == [] then 0
    else if ccbs[0].session == session then 0
    else
      1 + Fetch(ccbs[1..], session)
  }

  function After(back: Home): Pc {
    match back
    case ToPoll => Polling
    case ToWait => Waiting(Rpkg)
    case ToTest(p, c) => Testing(p, c, false)
  }

  /** The reader with a packet in hand. */
  function GoReceived(s: State, i: nat, p: Packet, msg: Msg): State
    requires i < |s.actors|
  {
    match msg
    case CreateCcb => s.(ccbs := s.ccbs + [Ccb(p.session, false, false)]).To(i, Received(p, Data))
    case RegAgent => s.(freed := s.freed + multiset{p.id}).To(i, Acking)
    case OtherControl => s.(lost := s.lost + multiset{p.id}).To(i, Polling)
    case ToolData => s.Enqueue(Ppkg, p).To(i, Posting(Ppkg, ToPoll))
    case Data => s.Enqueue(Rpkg, p).To(i, Posting(Rpkg, ToPoll))
  }

  /** A worker at the flags of its CCB. */
  function GoFlags(s: State, i: nat, c: nat): State
    requires i < |s.actors| && c < |s.ccbs|
  {
    var ccb := s.ccbs[c];
    match s.actors[i]
    case Ran(p, _) =>
      if ccb.writeBack then s.(freed := s.freed + multiset{p.id}).To(i, Clearing(p, c))
      else s.To(i, Testing(p, c, true))
    case Clearing(p, _) =>
      s.(ccbs := s.ccbs[c := ccb.(writeBack := false)], next := s.next + 1)
      .To(i, Replying(Packet(s.next, ccb.session), p, c))
    case Testing(p, _, live) =>
      if ccb.bootstrap then s.To(i, Rebooting(p, c, live))
      else s.(lost := if live then s.lost + multiset{p.id} else s.lost).To(i, Waiting(Rpkg))
    case Rebooting(p, _, live) =>
      s.(ccbs := s.ccbs[c := ccb.(bootstrap := false)]).To(i, Requeueing(p, live))
    case _ => s
  }

  /** A thread at a queue. The reader only fills ppkg_list: the loop that would empty it is compiled out. */
  function GoQueue(s: State, i: nat): Outcome
    requires i < |s.actors|
  {
    match s.actors[i]
    case Waiting(ch) =>
      var c := s.At(ch);
      if ch == Ppkg || c.sem == 0 then Blocked else Next(s.With(ch, Channel(c.q, c.sem - 1)).To(i, Woken(ch)))
    case Woken(ch) =>
      var c := s.At(ch);
      if ch == Ppkg then Blocked
      else if c.q == [] then NullPacket
      else Next(s.With(ch, Channel(c.q[1..], c.sem)).To(i, if ch == Rpkg then Got(c.q[0]) else Sending(c.q[0])))
    case Posting(ch, back) =>
      var c := s.At(ch);
      Next(s.With(ch, Channel(c.q, c.sem + 1)).To(i, After(back)))
    case _ => Blocked
  }

  function GoOn(s: State, i: nat): Outcome
    requires i < |s.actors|
  {
    match s.actors[i]
    case Polling => Blocked
    case Received(p, msg) => Next(GoReceived(s, i, p, msg))
    case Acking => Next(s.Enqueue(Wpkg, Packet(s.next, 0)).(next := s.next + 1).To(i, Posting(Wpkg, ToPoll)))
    case Waiting(_) => GoQueue(s, i)
    case Woken(_) => GoQueue(s, i)
    case Posting(_, _) => GoQueue(s, i)
    case Got(p) =>
      var c := Fetch(s.ccbs, p.session);
      if c == |s.ccbs| then NullCcb else Next(s.To(i, Found(p, c)))
    case Found(_, _) => Blocked
    case Ran(_, c) => if c < |s.ccbs| then Next(GoFlags(s, i, c)) else NullCcb
    case Clearing(_, c) => if c < |s.ccbs| then Next(GoFlags(s, i, c)) else NullCcb
    case Testing(_, c, _) => if c < |s.ccbs| then Next(GoFlags(s, i, c)) else NullCcb
    case Rebooting(_, c, _) => if c < |s.ccbs| then Next(GoFlags(s, i, c)) else NullCcb
    case Replying(out, p, c) => Next(s.Enqueue(Wpkg, out).To(i, Posting(Wpkg, ToTest(p, c))))
    case Requeueing(p, live) =>
      var revived := if live then s.revived else s.revived + multiset{p.id};
      Next(s.(revived := revived).Enqueue(Rpkg, p).To(i, Posting(Rpkg, ToWait)))
    case Sending(p) => Next(s.(freed := s.freed + multiset{p.id}).To(i, Waiting(Wpkg)))
  }

  function RunCode(s: State, i: nat, code: Code): Outcome
    requires i < |s.actors| && s.actors[i].Found?
  {
    var c := s.actors[i].c;
    if c >= |s.ccbs| then NullCcb
    else
      var ccb := s.ccbs[c];
      var ran := ccb.(writeBack := ccb.writeBack || SetsWriteBack(code),
                      bootstrap := ccb.bootstrap || SetsBootstrap(code));
      Next(s.(ccbs := s.ccbs[c := ran]).To(i, Ran(s.actors[i].p, c)))
  }

  function Do(s: State, e: Event): Outcome {
    if e.i >= |s.actors| then Blocked
    else
      match e
      case Receive(i, msg, session) =>
        if s.actors[i].Polling? then Next(s.(next := s.next + 1).To(i, Received(Packet(s.next, session), msg)))
        else Blocked
      case Run(i, code) => if s.actors[i].Found? then RunCode(s, i, code) else Blocked
      case Go(i) => GoOn(s, i)
  }

  function Trace(s: State, es: seq<Event>): Outcome
    decreases |es|
  {
    if es == [] then Next(s)
    else
      match Do(s, es[0])
      case Next(t) => Trace(t, es[1..])
      case o => o
  }

  // ----- counting over the threads and over the queues -----

  /** What is counted: units owed to a queue, copies of a packet, packets of a session being served,
      workers that may find a flag of CCB c set, workers that owe a session a reply, steps that workers
      have still to take. */
  datatype Item = Owed(ch: Chan) | Copy(id: nat) | Served(session: int) | Flagging(c: nat) | Answering(session: int)
                | StepsLeft

  function One(b: bool): nat {
    if b then 1 else 0
  }

  /** The units by which a thread makes a queue differ from its semaphore: past the wait and not yet
      dequeued, or enqueued and not yet posted. */
  function Owes(pc: Pc, ch: Chan): nat {
    match pc
    case Woken(c) => One(c == ch)
    case Posting(c, _) => One(c == ch)
    case _ => 0
  }

  /** The packets that a thread must still queue, free or lose. */
  function Owns(pc: Pc, id: nat): nat {
    match pc
    case Received(p, _) => One(p.id == id)
    case Got(p) => One(p.id == id)
    case Found(p, _) => One(p.id == id)
    case Ran(p, _) => One(p.id == id)
    case Replying(out, _, _) => One(out.id == id)
    case Testing(p, _, live) => One(live && p.id == id)
    case Rebooting(p, _, live) => One(live && p.id == id)
    case Requeueing(p, live) => One(live && p.id == id)
    case Sending(p) => One(p.id == id)
    case _ => 0
  }

  /** The session that a thread is serving, a received packet for the workers included. */
  function Serves(pc: Pc, x: int): nat {
    match pc
    case Received(p, msg) => One((msg.Data? || msg.CreateCcb?) && p.session == x)
    case Got(p) => One(p.session == x)
    case Found(p, _) => One(p.session == x)
    case Ran(p, _) => One(p.session == x)
    case Clearing(p, _) => One(p.session == x)
    case Replying(_, p, _) => One(p.session == x)
    case Posting(_, ToTest(p, _)) => One(p.session == x)
    case Testing(p, _, _) => One(p.session == x)
    case Rebooting(p, _, _) => One(p.session == x)
    case Requeueing(p, _) => One(p.session == x)
    case _ => 0
  }

  datatype Role = Reader | Writer | Worker | Tool

  function RoleOf(pc: Pc): Role {
    match pc
    case Polling => Reader
    case Received(_, _) => Reader
    case Acking => Reader
    case Posting(_, ToPoll) => Reader
    case Waiting(ch) => if ch == Wpkg then Writer else if ch == Rpkg then Worker else Tool
    case Woken(ch) => if ch == Wpkg then Writer else if ch == Rpkg then Worker else Tool
    case Sending(_) => Writer
    case _ => Worker
  }

  function AtFlags(pc: Pc, c: nat): nat {
    match pc
    case Ran(_, k) => One(k == c)
    case Clearing(_, k) => One(k == c)
    case Testing(_, k, _) => One(k == c)
    case Rebooting(_, k, _) => One(k == c)
    case _ => 0
  }

  /** A worker has freed a packet of session x and not yet queued the reply. */
  function Answers(pc: Pc, x: int): nat {
    match pc
    case Clearing(p, _) => One(p.session == x)
    case Replying(_, p, _) => One(p.session == x)
    case _ => 0
  }

  /** How far a worker is from its next sem_wait, at most. */
  function Rank(pc: Pc): nat {
    match pc
    case Woken(ch) => if ch == Wpkg then 0 else 11
    case Got(_) => 10
    case Found(_, _) => 9
    case Ran(_, _) => 8
    case Clearing(_, _) => 7
    case Replying(_, _, _) => 6
    case Posting(_, ToTest(_, _)) => 5
    case Testing(_, _, _) => 4
    case Rebooting(_, _, _) => 3
    case Requeueing(_, _) => 2
    case Posting(_, ToWait) => 1
    case _ => 0
  }

  function Weight(pc: Pc, k: Item): nat {
    match k
    case Owed(ch) => Owes(pc, ch)
    case Copy(id) => Owns(pc, id)
    case Served(x) => Serves(pc, x)
    case Flagging(c) => AtFlags(pc, c)
    case Answering(x) => Answers(pc, x)
    case StepsLeft => Rank(pc)
  }

  function Count(a: seq<Pc>, k: Item): nat {
    if a == [] then 0 else Weight(a[0], k) + Count(a[1..], k)
  }

  function Mark(p: Packet, k: Item): nat {
    match k
    case Copy(id) => One(p.id == id)
    case Served(x) => One(p.session == x)
    case _ => 0
  }

  function CountIn(q: seq<Packet>, k: Item): nat {
    if q == [] then 0 else Mark(q[0], k) + CountIn(q[1..], k)
  }

  lemma {:induction false} CountAppend(q: seq<Packet>, p: Packet, k: Item)
    ensures CountIn(q + [p], k) == CountIn(q, k) + Mark(p, k)
  {
    if q == [] {
      assert q + [p] == [p];
    } else {
      CountAppend(q[1..], p, k);
      assert (q + [p])[1..] == q[1..] + [p];
    }
  }

  lemma {:induction false} CountUpdate(a: seq<Pc>, i: nat, pc: Pc, k: Item)
    requires i < |a|
    ensures Count(a[i := pc], k) == Count(a, k) - Weight(a[i], k) + Weight(pc, k)
    ensures Weight(a[i], k) <= Count(a, k)
  {
    if i == 0 {
      assert a[i := pc][1..] == a[1..];
    } else {
      CountUpdate(a[1..], i - 1, pc, k);
      assert a[i := pc][1..] == a[1..][i - 1 := pc];
    }
  }

  lemma {:induction false} CountTwo(a: seq<Pc>, i: nat, j: nat, k: Item)
    requires i < j < |a|
    ensures Weight(a[i], k) + Weight(a[j], k) <= Count(a, k)
  {
    if i == 0 {
      CountUpdate(a[1..], j - 1, Polling, k);
    } else {
      CountTwo(a[1..], i - 1, j - 1, k);
    }
  }

  lemma {:induction false} CountFrom(a: seq<Pc>, k: Item) returns (i: nat)
    requires Count(a, k) > 0
    ensures i < |a| && Weight(a[i], k) > 0
  {
    i := 0;
    if Weight(a[0], k) == 0 {
      i := CountFrom(a[1..], k);
      i := i + 1;
    }
  }

  lemma {:induction false} CountIdle(a: seq<Pc>, k: Item)
    requires forall pc :: pc in a ==> Weight(pc, k) == 0
    ensures Count(a, k) == 0
  {
    if a != [] { CountIdle(a[1..], k); }
  }

  // ----- the semaphores -----

  ghost predicate CountedAt(s: State, ch: Chan) {
    |s.At(ch).q| == s.At(ch).sem + Count(s.actors, Owed(ch))
  }

  ghost predicate Counted(s: State) {
    CountedAt(s, Rpkg) && CountedAt(s, Wpkg) && CountedAt(s, Ppkg)
  }

  /** Only thread i moves, and the queue, its semaphore and what i owes to it stay in step. */
  ghost predicate Level(s: State, t: State, i: nat, ch: Chan) {
    && i < |s.actors| == |t.actors|
    && t.actors == s.actors[i := t.actors[i]]
    && |t.At(ch).q| - t.At(ch).sem - Owes(t.actors[i], ch) == |s.At(ch).q| - s.At(ch).sem - Owes(s.actors[i], ch)
  }

  lemma LevelReceived(s: State, i: nat, p: Packet, msg: Msg, ch: Chan)
    requires i < |s.actors| && s.actors[i] == Received(p, msg)
    ensures Level(s, GoReceived(s, i, p, msg), i, ch)
  {
    match msg {
      case CreateCcb =>
      case RegAgent =>
      case OtherControl =>
      case ToolData =>
      case Data =>
    }
  }

  lemma LevelFlags(s: State, i: nat, c: nat, ch: Chan)
    requires i < |s.actors| && c < |s.ccbs|
    ensures Level(s, GoFlags(s, i, c), i, ch)
  {
    match s.actors[i] {
      case Ran(p, _) =>
      case Clearing(p, _) =>
      case Testing(p, _, live) =>
      case Rebooting(p, _, live) =>
      case _ =>
    }
  }

  lemma LevelQueue(s: State, i: nat, ch: Chan)
    requires i < |s.actors| && GoQueue(s, i).Next?
    ensures Level(s, GoQueue(s, i).s, i, ch)
  {
    match s.actors[i] {
      case Waiting(c) =>
      case Woken(c) =>
      case Posting(c, back) =>
    }
  }

  lemma LevelGo(s: State, i: nat, ch: Chan)
    requires i < |s.actors| && GoOn(s, i).Next?
    ensures Level(s, GoOn(s, i).s, i, ch)
  {
    match s.actors[i] {
      case Received(p, msg) => LevelReceived(s, i, p, msg, ch);
      case Waiting(_) => LevelQueue(s, i, ch);
      case Woken(_) => LevelQueue(s, i, ch);
      case Posting(_, _) => LevelQueue(s, i, ch);
      case Ran(_, c) => LevelFlags(s, i, c, ch);
      case Clearing(_, c) => LevelFlags(s, i, c, ch);
      case Testing(_, c, _) => LevelFlags(s, i, c, ch);
      case Rebooting(_, c, _) => LevelFlags(s, i, c, ch);
      case Acking =>
      case Got(p) =>
      case Replying(out, p, c) =>
      case Requeueing(p, live) =>
      case Sending(p) =>
    }
  }

  lemma CountedStepAt(s: State, e: Event, ch: Chan)
    requires CountedAt(s, ch) && e.i < |s.actors|
    ensures Do(s, e).Next? ==> CountedAt(Do(s, e).s, ch)
    ensures s.actors[e.i] == Woken(ch) ==> s.At(ch).q != []
  {
    CountUpdate(s.actors, e.i, Polling, Owed(ch));
    if Do(s, e).Next? {
      if e.Go? { LevelGo(s, e.i, ch); }
      CountUpdate(s.actors, e.i, Do(s, e).s.actors[e.i], Owed(ch));
    }
  }

  lemma CountedStep(s: State, e: Event)
    requires Counted(s)
    ensures Do(s, e) != NullPacket
    ensures Do(s, e).Next? ==> Counted(Do(s, e).s)
  {
    if e.i < |s.actors| {
      CountedStepAt(s, e, Rpkg);
      CountedStepAt(s, e, Wpkg);
      CountedStepAt(s, e, Ppkg);
    }
  }

  lemma {:induction false} CountedTrace(s: State, es: seq<Event>)
    requires Counted(s)
    ensures Trace(s, es) != NullPacket
    ensures Trace(s, es).Next? ==> Counted(Trace(s, es).s)
    decreases |es|
  {
    if es != [] {
      CountedStep(s, es[0]);
      if Do(s, es[0]).Next? { CountedTrace(Do(s, es[0]).s, es[1..]); }
    }
  }

  /** On every run of any number of workers each queue is as long as its semaphore plus what is owed to
      it, and no dequeue returns null. */
  lemma SemaphoresCount(n: nat, es: seq<Event>)
    ensures Trace(Start(n), es) != NullPacket
    ensures Trace(Start(n), es).Next? ==> Counted(Trace(Start(n), es).s)
  {
    forall ch
      ensures CountedAt(Start(n), ch)
    {
      CountIdle(Start(n).actors, Owed(ch));
    }
    CountedTrace(Start(n), es);
  }

  /** Nothing is left lying: while a thread sleeps on a queue that is not empty, some thread at that
      queue can take its step. */
  lemma NoLostWakeup(s: State, i: nat, ch: Chan) returns (j: nat)
    requires CountedAt(s, ch) && s.At(ch).q != [] && ch != Ppkg
    requires i < |s.actors| && s.actors[i] == Waiting(ch)
    ensures j < |s.actors| && Do(s, Go(j)).Next?
    ensures s.actors[j] == Waiting(ch) || s.actors[j] == Woken(ch) || (s.actors[j].Posting? && s.actors[j].ch == ch)
  {
    j := i;
    if s.At(ch).sem == 0 {
      j := CountFrom(s.actors, Owed(ch));
    }
  }

  // ----- the packets -----

  /** How often a packet is in a queue, with a thread, freed or lost. */
  function Places(s: State, id: nat): nat {
    CountIn(s.r.q, Copy(id)) + CountIn(s.w.q, Copy(id)) + CountIn(s.p.q, Copy(id)) + Count(s.actors, Copy(id))
    + s.freed[id] + s.lost[id]
  }

  ghost predicate Accounted(s: State, id: nat) {
    Places(s, id) == One(id < s.next) + s.revived[id]
  }

  /** The account of a packet but for the threads other than the one at pc. */
  function Account(s: State, pc: Pc, id: nat): int {
    CountIn(s.r.q, Copy(id)) + CountIn(s.w.q, Copy(id)) + CountIn(s.p.q, Copy(id)) + Owns(pc, id)
    + s.freed[id] + s.lost[id] - s.revived[id] - One(id < s.next)
  }

  ghost predicate SameAccount(s: State, t: State, i: nat, id: nat) {
    && i < |s.actors| == |t.actors|
    && t.actors == s.actors[i := t.actors[i]]
    && Account(t, t.actors[i], id) == Account(s, s.actors[i], id)
  }

  lemma AccountReceived(s: State, i: nat, p: Packet, msg: Msg, id: nat)
    requires i < |s.actors| && s.actors[i] == Received(p, msg)
    ensures SameAccount(s, GoReceived(s, i, p, msg), i, id)
  {
    match msg {
      case CreateCcb =>
      case RegAgent =>
      case OtherControl =>
      case ToolData => CountAppend(s.p.q, p, Copy(id));
      case Data => CountAppend(s.r.q, p, Copy(id));
    }
  }

  lemma AccountFlags(s: State, i: nat, c: nat, id: nat)
    requires i < |s.actors| && c < |s.ccbs| && AtFlags(s.actors[i], c) > 0
    ensures SameAccount(s, GoFlags(s, i, c), i, id)
  {
    match s.actors[i] {
      case Ran(p, _) =>
      case Clearing(p, _) =>
      case Testing(p, _, live) =>
      case Rebooting(p, _, live) =>
    }
  }

  lemma AccountQueue(s: State, i: nat, id: nat)
    requires i < |s.actors| && GoQueue(s, i).Next?
    ensures SameAccount(s, GoQueue(s, i).s, i, id)
  {
    match s.actors[i] {
      case Waiting(ch) =>
      case Woken(ch) =>
      case Posting(ch, back) =>
    }
  }

  lemma AccountAdd(s: State, i: nat, id: nat)
    requires i < |s.actors| && (s.actors[i].Acking? || s.actors[i].Replying? || s.actors[i].Requeueing?)
    ensures SameAccount(s, GoOn(s, i).s, i, id)
  {
    match s.actors[i] {
      case Acking => CountAppend(s.w.q, Packet(s.next, 0), Copy(id));
      case Replying(out, p, c) => CountAppend(s.w.q, out, Copy(id));
      case Requeueing(p, live) => CountAppend(s.r.q, p, Copy(id));
    }
  }

  lemma AccountGo(s: State, i: nat, id: nat)
    requires i < |s.actors| && GoOn(s, i).Next?
    ensures SameAccount(s, GoOn(s, i).s, i, id)
  {
    match s.actors[i] {
      case Received(p, msg) => AccountReceived(s, i, p, msg, id);
      case Waiting(_) => AccountQueue(s, i, id);
      case Woken(_) => AccountQueue(s, i, id);
      case Posting(_, _) => AccountQueue(s, i, id);
      case Ran(_, c) => AccountFlags(s, i, c, id);
      case Clearing(_, c) => AccountFlags(s, i, c, id);
      case Testing(_, c, _) => AccountFlags(s, i, c, id);
      case Rebooting(_, c, _) => AccountFlags(s, i, c, id);
      case Acking => AccountAdd(s, i, id);
      case Replying(_, _, _) => AccountAdd(s, i, id);
      case Requeueing(_, _) => AccountAdd(s, i, id);
      case Got(p) =>
      case Sending(p) =>
    }
  }

  lemma AccountStep(s: State, e: Event, id: nat)
    requires Accounted(s, id) && Do(s, e).Next?
    ensures Accounted(Do(s, e).s, id)
  {
    if e.Go? { AccountGo(s, e.i, id); }
    CountUpdate(s.actors, e.i, Do(s, e).s.actors[e.i], Copy(id));
  }

  lemma {:induction false} AccountTrace(s: State, es: seq<Event>, id: nat)
    requires Accounted(s, id) && Trace(s, es).Next?
    ensures Accounted(Trace(s, es).s, id)
    decreases |es|
  {
    if es != [] {
      AccountStep(s, es[0], id);
      AccountTrace(Do(s, es[0]).s, es[1..], id);
    }
  }

  /** On every run each packet issued is in one place, and in one more for each time that it was queued
      after its worker had freed it. So every packet is in exactly one place, no packet freed twice or
      queued after being freed, exactly when no worker has queued a packet that it had freed. */
  lemma OnePlaceIff(n: nat, es: seq<Event>)
    requires Trace(Start(n), es).Next?
    ensures forall id: nat :: Accounted(Trace(Start(n), es).s, id)
    ensures (forall id: nat :: Places(Trace(Start(n), es).s, id) == One(id < Trace(Start(n), es).s.next))
       <==> Trace(Start(n), es).s.revived == multiset{}
  {
    var t := Trace(Start(n), es).s;
    forall id: nat
      ensures Accounted(t, id)
    {
      var s := Start(n);
      CountIdle(s.actors, Copy(id));
      assert Places(s, id) == 0 && Accounted(s, id);
      AccountTrace(s, es, id);
    }
    if t.revived != multiset{} {
      var id :| id in t.revived;
      assert Accounted(t, id) && Places(t, id) != One(id < t.next);
    } else {
      forall id: nat
        ensures Places(t, id) == One(id < t.next)
      {
        assert Accounted(t, id) && t.revived[id] == 0;
      }
    }
  }

  // ----- one packet of a session at a time -----

  /** The packets of session x on their way to a worker, or with one. */
  function InService(s: State, x: int): nat {
    CountIn(s.r.q, Served(x)) + Count(s.actors, Served(x))
  }

  /** A packet for the workers arrives only when none of its session is in service. */
  predicate InTurn(s: State, e: Event) {
    e.Receive? && (e.msg.Data? || e.msg.CreateCcb?) ==> InService(s, e.session) == 0
  }

  predicate AllInTurn(s: State, es: seq<Event>)
    decreases |es|
  {
    es != [] ==> InTurn(s, es[0]) && (Do(s, es[0]).Next? ==> AllInTurn(Do(s, es[0]).s, es[1..]))
  }

  /** The CCB of a worker is that of its packet's session, and its flags are as the worker's place says:
      both clear before the bytecode runs, never both set after it, bootstrap clear once p is freed. */
  predicate Settled(ccbs: seq<Ccb>, pc: Pc) {
    match pc
    case Found(p, c) => c < |ccbs| && ccbs[c] == Ccb(p.session, false, false)
    case Ran(p, c) => c < |ccbs| && ccbs[c].session == p.session && !(ccbs[c].writeBack && ccbs[c].bootstrap)
    case Clearing(p, c) => c < |ccbs| && ccbs[c] == Ccb(p.session, true, false)
    case Replying(_, p, c) => c < |ccbs| && ccbs[c] == Ccb(p.session, false, false)
    case Posting(_, ToTest(p, c)) => c < |ccbs| && ccbs[c] == Ccb(p.session, false, false)
    case Testing(p, c, live) =>
      c < |ccbs| && ccbs[c].session == p.session && !ccbs[c].writeBack && (live || !ccbs[c].bootstrap)
    case Rebooting(p, c, live) => c < |ccbs| && ccbs[c] == Ccb(p.session, false, true) && live
    case Requeueing(p, live) => live
    case _ => true
  }

  predicate Flagged(s: State, c: nat) {
    c < |s.ccbs| && (s.ccbs[c].writeBack || s.ccbs[c].bootstrap)
  }

  /** Every worker finds the flags it should, every flag set will be found, nothing has been revived. */
  ghost predicate Calm(s: State) {
    && (forall i :: 0 <= i < |s.actors| ==> Settled(s.ccbs, s.actors[i]))
    && (forall c: nat :: Flagged(s, c) ==> Count(s.actors, Flagging(c)) > 0)
    && s.revived == multiset{}
  }

  predicate Serving(pc: Pc, x: int) {
    RoleOf(pc) == Worker && Serves(pc, x) > 0
  }

  /** No two workers serve one session. */
  ghost predicate Apart(s: State) {
    forall i, j, x :: 0 <= i < |s.actors| && 0 <= j < |s.actors| && i != j && Serving(s.actors[i], x) ==>
      !Serving(s.actors[j], x)
  }

  ghost predicate Alone(s: State) {
    (forall x :: InService(s, x) <= 1) && Calm(s)
  }

  /** Of one session, two threads cannot both be in service. */
  lemma NotTwo(s: State, i: nat, j: nat, x: int)
    requires InService(s, x) <= 1
    requires i < |s.actors| && j < |s.actors| && i != j
    requires Serves(s.actors[i], x) > 0
    ensures Serves(s.actors[j], x) == 0
  {
    CountTwo(s.actors, if i < j then i else j, if i < j then j else i, Served(x));
  }

  lemma AloneApart(s: State)
    requires forall x :: InService(s, x) <= 1
    ensures Apart(s)
  {
    forall i, j, x | 0 <= i < |s.actors| && 0 <= j < |s.actors| && i != j && Serving(s.actors[i], x)
      ensures !Serving(s.actors[j], x)
    {
      NotTwo(s, i, j, x);
    }
  }

  /** A worker leaves the service of session x when it has tested bootstrap for the last time. */
  function Leaves(was: Pc, pc: Pc, x: int): nat {
    if was.Testing? && pc.Waiting? then Serves(was, x) else 0
  }

  /** Thread i takes no packet of session x into service, and drops none but by leaving. */
  ghost predicate NoMore(s: State, t: State, i: nat, x: int) {
    && i < |s.actors| == |t.actors|
    && t.actors == s.actors[i := t.actors[i]]
    && CountIn(t.r.q, Served(x)) + Serves(t.actors[i], x) + Leaves(s.actors[i], t.actors[i], x)
    == CountIn(s.r.q, Served(x)) + Serves(s.actors[i], x)
  }

  lemma NoMoreReceived(s: State, i: nat, p: Packet, msg: Msg, x: int)
    requires i < |s.actors| && s.actors[i] == Received(p, msg)
    ensures NoMore(s, GoReceived(s, i, p, msg), i, x)
  {
    match msg {
      case CreateCcb =>
      case RegAgent =>
      case OtherControl =>
      case ToolData =>
      case Data => CountAppend(s.r.q, p, Served(x));
    }
  }

  lemma NoMoreFlags(s: State, i: nat, c: nat, x: int)
    requires i < |s.actors| && c < |s.ccbs| && AtFlags(s.actors[i], c) > 0
    ensures NoMore(s, GoFlags(s, i, c), i, x)
  {
    match s.actors[i] {
      case Ran(p, _) =>
      case Clearing(p, _) =>
      case Testing(p, _, live) =>
      case Rebooting(p, _, live) =>
    }
  }

  lemma NoMoreQueue(s: State, i: nat, x: int)
    requires i < |s.actors| && GoQueue(s, i).Next?
    ensures NoMore(s, GoQueue(s, i).s, i, x)
  {
    match s.actors[i] {
      case Waiting(ch) =>
      case Woken(ch) =>
      case Posting(ch, back) =>
    }
  }

  lemma NoMoreGo(s: State, i: nat, x: int)
    requires i < |s.actors| && GoOn(s, i).Next?
    ensures NoMore(s, GoOn(s, i).s, i, x)
  {
    match s.actors[i] {
      case Received(p, msg) => NoMoreReceived(s, i, p, msg, x);
      case Waiting(_) => NoMoreQueue(s, i, x);
      case Woken(_) => NoMoreQueue(s, i, x);
      case Posting(_, _) => NoMoreQueue(s, i, x);
      case Ran(_, c) => NoMoreFlags(s, i, c, x);
      case Clearing(_, c) => NoMoreFlags(s, i, c, x);
      case Testing(_, c, _) => NoMoreFlags(s, i, c, x);
      case Rebooting(_, c, _) => NoMoreFlags(s, i, c, x);
      case Acking =>
      case Got(p) =>
      case Replying(out, p, c) =>
      case Requeueing(p, live) => CountAppend(s.r.q, p, Served(x));
      case Sending(p) =>
    }
  }

  lemma InServiceStep(s: State, e: Event, x: int)
    requires InService(s, x) <= 1 && InTurn(s, e) && Do(s, e).Next?
    ensures InService(Do(s, e).s, x) <= 1
  {
    if e.Go? { NoMoreGo(s, e.i, x); }
    CountUpdate(s.actors, e.i, Do(s, e).s.actors[e.i], Served(x));
  }

  /** A flag set is one that some worker of its session is yet to find. */
  lemma Finder(s: State, c: nat) returns (j: nat)
    requires Calm(s) && Flagged(s, c)
    ensures j < |s.actors| && Serving(s.actors[j], s.ccbs[c].session) && !s.actors[j].Got?
  {
    j := CountFrom(s.actors, Flagging(c));
    assert Settled(s.ccbs, s.actors[j]);
  }

  /** The flags are clear when a worker that is alone with its session fetches the CCB. */
  lemma ClearAtFetch(s: State, i: nat, c: nat)
    requires Calm(s) && Apart(s) && i < |s.actors| && s.actors[i].Got? && c < |s.ccbs|
    requires s.ccbs[c].session == s.actors[i].p.session
    ensures !s.ccbs[c].writeBack && !s.ccbs[c].bootstrap
  {
    assert Serving(s.actors[i], s.ccbs[c].session);
    if Flagged(s, c) {
      var j := Finder(s, c);
    }
  }

  lemma SettledElsewhere(s: State, e: Event, j: nat)
    requires Calm(s) && Apart(s) && e.i < |s.actors| && j < |s.actors| && e.i != j && Do(s, e).Next?
    ensures Settled(Do(s, e).s.ccbs, s.actors[j])
  {
    var pc := s.actors[e.i];
    assert Settled(s.ccbs, pc) && Settled(s.ccbs, s.actors[j]);
    if pc.Found? || pc.Ran? || pc.Clearing? || pc.Testing? || pc.Rebooting? {
      assert Serving(pc, pc.p.session) && !Serving(s.actors[j], pc.p.session);
    }
  }

  predicate Settles(s: State, t: State, i: nat) {
    i < |t.actors| && Settled(t.ccbs, t.actors[i]) && t.revived == s.revived
  }

  lemma SettledAtFlags(s: State, i: nat, c: nat)
    requires i < |s.actors| && Settled(s.ccbs, s.actors[i]) && c < |s.ccbs|
    requires AtFlags(s.actors[i], c) > 0
    ensures Settles(s, GoFlags(s, i, c), i)
  {
  }

  lemma SettledAtQueue(s: State, i: nat)
    requires i < |s.actors| && GoQueue(s, i).Next? && Settled(s.ccbs, s.actors[i])
    ensures Settles(s, GoQueue(s, i).s, i)
  {
  }

  lemma SettledRun(s: State, i: nat, code: Code)
    requires i < |s.actors| && s.actors[i].Found? && Settled(s.ccbs, s.actors[i])
    ensures RunCode(s, i, code).Next? && Settles(s, RunCode(s, i, code).s, i)
  {
  }

  /** What follows a bytecode that is run with both flags clear: a reply for the four that write back, a
      bootstrap for the eight that ask for one, and otherwise the end of the packet. */
  lemma AfterCode(s: State, i: nat, code: Code) returns (t: State, u: State, v: State)
    requires i < |s.actors| && s.actors[i].Found? && Settled(s.ccbs, s.actors[i])
    ensures Do(s, Run(i, code)) == Next(t) && Do(t, Go(i)) == Next(u) && Do(u, Go(i)) == Next(v)
    ensures |u.actors| == |v.actors| == |s.actors|
    ensures u.actors[i].Clearing? <==> code.Select? || code.InitUpdate? || code.Traverse? || code.MsgMacing?
    ensures v.actors[i].Rebooting? <==>
              code.ExtAuth? || code.GetStatus? || code.InstallForInstall? || code.InstallForPersonalize?
              || code.PutKey? || code.Load? || code.Extradition? || code.StoreData?
    ensures v.actors[i] == Waiting(Rpkg) <==> code.Other?
  {
    var p, c := s.actors[i].p, s.actors[i].c;
    t := RunCode(s, i, code).s;
    assert t.actors[i] == Ran(p, c);
    u := GoFlags(t, i, c);
    v := GoFlags(u, i, c);
  }

  /** Who changes the flags of a CCB, in any state: bytecode run for it sets one and clears none, and only the
      worker that has found a flag clears that one. */
  lemma WhoChanges(s: State, e: Event, c: nat)
    requires Do(s, e).Next? && c < |s.ccbs|
    ensures c < |Do(s, e).s.ccbs|
    ensures var was, now, pc := s.ccbs[c], Do(s, e).s.ccbs[c], s.actors[e.i];
      && (now.writeBack <==>
            (was.writeBack && !(e.Go? && pc.Clearing? && pc.c == c))
            || (e.Run? && pc.c == c
                && (e.code.Select? || e.code.InitUpdate? || e.code.Traverse? || e.code.MsgMacing?)))
      && (now.bootstrap <==>
            (was.bootstrap && !(e.Go? && pc.Rebooting? && pc.c == c))
            || (e.Run? && pc.c == c
                && (e.code.ExtAuth? || e.code.GetStatus? || e.code.InstallForInstall?
                    || e.code.InstallForPersonalize? || e.code.PutKey? || e.code.Load? || e.code.Extradition?
                    || e.code.StoreData?)))
  {
    if e.Go? {
      match s.actors[e.i] {
        case Ran(_, d) =>
        case Clearing(_, d) =>
        case Testing(_, d, _) =>
        case Rebooting(_, d, _) =>
        case _ =>
      }
    }
  }

  lemma SettledGo(s: State, i: nat)
    requires Calm(s) && Apart(s) && i < |s.actors| && GoOn(s, i).Next?
    ensures Settles(s, GoOn(s, i).s, i)
  {
    var pc := s.actors[i];
    assert Settled(s.ccbs, pc);
    match pc {
      case Got(p) => ClearAtFetch(s, i, Fetch(s.ccbs, p.session));
      case Waiting(_) => SettledAtQueue(s, i);
      case Woken(_) => SettledAtQueue(s, i);
      case Posting(_, _) => SettledAtQueue(s, i);
      case Ran(_, c) => SettledAtFlags(s, i, c);
      case Clearing(_, c) => SettledAtFlags(s, i, c);
      case Testing(_, c, _) => SettledAtFlags(s, i, c);
      case Rebooting(_, c, _) => SettledAtFlags(s, i, c);
      case Received(p, msg) =>
      case Acking =>
      case Replying(out, p, c) =>
      case Requeueing(p, live) =>
      case Sending(p) =>
    }
  }

  lemma SettledHere(s: State, e: Event)
    requires Calm(s) && Apart(s) && Do(s, e).Next?
    ensures Settles(s, Do(s, e).s, e.i)
  {
    assert Settled(s.ccbs, s.actors[e.i]);
    match e {
      case Receive(_, _, _) =>
      case Run(i, code) => SettledRun(s, i, code);
      case Go(i) => SettledGo(s, i);
    }
  }

  /** A flag set after a step was set before it and thread i has not left it, or i has just set it. */
  ghost predicate Watched(s: State, t: State, i: nat, c: nat) {
    && i < |s.actors| == |t.actors|
    && t.actors == s.actors[i := t.actors[i]]
    && (Flagged(t, c) ==>
          AtFlags(t.actors[i], c) > 0 || (Flagged(s, c) && AtFlags(t.actors[i], c) >= AtFlags(s.actors[i], c)))
  }

  lemma WatchedAtFlags(s: State, i: nat, c: nat, d: nat)
    requires i < |s.actors| && Settled(s.ccbs, s.actors[i]) && c < |s.ccbs|
    requires AtFlags(s.actors[i], c) > 0
    ensures Watched(s, GoFlags(s, i, c), i, d)
  {
  }

  lemma WatchedStep(s: State, e: Event, c: nat)
    requires e.i < |s.actors| && Do(s, e).Next? && Settled(s.ccbs, s.actors[e.i])
    ensures Watched(s, Do(s, e).s, e.i, c)
  {
    var i := e.i;
    if e.Go? {
      match s.actors[i] {
        case Ran(_, d) => WatchedAtFlags(s, i, d, c);
        case Clearing(_, d) => WatchedAtFlags(s, i, d, c);
        case Testing(_, d, _) => WatchedAtFlags(s, i, d, c);
        case Rebooting(_, d, _) => WatchedAtFlags(s, i, d, c);
        case _ =>
      }
    }
  }

  lemma CalmStep(s: State, e: Event)
    requires Calm(s) && Apart(s) && Do(s, e).Next?
    ensures Calm(Do(s, e).s)
  {
    var i, t := e.i, Do(s, e).s;
    SettledHere(s, e);
    WatchedStep(s, e, 0);
    forall j: nat | j < |t.actors|
      ensures Settled(t.ccbs, t.actors[j])
    {
      if j != i { SettledElsewhere(s, e, j); }
    }
    forall c: nat | Flagged(t, c)
      ensures Count(t.actors, Flagging(c)) > 0
    {
      WatchedStep(s, e, c);
      CountUpdate(s.actors, i, t.actors[i], Flagging(c));
    }
  }

  lemma AloneStep(s: State, e: Event)
    requires Alone(s) && InTurn(s, e) && Do(s, e).Next?
    ensures Alone(Do(s, e).s)
  {
    forall x
      ensures InService(Do(s, e).s, x) <= 1
    {
      InServiceStep(s, e, x);
    }
    AloneApart(s);
    CalmStep(s, e);
  }

  lemma {:induction false} AloneTrace(s: State, es: seq<Event>)
    requires Alone(s) && AllInTurn(s, es) && Trace(s, es).Next?
    ensures Alone(Trace(s, es).s)
    decreases |es|
  {
    if es != [] {
      AloneStep(s, es[0]);
      AloneTrace(Do(s, es[0]).s, es[1..]);
    }
  }

  /** Because no bytecode sets both flags: when packets of a session come one at a time, both flags are
      clear at each dispatch and every packet issued is in exactly one place, for any number of workers. */
  lemma OnePlaceInTurn(n: nat, es: seq<Event>)
    requires AllInTurn(Start(n), es) && Trace(Start(n), es).Next?
    ensures Alone(Trace(Start(n), es).s)
    ensures forall id: nat :: Places(Trace(Start(n), es).s, id) == One(id < Trace(Start(n), es).s.next)
  {
    var s := Start(n);
    forall x
      ensures InService(s, x) == 0
    {
      CountIdle(s.actors, Served(x));
    }
    AloneTrace(s, es);
    OnePlaceIff(n, es);
  }

  // ----- the sessions -----

  predicate Known(ccbs: seq<Ccb>, x: int) {
    Fetch(ccbs, x) < |ccbs|
  }

  /** Data for the workers arrives only for a session that has a CCB. */
  ghost predicate Opened(s: State, e: Event) {
    e.Receive? && e.msg.Data? ==> Known(s.ccbs, e.session)
  }

  ghost predicate AllOpened(s: State, es: seq<Event>)
    decreases |es|
  {
    es != [] ==> Opened(s, es[0]) && (Do(s, es[0]).Next? ==> AllOpened(Do(s, es[0]).s, es[1..]))
  }

  /** A worker's packet is of a session that has a CCB, and the CCB it has fetched is the first of them. */
  predicate Placed(ccbs: seq<Ccb>, pc: Pc) {
    match pc
    case Received(p, Data) => Known(ccbs, p.session)
    case Got(p) => Known(ccbs, p.session)
    case Found(p, c) => c == Fetch(ccbs, p.session) < |ccbs|
    case Ran(p, c) => c == Fetch(ccbs, p.session) < |ccbs|
    case Clearing(p, c) => c == Fetch(ccbs, p.session) < |ccbs|
    case Replying(out, p, c) => out.session == p.session && c == Fetch(ccbs, p.session) < |ccbs|
    case Posting(_, ToTest(p, c)) => c == Fetch(ccbs, p.session) < |ccbs|
    case Testing(p, c, _) => c == Fetch(ccbs, p.session) < |ccbs|
    case Rebooting(p, c, _) => c == Fetch(ccbs, p.session) < |ccbs|
    case Requeueing(p, _) => Known(ccbs, p.session)
    case _ => true
  }

  ghost predicate AllPlaced(s: State) {
    && (forall i :: 0 <= i < |s.actors| ==> Placed(s.ccbs, s.actors[i]))
    && (forall p :: p in s.r.q ==> Known(s.ccbs, p.session))
  }

  /** CCBs are never removed and keep their session. */
  ghost predicate Grown(a: seq<Ccb>, b: seq<Ccb>) {
    |a| <= |b| && forall c :: 0 <= c < |a| ==> b[c].session == a[c].session
  }

  lemma KnownGrown(a: seq<Ccb>, b: seq<Ccb>, x: int)
    requires Grown(a, b) && Known(a, x)
    ensures Known(b, x) && Fetch(b, x) == Fetch(a, x)
  {
    assert b[Fetch(a, x)].session == x;
    assert forall k :: 0 <= k < Fetch(a, x) ==> b[k].session == a[k].session;
  }

  function SessionOf(pc: Pc): int {
    match pc
    case Received(p, _) => p.session
    case Got(p) => p.session
    case Found(p, _) => p.session
    case Ran(p, _) => p.session
    case Clearing(p, _) => p.session
    case Replying(_, p, _) => p.session
    case Posting(_, ToTest(p, _)) => p.session
    case Testing(p, _, _) => p.session
    case Rebooting(p, _, _) => p.session
    case Requeueing(p, _) => p.session
    case _ => 0
  }

  lemma PlacedGrown(a: seq<Ccb>, b: seq<Ccb>, pc: Pc)
    requires Grown(a, b) && Placed(a, pc)
    ensures Placed(b, pc)
  {
    if Known(a, SessionOf(pc)) { KnownGrown(a, b, SessionOf(pc)); }
  }

  lemma GrownFlags(s: State, i: nat, c: nat)
    requires i < |s.actors| && c < |s.ccbs| && AtFlags(s.actors[i], c) > 0
    ensures Grown(s.ccbs, GoFlags(s, i, c).ccbs)
  {
  }

  lemma GrownStep(s: State, e: Event)
    requires Do(s, e).Next?
    ensures Grown(s.ccbs, Do(s, e).s.ccbs)
  {
    if e.Go? {
      match s.actors[e.i] {
        case Ran(_, c) => GrownFlags(s, e.i, c);
        case Clearing(_, c) => GrownFlags(s, e.i, c);
        case Testing(_, c, _) => GrownFlags(s, e.i, c);
        case Rebooting(_, c, _) => GrownFlags(s, e.i, c);
        case _ =>
      }
    }
  }

  ghost predicate StillPlaced(s: State, t: State, i: nat) {
    && i < |s.actors| == |t.actors|
    && t.actors == s.actors[i := t.actors[i]]
    && Placed(t.ccbs, t.actors[i])
    && (forall p :: p in t.r.q ==> p in s.r.q || Known(s.ccbs, p.session))
  }

  lemma PlacedReceived(s: State, i: nat, p: Packet, msg: Msg)
    requires i < |s.actors| && s.actors[i] == Received(p, msg) && Placed(s.ccbs, s.actors[i])
    ensures StillPlaced(s, GoReceived(s, i, p, msg), i)
  {
    if msg.CreateCcb? {
      assert GoReceived(s, i, p, msg).ccbs[|s.ccbs|].session == p.session;
    }
  }

  lemma PlacedFlags(s: State, i: nat, c: nat)
    requires i < |s.actors| && c < |s.ccbs| && Placed(s.ccbs, s.actors[i])
    requires AtFlags(s.actors[i], c) > 0
    ensures StillPlaced(s, GoFlags(s, i, c), i)
  {
    assert Grown(s.ccbs, GoFlags(s, i, c).ccbs);
    KnownGrown(s.ccbs, GoFlags(s, i, c).ccbs, SessionOf(s.actors[i]));
  }

  lemma PlacedRun(s: State, i: nat, code: Code)
    requires i < |s.actors| && s.actors[i].Found? && Placed(s.ccbs, s.actors[i]) && RunCode(s, i, code).Next?
    ensures StillPlaced(s, RunCode(s, i, code).s, i)
  {
    assert Grown(s.ccbs, RunCode(s, i, code).s.ccbs);
    KnownGrown(s.ccbs, RunCode(s, i, code).s.ccbs, SessionOf(s.actors[i]));
  }

  lemma PlacedQueue(s: State, i: nat)
    requires i < |s.actors| && GoQueue(s, i).Next? && AllPlaced(s)
    ensures StillPlaced(s, GoQueue(s, i).s, i)
  {
    assert Placed(s.ccbs, s.actors[i]);
    match s.actors[i] {
      case Waiting(ch) =>
      case Woken(ch) => assert s.At(ch).q[0] in s.At(ch).q;
      case Posting(ch, back) =>
    }
  }

  lemma PlacedStep(s: State, e: Event)
    requires AllPlaced(s) && Opened(s, e) && Do(s, e).Next?
    ensures StillPlaced(s, Do(s, e).s, e.i)
  {
    var i := e.i;
    assert Placed(s.ccbs, s.actors[i]);
    if e.Go? {
      match s.actors[i] {
        case Received(p, msg) => PlacedReceived(s, i, p, msg);
        case Waiting(_) => PlacedQueue(s, i);
        case Woken(_) => PlacedQueue(s, i);
        case Posting(_, _) => PlacedQueue(s, i);
        case Ran(_, c) => PlacedFlags(s, i, c);
        case Clearing(_, c) => PlacedFlags(s, i, c);
        case Testing(_, c, _) => PlacedFlags(s, i, c);
        case Rebooting(_, c, _) => PlacedFlags(s, i, c);
        case Acking =>
        case Got(p) =>
        case Replying(out, p, c) =>
        case Requeueing(p, live) =>
        case Sending(p) =>
      }
    } else if e.Run? {
      PlacedRun(s, i, e.code);
    }
  }

  lemma NullCcbNever(s: State, e: Event)
    requires AllPlaced(s)
    ensures Do(s, e) != NullCcb
  {
    if e.i < |s.actors| { assert Placed(s.ccbs, s.actors[e.i]); }
  }

  lemma AllPlacedStep(s: State, e: Event)
    requires AllPlaced(s) && Opened(s, e) && Do(s, e).Next?
    ensures AllPlaced(Do(s, e).s)
  {
    var t := Do(s, e).s;
    GrownStep(s, e);
    PlacedStep(s, e);
    forall j: nat | j < |t.actors|
      ensures Placed(t.ccbs, t.actors[j])
    {
      if j != e.i { PlacedGrown(s.ccbs, t.ccbs, s.actors[j]); }
    }
    forall p | p in t.r.q
      ensures Known(t.ccbs, p.session)
    {
      KnownGrown(s.ccbs, t.ccbs, p.session);
    }
  }

  lemma {:induction false} AllPlacedTrace(s: State, es: seq<Event>)
    requires AllPlaced(s) && AllOpened(s, es)
    ensures Trace(s, es) != NullCcb
    ensures Trace(s, es).Next? ==> AllPlaced(Trace(s, es).s)
    decreases |es|
  {
    if es != [] {
      NullCcbNever(s, es[0]);
      if Do(s, es[0]).Next? {
        AllPlacedStep(s, es[0]);
        AllPlacedTrace(Do(s, es[0]).s, es[1..]);
      }
    }
  }

  /** While data comes only for sessions that have been opened, no worker uses a null CCB. */
  lemma CcbAlwaysFound(n: nat, es: seq<Event>)
    requires AllOpened(Start(n), es)
    ensures Trace(Start(n), es) != NullCcb
  {
    AllPlacedTrace(Start(n), es);
  }

  // ----- a system at rest -----

  ghost predicate RoleKept(s: State, t: State, i: nat) {
    && i < |s.actors| == |t.actors|
    && t.actors == s.actors[i := t.actors[i]]
    && RoleOf(t.actors[i]) == RoleOf(s.actors[i])
  }

  lemma RoleAtFlags(s: State, i: nat, c: nat)
    requires i < |s.actors| && c < |s.ccbs|
    ensures RoleKept(s, GoFlags(s, i, c), i)
  {
  }

  lemma RoleAtQueue(s: State, i: nat)
    requires i < |s.actors| && GoQueue(s, i).Next?
    ensures RoleKept(s, GoQueue(s, i).s, i)
  {
    match s.actors[i] {
      case Waiting(ch) =>
      case Woken(ch) =>
      case Posting(ch, back) =>
    }
  }

  lemma RoleReceived(s: State, i: nat, p: Packet, msg: Msg)
    requires i < |s.actors| && s.actors[i] == Received(p, msg)
    ensures RoleKept(s, GoReceived(s, i, p, msg), i)
  {
  }

  lemma RoleStep(s: State, e: Event)
    requires Do(s, e).Next?
    ensures RoleKept(s, Do(s, e).s, e.i)
  {
    if e.Go? {
      match s.actors[e.i] {
        case Received(p, msg) => RoleReceived(s, e.i, p, msg);
        case Waiting(_) => RoleAtQueue(s, e.i);
        case Woken(_) => RoleAtQueue(s, e.i);
        case Posting(_, _) => RoleAtQueue(s, e.i);
        case Ran(_, c) => RoleAtFlags(s, e.i, c);
        case Clearing(_, c) => RoleAtFlags(s, e.i, c);
        case Testing(_, c, _) => RoleAtFlags(s, e.i, c);
        case Rebooting(_, c, _) => RoleAtFlags(s, e.i, c);
        case _ =>
      }
    }
  }

  lemma {:induction false} RoleTrace(s: State, es: seq<Event>)
    requires Trace(s, es).Next?
    ensures |Trace(s, es).s.actors| == |s.actors|
    ensures forall i :: 0 <= i < |s.actors| ==> RoleOf(Trace(s, es).s.actors[i]) == RoleOf(s.actors[i])
    decreases |es|
  {
    if es != [] {
      RoleStep(s, es[0]);
      RoleTrace(Do(s, es[0]).s, es[1..]);
    }
  }

  // ----- one worker -----

  ghost predicate Sole(s: State) {
    forall i, j | 0 <= i < |s.actors| && 0 <= j < |s.actors| ::
      RoleOf(s.actors[i]) == Worker && RoleOf(s.actors[j]) == Worker ==> i == j
  }

  lemma SoleApart(s: State)
    requires Sole(s)
    ensures Apart(s)
  {
    forall i, j, x | 0 <= i < |s.actors| && 0 <= j < |s.actors| && i != j && Serving(s.actors[i], x)
      ensures !Serving(s.actors[j], x)
    {
      assert RoleOf(s.actors[i]) == Worker;
    }
  }

  /** A worker that has no other beside it misplaces nothing, whenever packets arrive. */
  lemma {:induction false} SoleTrace(s: State, es: seq<Event>)
    requires Calm(s) && Sole(s) && Trace(s, es).Next?
    ensures Calm(Trace(s, es).s) && Sole(Trace(s, es).s)
    decreases |es|
  {
    if es != [] {
      SoleApart(s);
      CalmStep(s, es[0]);
      RoleStep(s, es[0]);
      SoleTrace(Do(s, es[0]).s, es[1..]);
    }
  }

  lemma StartCalm(n: nat)
    ensures Calm(Start(n)) && (n < 2 ==> Sole(Start(n)))
  {
    var s := Start(n);
    forall i | 0 <= i < |s.actors| && i < 2
      ensures RoleOf(s.actors[i]) != Worker
    {
    }
  }

  /** With one worker, or none, on every run whatever arrives every packet issued is in exactly one place. */
  lemma OnePlaceAlone(n: nat, es: seq<Event>)
    requires n < 2 && Trace(Start(n), es).Next?
    ensures forall id: nat :: Places(Trace(Start(n), es).s, id) == One(id < Trace(Start(n), es).s.next)
  {
    StartCalm(n);
    SoleTrace(Start(n), es);
    OnePlaceIff(n, es);
  }

  /** No thread can take a step until a packet arrives. */
  ghost predicate AtRest(s: State) {
    forall i: nat :: i < |s.actors| ==> Do(s, Go(i)) == Blocked && !s.actors[i].Found?
  }

  lemma RestingPc(s: State)
    requires AtRest(s) && forall i :: 0 <= i < |s.actors| ==> RoleOf(s.actors[i]) != Tool
    ensures forall i: nat :: i < |s.actors| ==> s.actors[i].Polling? || s.actors[i].Waiting?
  {
    forall i: nat | i < |s.actors|
      ensures s.actors[i].Polling? || s.actors[i].Waiting?
    {
      assert Do(s, Go(i)) == Blocked;
    }
  }

  /** When a system with a worker comes to rest, every packet has been dealt with: those not revived
      were freed or lost, once, or wait for the tool. */
  lemma AtRestAllDone(n: nat, es: seq<Event>)
    requires n > 0 && Trace(Start(n), es).Next? && AtRest(Trace(Start(n), es).s)
    ensures var t := Trace(Start(n), es).s;
      && t.r == Channel([], 0) && t.w == Channel([], 0)
      && forall id: nat :: t.freed[id] + t.lost[id] + CountIn(t.p.q, Copy(id)) == One(id < t.next) + t.revived[id]
  {
    var s, t := Start(n), Trace(Start(n), es).s;
    RoleTrace(s, es);
    assert RoleOf(s.actors[1]) == Writer && RoleOf(s.actors[2]) == Worker;
    forall i | 0 <= i < |t.actors|
      ensures RoleOf(t.actors[i]) != Tool
    {
      assert RoleOf(s.actors[i]) != Tool;
    }
    RestingPc(t);
    assert t.actors[1] == Waiting(Wpkg) && t.actors[2] == Waiting(Rpkg);
    assert Do(t, Go(1)) == Blocked && Do(t, Go(2)) == Blocked;
    SemaphoresCount(n, es);
    OnePlaceIff(n, es);
    CountIdle(t.actors, Owed(Rpkg));
    CountIdle(t.actors, Owed(Wpkg));
    forall id: nat
      ensures t.freed[id] + t.lost[id] + CountIn(t.p.q, Copy(id)) == One(id < t.next) + t.revived[id]
    {
      CountIdle(t.actors, Copy(id));
      assert Accounted(t, id);
    }
  }
}
