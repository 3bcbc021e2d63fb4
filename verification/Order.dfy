/** In which order packets leave the queues, and what the reader and the workers owe (tsm_vm.c, tsm_router.c). */
module Order {
  import opened Protocol

  // ----- first in, first out -----

  /** What a thread puts on a queue in its next step, going by where it is. */
  function Puts(s: State, e: Event, ch: Chan): seq<Packet> {
    if !e.Go? || e.i >= |s.actors| then []
    else
      match s.actors[e.i]
      case Received(p, Data) => if ch == Rpkg then [p] else []
      case Received(p, ToolData) => if ch == Ppkg then [p] else []
      case Acking => if ch == Wpkg then [Packet(s.next, 0)] else []
      case Replying(out, _, _) => if ch == Wpkg then [out] else []
      case Requeueing(p, _) => if ch == Rpkg then [p] else []
      case _ => []
  }

  /** What a thread that is past its wait at a queue goes on with after the step from s to t. */
  function Takes(s: State, e: Event, t: State, ch: Chan): seq<Packet> {
    if !e.Go? || e.i >= |s.actors| || e.i >= |t.actors| || s.actors[e.i] != Woken(ch) then []
    else
      match t.actors[e.i]
      case Got(p) => [p]
      case Sending(p) => [p]
      case _ => []
  }

  function AllPut(s: State, es: seq<Event>, ch: Chan): seq<Packet>
    decreases |es|
  {
    if es == [] || !Do(s, es[0]).Next? then [] else Puts(s, es[0], ch) + AllPut(Do(s, es[0]).s, es[1..], ch)
  }

  function AllTaken(s: State, es: seq<Event>, ch: Chan): seq<Packet>
    decreases |es|
  {
    if es == [] || !Do(s, es[0]).Next? then []
    else Takes(s, es[0], Do(s, es[0]).s, ch) + AllTaken(Do(s, es[0]).s, es[1..], ch)
  }

  /** One step: what is added goes to the back, what is taken comes off the front. */
  ghost predicate Passes(s: State, e: Event, t: State, ch: Chan) {
    s.At(ch).q + Puts(s, e, ch) == Takes(s, e, t, ch) + t.At(ch).q
  }

  lemma PassesReceived(s: State, e: Event, p: Packet, msg: Msg, ch: Chan)
    requires e.Go? && e.i < |s.actors| && s.actors[e.i] == Received(p, msg)
    ensures Passes(s, e, GoReceived(s, e.i, p, msg), ch)
  {
    match msg {
      case CreateCcb =>
      case RegAgent =>
      case OtherControl =>
      case ToolData =>
      case Data =>
    }
  }

  lemma PassesFlags(s: State, e: Event, c: nat, ch: Chan)
    requires e.Go? && e.i < |s.actors| && c < |s.ccbs| && AtFlags(s.actors[e.i], c) > 0
    ensures Passes(s, e, GoFlags(s, e.i, c), ch)
  {
    match s.actors[e.i] {
      case Ran(p, _) =>
      case Clearing(p, _) =>
      case Testing(p, _, live) =>
      case Rebooting(p, _, live) =>
    }
  }

  lemma PassesQueue(s: State, e: Event, ch: Chan)
    requires e.Go? && e.i < |s.actors| && GoQueue(s, e.i).Next?
    ensures Passes(s, e, GoQueue(s, e.i).s, ch)
  {
    match s.actors[e.i] {
      case Waiting(c) =>
      case Woken(c) =>
      case Posting(c, back) =>
    }
  }

  lemma PassesStep(s: State, e: Event, ch: Chan)
    requires Do(s, e).Next?
    ensures Passes(s, e, Do(s, e).s, ch)
  {
    if e.Go? {
      match s.actors[e.i] {
        case Received(p, msg) => PassesReceived(s, e, p, msg, ch);
        case Waiting(_) => PassesQueue(s, e, ch);
        case Woken(_) => PassesQueue(s, e, ch);
        case Posting(_, _) => PassesQueue(s, e, ch);
        case Ran(_, c) => PassesFlags(s, e, c, ch);
        case Clearing(_, c) => PassesFlags(s, e, c, ch);
        case Testing(_, c, _) => PassesFlags(s, e, c, ch);
        case Rebooting(_, c, _) => PassesFlags(s, e, c, ch);
        case Acking =>
        case Got(p) =>
        case Replying(_, _, _) =>
        case Requeueing(_, _) =>
        case Sending(_) =>
      }
    }
  }

  lemma Chained<T>(q: seq<T>, a: seq<T>, b: seq<T>, x: seq<T>, y: seq<T>, r: seq<T>, r': seq<T>)
    requires q + a == x + r && r + b == y + r'
    ensures q + (a + b) == (x + y) + r'
  {
    assert q + (a + b) == (q + a) + b;
    assert (x + r) + b == x + (r + b);
    assert x + (y + r') == (x + y) + r';
  }

  lemma {:induction false} PassesTrace(s: State, es: seq<Event>, ch: Chan)
    requires Trace(s, es).Next?
    ensures s.At(ch).q + AllPut(s, es, ch) == AllTaken(s, es, ch) + Trace(s, es).s.At(ch).q
    decreases |es|
  {
    if es == [] {
      assert s.At(ch).q + [] == [] + s.At(ch).q;
    } else {
      var t := Do(s, es[0]).s;
      PassesStep(s, es[0], ch);
      PassesTrace(t, es[1..], ch);
      Chained(s.At(ch).q, Puts(s, es[0], ch), AllPut(t, es[1..], ch), Takes(s, es[0], t, ch),
              AllTaken(t, es[1..], ch), t.At(ch).q, Trace(s, es).s.At(ch).q);
    }
  }

  /** On every run, for any number of workers: what has been put on a queue is what has been taken off it,
      followed by what is still there, in order. So data reaches the workers and replies the writer first
      come first served, and no packet strays into another queue. */
  lemma FirstInFirstOut(n: nat, es: seq<Event>, ch: Chan)
    requires Trace(Start(n), es).Next?
    ensures AllPut(Start(n), es, ch) == AllTaken(Start(n), es, ch) + Trace(Start(n), es).s.At(ch).q
  {
    PassesTrace(Start(n), es, ch);
    assert [] + AllPut(Start(n), es, ch) == AllPut(Start(n), es, ch);
  }

  // ----- what the reader owes -----

  /** What is counted: messages of a kind that arrive, packets that the reader frees, drops without freeing,
      and queues for the writer, and CCBs. */
  datatype Deed = Arrives(msg: Msg) | Frees | Drops | Acknowledges

  /** Going by what the step changes. */
  function Done(s: State, e: Event, t: State, k: Deed): nat {
    match k
    case Arrives(msg) => One(e.Receive? && e.msg == msg)
    case Frees => One(ByReader(s, e) && t.freed != s.freed)
    case Drops => One(ByReader(s, e) && t.lost != s.lost)
    case Acknowledges => One(ByReader(s, e) && |t.w.q| > |s.w.q|)
  }

  predicate ByReader(s: State, e: Event) {
    e.Go? && e.i < |s.actors| && RoleOf(s.actors[e.i]) == Reader
  }

  function AllDone(s: State, es: seq<Event>, k: Deed): nat
    decreases |es|
  {
    if es == [] || !Do(s, es[0]).Next? then 0
    else Done(s, es[0], Do(s, es[0]).s, k) + AllDone(Do(s, es[0]).s, es[1..], k)
  }

  /** The reader is the first thread and the only one of its role. */
  predicate OneReader(s: State) {
    |s.actors| > 0 && forall i :: 0 < i < |s.actors| ==> RoleOf(s.actors[i]) != Reader
  }

  /** A message of that kind which the reader has still to deal with. */
  function Pending(s: State, msg: Msg): nat
    requires |s.actors| > 0
  {
    One(s.actors[0].Received? && s.actors[0].msg == msg)
  }

  function Owing(s: State): nat
    requires |s.actors| > 0
  {
    One(s.actors[0].Acking?)
  }

  ghost predicate Settling(s: State, e: Event, t: State) {
    && OneReader(s) && OneReader(t)
    && Done(s, e, t, Arrives(RegAgent)) + Pending(s, RegAgent) == Done(s, e, t, Frees) + Pending(t, RegAgent)
    && Done(s, e, t, Frees) + Owing(s) == Done(s, e, t, Acknowledges) + Owing(t)
    && Done(s, e, t, Arrives(OtherControl)) + Pending(s, OtherControl)
       == Done(s, e, t, Drops) + Pending(t, OtherControl)
    && Done(s, e, t, Arrives(CreateCcb)) + Pending(s, CreateCcb) + |s.ccbs| == |t.ccbs| + Pending(t, CreateCcb)
  }

  lemma MoreOf(m: multiset<nat>, id: nat)
    ensures m + multiset{id} != m
  {
    assert (m + multiset{id})[id] == m[id] + 1;
  }

  lemma SettlingReceived(s: State, e: Event, p: Packet, msg: Msg)
    requires e.Go? && e.i == 0 && OneReader(s) && s.actors[0] == Received(p, msg)
    ensures Settling(s, e, GoReceived(s, 0, p, msg))
  {
    MoreOf(s.freed, p.id);
    MoreOf(s.lost, p.id);
    match msg {
      case CreateCcb =>
      case RegAgent =>
      case OtherControl =>
      case ToolData =>
      case Data =>
    }
  }

  lemma SettlingOther(s: State, e: Event, t: State)
    requires Do(s, e) == Protocol.Next(t) && OneReader(s) && !e.Receive? && RoleOf(s.actors[e.i]) != Reader
    ensures Settling(s, e, t)
  {
    RoleStep(s, e);
    assert e.i > 0 ==> t.actors[0] == s.actors[0];
    GrownStep(s, e);
    SameCcbs(s, e, t);
  }

  lemma SameCcbs(s: State, e: Event, t: State)
    requires Do(s, e) == Protocol.Next(t) && !e.Receive? && RoleOf(s.actors[e.i]) != Reader
    ensures |t.ccbs| == |s.ccbs|
  {
  }

  lemma SettlingStep(s: State, e: Event)
    requires OneReader(s) && Do(s, e).Next?
    ensures Settling(s, e, Do(s, e).s)
  {
    var t := Do(s, e).s;
    RoleStep(s, e);
    if e.i > 0 || RoleOf(s.actors[0]) != Reader {
      SettlingOther(s, e, t);
    } else if e.Go? {
      match s.actors[0] {
        case Received(p, msg) => SettlingReceived(s, e, p, msg);
        case Acking =>
        case Posting(ch, back) =>
      }
    }
  }

  /** The four accounts of a run. */
  ghost predicate InAccount(s: State, es: seq<Event>, t: State) {
    && |s.actors| > 0 && |t.actors| > 0
    && AllDone(s, es, Arrives(RegAgent)) + Pending(s, RegAgent) == AllDone(s, es, Frees) + Pending(t, RegAgent)
    && AllDone(s, es, Frees) + Owing(s) == AllDone(s, es, Acknowledges) + Owing(t)
    && AllDone(s, es, Arrives(OtherControl)) + Pending(s, OtherControl)
       == AllDone(s, es, Drops) + Pending(t, OtherControl)
    && AllDone(s, es, Arrives(CreateCcb)) + Pending(s, CreateCcb) + |s.ccbs| == |t.ccbs| + Pending(t, CreateCcb)
  }

  lemma {:induction false} InAccountTrace(s: State, es: seq<Event>)
    requires OneReader(s) && Trace(s, es).Next?
    ensures InAccount(s, es, Trace(s, es).s)
    decreases |es|
  {
    if es != [] {
      SettlingStep(s, es[0]);
      InAccountTrace(Do(s, es[0]).s, es[1..]);
    }
  }

  /** On every run, but for the message in the reader's hands: it frees exactly the registrations and
      acknowledges each of them once, drops exactly the control messages it does not know, and makes one CCB
      for each request. */
  lemma ReaderAccounts(n: nat, es: seq<Event>)
    requires Trace(Start(n), es).Next?
    ensures var s, t := Start(n), Trace(Start(n), es).s;
      && |t.actors| > 0
      && AllDone(s, es, Arrives(RegAgent)) == AllDone(s, es, Frees) + Pending(t, RegAgent)
      && AllDone(s, es, Frees) == AllDone(s, es, Acknowledges) + Owing(t)
      && AllDone(s, es, Arrives(OtherControl)) == AllDone(s, es, Drops) + Pending(t, OtherControl)
      && AllDone(s, es, Arrives(CreateCcb)) == |t.ccbs| + Pending(t, CreateCcb)
  {
    InAccountTrace(Start(n), es);
  }

  // ----- what the workers owe -----

  predicate ByWorker(s: State, e: Event) {
    e.Go? && e.i < |s.actors| && RoleOf(s.actors[e.i]) == Worker
  }

  /** A worker frees a packet of session x. */
  function FreesOf(s: State, e: Event, t: State, x: int): nat {
    One(ByWorker(s, e) && t.freed != s.freed && SessionOf(s.actors[e.i]) == x)
  }

  /** A worker queues a packet for the writer, for the agent of session x. */
  function RepliesTo(s: State, e: Event, t: State, x: int): nat {
    One(ByWorker(s, e) && |t.w.q| > |s.w.q| && t.w.q[|t.w.q| - 1].session == x)
  }

  function AllFreesOf(s: State, es: seq<Event>, x: int): nat
    decreases |es|
  {
    if es == [] || !Do(s, es[0]).Next? then 0
    else FreesOf(s, es[0], Do(s, es[0]).s, x) + AllFreesOf(Do(s, es[0]).s, es[1..], x)
  }

  function AllRepliesTo(s: State, es: seq<Event>, x: int): nat
    decreases |es|
  {
    if es == [] || !Do(s, es[0]).Next? then 0
    else RepliesTo(s, es[0], Do(s, es[0]).s, x) + AllRepliesTo(Do(s, es[0]).s, es[1..], x)
  }

  ghost predicate Balanced(s: State, e: Event, t: State, x: int) {
    && e.i < |s.actors| == |t.actors| && t.actors == s.actors[e.i := t.actors[e.i]]
    && FreesOf(s, e, t, x) + Answers(s.actors[e.i], x) == RepliesTo(s, e, t, x) + Answers(t.actors[e.i], x)
  }

  lemma AnswerFlags(s: State, e: Event, c: nat, x: int)
    requires e.Go? && e.i < |s.actors| && c < |s.ccbs| && AtFlags(s.actors[e.i], c) > 0
    requires Placed(s.ccbs, s.actors[e.i])
    ensures Balanced(s, e, GoFlags(s, e.i, c), x)
  {
    match s.actors[e.i] {
      case Ran(p, _) => MoreOf(s.freed, p.id);
      case Clearing(p, _) =>
      case Testing(p, _, live) =>
      case Rebooting(p, _, live) =>
    }
  }

  lemma AnswerQueue(s: State, e: Event, x: int)
    requires e.Go? && e.i < |s.actors| && GoQueue(s, e.i).Next?
    ensures Balanced(s, e, GoQueue(s, e.i).s, x)
  {
    match s.actors[e.i] {
      case Waiting(ch) =>
      case Woken(ch) =>
      case Posting(ch, back) =>
    }
  }

  lemma AnswerReceived(s: State, e: Event, p: Packet, msg: Msg, x: int)
    requires e.Go? && e.i < |s.actors| && s.actors[e.i] == Received(p, msg)
    ensures Balanced(s, e, GoReceived(s, e.i, p, msg), x)
  {
    match msg {
      case CreateCcb =>
      case RegAgent =>
      case OtherControl =>
      case ToolData =>
      case Data =>
    }
  }

  lemma AnswerStep(s: State, e: Event, x: int)
    requires Do(s, e).Next? && Placed(s.ccbs, s.actors[e.i])
    ensures Balanced(s, e, Do(s, e).s, x)
  {
    if e.Go? {
      match s.actors[e.i] {
        case Received(p, msg) => AnswerReceived(s, e, p, msg, x);
        case Waiting(_) => AnswerQueue(s, e, x);
        case Woken(_) => AnswerQueue(s, e, x);
        case Posting(_, _) => AnswerQueue(s, e, x);
        case Ran(_, c) => AnswerFlags(s, e, c, x);
        case Clearing(_, c) => AnswerFlags(s, e, c, x);
        case Testing(_, c, _) => AnswerFlags(s, e, c, x);
        case Rebooting(_, c, _) => AnswerFlags(s, e, c, x);
        case Acking =>
        case Got(p) =>
        case Replying(out, p, c) =>
        case Requeueing(_, _) =>
        case Sending(_) =>
      }
    }
  }

  lemma {:induction false} AnswerTrace(s: State, es: seq<Event>, x: int)
    requires AllPlaced(s) && AllOpened(s, es) && Trace(s, es).Next?
    ensures AllFreesOf(s, es, x) + Count(s.actors, Answering(x))
         == AllRepliesTo(s, es, x) + Count(Trace(s, es).s.actors, Answering(x))
    decreases |es|
  {
    if es != [] {
      var e, t := es[0], Do(s, es[0]).s;
      assert Placed(s.ccbs, s.actors[e.i]);
      AnswerStep(s, e, x);
      CountUpdate(s.actors, e.i, t.actors[e.i], Answering(x));
      AllPlacedStep(s, e);
      AnswerTrace(t, es[1..], x);
    }
  }

  /** On every run in which data comes only for sessions that have been opened, for any number of workers:
      for each packet of a session that a worker frees it queues exactly one reply, to that session. */
  lemma RepliesMatch(n: nat, es: seq<Event>, x: int)
    requires AllOpened(Start(n), es) && Trace(Start(n), es).Next?
    ensures AllFreesOf(Start(n), es, x)
         == AllRepliesTo(Start(n), es, x) + Count(Trace(Start(n), es).s.actors, Answering(x))
  {
    CountIdle(Start(n).actors, Answering(x));
    AnswerTrace(Start(n), es, x);
  }
}
