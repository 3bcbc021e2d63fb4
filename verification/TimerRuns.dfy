/** Whole runs of the timer module: when a timer expires, and where every timer is. */
module TimerRuns {
  import opened Wrappers
  import opened Timers

  datatype Op =
    | OpAdd(to: int, function_: Option<int>, data: int)
    | OpRearm(id: int, new_expire: int)
    | OpDel(id: int)
    | OpTick
    | OpHandle

  /** The list state with its history: the ticks so far, the tick at which each timer of
      fired + expired left the active list, and the timers deleted. */
  datatype World = World(st: State, now: nat, due: seq<nat>, deleted: multiset<int>)

  function Start(): World {
    World(State([], [], 0, 0, 0, 0, []), 0, [], multiset{})
  }

  predicate Enabled(w: World, op: Op) {
    match op
    case OpAdd(to, _, _) => 0 <= to < UINT
    case OpHandle => w.st.sem_timer > 0
    case _ => true
  }

  ghost function Do(w: World, op: Op, interval: int): World
    requires Enabled(w, op)
  {
    match op
    case OpAdd(to, f, d) => w.(st := Add(w.st, to, f, d))
    case OpRearm(id, e) => w.(st := Rearm(w.st, id, e))
    case OpDel(id) =>
      w.(st := Delete(w.st, id), deleted := w.deleted + multiset(Ids(Named(w.st.active, id))))
    case OpTick =>
      w.(st := Tick(w.st, interval), now := w.now + 1,
         due := w.due + seq(|Moved(w.st.active, interval)|, _ => w.now + 1))
    case OpHandle => w.(st := Handle(w.st))
  }

  /** Every state a run can reach. */
  ghost predicate Run(w: World, ops: seq<Op>, interval: int, w': World)
    decreases |ops|
  {
    if ops == [] then w' == w
    else Enabled(w, ops[0]) && Run(Do(w, ops[0], interval), ops[1..], interval, w')
  }

  function Ids(ts: seq<Timer>): seq<int> {
    seq(|ts|, i requires 0 <= i < |ts| => ts[i].timerID)
  }

  /** The timers a deletion frees. */
  function Named(ts: seq<Timer>, id: int): seq<Timer> {
    if ts == [] then []
    else Named(ts[..|ts| - 1], id) + if ts[|ts| - 1].timerID == id then [ts[|ts| - 1]] else []
  }

  /** All timers that have left the active list by a tick, in the order they left. */
  function Out(st: State): seq<Timer> {
    st.fired + st.expired
  }

  // ----- the exact tick -----

  function CeilDiv(x: nat, d: nat): nat
    requires d > 0
  {
    (x + d - 1) / d
  }

  /** The tick a timeout is meant to run out on. */
  function MeantTick(to: nat, interval: nat): nat
    requires interval > 0
  {
    if to == 0 then 1 else CeilDiv(to, interval)
  }

  /** The tick it does run out on: the conversion to int makes long timeouts negative, and all but the
      first interval of those run out at once. */
  function FireTick(to: nat, interval: nat): nat
    requires interval > 0
  {
    if to < -INT_MIN + interval then MeantTick(to, interval) else 1
  }

  lemma CeilBounds(x: nat, d: nat)
    requires d > 0 && x > 0
    ensures var c := CeilDiv(x, d); c > 0 && (c - 1) * d < x <= c * d
  {
    var c := CeilDiv(x, d);
    assert x + d - 1 == d * c + (x + d - 1) % d;
    assert c > 0 by { assert d * 0 == 0; }
  }

  lemma Between(k: nat, c: nat, d: nat)
    requires k < c
    ensures k * d <= (c - 1) * d
  {
  }

  lemma FireTickIff(to: nat, interval: nat)
    requires to < UINT && 0 < interval < -INT_MIN
    ensures FireTick(to, interval) == MeantTick(to, interval) <==> to < -INT_MIN + interval
  {
    if to >= -INT_MIN + interval {
      CeilBounds(to, interval);
      assert 1 * interval == interval;
    }
  }

  /** What the counter holds after k ticks that did not exhaust it. */
  function Remaining(to: nat, interval: nat, k: nat): int {
    if k == 0 then Int32(to) else to - k * interval
  }

  lemma InRange(x: int)
    ensures INT_MIN <= x < -INT_MIN ==> Int32(x) == x
    ensures -INT_MIN <= x < UINT ==> Int32(x) == x - UINT
  {
  }

  lemma Multiples(k: nat, f: nat, interval: nat)
    requires k < f
    ensures (k + 1) * interval == k * interval + interval
    ensures if k + 1 == f then (k + 1) * interval == f * interval else (k + 1) * interval <= (f - 1) * interval
  {
    if k + 1 < f { Between(k + 1, f, interval); }
  }

  /** Before its tick the counter is the timeout less the ticks so far; on its tick it is exhausted. */
  lemma CountdownStep(to: nat, interval: nat, k: nat)
    requires to < UINT && 0 < interval < -INT_MIN && k < FireTick(to, interval)
    ensures var e := Int32(Remaining(to, interval, k) - interval);
            if k + 1 == FireTick(to, interval) then e <= 0 else e == Remaining(to, interval, k + 1) && e > 0
  {
    var f, p, q := FireTick(to, interval), k * interval, (k + 1) * interval;
    Multiples(k, f, interval);
    InRange(to);
    if to >= -INT_MIN + interval {
      InRange(to - UINT - interval);
    } else {
      if to > 0 { CeilBounds(to, interval); }
      LastTurn(to, interval, f, q, k);
      InRange(to - q);
      if k == 0 { Wraps(to, interval); }
    }
  }

  lemma LastTurn(to: nat, interval: nat, f: nat, q: nat, k: nat)
    requires 0 < f && k < f && q == (k + 1) * interval && interval > 0
    requires if to == 0 then f == 1 else (f - 1) * interval < to <= f * interval
    requires if k + 1 == f then q == f * interval else q <= (f - 1) * interval
    ensures if k + 1 == f then 0 <= q - to <= interval else 0 < to - q
  {
  }

  /** Going through the conversion first makes no difference. */
  lemma Wraps(to: nat, interval: nat)
    requires to < UINT && 0 < interval < -INT_MIN && to < -INT_MIN + interval
    ensures Int32(Int32(to) - interval) == to - interval
  {
    InRange(to);
    InRange(to - interval);
  }

  // ----- following one timer -----

  lemma {:induction false} TickKeeps(ts: seq<Timer>, t: Timer, interval: int)
    requires t in ts
    ensures if Ticked(t, interval).expires <= 0 then Ticked(t, interval) in Moved(ts, interval)
            else Ticked(t, interval) in Kept(ts, interval)
  {
    if ts[|ts| - 1] != t { TickKeeps(ts[..|ts| - 1], t, interval); }
  }

  lemma {:induction false} OthersKeep(ts: seq<Timer>, t: Timer, id: int)
    requires t in ts && t.timerID != id
    ensures t in Others(ts, id)
  {
    if ts[|ts| - 1] != t { OthersKeep(ts[..|ts| - 1], t, id); }
  }

  lemma RearmKeeps(ts: seq<Timer>, t: Timer, id: int, e: int)
    requires t in ts && t.timerID != id
    ensures var i := Find(ts, id); i < |ts| ==> t in ts[i := ts[i].(expires := e)]
  {
    var j :| 0 <= j < |ts| && ts[j] == t;
    var i := Find(ts, id);
    if i < |ts| { assert ts[i := ts[i].(expires := e)][j] == t; }
  }

  /** The timer left the active list on tick d. */
  ghost predicate LeftAt(w: World, id: int, d: nat) {
    exists j :: 0 <= j < |Out(w.st)| && j < |w.due| && Out(w.st)[j].timerID == id && w.due[j] == d
  }

  /** It did, with that function and that data to call it with. */
  ghost predicate LeftWith(w: World, id: int, d: nat, f: Option<int>, data: int) {
    exists j ::
      && 0 <= j < |Out(w.st)| && j < |w.due| && Out(w.st)[j].timerID == id && w.due[j] == d
      && Out(w.st)[j].function_ == f && Out(w.st)[j].data == data
  }

  /** Where a timer added with timeout to at tick t0 has got to: counting down before its tick, and out
      on exactly that tick from then on, with the function and the data it was added with. */
  ghost predicate OnSchedule(w: World, id: nat, to: nat, t0: nat, interval: nat, f: Option<int>, d: int)
    requires interval > 0
  {
    && w.now >= t0
    && if w.now - t0 < FireTick(to, interval)
       then Timer(Remaining(to, interval, w.now - t0), f, d, id) in w.st.active
       else LeftWith(w, id, t0 + FireTick(to, interval), f, d)
  }

  ghost predicate Spares(op: Op, id: int) {
    match op
    case OpRearm(i, _) => i != id
    case OpDel(i) => i != id
    case _ => true
  }

  /** The history lists exactly the timers that have left. */
  ghost predicate Logged(w: World) {
    |w.due| == |Out(w.st)|
  }

  lemma LeftStays(w: World, op: Op, interval: int, id: int, d: nat, f: Option<int>, data: int)
    requires Enabled(w, op) && Logged(w) && LeftWith(w, id, d, f, data)
    ensures LeftWith(Do(w, op, interval), id, d, f, data) && Logged(Do(w, op, interval))
  {
    var j :| 0 <= j < |Out(w.st)| && j < |w.due| && Out(w.st)[j].timerID == id && w.due[j] == d
             && Out(w.st)[j].function_ == f && Out(w.st)[j].data == data;
    OutGrows(w, op, interval);
    var w' := Do(w, op, interval);
    assert Out(w'.st)[j] == Out(w.st)[j] && w'.due[j] == w.due[j];
  }

  /** No step disturbs what has left; a tick appends what it moved. */
  lemma OutGrows(w: World, op: Op, interval: int)
    requires Enabled(w, op) && Logged(w)
    ensures var w' := Do(w, op, interval);
            && Logged(w')
            && Out(w'.st) == Out(w.st) + (if op.OpTick? then Moved(w.st.active, interval) else [])
            && w'.due == w.due + (if op.OpTick? then seq(|Moved(w.st.active, interval)|, _ => w.now + 1) else [])
  {
    var w' := Do(w, op, interval);
    if op.OpTick? {
      assert Out(w'.st) == w.st.fired + (w.st.expired + Moved(w.st.active, interval));
    } else if op.OpHandle? {
      assert Out(w'.st) == w.st.fired + w.st.expired + [];
    }
  }

  lemma LeavesNow(w: World, interval: int, t: Timer)
    requires Logged(w) && t in Moved(w.st.active, interval)
    ensures LeftWith(Do(w, OpTick, interval), t.timerID, w.now + 1, t.function_, t.data)
  {
    OutGrows(w, OpTick, interval);
    var w' := Do(w, OpTick, interval);
    var m := Moved(w.st.active, interval);
    var j :| 0 <= j < |m| && m[j] == t;
    assert Out(w'.st)[|Out(w.st)| + j] == t && w'.due[|w.due| + j] == w.now + 1;
  }

  lemma ScheduleStep(w: World, op: Op, id: nat, to: nat, t0: nat, interval: nat, f: Option<int>, d: int)
    requires to < UINT && 0 < interval < -INT_MIN && Logged(w) && Enabled(w, op) && Spares(op, id)
    requires OnSchedule(w, id, to, t0, interval, f, d)
    ensures Logged(Do(w, op, interval)) && OnSchedule(Do(w, op, interval), id, to, t0, interval, f, d)
  {
    OutGrows(w, op, interval);
    var k := w.now - t0;
    if k >= FireTick(to, interval) {
      LeftStays(w, op, interval, id, t0 + FireTick(to, interval), f, d);
    } else {
      var t := Timer(Remaining(to, interval, k), f, d, id);
      match op
      case OpAdd(_, _, _) =>
      case OpRearm(i, e) => RearmKeeps(w.st.active, t, i, e);
      case OpDel(i) => OthersKeep(w.st.active, t, i);
      case OpTick =>
        CountdownStep(to, interval, k);
        TickKeeps(w.st.active, t, interval);
        if k + 1 == FireTick(to, interval) { LeavesNow(w, interval, Ticked(t, interval)); }
      case OpHandle =>
    }
  }

  lemma {:induction false} ScheduleRun(w: World, ops: seq<Op>, w': World, id: nat, to: nat, t0: nat, interval: nat,
                                       f: Option<int>, d: int)
    requires to < UINT && 0 < interval < -INT_MIN && Logged(w) && Run(w, ops, interval, w')
    requires forall op :: op in ops ==> Spares(op, id)
    requires OnSchedule(w, id, to, t0, interval, f, d)
    ensures OnSchedule(w', id, to, t0, interval, f, d)
    decreases |ops|
  {
    if ops != [] {
      ScheduleStep(w, ops[0], id, to, t0, interval, f, d);
      ScheduleRun(Do(w, ops[0], interval), ops[1..], w', id, to, t0, interval, f, d);
    }
  }

  /** From any state of any run: a timer added now and neither rearmed nor deleted by what follows, in
      any interleaving with operations on other timers, is on the active list until its tick and leaves
      on exactly that one. */
  lemma ExactTick(w: World, to: nat, f: Option<int>, d: int, ops: seq<Op>, interval: nat, w': World)
    requires to < UINT && 0 < interval < -INT_MIN && Logged(w)
    requires Run(Do(w, OpAdd(to, f, d), interval), ops, interval, w')
    requires forall op :: op in ops ==> Spares(op, w.st.timerID)
    ensures OnSchedule(w', w.st.timerID, to, w.now, interval, f, d)
  {
    var w1 := Do(w, OpAdd(to, f, d), interval);
    OutGrows(w, OpAdd(to, f, d), interval);
    assert w1.st.active[|w.st.active|] == Timer(Int32(to), f, d, w.st.timerID);
    if to > 0 { CeilBounds(to, interval); }
    ScheduleRun(w1, ops, w', w.st.timerID, to, w.now, interval, f, d);
  }

  // ----- what is called -----

  /** The function and the data that an addition gives. */
  datatype Given = Given(function_: Option<int>, data: int)

  /** Those of all additions, in order. */
  function AddsIn(ops: seq<Op>): seq<Given> {
    if ops == [] then []
    else (if ops[0].OpAdd? then [Given(ops[0].function_, ops[0].data)] else []) + AddsIn(ops[1..])
  }

  ghost predicate AsGiven(ts: seq<Timer>, given: seq<Given>) {
    forall t :: t in ts ==> t.timerID < |given| && given[t.timerID] == Given(t.function_, t.data)
  }

  ghost predicate AllAsGiven(w: World, given: seq<Given>) {
    |given| == w.st.timerID && AsGiven(w.st.active, given) && AsGiven(Out(w.st), given)
  }

  lemma {:induction false} TickAsGiven(ts: seq<Timer>, interval: int, given: seq<Given>)
    requires AsGiven(ts, given)
    ensures AsGiven(Kept(ts, interval), given) && AsGiven(Moved(ts, interval), given)
  {
    if ts != [] {
      var n := |ts| - 1;
      assert ts[n] in ts;
      TickAsGiven(ts[..n], interval, given);
    }
  }

  lemma {:induction false} DeleteAsGiven(ts: seq<Timer>, id: int, given: seq<Given>)
    requires AsGiven(ts, given)
    ensures AsGiven(Others(ts, id), given)
  {
    if ts != [] {
      var n := |ts| - 1;
      assert ts[n] in ts;
      DeleteAsGiven(ts[..n], id, given);
    }
  }

  lemma RearmAsGiven(ts: seq<Timer>, id: int, e: int, given: seq<Given>)
    requires AsGiven(ts, given)
    ensures var i := Find(ts, id); i < |ts| ==> AsGiven(ts[i := ts[i].(expires := e)], given)
  {
    var i := Find(ts, id);
    if i < |ts| { assert ts[i] in ts; }
  }

  lemma StepAsGiven(w: World, op: Op, interval: int, given: seq<Given>)
    requires Logged(w) && AllAsGiven(w, given) && Enabled(w, op)
    ensures AllAsGiven(Do(w, op, interval), given + AddsIn([op]))
  {
    OutGrows(w, op, interval);
    assert [op][1..] == [];
    match op
    case OpAdd(_, f, d) =>
    case OpRearm(id, e) => RearmAsGiven(w.st.active, id, e, given);
    case OpDel(id) => DeleteAsGiven(w.st.active, id, given);
    case OpTick => TickAsGiven(w.st.active, interval, given);
    case OpHandle =>
  }

  lemma Regrouped<T>(a: seq<T>, b: seq<T>, c: seq<T>)
    ensures a + b + c == a + (b + c) && a + [] == a
  {
  }

  lemma AddsFirst(ops: seq<Op>)
    requires ops != []
    ensures AddsIn(ops) == AddsIn([ops[0]]) + AddsIn(ops[1..])
  {
    var first := if ops[0].OpAdd? then [Given(ops[0].function_, ops[0].data)] else [];
    assert [ops[0]][1..] == [];
    assert AddsIn([ops[0]]) == first + [];
    Regrouped(first, [], AddsIn(ops[1..]));
  }

  lemma {:induction false} RunAsGiven(w: World, ops: seq<Op>, interval: int, w': World, given: seq<Given>)
    requires Logged(w) && AllAsGiven(w, given) && Run(w, ops, interval, w')
    ensures AllAsGiven(w', given + AddsIn(ops))
    decreases |ops|
  {
    if ops == [] {
      Regrouped(given, [], []);
    } else {
      AddsFirst(ops);
      Regrouped(given, AddsIn([ops[0]]), AddsIn(ops[1..]));
      StepAsGiven(w, ops[0], interval, given);
      OutGrows(w, ops[0], interval);
      RunAsGiven(Do(w, ops[0], interval), ops[1..], interval, w', given + AddsIn([ops[0]]));
    }
  }

  /** Over every run, each timer that counts down, waits for the handler or has been run by it has the
      function and the data that the addition with its number gave. */
  lemma CalledAsAdded(ops: seq<Op>, interval: int, w': World)
    requires Run(Start(), ops, interval, w')
    ensures w'.st.timerID == |AddsIn(ops)|
    ensures forall t :: t in w'.st.active || t in w'.st.expired || t in w'.st.fired ==>
              t.timerID < |AddsIn(ops)| && AddsIn(ops)[t.timerID] == Given(t.function_, t.data)
  {
    RunAsGiven(Start(), ops, interval, w', []);
    assert [] + AddsIn(ops) == AddsIn(ops);
  }

  // ----- order and whereabouts -----

  ghost predicate Increasing(ts: seq<Timer>, bound: int) {
    && (forall i, j :: 0 <= i < j < |ts| ==> ts[i].timerID < ts[j].timerID)
    && (forall i :: 0 <= i < |ts| ==> 0 <= ts[i].timerID < bound)
  }

  lemma IncreasingAppend(ts: seq<Timer>, t: Timer, bound: int)
    requires Increasing(ts, t.timerID) && t.timerID < bound
    ensures Increasing(ts + [t], bound) && Increasing(ts, bound)
  {
  }

  lemma IdsAppend(ts: seq<Timer>, us: seq<Timer>)
    ensures Ids(ts + us) == Ids(ts) + Ids(us)
  {
  }

  lemma OneMore<T>(a: multiset<T>, b: multiset<T>, c: multiset<T>, x: multiset<T>)
    requires a + b == c
    ensures (a + x) + b == c + x && a + (b + x) == c + x
  {
  }

  /** One timer more on whichever side keeps both lists increasing and the IDs balanced. */
  lemma SplitAppend(ts: seq<Timer>, t: Timer, k: seq<Timer>, m: seq<Timer>, u: Timer, bound: int)
    requires u.timerID == t.timerID < bound && Increasing(k, t.timerID) && Increasing(m, t.timerID)
    requires multiset(Ids(k)) + multiset(Ids(m)) == multiset(Ids(ts))
    ensures Increasing(k, bound) && Increasing(m, bound) && Increasing(k + [u], bound) && Increasing(m + [u], bound)
    ensures multiset(Ids(k + [u])) + multiset(Ids(m)) == multiset(Ids(ts + [t]))
    ensures multiset(Ids(k)) + multiset(Ids(m + [u])) == multiset(Ids(ts + [t]))
  {
    IncreasingAppend(k, u, bound);
    IncreasingAppend(m, u, bound);
    assert Ids([t]) == [t.timerID] == Ids([u]);
    IdsAppend(ts, [t]);
    IdsAppend(k, [u]);
    IdsAppend(m, [u]);
    OneMore(multiset(Ids(k)), multiset(Ids(m)), multiset(Ids(ts)), multiset(Ids([t])));
  }

  /** A tick splits the active list into two increasing lists holding the same timers. */
  lemma {:induction false} TickSplits(ts: seq<Timer>, interval: int, bound: int)
    requires Increasing(ts, bound)
    ensures Increasing(Kept(ts, interval), bound) && Increasing(Moved(ts, interval), bound)
    ensures multiset(Ids(Kept(ts, interval))) + multiset(Ids(Moved(ts, interval))) == multiset(Ids(ts))
    ensures |Kept(ts, interval)| + |Moved(ts, interval)| == |ts|
  {
    if ts != [] {
      var n := |ts| - 1;
      var t := ts[n];
      TickSplits(ts[..n], interval, t.timerID);
      assert ts == ts[..n] + [t];
      var k, m := Kept(ts[..n], interval), Moved(ts[..n], interval);
      SplitAppend(ts[..n], t, k, m, Ticked(t, interval), bound);
      assert k + [] == k && m + [] == m;
    }
  }

  /** So does a deletion. */
  lemma {:induction false} DeleteSplits(ts: seq<Timer>, id: int, bound: int)
    requires Increasing(ts, bound)
    ensures Increasing(Others(ts, id), bound) && Increasing(Named(ts, id), bound)
    ensures multiset(Ids(Others(ts, id))) + multiset(Ids(Named(ts, id))) == multiset(Ids(ts))
  {
    if ts != [] {
      var n := |ts| - 1;
      var t := ts[n];
      DeleteSplits(ts[..n], id, t.timerID);
      assert ts == ts[..n] + [t];
      var k, m := Others(ts[..n], id), Named(ts[..n], id);
      SplitAppend(ts[..n], t, k, m, t, bound);
      if t.timerID == id {
        assert Others(ts, id) == k && Named(ts, id) == m + [t];
      } else {
        assert Others(ts, id) == k + [t] && Named(ts, id) == m;
      }
    }
  }

  /** What has left is in order of the tick it left on, and by ID within one tick. */
  ghost predicate InOrder(out: seq<Timer>, due: seq<nat>, now: nat)
    requires |out| == |due|
  {
    && (forall i :: 0 <= i < |due| ==> due[i] <= now)
    && (forall i, j :: 0 <= i < j < |due| ==> due[i] < due[j] || (due[i] == due[j] && out[i].timerID < out[j].timerID))
  }

  lemma InOrderAppend(out: seq<Timer>, due: seq<nat>, now: nat, m: seq<Timer>, bound: int)
    requires |out| == |due| && InOrder(out, due, now) && Increasing(m, bound)
    ensures InOrder(out + m, due + seq(|m|, _ => now + 1), now + 1)
  {
    var o, d := out + m, due + seq(|m|, _ => now + 1);
    forall i, j | 0 <= i < j < |d|
      ensures d[i] < d[j] || (d[i] == d[j] && o[i].timerID < o[j].timerID)
    {
      if j < |due| {
        assert d[i] == due[i] && d[j] == due[j];
      } else if i >= |due| {
        assert o[i] == m[i - |due|] && o[j] == m[j - |due|];
      }
    }
  }

  /** The IDs handed out so far, once each. */
  ghost function Issued(n: nat): multiset<int> {
    if n == 0 then multiset{} else Issued(n - 1) + multiset{n - 1}
  }

  ghost predicate Sound(w: World) {
    && Logged(w)
    && Increasing(w.st.active, w.st.timerID)
    && InOrder(Out(w.st), w.due, w.now)
    && multiset(Ids(w.st.active)) + multiset(Ids(Out(w.st))) + w.deleted == Issued(w.st.timerID)
    && w.st.active_cnt == |w.st.active|
    && w.st.expire_cnt == |w.st.expired| + |w.st.fired|
  }

  lemma RearmIds(ts: seq<Timer>, id: int, e: int)
    ensures var i := Find(ts, id); i < |ts| ==> Ids(ts[i := ts[i].(expires := e)]) == Ids(ts)
  {
  }

  lemma Rebalance(a: multiset<int>, o: multiset<int>, d: multiset<int>, i: multiset<int>, a': multiset<int>,
                  x: multiset<int>)
    requires a + o + d == i && a' + x == a
    ensures a' + (o + x) + d == i && a' + o + (d + x) == i
  {
  }

  lemma SoundTick(w: World, interval: int)
    requires Sound(w)
    ensures Sound(Do(w, OpTick, interval))
  {
    var m := Moved(w.st.active, interval);
    OutGrows(w, OpTick, interval);
    TickSplits(w.st.active, interval, w.st.timerID);
    InOrderAppend(Out(w.st), w.due, w.now, m, w.st.timerID);
    IdsAppend(Out(w.st), m);
    Rebalance(multiset(Ids(w.st.active)), multiset(Ids(Out(w.st))), w.deleted, Issued(w.st.timerID),
              multiset(Ids(Kept(w.st.active, interval))), multiset(Ids(m)));
  }

  lemma OneIssued(a: multiset<int>, o: multiset<int>, d: multiset<int>, n: nat)
    requires a + o + d == Issued(n)
    ensures (a + multiset{n}) + o + d == Issued(n + 1)
  {
  }

  lemma SoundAdd(w: World, to: int, f: Option<int>, d: int, interval: int)
    requires Sound(w) && 0 <= to < UINT
    ensures Sound(Do(w, OpAdd(to, f, d), interval))
  {
    var t := Timer(Int32(to), f, d, w.st.timerID);
    IncreasingAppend(w.st.active, t, w.st.timerID + 1);
    IdsAppend(w.st.active, [t]);
    assert Ids([t]) == [w.st.timerID];
    OneIssued(multiset(Ids(w.st.active)), multiset(Ids(Out(w.st))), w.deleted, w.st.timerID);
  }

  lemma SoundDel(w: World, id: int, interval: int)
    requires Sound(w)
    ensures Sound(Do(w, OpDel(id), interval))
  {
    DeleteSplits(w.st.active, id, w.st.timerID);
    Rebalance(multiset(Ids(w.st.active)), multiset(Ids(Out(w.st))), w.deleted, Issued(w.st.timerID),
              multiset(Ids(Others(w.st.active, id))), multiset(Ids(Named(w.st.active, id))));
  }

  lemma SoundStep(w: World, op: Op, interval: int)
    requires Sound(w) && Enabled(w, op)
    ensures Sound(Do(w, op, interval))
  {
    match op
    case OpAdd(to, f, d) => SoundAdd(w, to, f, d, interval);
    case OpRearm(id, e) => RearmIds(w.st.active, id, e);
    case OpDel(id) => SoundDel(w, id, interval);
    case OpTick => SoundTick(w, interval);
    case OpHandle =>
      assert Out(Handle(w.st)) == Out(w.st);
  }

  /** Every run, with adds atomic, keeps the lists in order, the counters right, and every timer ever
      added in exactly one place. */
  lemma {:induction false} SoundRun(w: World, ops: seq<Op>, interval: int, w': World)
    requires Sound(w) && Run(w, ops, interval, w')
    ensures Sound(w')
    decreases |ops|
  {
    if ops != [] {
      SoundStep(w, ops[0], interval);
      SoundRun(Do(w, ops[0], interval), ops[1..], interval, w');
    }
  }

  lemma {:induction false} IssuedOnce(n: nat, id: int)
    ensures Issued(n)[id] == if 0 <= id < n then 1 else 0
  {
    if n > 0 { IssuedOnce(n - 1, id); }
  }

  /** Whereabouts, timer by timer. */
  lemma ExactlyOnePlace(w: World, id: int)
    requires Sound(w)
    ensures multiset(Ids(w.st.active))[id] + multiset(Ids(w.st.expired))[id] + multiset(Ids(w.st.fired))[id]
          + w.deleted[id]
         == if 0 <= id < w.st.timerID then 1 else 0
  {
    IssuedOnce(w.st.timerID, id);
    IdsAppend(w.st.fired, w.st.expired);
  }

  /** A timer leaves on one tick only. */
  lemma LeavesOnce(w: World, id: nat, d: nat, d': nat)
    requires Sound(w) && LeftAt(w, id, d) && LeftAt(w, id, d')
    ensures d == d'
  {
    var ids := Ids(Out(w.st));
    var i :| 0 <= i < |ids| && i < |w.due| && Out(w.st)[i].timerID == id && w.due[i] == d;
    var j :| 0 <= j < |ids| && j < |w.due| && Out(w.st)[j].timerID == id && w.due[j] == d';
    if i != j {
      TwiceIn(ids, if i < j then i else j, if i < j then j else i);
      IssuedOnce(w.st.timerID, id);
    }
  }

  /** In every run a timeout that is left alone runs out on the tick it is meant to exactly when it is
      below 2^31 plus one interval. */
  lemma HonouredIff(w: World, to: nat, f: Option<int>, d: int, ops: seq<Op>, interval: nat, w': World)
    requires to < 0x1_0000_0000 && 0 < interval < 0x8000_0000 && Sound(w)
    requires Run(Do(w, OpAdd(to, f, d), interval), ops, interval, w')
    requires forall op :: op in ops ==> Spares(op, w.st.timerID)
    requires w'.now >= w.now + MeantTick(to, interval)
    ensures LeftAt(w', w.st.timerID, w.now + MeantTick(to, interval)) <==> to < 0x8000_0000 + interval
  {
    var id := w.st.timerID;
    ExactTick(w, to, f, d, ops, interval, w');
    FireTickIff(to, interval);
    if to >= -INT_MIN + interval {
      CeilBounds(to, interval);
      assert LeftAt(w', id, w.now + 1);
      SoundAdd(w, to, f, d, interval);
      SoundRun(Do(w, OpAdd(to, f, d), interval), ops, interval, w');
      if LeftAt(w', id, w.now + MeantTick(to, interval)) {
        LeavesOnce(w', id, w.now + 1, w.now + MeantTick(to, interval));
      }
    }
  }

  // ----- deleting -----

  lemma {:induction false} OthersAre(ts: seq<Timer>, id: int)
    ensures forall t :: t in Others(ts, id) <==> t in ts && t.timerID != id
  {
    if ts != [] {
      var n := |ts| - 1;
      OthersAre(ts[..n], id);
      assert ts == ts[..n] + [ts[n]];
    }
  }

  /** A deletion takes the timers of the ID off the active list and no other, and a timer it has taken off
      never expires in any run that follows. */
  lemma DeletedNever(w: World, t: Timer, ops: seq<Op>, interval: int, w': World)
    requires Sound(w) && t in w.st.active && Run(Do(w, OpDel(t.timerID), interval), ops, interval, w')
    ensures forall u :: u in Do(w, OpDel(t.timerID), interval).st.active <==>
              u in w.st.active && u.timerID != t.timerID
    ensures forall u :: u in w'.st.active || u in w'.st.expired || u in w'.st.fired ==> u.timerID != t.timerID
  {
    var id, w1 := t.timerID, Do(w, OpDel(t.timerID), interval);
    OthersAre(w.st.active, id);
    SoundDel(w, id, interval);
    SoundRun(w1, ops, interval, w');
    var j :| 0 <= j < |w.st.active| && w.st.active[j] == t;
    GoneFrom(w.st.active, id);
    assert Ids(w.st.active)[j] == id;
    DeletedStays(w1, ops, interval, w', id);
    ExactlyOnePlace(w', id);
    NoneOf(w'.st.active, id);
    NoneOf(w'.st.expired, id);
    NoneOf(w'.st.fired, id);
  }

  lemma NoneOf(ts: seq<Timer>, id: int)
    requires multiset(Ids(ts))[id] == 0
    ensures forall u :: u in ts ==> u.timerID != id
  {
    forall u | u in ts
      ensures u.timerID != id
    {
      var j :| 0 <= j < |ts| && ts[j] == u;
      assert Ids(ts)[j] == u.timerID && Ids(ts)[j] in multiset(Ids(ts));
    }
  }

  /** The timers freed are those of the ID. */
  lemma {:induction false} GoneFrom(ts: seq<Timer>, id: int)
    ensures id in Ids(ts) ==> id in multiset(Ids(Named(ts, id)))
  {
    if ts != [] {
      var n := |ts| - 1;
      GoneFrom(ts[..n], id);
      IdsAppend(ts[..n], [ts[n]]);
      assert ts == ts[..n] + [ts[n]] && Ids([ts[n]]) == [ts[n].timerID];
      if ts[n].timerID == id {
        IdsAppend(Named(ts[..n], id), [ts[n]]);
      } else {
        assert Named(ts, id) == Named(ts[..n], id) + [];
        assert Named(ts, id) == Named(ts[..n], id);
      }
    }
  }

  lemma {:induction false} DeletedStays(w: World, ops: seq<Op>, interval: int, w': World, id: int)
    requires Run(w, ops, interval, w') && id in w.deleted
    ensures id in w'.deleted
    decreases |ops|
  {
    if ops != [] { DeletedStays(Do(w, ops[0], interval), ops[1..], interval, w', id); }
  }

  // ----- rearming -----

  /** A counter set to e counts as a timeout of e modulo the width of an int would. */
  lemma CountsAs(e: int)
    requires INT_MIN <= e < -INT_MIN
    ensures Int32(e % UINT) == e && e % UINT == if e >= 0 then e else e + UINT
  {
  }

  /** The tick that a counter set to e is meant to run out on. */
  function RearmMeant(e: int, interval: nat): nat
    requires interval > 0
  {
    if e <= 0 then 1 else CeilDiv(e, interval)
  }

  /** It runs out on that tick unless the first subtraction of the interval wraps around. */
  lemma RearmFireTickIff(e: int, interval: nat)
    requires INT_MIN <= e < -INT_MIN && 0 < interval < -INT_MIN
    ensures FireTick(e % UINT, interval) == RearmMeant(e, interval) <==> e >= INT_MIN + interval
  {
    CountsAs(e);
    if e < INT_MIN + interval {
      CeilBounds(e % UINT, interval);
      assert 1 * interval == interval;
    }
  }

  lemma FireTickPositive(to: nat, interval: nat)
    requires interval > 0
    ensures FireTick(to, interval) > 0
  {
    if to > 0 { CeilBounds(to, interval); }
  }

  /** From any state of any run: a timer on the active list that is rearmed to e now, and neither rearmed
      again nor deleted by what follows, leaves on exactly one tick; with enough ticks that is the one e
      calls for, counted from now, exactly when the first subtraction does not wrap around. */
  lemma RearmedIff(w: World, t: Timer, e: int, ops: seq<Op>, interval: nat, w': World)
    requires -0x8000_0000 <= e < 0x8000_0000 && 0 < interval < 0x8000_0000 && Sound(w) && t in w.st.active
    requires Run(Do(w, OpRearm(t.timerID, e), interval), ops, interval, w')
    requires forall op :: op in ops ==> Spares(op, t.timerID)
    ensures OnSchedule(w', t.timerID, e % UINT, w.now, interval, t.function_, t.data)
    ensures w'.now >= w.now + RearmMeant(e, interval) ==>
              (LeftAt(w', t.timerID, w.now + RearmMeant(e, interval)) <==> e >= -0x8000_0000 + interval)
  {
    var w1, i := Do(w, OpRearm(t.timerID, e), interval), Find(w.st.active, t.timerID);
    var j :| 0 <= j < |w.st.active| && w.st.active[j] == t;
    assert i == j && w1.st.active[i] == t.(expires := e);
    CountsAs(e);
    RearmFireTickIff(e, interval);
    FireTickPositive(e % UINT, interval);
    SoundStep(w, OpRearm(t.timerID, e), interval);
    ScheduleRun(w1, ops, w', t.timerID, e % UINT, w.now, interval, t.function_, t.data);
    SoundRun(w1, ops, interval, w');
    if LeftAt(w', t.timerID, w.now + RearmMeant(e, interval)) { OnlyThen(w', t.timerID, e, w.now, interval, t); }
  }

  /** Once it has left, its schedule says when. */
  lemma OnlyThen(w: World, id: nat, e: int, t0: nat, interval: nat, t: Timer)
    requires INT_MIN <= e < -INT_MIN && 0 < interval < -INT_MIN && Sound(w)
    requires OnSchedule(w, id, e % UINT, t0, interval, t.function_, t.data)
    requires LeftAt(w, id, t0 + RearmMeant(e, interval))
    ensures e >= INT_MIN + interval
  {
    RearmFireTickIff(e, interval);
    if w.now - t0 < FireTick(e % UINT, interval) {
      NotBoth(w, id, t0 + RearmMeant(e, interval));
    } else {
      LeavesOnce(w, id, t0 + FireTick(e % UINT, interval), t0 + RearmMeant(e, interval));
    }
  }

  /** A timer that has left is not on the active list. */
  lemma NotBoth(w: World, id: nat, d: nat)
    requires Sound(w) && LeftAt(w, id, d)
    ensures forall t :: t in w.st.active ==> t.timerID != id
  {
    var a, o := Ids(w.st.active), Ids(Out(w.st));
    var i :| 0 <= i < |o| && i < |w.due| && Out(w.st)[i].timerID == id && w.due[i] == d;
    assert o[i] == id && id in multiset(o);
    IssuedOnce(w.st.timerID, id);
    forall t | t in w.st.active
      ensures t.timerID != id
    {
      var j :| 0 <= j < |a| && w.st.active[j] == t;
      assert a[j] == t.timerID && a[j] in multiset(a);
    }
  }

  /** The semaphore is up whenever something has expired. */
  ghost predicate Awake(w: World) {
    w.st.expire_cnt >= |w.st.expired| && (w.st.expired != [] ==> w.st.sem_timer > 0)
  }

  lemma {:induction false} AwakeRun(w: World, ops: seq<Op>, interval: int, w': World)
    requires Awake(w) && Run(w, ops, interval, w')
    ensures Awake(w')
    decreases |ops|
  {
    if ops != [] {
      var w1 := Do(w, ops[0], interval);
      assert Awake(w1);
      AwakeRun(w1, ops[1..], interval, w');
    }
  }

  /** So over every run a handler that loops never sleeps while a timer waits on the expire list. */
  lemma NeverAsleep(ops: seq<Op>, interval: int, w': World)
    requires Run(Start(), ops, interval, w')
    ensures w'.st.expired != [] ==> Enabled(w', OpHandle)
  {
    AwakeRun(Start(), ops, interval, w');
  }

  function Passes(ops: seq<Op>): nat {
    if ops == [] then 0 else (if ops[0].OpHandle? then 1 else 0) + Passes(ops[1..])
  }

  /** The ticks from the first that a timer ran out on. */
  function TicksSince(w: World): int {
    if w.due == [] then 0 else w.now - w.due[0] + 1
  }

  /** A tick posts when it or an earlier one has moved a timer. */
  lemma PostsTick(w: World, interval: int)
    requires Sound(w)
    ensures var w' := Do(w, OpTick, interval);
            w'.st.sem_timer - TicksSince(w') == w.st.sem_timer - TicksSince(w)
  {
    OutGrows(w, OpTick, interval);
    var m := Moved(w.st.active, interval);
    assert w.st.expire_cnt == |w.due|;
    if w.due == [] && m != [] { assert Do(w, OpTick, interval).due[0] == w.now + 1; }
  }

  lemma PostsStep(w: World, op: Op, interval: int)
    requires Sound(w) && Enabled(w, op)
    ensures var w' := Do(w, op, interval);
            w'.st.sem_timer + (if op.OpHandle? then 1 else 0) - TicksSince(w') == w.st.sem_timer - TicksSince(w)
  {
    match op
    case OpAdd(_, _, _) =>
    case OpRearm(_, _) =>
    case OpDel(_) =>
    case OpTick => PostsTick(w, interval);
    case OpHandle =>
  }

  lemma {:induction false} PostsRun(w: World, ops: seq<Op>, interval: int, w': World)
    requires Sound(w) && Run(w, ops, interval, w')
    ensures w'.st.sem_timer + Passes(ops) - TicksSince(w') == w.st.sem_timer - TicksSince(w)
    decreases |ops|
  {
    if ops != [] {
      PostsStep(w, ops[0], interval);
      SoundStep(w, ops[0], interval);
      PostsRun(Do(w, ops[0], interval), ops[1..], interval, w');
    }
  }

  /** Because the counter of expired timers is never reduced, every tick from the first that a timer ran out
      on posts once, and every pass of the handler takes one. */
  lemma SemaphoreRun(ops: seq<Op>, interval: int, w': World)
    requires Run(Start(), ops, interval, w')
    ensures w'.st.sem_timer + Passes(ops) == if w'.due == [] then 0 else w'.now - w'.due[0] + 1
  {
    StartSound();
    PostsRun(Start(), ops, interval, w');
  }

  lemma StartSound()
    ensures Sound(Start())
  {
  }

  /** Only a pass of to_handler fires anything: as written the thread makes one pass and ends, so what
      leaves the active list after that pass stays on the expire list. */
  lemma {:induction false} FiredByHandlerOnly(w: World, ops: seq<Op>, interval: int, w': World)
    requires Logged(w) && Run(w, ops, interval, w') && forall op :: op in ops ==> !op.OpHandle?
    ensures w'.st.fired == w.st.fired && |w'.st.expired| >= |w.st.expired|
    ensures w'.st.expired == Out(w'.st)[|w.st.fired|..]
    decreases |ops|
  {
    if ops != [] {
      OutGrows(w, ops[0], interval);
      FiredByHandlerOnly(Do(w, ops[0], interval), ops[1..], interval, w');
    }
  }

  // ----- runs of the real lists -----

  lemma {:induction false} RunAppend(w: World, ops: seq<Op>, op: Op, interval: int, w': World)
    requires Run(w, ops, interval, w') && Enabled(w', op)
    ensures Run(w, ops + [op], interval, Do(w', op, interval))
    decreases |ops|
  {
    if ops == [] {
      assert [op][1..] == [] && ops + [op] == [op];
    } else {
      assert (ops + [op])[1..] == ops[1..] + [op];
      RunAppend(Do(w, ops[0], interval), ops[1..], op, interval, w');
    }
  }

  method Perform(t: TimerList, op: Op, ghost w: World)
    requires t.Valid() && t.w.st == w.st && Enabled(w, op)
    modifies t, t.active_list, t.expire_list, t.w.nodes
    ensures t.Valid() && t.w.st == Do(w, op, t.interval).st
    ensures fresh(t.w.nodes - old(t.w.nodes))
  {
    match op
    case OpAdd(to, f, d) => var id := t.FmtimerAdd(to, f, d);
    case OpRearm(id, e) => var rc := t.FmtimerRearm(id, e);
    case OpDel(id) => t.FmtimerDel(id);
    case OpTick => t.ClocktickHandler();
    case OpHandle => t.ToHandler();
  }

  /** Where operations lead from w when a handler's pass whose semaphore is down waits, which as far as the
      lists go is not to happen. */
  ghost function After(w: World, ops: seq<Op>, interval: int): World {
    if ops == [] then w
    else
      var before, op := After(w, ops[..|ops| - 1], interval), ops[|ops| - 1];
      if Enabled(before, op) then Do(before, op, interval) else before
  }

  /** The operations that do happen. */
  ghost function Performed(w: World, ops: seq<Op>, interval: int): seq<Op> {
    if ops == [] then []
    else
      var front, op := ops[..|ops| - 1], ops[|ops| - 1];
      Performed(w, front, interval) + if Enabled(After(w, front, interval), op) then [op] else []
  }

  /** Together they make a run. */
  lemma {:induction false} PerformedRun(w: World, ops: seq<Op>, interval: int)
    ensures Run(w, Performed(w, ops, interval), interval, After(w, ops, interval))
  {
    if ops != [] {
      var front, op := ops[..|ops| - 1], ops[|ops| - 1];
      PerformedRun(w, front, interval);
      if Enabled(After(w, front, interval), op) {
        RunAppend(w, Performed(w, front, interval), op, interval, After(w, front, interval));
      } else {
        assert Performed(w, front, interval) + [] == Performed(w, front, interval);
      }
    }
  }

  /** No operation has to wait. */
  ghost predicate NoneWaits(w: World, ops: seq<Op>, interval: int) {
    ops != [] ==>
      var front := ops[..|ops| - 1];
      NoneWaits(w, front, interval) && Enabled(After(w, front, interval), ops[|ops| - 1])
  }

  lemma {:induction false} PerformedSize(w: World, ops: seq<Op>, interval: int)
    ensures |Performed(w, ops, interval)| <= |ops|
  {
    if ops != [] { PerformedSize(w, ops[..|ops| - 1], interval); }
  }

  /** All operations happen exactly when none has to wait. */
  lemma {:induction false} AllPerformedIff(w: World, ops: seq<Op>, interval: int)
    ensures Performed(w, ops, interval) == ops <==> NoneWaits(w, ops, interval)
  {
    if ops != [] {
      var front, op := ops[..|ops| - 1], ops[|ops| - 1];
      AllPerformedIff(w, front, interval);
      PerformedSize(w, front, interval);
      var p := Performed(w, front, interval);
      assert ops == front + [op];
      if Enabled(After(w, front, interval), op) {
        assert Performed(w, ops, interval) == p + [op];
        assert p == (p + [op])[..|p|];
      } else {
        assert Performed(w, ops, interval) == p + [];
        assert |p| < |ops|;
      }
    }
  }

  /** The operation, unless it is a handler's whose semaphore is down. */
  method Attempt(t: TimerList, op: Op, ghost w: World) returns (ghost w': World)
    requires t.Valid() && t.w.st == w.st && (op.OpAdd? ==> 0 <= op.to < UINT)
    modifies t, t.active_list, t.expire_list, t.w.nodes
    ensures t.Valid() && t.w.st == w'.st && w' == if Enabled(w, op) then Do(w, op, t.interval) else w
    ensures fresh(t.w.nodes - old(t.w.nodes))
  {
    w' := w;
    if !op.OpHandle? || t.sem_timer > 0 {
      Perform(t, op, w);
      w' := Do(w, op, t.interval);
    }
  }

  /** Any operations in any order on the linked lists, from empty ones: the lists end where the abstract
      run of these operations ends, handlers that must wait left out, and that is sound. */
  method Replay(interval: int, ops: seq<Op>) returns (t: TimerList)
    requires forall i :: 0 <= i < |ops| && ops[i].OpAdd? ==> 0 <= ops[i].to < UINT
    ensures t.Valid() && t.interval == interval && t.w.st == After(Start(), ops, interval).st
    ensures Run(Start(), Performed(Start(), ops, interval), interval, After(Start(), ops, interval))
    ensures Sound(After(Start(), ops, interval))
    ensures forall x :: x in t.fired ==>
              var given := AddsIn(Performed(Start(), ops, interval));
              x.timerID < |given| && given[x.timerID] == Given(x.function_, x.data)
  {
    t := new TimerList(interval);
    ghost var w := Start();
    for i := 0 to |ops|
      invariant t.Valid() && t.interval == interval && t.w.st == w.st
      invariant fresh(t) && fresh(t.active_list) && fresh(t.expire_list) && fresh(t.w.nodes)
      invariant w == After(Start(), ops[..i], interval)
    {
      w := Attempt(t, ops[i], w);
      assert ops[..i + 1][..i] == ops[..i];
    }
    assert ops[..|ops|] == ops;
    PerformedRun(Start(), ops, interval);
    StartSound();
    SoundRun(Start(), Performed(Start(), ops, interval), interval, w);
    CalledAsAdded(Performed(Start(), ops, interval), interval, w);
  }
}
