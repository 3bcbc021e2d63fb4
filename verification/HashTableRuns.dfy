/** Whole runs of the hash table: the map it refines and what becomes of every key and value. */
module HashTableRuns {
  import opened Wrappers
  import opened HashTables

  // ----- the table as a ledger -----

  /** The multiset of the values of a map. */
  ghost function MapValues<K, V>(m: map<K, V>): multiset<V>
    decreases |m|
  {
    if |m| == 0 then multiset{}
    else
      var k := AnyKey(m);
      MapValues(m - {k}) + multiset{m[k]}
  }

  ghost function AnyKey<K, V>(m: map<K, V>): (k: K)
    requires |m| > 0
    ensures k in m && |m - {k}| == |m| - 1
  {
    var k :| k in m;
    assert m == (m - {k})[k := m[k]];
    k
  }

  lemma {:induction false} MapValuesSplit<K, V>(m: map<K, V>, k: K)
    requires k in m
    ensures MapValues(m) == MapValues(m - {k}) + multiset{m[k]}
    decreases |m|
  {
    assert |m| > 0 by { assert k in m.Keys; }
    var j := AnyKey(m);
    if j != k {
      var mj, mk := m - {j}, m - {k};
      TakeTwo(m, j, k);
      MapValuesSplit(mj, k);
      MapValuesSplit(mk, j);
    }
  }

  lemma TakeTwo<K, V>(m: map<K, V>, j: K, k: K)
    requires j in m && k in m && j != k
    ensures (m - {j}) - {k} == (m - {k}) - {j}
    ensures |m - {k}| == |m| - 1 && k in m - {j} && j in m - {k}
  {
    assert m == (m - {k})[k := m[k]];
  }

  /** What is held, what has been put in, what has been handed to the deleters, how many puts added an entry,
      the number of buckets, and how many entries rehashes have moved. */
  datatype Ledger<K, V> = Ledger(held: map<K, V>, keysIn: multiset<K>, keysOut: multiset<K>,
                                 valuesIn: multiset<V>, valuesOut: multiset<V>, inserts: nat, size: nat, moved: nat)

  /** A call with the outcome of the allocations it may make. */
  datatype Call<K, V> =
    | PutCall(k: K, v: V, alloc_tab: bool, alloc_entry: bool)
    | GetCall(k: K)
    | RemoveCall(a_key: Option<K>)
    | CleanCall

  datatype Answer<V> = Code(rc: int) | Value(v: Option<V>) | Nothing

  /** Only a put of a new key allocates: a table if the load asks for one, then an entry. */
  ghost predicate Rehashes<K, V>(a: Ledger<K, V>, k: K, equal: (K, K) -> bool) {
    !Has(a.held, equal, k) && Overloaded(|a.held|, a.size)
  }

  ghost predicate Refuses<K, V>(a: Ledger<K, V>, c: Call<K, V>, equal: (K, K) -> bool)
    requires c.PutCall?
  {
    !Has(a.held, equal, c.k) && ((Overloaded(|a.held|, a.size) && !c.alloc_tab) || !c.alloc_entry)
  }

  /** A rehash stays even if the entry then cannot be had. */
  ghost function Grown<K, V>(a: Ledger<K, V>, k: K, alloc_tab: bool, equal: (K, K) -> bool): Ledger<K, V> {
    if Rehashes(a, k, equal) && alloc_tab then a.(size := 2 * a.size, moved := a.moved + |a.held|) else a
  }

  ghost function Stored<K, V>(a: Ledger<K, V>, k: K, v: V, equal: (K, K) -> bool): Ledger<K, V> {
    a.(held := PutKey(a.held, equal, k, v),
       keysIn := a.keysIn + multiset{k}, keysOut := a.keysOut + multiset(KeyDels(a.held, equal, k, true)),
       valuesIn := a.valuesIn + multiset{v}, valuesOut := a.valuesOut + multiset(ValueDels(a.held, equal, k, true)),
       inserts := a.inserts + if Has(a.held, equal, k) then 0 else 1)
  }

  ghost function Removed<K, V>(a: Ledger<K, V>, k: K, equal: (K, K) -> bool): Ledger<K, V> {
    a.(held := RemoveKey(a.held, equal, k),
       keysOut := a.keysOut + multiset(KeyDels(a.held, equal, k, true)),
       valuesOut := a.valuesOut + multiset(ValueDels(a.held, equal, k, true)))
  }

  ghost function Cleaned<K, V>(a: Ledger<K, V>): Ledger<K, V> {
    a.(held := map[], keysOut := a.keysOut + multiset(a.held.Keys), valuesOut := a.valuesOut + MapValues(a.held))
  }

  ghost function Step<K, V>(a: Ledger<K, V>, c: Call<K, V>, equal: (K, K) -> bool): Ledger<K, V> {
    match c
    case PutCall(k, v, alloc_tab, _) =>
      var b := Grown(a, k, alloc_tab, equal);
      if Refuses(a, c, equal) then b else Stored(b, k, v, equal)
    case GetCall(_) => a
    case RemoveCall(k) => if k.Some? then Removed(a, k.value, equal) else a
    case CleanCall => Cleaned(a)
  }

  ghost function AnswerTo<K, V>(a: Ledger<K, V>, c: Call<K, V>, equal: (K, K) -> bool): Answer<V> {
    match c
    case PutCall(_, _, _, _) => Code(if Refuses(a, c, equal) then -1 else 0)
    case GetCall(k) => Value(if Has(a.held, equal, k) then Some(a.held[HashTables.Stored(a.held, equal, k)]) else None)
    case RemoveCall(_) => Nothing
    case CleanCall => Nothing
  }

  ghost function Run<K, V>(a: Ledger<K, V>, cs: seq<Call<K, V>>, equal: (K, K) -> bool): Ledger<K, V> {
    if cs == [] then a else Step(Run(a, cs[..|cs| - 1], equal), cs[|cs| - 1], equal)
  }

  /** The answers to all calls of a run. */
  ghost function Answers<K, V>(a: Ledger<K, V>, cs: seq<Call<K, V>>, equal: (K, K) -> bool): seq<Answer<V>> {
    if cs == [] then []
    else
      var front := cs[..|cs| - 1];
      Answers(a, front, equal) + [AnswerTo(Run(a, front, equal), cs[|cs| - 1], equal)]
  }

  ghost function Fresh<K, V>(size: nat): Ledger<K, V> {
    Ledger(map[], multiset{}, multiset{}, multiset{}, multiset{}, 0, size, 0)
  }

  /** Everything put in is either held or was handed to its deleter, once each. */
  ghost predicate Balanced<K, V>(a: Ledger<K, V>) {
    && a.keysIn == multiset(a.held.Keys) + a.keysOut
    && a.valuesIn == MapValues(a.held) + a.valuesOut
  }

  lemma DropBalance<K(!new), V>(m: map<K, V>, hash: K -> nat, equal: (K, K) -> bool, k: K)
    requires Lawful(hash, equal) && Separate(m, equal)
    ensures Separate(RemoveKey(m, equal, k), equal)
    ensures multiset(m.Keys) == multiset(RemoveKey(m, equal, k).Keys) + multiset(KeyDels(m, equal, k, true))
    ensures MapValues(m) == MapValues(RemoveKey(m, equal, k)) + multiset(ValueDels(m, equal, k, true))
  {
    if Has(m, equal, k) {
      var k0 := HashTables.Stored(m, equal, k);
      RemoveStored(m, hash, equal, k);
      AddToSet((m - {k0}).Keys, k0);
      assert m.Keys == (m - {k0}).Keys + {k0};
      MapValuesSplit(m, k0);
    } else {
      assert RemoveKey(m, equal, k) == m;
    }
  }

  lemma RemoveStored<K(!new), V>(m: map<K, V>, hash: K -> nat, equal: (K, K) -> bool, k: K)
    requires Lawful(hash, equal) && Separate(m, equal) && Has(m, equal, k)
    ensures RemoveKey(m, equal, k) == m - {HashTables.Stored(m, equal, k)}
  {
    var k0 := HashTables.Stored(m, equal, k);
    SeparateReplaced(m, hash, equal, k0, k, m[k0]);
  }

  lemma AddToSet<T>(s: set<T>, x: T)
    requires x !in s
    ensures multiset(s + {x}) == multiset(s) + multiset{x}
  {
  }

  lemma Shift<T>(into: multiset<T>, held: multiset<T>, out: multiset<T>, kept: multiset<T>, dropped: multiset<T>,
                 added: multiset<T>)
    requires into == held + out && held == kept + dropped
    ensures into + added == (kept + added) + (out + dropped)
  {
  }

  lemma AddBalance<K(!new), V>(m: map<K, V>, hash: K -> nat, equal: (K, K) -> bool, k: K, v: V)
    requires Lawful(hash, equal) && Separate(m, equal) && !Has(m, equal, k)
    ensures Separate(m[k := v], equal)
    ensures multiset(m[k := v].Keys) == multiset(m.Keys) + multiset{k}
    ensures MapValues(m[k := v]) == MapValues(m) + multiset{v}
  {
    SeparateAdded(m, hash, equal, k, v);
    AddKey(m, k, v);
    AddToSet(m.Keys, k);
    AddValue(m, k, v);
  }

  lemma AddKey<K, V>(m: map<K, V>, k: K, v: V)
    requires k !in m
    ensures m[k := v].Keys == m.Keys + {k} && m[k := v] - {k} == m
  {
  }

  lemma AddValue<K, V>(m: map<K, V>, k: K, v: V)
    requires k !in m
    ensures MapValues(m[k := v]) == MapValues(m) + multiset{v}
  {
    AddKey(m, k, v);
    MapValuesSplit(m[k := v], k);
  }

  lemma StoredBalance<K(!new), V>(a: Ledger<K, V>, k: K, v: V, hash: K -> nat, equal: (K, K) -> bool)
    requires Lawful(hash, equal) && Separate(a.held, equal) && Balanced(a)
    ensures Separate(Stored(a, k, v, equal).held, equal) && Balanced(Stored(a, k, v, equal))
  {
    var m, rest := a.held, RemoveKey(a.held, equal, k);
    DropBalance(m, hash, equal, k);
    AddBalance(rest, hash, equal, k, v);
    Shift(a.keysIn, multiset(m.Keys), a.keysOut, multiset(rest.Keys), multiset(KeyDels(m, equal, k, true)),
          multiset{k});
    Shift(a.valuesIn, MapValues(m), a.valuesOut, MapValues(rest), multiset(ValueDels(m, equal, k, true)), multiset{v});
  }

  lemma RemovedBalance<K(!new), V>(a: Ledger<K, V>, k: K, hash: K -> nat, equal: (K, K) -> bool)
    requires Lawful(hash, equal) && Separate(a.held, equal) && Balanced(a)
    ensures Separate(Removed(a, k, equal).held, equal) && Balanced(Removed(a, k, equal))
  {
    var m, rest := a.held, RemoveKey(a.held, equal, k);
    DropBalance(m, hash, equal, k);
    Shift(a.keysIn, multiset(m.Keys), a.keysOut, multiset(rest.Keys), multiset(KeyDels(m, equal, k, true)), multiset{});
    Shift(a.valuesIn, MapValues(m), a.valuesOut, MapValues(rest), multiset(ValueDels(m, equal, k, true)), multiset{});
  }

  lemma PutBalance<K(!new), V>(a: Ledger<K, V>, c: Call<K, V>, hash: K -> nat, equal: (K, K) -> bool)
    requires Lawful(hash, equal) && Separate(a.held, equal) && Balanced(a) && c.PutCall?
    ensures Separate(Step(a, c, equal).held, equal) && Balanced(Step(a, c, equal))
  {
    var b := Grown(a, c.k, c.alloc_tab, equal);
    assert Balanced(b) && b.held == a.held;
    if !Refuses(a, c, equal) { StoredBalance(b, c.k, c.v, hash, equal); }
  }

  lemma StepBalance<K(!new), V>(a: Ledger<K, V>, c: Call<K, V>, hash: K -> nat, equal: (K, K) -> bool)
    requires Lawful(hash, equal) && Separate(a.held, equal) && Balanced(a)
    ensures Separate(Step(a, c, equal).held, equal) && Balanced(Step(a, c, equal))
  {
    match c
    case PutCall(_, _, _, _) => PutBalance(a, c, hash, equal);
    case GetCall(_) =>
    case RemoveCall(k) => if k.Some? { RemovedBalance(a, k.value, hash, equal); }
    case CleanCall =>
  }

  /** Conservation over every run. */
  lemma {:induction false} RunBalance<K(!new), V>(size: nat, cs: seq<Call<K, V>>, hash: K -> nat,
                                                  equal: (K, K) -> bool)
    requires Lawful(hash, equal)
    ensures var a := Run(Fresh(size), cs, equal);
            Separate(a.held, equal) && Balanced(a)
  {
    if cs != [] {
      RunBalance(size, cs[..|cs| - 1], hash, equal);
      StepBalance(Run(Fresh(size), cs[..|cs| - 1], equal), cs[|cs| - 1], hash, equal);
    }
  }

  // ----- what a get answers -----

  ghost function Lookup<K, V>(m: map<K, V>, equal: (K, K) -> bool, x: K): Option<V> {
    if Has(m, equal, x) then Some(m[HashTables.Stored(m, equal, x)]) else None
  }

  lemma LookupAt<K(!new), V>(m: map<K, V>, hash: K -> nat, equal: (K, K) -> bool, k: K, x: K)
    requires Lawful(hash, equal) && Separate(m, equal) && k in m && equal(x, k)
    ensures Lookup(m, equal, x) == Some(m[k])
  {
    var j := HashTables.Stored(m, equal, x);
    SameClass(hash, equal, x, k, j);
  }

  lemma LookupElsewhere<K(!new), V>(m: map<K, V>, m': map<K, V>, hash: K -> nat, equal: (K, K) -> bool, x: K)
    requires Lawful(hash, equal) && Separate(m, equal) && Separate(m', equal)
    requires forall y :: equal(x, y) ==> (y in m <==> y in m') && (y in m ==> m[y] == m'[y])
    ensures Lookup(m, equal, x) == Lookup(m', equal, x)
  {
    if Has(m, equal, x) {
      var j := HashTables.Stored(m, equal, x);
      LookupAt(m', hash, equal, j, x);
    }
  }

  lemma LookupRemoved<K(!new), V>(m: map<K, V>, hash: K -> nat, equal: (K, K) -> bool, k: K, x: K)
    requires Lawful(hash, equal) && Separate(m, equal)
    ensures Separate(RemoveKey(m, equal, k), equal)
    ensures Lookup(RemoveKey(m, equal, k), equal, x) == if equal(k, x) then None else Lookup(m, equal, x)
  {
    DropBalance(m, hash, equal, k);
    forall y | equal(x, y)
      ensures equal(k, y) == equal(k, x)
    {
      SameClass(hash, equal, x, y, k);
    }
    if !equal(k, x) { LookupElsewhere(m, RemoveKey(m, equal, k), hash, equal, x); }
  }

  lemma LookupPut<K(!new), V>(m: map<K, V>, hash: K -> nat, equal: (K, K) -> bool, k: K, v: V, x: K)
    requires Lawful(hash, equal) && Separate(m, equal)
    ensures Lookup(PutKey(m, equal, k, v), equal, x) == if equal(k, x) then Some(v) else Lookup(m, equal, x)
  {
    var rest := RemoveKey(m, equal, k);
    LookupRemoved(m, hash, equal, k, x);
    AddBalance(rest, hash, equal, k, v);
    SameClass(hash, equal, k, k, x);
    if equal(k, x) {
      SameClass(hash, equal, k, x, k);
      LookupAt(rest[k := v], hash, equal, k, x);
    } else {
      SameClass(hash, equal, x, x, k);
      LookupElsewhere(rest, rest[k := v], hash, equal, x);
    }
  }

  /** The value of the last put of an equal key that was not refused, unless the key has been removed or the
      table cleaned since. */
  ghost function Latest<K, V>(cs: seq<Call<K, V>>, answers: seq<Answer<V>>, equal: (K, K) -> bool, x: K): Option<V>
    requires |answers| == |cs|
  {
    if cs == [] then None
    else
      var n := |cs| - 1;
      var before := Latest(cs[..n], answers[..n], equal, x);
      match cs[n]
      case PutCall(k, v, _, _) => if equal(k, x) && answers[n] == Code(0) then Some(v) else before
      case GetCall(_) => before
      case RemoveCall(k) => if k.Some? && equal(k.value, x) then None else before
      case CleanCall => None
  }

  lemma {:induction false} AnswersSize<K, V>(a: Ledger<K, V>, cs: seq<Call<K, V>>, equal: (K, K) -> bool)
    ensures |Answers(a, cs, equal)| == |cs|
  {
    if cs != [] { AnswersSize(a, cs[..|cs| - 1], equal); }
  }

  lemma LookupStep<K(!new), V>(a: Ledger<K, V>, c: Call<K, V>, hash: K -> nat, equal: (K, K) -> bool, x: K)
    requires Lawful(hash, equal) && Separate(a.held, equal)
    ensures Lookup(Step(a, c, equal).held, equal, x)
         == match c {
              case PutCall(k, v, _, _) =>
                if equal(k, x) && AnswerTo(a, c, equal) == Code(0) then Some(v) else Lookup(a.held, equal, x)
              case GetCall(_) => Lookup(a.held, equal, x)
              case RemoveCall(k) => if k.Some? && equal(k.value, x) then None else Lookup(a.held, equal, x)
              case CleanCall => None
            }
  {
    match c
    case PutCall(k, v, _, _) => LookupPut(a.held, hash, equal, k, v, x);
    case GetCall(_) =>
    case RemoveCall(k) => if k.Some? { LookupRemoved(a.held, hash, equal, k.value, x); }
    case CleanCall =>
  }

  lemma {:induction false} HeldLatest<K(!new), V>(size: nat, cs: seq<Call<K, V>>, hash: K -> nat,
                                                   equal: (K, K) -> bool, x: K)
    requires Lawful(hash, equal)
    ensures |Answers(Fresh(size), cs, equal)| == |cs|
    ensures Lookup(Run(Fresh(size), cs, equal).held, equal, x)
         == Latest(cs, Answers(Fresh(size), cs, equal), equal, x)
  {
    AnswersSize(Fresh(size), cs, equal);
    if cs != [] {
      var n := |cs| - 1;
      var front := cs[..n];
      HeldLatest(size, front, hash, equal, x);
      RunBalance(size, front, hash, equal);
      LookupStep(Run(Fresh(size), front, equal), cs[n], hash, equal, x);
      AnswersLast(Fresh(size), cs, equal);
    }
  }

  lemma AnswersLast<K, V>(a: Ledger<K, V>, cs: seq<Call<K, V>>, equal: (K, K) -> bool)
    requires cs != []
    ensures var n, as_ := |cs| - 1, Answers(a, cs, equal);
            && |as_| == |cs| && as_[..n] == Answers(a, cs[..n], equal)
            && as_[n] == AnswerTo(Run(a, cs[..n], equal), cs[n], equal)
  {
    AnswersSize(a, cs[..|cs| - 1], equal);
  }

  lemma PrefixToo<T>(a: seq<T>, b: seq<T>, n: nat, i: nat)
    requires n <= |a| && a[..n] == b && i < n
    ensures a[..i] == b[..i] && a[i] == b[i]
  {
  }

  lemma {:induction false} AnswersPrefix<K, V>(a: Ledger<K, V>, cs: seq<Call<K, V>>, i: nat, equal: (K, K) -> bool)
    requires i < |cs|
    ensures |Answers(a, cs, equal)| == |cs| && Answers(a, cs, equal)[..i] == Answers(a, cs[..i], equal)
    ensures Answers(a, cs, equal)[i] == AnswerTo(Run(a, cs[..i], equal), cs[i], equal)
    decreases |cs|
  {
    var n := |cs| - 1;
    AnswersLast(a, cs, equal);
    if i < n {
      PrefixToo(cs, cs[..n], n, i);
      PrefixToo(Answers(a, cs, equal), Answers(a, cs[..n], equal), n, i);
      AnswersPrefix(a, cs[..n], i, equal);
    }
  }

  /** In every run, a get answers with the value of the last put of an equal key that was not refused and has
      been neither removed nor cleaned away since. */
  lemma GetsLatest<K(!new), V>(size: nat, cs: seq<Call<K, V>>, i: nat, hash: K -> nat, equal: (K, K) -> bool)
    requires Lawful(hash, equal) && i < |cs| && cs[i].GetCall?
    ensures |Answers(Fresh(size), cs, equal)| == |cs|
    ensures var as_ := Answers(Fresh(size), cs, equal);
            as_[i] == Value(Latest(cs[..i], as_[..i], equal, cs[i].k))
  {
    AnswersPrefix(Fresh(size), cs, i, equal);
    HeldLatest(size, cs[..i], hash, equal, cs[i].k);
  }

  // ----- runs of the real table -----

  lemma {:induction false} ListedTotals<K, V>(ks: seq<K>, vs: seq<V>, m: map<K, V>)
    requires |ks| == |vs| == |m| && Distinct(ks)
    requires forall i {:trigger ks[i]} :: 0 <= i < |ks| ==> ks[i] in m && m[ks[i]] == vs[i]
    ensures multiset(ks) == multiset(m.Keys) && multiset(vs) == MapValues(m)
    decreases |ks|
  {
    if |ks| == 0 {
      assert m.Keys == {};
    } else {
      var n := |ks| - 1;
      var k, rest := ks[n], m - {ks[n]};
      assert ks == ks[..n] + [k] && vs == vs[..n] + [vs[n]];
      assert m == rest[k := vs[n]];
      ListedTotals(ks[..n], vs[..n], rest);
      AddKey(rest, k, vs[n]);
      AddToSet(rest.Keys, k);
      AddValue(rest, k, vs[n]);
    }
  }

  /** The deleter calls of clean, in bucket order, are those for the whole map. */
  lemma CleanTotals<K(!new), V>(tab: array<Entry?<K, V>>, w: View<K, V>, hash: K -> nat, equal: (K, K) -> bool)
    requires Store(tab, w, hash, equal)
    ensures var f, m := Flatten(w.buckets), MapOf(w.index, w.nodes, hash);
            multiset(Keys(f)) == multiset(m.Keys) && multiset(Values(f)) == MapValues(m)
  {
    Enumeration(tab, w, hash, equal);
    var f, m := Flatten(w.buckets), MapOf(w.index, w.nodes, hash);
    var ks, vs := Keys(f), Values(f);
    forall i | 0 <= i < |f|
      ensures ks[i] in m && m[ks[i]] == vs[i] && w.index[ks[i]] == f[i]
    {
      assert f[i] in w.nodes && f[i].key in w.index;
    }
    assert |m.Keys| == |w.index.Keys|;
    ListedTotals(ks, vs, m);
  }

  /** The table's state and the ledger tell the same story. */
  ghost predicate Agrees<K(!new), V>(t: Table<K, V>, a: Ledger<K, V>)
    reads t, t.tab, t.w.nodes
  {
    && t.Valid() && t.Model() == a.held
    && t.load.inserts == a.inserts && t.load.moved == a.moved && t.tab.Length == a.size
    && multiset(t.key_dels) == (if t.has_key_del then a.keysOut else multiset{})
    && multiset(t.value_dels) == (if t.has_value_del then a.valuesOut else multiset{})
  }

  lemma Counted<K(!new), V>(t: Table<K, V>)
    requires t.Valid()
    ensures |t.Model()| == t.nelem
  {
    assert |t.Model().Keys| == |t.w.index.Keys|;
  }

  /** What a put does to the ledger, field by field. */
  lemma PutHeld<K, V>(a: Ledger<K, V>, c: Call<K, V>, equal: (K, K) -> bool)
    requires c.PutCall?
    ensures var b, no := Step(a, c, equal), Refuses(a, c, equal);
      && b.held == (if no then a.held else PutKey(a.held, equal, c.k, c.v))
      && b.inserts == a.inserts + (if !no && !Has(a.held, equal, c.k) then 1 else 0)
  {
  }

  lemma PutGrown<K, V>(a: Ledger<K, V>, c: Call<K, V>, equal: (K, K) -> bool)
    requires c.PutCall?
    ensures var b, grows := Step(a, c, equal), Rehashes(a, c.k, equal) && c.alloc_tab;
      && b.moved == a.moved + (if grows then |a.held| else 0)
      && b.size == a.size * (if grows then 2 else 1)
  {
  }

  lemma PutOut<K, V>(a: Ledger<K, V>, c: Call<K, V>, equal: (K, K) -> bool)
    requires c.PutCall?
    ensures Step(a, c, equal).keysOut == a.keysOut + multiset(KeyDels(a.held, equal, c.k, true))
    ensures Step(a, c, equal).valuesOut == a.valuesOut + multiset(ValueDels(a.held, equal, c.k, true))
  {
  }

  lemma Calls<T>(before: seq<T>, now: seq<T>, made: bool, out: multiset<T>)
    requires multiset(before) == if made then out else multiset{}
    ensures multiset(before + if made then now else []) == if made then out + multiset(now) else multiset{}
  {
  }

  method DoPut<K(!new, ==), V>(t: Table<K, V>, c: Call<K, V>, ghost a: Ledger<K, V>) returns (rc: int)
    requires Agrees(t, a) && c.PutCall?
    modifies t, t.tab, t.w.nodes
    ensures Code(rc) == AnswerTo(a, c, t.equal) && Agrees(t, Step(a, c, t.equal))
    ensures fresh(t.w.nodes - old(t.w.nodes)) && (t.tab == old(t.tab) || fresh(t.tab))
  {
    Counted(t);
    PutHeld(a, c, t.equal);
    PutGrown(a, c, t.equal);
    PutOut(a, c, t.equal);
    Calls(t.key_dels, KeyDels(a.held, t.equal, c.k, true), t.has_key_del, a.keysOut);
    Calls(t.value_dels, ValueDels(a.held, t.equal, c.k, true), t.has_value_del, a.valuesOut);
    rc := t.Put(c.k, c.v, c.alloc_tab, c.alloc_entry);
  }

  method DoClean<K(!new, ==), V>(t: Table<K, V>, ghost a: Ledger<K, V>)
    requires Agrees(t, a)
    modifies t, t.tab
    ensures Agrees(t, Cleaned(a))
    ensures t.w.nodes == {} && t.tab == old(t.tab)
  {
    CleanTotals(t.tab, t.w, t.hash, t.equal);
    t.Clean();
  }

  method DoRemove<K(!new, ==), V>(t: Table<K, V>, k: Option<K>, ghost a: Ledger<K, V>)
    requires Agrees(t, a)
    modifies t, t.tab, t.w.nodes
    ensures Agrees(t, Step(a, RemoveCall(k), t.equal))
    ensures t.w.nodes <= old(t.w.nodes) && t.tab == old(t.tab)
  {
    t.Remove(k);
  }

  /** One call, answered and carried out as the ledger says. */
  method Perform<K(!new, ==), V(==)>(t: Table<K, V>, c: Call<K, V>, ghost a: Ledger<K, V>) returns (r: Answer<V>)
    requires Agrees(t, a)
    modifies t, t.tab, t.w.nodes
    ensures r == AnswerTo(a, c, t.equal) && Agrees(t, Step(a, c, t.equal))
    ensures fresh(t.w.nodes - old(t.w.nodes)) && (t.tab == old(t.tab) || fresh(t.tab))
  {
    r := Nothing;
    match c
    case PutCall(_, _, _, _) =>
      var rc := DoPut(t, c, a);
      r := Code(rc);
    case GetCall(k) =>
      var v := t.Get(k);
      r := Value(v);
    case RemoveCall(k) => DoRemove(t, k, a);
    case CleanCall => DoClean(t, a);
  }

  lemma RunStep<K, V>(size: nat, cs: seq<Call<K, V>>, i: nat, equal: (K, K) -> bool)
    requires i < |cs|
    ensures Run(Fresh(size), cs[..i + 1], equal) == Step(Run(Fresh(size), cs[..i], equal), cs[i], equal)
    ensures Answers(Fresh(size), cs[..i + 1], equal)
         == Answers(Fresh(size), cs[..i], equal) + [AnswerTo(Run(Fresh(size), cs[..i], equal), cs[i], equal)]
  {
    assert cs[..i + 1][..i] == cs[..i];
  }

  lemma Paid<K(!new), V>(t: Table<K, V>, a: Ledger<K, V>)
    requires Agrees(t, a)
    ensures a.moved <= 3 * a.inserts && 10 * (|a.held| - 1) <= 13 * a.size
  {
    Counted(t);
    LoadBound(t.load.size0, t.tab.Length, t.nelem, t.load.inserts, t.load.moved);
  }

  method Open<K(!new, ==), V(==)>(a_size: nat, hash: K -> nat, equal: (K, K) -> bool,
                              has_key_del: bool, has_value_del: bool)
    returns (t: Table<K, V>)
    requires a_size > 0 && Lawful(hash, equal)
    ensures t.equal == equal && Agrees(t, Fresh(a_size))
    ensures fresh(t) && fresh(t.tab) && fresh(t.w.nodes)
  {
    t := new Table(a_size, hash, equal, has_key_del, has_value_del);
  }

  method RunCalls<K(!new, ==), V(==)>(t: Table<K, V>, calls: seq<Call<K, V>>, ghost size: nat)
    returns (answers: seq<Answer<V>>)
    requires Agrees(t, Fresh(size))
    modifies t, t.tab, t.w.nodes
    ensures answers == Answers(Fresh(size), calls, t.equal) && Agrees(t, Run(Fresh(size), calls, t.equal))
  {
    answers := [];
    for i := 0 to |calls|
      invariant answers == Answers(Fresh(size), calls[..i], t.equal)
      invariant Agrees(t, Run(Fresh(size), calls[..i], t.equal))
      invariant (t.tab == old(t.tab) || fresh(t.tab)) && fresh(t.w.nodes - old(t.w.nodes))
    {
      var r := Perform(t, calls[i], Run(Fresh(size), calls[..i], t.equal));
      RunStep(size, calls, i, t.equal);
      answers := answers + [r];
    }
    assert calls[..|calls|] == calls;
  }

  /** Every run, from an empty table, of any calls with any allocation failures: each call is answered as the
      ledger says, the table ends with the ledger's map, size and counts, its deleters have been called for
      exactly what the ledger says was dropped, every key and value put in is held or was released once, and
      the load bounds hold. */
  method Replay<K(!new, ==), V(==)>(a_size: nat, hash: K -> nat, equal: (K, K) -> bool,
                                has_key_del: bool, has_value_del: bool, calls: seq<Call<K, V>>)
    returns (t: Table<K, V>, answers: seq<Answer<V>>)
    requires a_size > 0 && Lawful(hash, equal)
    ensures answers == Answers(Fresh(a_size), calls, equal)
    ensures Agrees(t, Run(Fresh(a_size), calls, equal)) && Balanced(Run(Fresh(a_size), calls, equal))
    ensures var a := Run(Fresh(a_size), calls, equal);
            a.moved <= 3 * a.inserts && 10 * (|a.held| - 1) <= 13 * a.size
    ensures |answers| == |calls| && forall i :: 0 <= i < |calls| && calls[i].GetCall? ==>
              answers[i] == Value(Latest(calls[..i], answers[..i], equal, calls[i].k))
  {
    t := Open(a_size, hash, equal, has_key_del, has_value_del);
    answers := RunCalls(t, calls, a_size);
    RunBalance(a_size, calls, hash, equal);
    Paid(t, Run(Fresh(a_size), calls, equal));
    AnswersSize(Fresh(a_size), calls, equal);
    forall i | 0 <= i < |calls| && calls[i].GetCall?
      ensures answers[i] == Value(Latest(calls[..i], answers[..i], equal, calls[i].k))
    {
      GetsLatest(a_size, calls, i, hash, equal);
    }
  }

  lemma AllOut<T>(into: multiset<T>, held: multiset<T>, out: multiset<T>, before: seq<T>, rest: seq<T>)
    requires into == held + out && multiset(before) == out && multiset(rest) == held
    ensures multiset(before + rest) == into
  {
  }

  /** A run that ends in del: every key and value ever put in has been handed to its deleter, once. */
  method Close<K(!new, ==), V>(t: Table<K, V>, ghost a: Ledger<K, V>)
    requires Agrees(t, a) && Balanced(a)
    modifies t`key_dels, t`value_dels
    ensures t.has_key_del ==> multiset(t.key_dels) == a.keysIn
    ensures t.has_value_del ==> multiset(t.value_dels) == a.valuesIn
  {
    CleanTotals(t.tab, t.w, t.hash, t.equal);
    ghost var f := Flatten(t.w.buckets);
    ghost var ks, vs := Keys(f), Values(f);
    if t.has_key_del { AllOut(a.keysIn, multiset(a.held.Keys), a.keysOut, t.key_dels, ks); }
    if t.has_value_del { AllOut(a.valuesIn, MapValues(a.held), a.valuesOut, t.value_dels, vs); }
    t.Del();
  }
}
