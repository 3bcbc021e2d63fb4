/** The chained hash table (common/fm_hashtable.c). */
module HashTables {
  import opened Wrappers

  // ----- entries and bucket chains -----

  class Entry<K, V> {
    const hash_key: nat
    var key: K
    var value: V
    var prev: Entry?<K, V>
    var next: Entry?<K, V>

    constructor (hash_key: nat, key: K, value: V)
      ensures this.hash_key == hash_key && this.key == key && this.value == value
      ensures prev == null && next == null
    {
      this.hash_key, this.key, this.value := hash_key, key, value;
      prev, next := null, null;
    }
  }

  /** The bucket a hash value selects in a table of n buckets. */
  function Slot(h: nat, n: nat): (i: nat)
    requires n > 0
    ensures i < n
  {
    h % n
  }

  /** The k-th entry of a chain, NULL past either end. */
  ghost function At<K, V>(b: seq<Entry<K, V>>, k: int): Entry?<K, V> {
    if 0 <= k < |b| then b[k] else null
  }

  /** head starts a NULL-terminated doubly linked chain through exactly b. */
  ghost predicate Chain<K, V>(head: Entry?<K, V>, b: seq<Entry<K, V>>, nodes: set<Entry<K, V>>)
    reads nodes`next, nodes`prev
  {
    && head == At(b, 0)
    && (forall k :: 0 <= k < |b| ==> b[k] in nodes)
    && (forall k {:trigger b[k].next} :: 0 <= k < |b| ==> b[k].next == At(b, k + 1))
    && (forall k {:trigger b[k].prev} :: 0 <= k < |b| ==> b[k].prev == At(b, k - 1))
    && (forall j, k :: 0 <= j < k < |b| ==> b[j] != b[k])
  }

  ghost predicate InSlot<K, V>(b: seq<Entry<K, V>>, i: nat, n: nat)
    requires n > 0
  {
    forall k :: 0 <= k < |b| ==> Slot(b[k].hash_key, n) == i
  }

  /** Every bucket of tab is a well-linked chain and holds only entries of its own slot. */
  ghost predicate Shape<K, V>(tab: array<Entry?<K, V>>, bs: seq<seq<Entry<K, V>>>, nodes: set<Entry<K, V>>)
    reads tab, nodes`next, nodes`prev
  {
    && |bs| == tab.Length > 0
    && forall i {:trigger bs[i]} :: 0 <= i < |bs| ==> Chain(tab[i], bs[i], nodes) && InSlot(bs[i], i, |bs|)
  }

  /** Head insertion, the code put and rehash share. */
  method LinkAtHead<K, V>(tab: array<Entry?<K, V>>, p: Entry<K, V>, j: nat,
                          ghost bs: seq<seq<Entry<K, V>>>, ghost nodes: set<Entry<K, V>>)
    requires Shape(tab, bs, nodes)
    requires p !in nodes && j == Slot(p.hash_key, tab.Length)
    modifies tab, p`next, p`prev, nodes`prev
    ensures Shape(tab, bs[j := [p] + bs[j]], nodes + {p})
  {
    assert Chain(tab[j], bs[j], nodes);
    p.next, p.prev := null, null;
    if tab[j] != null {
      tab[j].prev := p;
      p.next := tab[j];
    }
    tab[j] := p;
  }

  // ----- rehash -----

  /** What a walk over chain b leaves in bucket j of a table of n buckets, by head insertion. */
  ghost function Spread<K, V>(b: seq<Entry<K, V>>, j: nat, n: nat): seq<Entry<K, V>>
    requires n > 0
  {
    if b == [] then []
    else
      var e := b[|b| - 1];
      (if Slot(e.hash_key, n) == j then [e] else []) + Spread(b[..|b| - 1], j, n)
  }

  ghost function Members<K, V>(b: seq<Entry<K, V>>): (s: set<Entry<K, V>>) {
    set k | 0 <= k < |b| :: b[k]
  }

  lemma SpreadStep<K, V>(b: seq<Entry<K, V>>, k: nat, bs: seq<seq<Entry<K, V>>>, cur: seq<seq<Entry<K, V>>>)
    requires k < |b| && |bs| == |cur| > 0
    requires forall j | 0 <= j < |bs| :: cur[j] == Spread(b[..k], j, |bs|) + bs[j]
    ensures var i := Slot(b[k].hash_key, |bs|);
            var cur' := cur[i := [b[k]] + cur[i]];
            forall j | 0 <= j < |bs| :: cur'[j] == Spread(b[..k + 1], j, |bs|) + bs[j]
  {
    assert b[..k + 1][..k] == b[..k];
  }

  /** The inner loop of rehash: relinks one old chain, front to back, into the new table. */
  method MoveChain<K, V>(head: Entry?<K, V>, tab: array<Entry?<K, V>>, ghost b: seq<Entry<K, V>>,
                         ghost bs: seq<seq<Entry<K, V>>>, ghost nodes: set<Entry<K, V>>)
    returns (ghost bs': seq<seq<Entry<K, V>>>)
    requires Chain(head, b, Members(b))
    requires Shape(tab, bs, nodes) && nodes !! Members(b)
    modifies tab, nodes`prev, Members(b)`prev, Members(b)`next
    ensures |bs'| == |bs| && Shape(tab, bs', nodes + Members(b))
    ensures forall j | 0 <= j < |bs| :: bs'[j] == Spread(b, j, |bs|) + bs[j]
  {
    bs' := bs;
    var p := head;
    ghost var k, moved := 0, nodes;
    assert forall m | 0 <= m < |b| :: b[m] in Members(b);
    while p != null
      invariant 0 <= k <= |b| && p == At(b, k)
      invariant forall m {:trigger b[m].next} :: k <= m < |b| ==> b[m].next == At(b, m + 1)
      invariant nodes <= moved <= nodes + Members(b)
      invariant forall m | k <= m < |b| :: b[m] !in moved
      invariant |bs'| == |bs| && Shape(tab, bs', moved)
      invariant forall j | 0 <= j < |bs| :: bs'[j] == Spread(b[..k], j, |bs|) + bs[j]
      decreases |b| - k
    {
      var q := p.next;
      var j := Slot(p.hash_key, tab.Length);
      SpreadStep(b, k, bs, bs');
      LinkAtHead(tab, p, j, bs', moved);
      bs', moved := bs'[j := [p] + bs'[j]], moved + {p};
      p := q;
      k := k + 1;
    }
    assert b[..k] == b;
  }

  lemma ModUnique(h: nat, n: nat, q: nat, r: nat)
    requires r < n && h == n * q + r
    ensures h % n == r
  {
    var d := h / n - q;
    assert h == n * (h / n) + h % n;
    assert n * d == n * (h / n) - n * q;
    assert d == 0;
  }

  lemma DoubleRemainder(h: nat, n: nat, q: nat, r: nat)
    requires h == (2 * n) * q + r && r < 2 * n
    ensures h % n == if r < n then r else r - n
  {
    assert (2 * n) * q == n * (2 * q);
    if r < n {
      ModUnique(h, n, 2 * q, r);
    } else {
      assert n * (2 * q + 1) == n * (2 * q) + n;
      ModUnique(h, n, 2 * q + 1, r - n);
    }
  }

  /** Doubling the table sends slot i to slot i or slot i + n. */
  lemma SlotDouble(h: nat, n: nat)
    requires n > 0
    ensures Slot(h, 2 * n) == Slot(h, n) || Slot(h, 2 * n) == Slot(h, n) + n
  {
    DoubleRemainder(h, n, h / (2 * n), h % (2 * n));
  }

  lemma {:induction false} SpreadMiss<K, V>(b: seq<Entry<K, V>>, i: nat, n: nat, j: nat)
    requires n > 0 && InSlot(b, i, n) && j != i && j != i + n
    ensures Spread(b, j, 2 * n) == []
  {
    if b != [] {
      var e := b[|b| - 1];
      SlotDouble(e.hash_key, n);
      SpreadMiss(b[..|b| - 1], i, n, j);
    }
  }

  /** The old bucket that feeds new bucket j. */
  function Source(j: nat, n: nat): (i: nat)
    requires j < 2 * n
    ensures i < n
  {
    if j < n then j else j - n
  }

  /** The buckets a rehash leaves, as a function of the buckets it found. */
  ghost function Rehashed<K, V>(bs: seq<seq<Entry<K, V>>>): (r: seq<seq<Entry<K, V>>>)
    requires |bs| > 0
    ensures |r| == 2 * |bs|
  {
    seq(2 * |bs|, j requires 0 <= j < 2 * |bs| => Spread(bs[Source(j, |bs|)], j, 2 * |bs|))
  }

  /** The new buckets while old buckets 0..i have been moved. */
  ghost predicate PartlyRehashed<K, V>(bs: seq<seq<Entry<K, V>>>, nb: seq<seq<Entry<K, V>>>, i: nat) {
    && |nb| == 2 * |bs| > 0
    && forall j {:trigger nb[j]} :: 0 <= j < |nb| ==>
         nb[j] == if Source(j, |bs|) < i then Spread(bs[Source(j, |bs|)], j, |nb|) else []
  }

  lemma RehashedStep<K, V>(bs: seq<seq<Entry<K, V>>>, nb: seq<seq<Entry<K, V>>>, nb': seq<seq<Entry<K, V>>>, i: nat)
    requires i < |bs| && PartlyRehashed(bs, nb, i) && InSlot(bs[i], i, |bs|)
    requires |nb'| == |nb|
    requires forall j | 0 <= j < |nb| :: nb'[j] == Spread(bs[i], j, |nb|) + nb[j]
    ensures PartlyRehashed(bs, nb', i + 1)
  {
    forall j | 0 <= j < |nb|
      ensures nb'[j] == if Source(j, |bs|) < i + 1 then Spread(bs[Source(j, |bs|)], j, |nb|) else []
    {
      if Source(j, |bs|) != i { SpreadMiss(bs[i], i, |bs|, j); }
    }
  }

  /** The entries of b that belong in bucket j of a table of n buckets, in order. */
  ghost function Belonging<K, V>(b: seq<Entry<K, V>>, j: nat, n: nat): seq<Entry<K, V>>
    requires n > 0
  {
    if b == [] then []
    else (if Slot(b[0].hash_key, n) == j then [b[0]] else []) + Belonging(b[1..], j, n)
  }

  ghost function Reverse<T>(s: seq<T>): seq<T> {
    seq(|s|, k requires 0 <= k < |s| => s[|s| - 1 - k])
  }

  lemma {:induction false} BelongingLast<K, V>(b: seq<Entry<K, V>>, e: Entry<K, V>, j: nat, n: nat)
    requires n > 0
    ensures Belonging(b + [e], j, n) == Belonging(b, j, n) + if Slot(e.hash_key, n) == j then [e] else []
  {
    if b == [] {
      assert (b + [e])[1..] == [];
    } else {
      var c := b + [e];
      assert c[0] == b[0] && c[1..] == b[1..] + [e];
      BelongingLast(b[1..], e, j, n);
      var first := if Slot(b[0].hash_key, n) == j then [b[0]] else [];
      var last := if Slot(e.hash_key, n) == j then [e] else [];
      assert first + (Belonging(b[1..], j, n) + last) == first + Belonging(b[1..], j, n) + last;
    }
  }

  /** Head insertion reverses: what a walk leaves in bucket j is the reverse of what belongs there. */
  lemma {:induction false} SpreadReverses<K, V>(b: seq<Entry<K, V>>, j: nat, n: nat)
    requires n > 0
    ensures Spread(b, j, n) == Reverse(Belonging(b, j, n))
  {
    if b != [] {
      var m := |b| - 1;
      SpreadReverses(b[..m], j, n);
      assert b == b[..m] + [b[m]];
      BelongingLast(b[..m], b[m], j, n);
      ReverseLast(Belonging(b[..m], j, n), b[m]);
    }
  }

  lemma ReverseLast<T>(s: seq<T>, x: T)
    ensures Reverse(s + [x]) == [x] + Reverse(s)
    ensures Reverse(s + []) == [] + Reverse(s)
  {
    assert s + [] == s;
  }

  /** Rehash, bucket by bucket: new bucket j is the reverse of the entries of the one old bucket it
      draws on that belong in it, and nothing else. */
  lemma RehashSplits<K, V>(bs: seq<seq<Entry<K, V>>>, j: nat)
    requires |bs| > 0 && j < 2 * |bs|
    ensures Rehashed(bs)[j] == Reverse(Belonging(bs[Source(j, |bs|)], j, 2 * |bs|))
    ensures Source(j, |bs|) == j % |bs|
  {
    SpreadReverses(bs[Source(j, |bs|)], j, 2 * |bs|);
    SourceMod(j, |bs|);
  }

  lemma SourceMod(j: nat, n: nat)
    requires j < 2 * n
    ensures Source(j, n) == j % n
  {
    if j < n {
      ModUnique(j, n, 0, j);
    } else {
      ModUnique(j, n, 1, j - n);
    }
  }

  /** What is left of the old table while buckets from i on are still to be moved. */
  ghost predicate Unmoved<K, V>(tab: array<Entry?<K, V>>, bs: seq<seq<Entry<K, V>>>, nodes: set<Entry<K, V>>, i: nat)
    reads tab, nodes`next, nodes`prev
  {
    && |bs| == tab.Length > 0
    && forall r {:trigger bs[r]} :: i <= r < |bs| ==> Chain(tab[r], bs[r], nodes) && InSlot(bs[r], r, |bs|)
  }

  /** done holds the entries of old buckets 0..i. */
  ghost predicate Done<K, V>(done: set<Entry<K, V>>, nodes: set<Entry<K, V>>, n: nat, i: nat)
    requires n > 0
  {
    && done <= nodes
    && forall e :: e in nodes ==> (e in done <==> Slot(e.hash_key, n) < i)
  }

  /** One turn of rehash's outer loop. */
  method MoveBucket<K, V>(tab: array<Entry?<K, V>>, tab2: array<Entry?<K, V>>, i: nat,
                          ghost bs: seq<seq<Entry<K, V>>>, ghost nb: seq<seq<Entry<K, V>>>,
                          ghost nodes: set<Entry<K, V>>, ghost done: set<Entry<K, V>>)
    returns (ghost nb': seq<seq<Entry<K, V>>>, ghost done': set<Entry<K, V>>)
    requires i < tab.Length && tab != tab2
    requires Unmoved(tab, bs, nodes, i) && Homed(bs, nodes) && Done(done, nodes, |bs|, i)
    requires Shape(tab2, nb, done) && PartlyRehashed(bs, nb, i)
    modifies tab2, nodes`prev, nodes`next
    ensures Unmoved(tab, bs, nodes, i + 1) && Done(done', nodes, |bs|, i + 1)
    ensures Shape(tab2, nb', done') && PartlyRehashed(bs, nb', i + 1)
  {
    ghost var b := bs[i];
    done' := done + Members(b);
    assert forall e :: e in Members(b) ==> e in nodes && Slot(e.hash_key, |bs|) == i;
    nb' := MoveChain(tab[i], tab2, b, nb, done);
    RehashedStep(bs, nb, nb', i);
  }

  ghost predicate Homed<K, V>(bs: seq<seq<Entry<K, V>>>, nodes: set<Entry<K, V>>) {
    && |bs| > 0
    && forall e {:trigger Slot(e.hash_key, |bs|)} :: e in nodes ==> e in bs[Slot(e.hash_key, |bs|)]
  }

  lemma {:induction false} SpreadHit<K, V>(b: seq<Entry<K, V>>, j: nat, n: nat, e: Entry<K, V>)
    requires n > 0 && e in b && Slot(e.hash_key, n) == j
    ensures e in Spread(b, j, n)
  {
    if b[|b| - 1] != e {
      SpreadHit(b[..|b| - 1], j, n, e);
    }
  }

  lemma HomedAfter<K, V>(bs: seq<seq<Entry<K, V>>>, nodes: set<Entry<K, V>>)
    requires Homed(bs, nodes)
    ensures Homed(Rehashed(bs), nodes)
  {
    forall e | e in nodes
      ensures e in Rehashed(bs)[Slot(e.hash_key, 2 * |bs|)]
    {
      var n, j := |bs|, Slot(e.hash_key, 2 * |bs|);
      SlotDouble(e.hash_key, n);
      SpreadHit(bs[Source(j, n)], j, 2 * n, e);
    }
  }

  /** The outer loop of rehash, into a new table of twice the size. */
  method MoveAll<K, V>(tab: array<Entry?<K, V>>, ghost bs: seq<seq<Entry<K, V>>>, ghost nodes: set<Entry<K, V>>)
    returns (tab2: array<Entry?<K, V>>, ghost nb: seq<seq<Entry<K, V>>>)
    requires Shape(tab, bs, nodes) && Homed(bs, nodes)
    modifies nodes`prev, nodes`next
    ensures fresh(tab2) && nb == Rehashed(bs)
    ensures Shape(tab2, nb, nodes) && Homed(nb, nodes)
  {
    var tab_size := 2 * tab.Length;
    tab2 := new Entry?<K, V>[tab_size](_ => null);
    nb := seq(tab_size, _ => []);
    ghost var done: set<Entry<K, V>> := {};
    for i := 0 to tab.Length
      invariant Unmoved(tab, bs, nodes, i) && Done(done, nodes, |bs|, i)
      invariant Shape(tab2, nb, done) && PartlyRehashed(bs, nb, i)
    {
      nb, done := MoveBucket(tab, tab2, i, bs, nb, nodes, done);
    }
    assert done == nodes;
    assert nb == Rehashed(bs);
    HomedAfter(bs, nodes);
  }

  // ----- unlinking -----

  ghost function Without<T>(b: seq<T>, k: nat): seq<T>
    requires k < |b|
  {
    b[..k] + b[k + 1..]
  }

  lemma WithoutAt<K, V>(b: seq<Entry<K, V>>, k: nat, j: int)
    requires k < |b|
    ensures At(Without(b, k), j) == At(b, if j < k then j else j + 1)
  {
  }

  /** A chain with its k-th link bypassed. */
  lemma Bypassed<K, V>(head: Entry?<K, V>, b: seq<Entry<K, V>>, k: nat, nodes: set<Entry<K, V>>)
    requires k < |b| && head == At(Without(b, k), 0)
    requires forall j :: 0 <= j < |b| ==> b[j] in nodes
    requires forall i, j :: 0 <= i < j < |b| ==> b[i] != b[j]
    requires forall j {:trigger b[j].next} :: 0 <= j < |b| && j != k - 1 && j != k ==> b[j].next == At(b, j + 1)
    requires forall j {:trigger b[j].prev} :: 0 <= j < |b| && j != k + 1 && j != k ==> b[j].prev == At(b, j - 1)
    requires k > 0 ==> b[k - 1].next == At(b, k + 1)
    requires k + 1 < |b| ==> b[k + 1].prev == At(b, k - 1)
    ensures Chain(head, Without(b, k), nodes - {b[k]})
  {
    var c := Without(b, k);
    forall j | 0 <= j < |c|
      ensures c[j] in nodes - {b[k]} && c[j].next == At(c, j + 1) && c[j].prev == At(c, j - 1)
    {
      WithoutAt(b, k, j);
      WithoutAt(b, k, j + 1);
      WithoutAt(b, k, j - 1);
      var i := if j < k then j else j + 1;
      assert c[j] == b[i] && b[i] != b[k];
    }
  }

  /** The pointer surgery of remove, on the k-th entry of bucket i. */
  method Unlink<K, V>(tab: array<Entry?<K, V>>, p: Entry<K, V>, ghost i: nat, ghost k: nat,
                      ghost bs: seq<seq<Entry<K, V>>>, ghost nodes: set<Entry<K, V>>)
    requires Shape(tab, bs, nodes)
    requires i < |bs| && k < |bs[i]| && p == bs[i][k]
    modifies tab, nodes`prev, nodes`next
    ensures Shape(tab, bs[i := Without(bs[i], k)], nodes - {p})
  {
    ghost var b := bs[i];
    assert Chain(tab[i], b, nodes) && InSlot(b, i, |bs|);
    WithoutAt(b, k, 0);
    if p.next != null {
      p.next.prev := p.prev;
    }
    if p.prev != null {
      p.prev.next := p.next;
    } else {
      var i := Slot(p.hash_key, tab.Length);
      tab[i] := p.next;
    }
    Bypassed(tab[i], b, k, nodes);
  }

  // ----- bucket order -----

  /** All entries in bucket order. */
  ghost function Flatten<T>(bs: seq<seq<T>>): seq<T> {
    if bs == [] then [] else Flatten(bs[..|bs| - 1]) + bs[|bs| - 1]
  }

  ghost function Keys<K, V>(b: seq<Entry<K, V>>): seq<K>
    reads Members(b)
  {
    seq(|b|, i requires 0 <= i < |b| reads Members(b) => b[i].key)
  }

  ghost function Values<K, V>(b: seq<Entry<K, V>>): seq<V>
    reads Members(b)
  {
    seq(|b|, i requires 0 <= i < |b| reads Members(b) => b[i].value)
  }

  /** ks and vs are the keys and values of f. */
  ghost predicate Lists<K, V>(f: seq<Entry<K, V>>, ks: seq<K>, vs: seq<V>)
    reads Members(f)`key, Members(f)`value
  {
    && |ks| == |vs| == |f|
    && forall k {:trigger f[k]} :: 0 <= k < |f| ==> f[k] in Members(f) && f[k].key == ks[k] && f[k].value == vs[k]
  }

  lemma ListsSlice<K, V>(f: seq<Entry<K, V>>, ks: seq<K>, vs: seq<V>, a: seq<Entry<K, V>>, b: seq<Entry<K, V>>,
                         c: seq<Entry<K, V>>)
    requires Lists(f, ks, vs) && f == a + b + c
    ensures Lists(b, ks[|a|..|a| + |b|], vs[|a|..|a| + |b|])
  {
    forall k | 0 <= k < |b|
      ensures b[k].key == ks[|a|..|a| + |b|][k] && b[k].value == vs[|a|..|a| + |b|][k]
    {
      assert f[|a| + k] == b[k];
    }
  }

  lemma TakeMore<T>(done: seq<T>, s: seq<T>, m: nat, n: nat)
    requires m + n <= |s|
    ensures done + s[..m] + s[m..m + n] == done + s[..m + n]
  {
  }

  // ----- the abstract map -----

  ghost predicate SymmetricAt<K>(hash: K -> nat, equal: (K, K) -> bool, x: K, y: K) {
    equal(x, y) ==> equal(y, x) && hash(x) == hash(y)
  }

  ghost predicate TransitiveAt<K>(equal: (K, K) -> bool, x: K, y: K, z: K) {
    equal(x, y) && equal(y, z) ==> equal(x, z)
  }

  /** What the table asks of the caller's functions: equal is an equivalence, and equal keys have
      equal hashes. */
  ghost predicate Lawful<K(!new)>(hash: K -> nat, equal: (K, K) -> bool) {
    && (forall x :: equal(x, x))
    && (forall x, y :: SymmetricAt(hash, equal, x, y))
    && (forall x, y, z :: TransitiveAt(equal, x, y, z))
  }

  /** Keys equal to one another are equal to the same keys. */
  lemma SameClass<K(!new)>(hash: K -> nat, equal: (K, K) -> bool, x: K, y: K, z: K)
    requires Lawful(hash, equal) && equal(x, y)
    ensures hash(x) == hash(y)
    ensures equal(x, z) == equal(y, z) == equal(z, x) == equal(z, y)
  {
    assert SymmetricAt(hash, equal, x, y) && SymmetricAt(hash, equal, x, z) && SymmetricAt(hash, equal, y, z);
    assert SymmetricAt(hash, equal, z, x) && SymmetricAt(hash, equal, z, y);
    assert TransitiveAt(equal, x, y, z) && TransitiveAt(equal, y, x, z);
  }

  ghost predicate Separate<K, V>(m: map<K, V>, equal: (K, K) -> bool) {
    forall x, y {:trigger equal(x, y)} :: x in m && y in m && equal(x, y) ==> x == y
  }

  predicate Has<K, V>(m: map<K, V>, equal: (K, K) -> bool, k: K) {
    exists x :: x in m && equal(k, x)
  }

  /** The stored key equal to k. */
  ghost function Stored<K, V>(m: map<K, V>, equal: (K, K) -> bool, k: K): (x: K)
    requires Has(m, equal, k)
    ensures x in m && equal(k, x)
  {
    var x :| x in m && equal(k, x); x
  }

  /** The arguments of the key_del and value_del calls due when the key equal to k is dropped. */
  ghost function KeyDels<K, V>(m: map<K, V>, equal: (K, K) -> bool, k: K, has_del: bool): seq<K> {
    if has_del && Has(m, equal, k) then [Stored(m, equal, k)] else []
  }

  ghost function ValueDels<K, V>(m: map<K, V>, equal: (K, K) -> bool, k: K, has_del: bool): seq<V> {
    if has_del && Has(m, equal, k) then [m[Stored(m, equal, k)]] else []
  }

  ghost function RemoveKey<K, V>(m: map<K, V>, equal: (K, K) -> bool, k: K): map<K, V> {
    map x | x in m && !equal(k, x) :: m[x]
  }

  ghost function PutKey<K, V>(m: map<K, V>, equal: (K, K) -> bool, k: K, v: V): map<K, V> {
    RemoveKey(m, equal, k)[k := v]
  }

  /** index finds the entry of every stored key. */
  ghost predicate Indexed<K, V>(index: map<K, Entry<K, V>>, nodes: set<Entry<K, V>>, hash: K -> nat)
    reads nodes`key
  {
    && (forall e {:trigger e.key in index} :: e in nodes ==>
          e.key in index && index[e.key] == e && e.hash_key == hash(e.key))
    && (forall k {:trigger index[k]} :: k in index ==> index[k] in nodes && index[k].key == k)
  }

  ghost function MapOf<K, V>(index: map<K, Entry<K, V>>, nodes: set<Entry<K, V>>, hash: K -> nat): (m: map<K, V>)
    requires Indexed(index, nodes, hash)
    reads nodes`key, nodes`value
    ensures m.Keys == index.Keys
  {
    map k | k in index :: index[k].value
  }

  /** Everything the pointers of a table represent: its buckets, its entries and where each key is. */
  datatype View<!K, !V> = View(buckets: seq<seq<Entry<K, V>>>, nodes: set<Entry<K, V>>, index: map<K, Entry<K, V>>)

  ghost predicate Store<K(!new), V>(tab: array<Entry?<K, V>>, w: View<K, V>, hash: K -> nat, equal: (K, K) -> bool)
    reads tab, w.nodes`next, w.nodes`prev, w.nodes`key
  {
    && Lawful(hash, equal)
    && Shape(tab, w.buckets, w.nodes) && Homed(w.buckets, w.nodes)
    && Indexed(w.index, w.nodes, hash) && Separate(w.index, equal)
  }

  /** The two stores, as the index sees them. */
  method SetEntry<K, V>(p: Entry<K, V>, a_key: K, a_value: V, ghost index: map<K, Entry<K, V>>,
                        ghost nodes: set<Entry<K, V>>, ghost hash: K -> nat)
    requires Indexed(index, nodes, hash) && p in nodes && hash(a_key) == p.hash_key
    requires a_key in index ==> a_key == p.key
    modifies p`key, p`value
    ensures Indexed((index - {old(p.key)})[a_key := p], nodes, hash)
    ensures MapOf((index - {old(p.key)})[a_key := p], nodes, hash)
         == (old(MapOf(index, nodes, hash)) - {old(p.key)})[a_key := a_value]
  {
    assert p.key in index;
    ghost var rest := index - {p.key};
    assert forall k {:trigger rest[k]} :: k in rest ==> rest[k] != p && rest[k].key == k;
    p.key := a_key;
    p.value := a_value;
    forall e {:trigger e.key in rest} | e in nodes && e != p
      ensures e.key in rest && rest[e.key] == e && e.hash_key == hash(e.key)
    {
      assert e.key in index;
    }
  }

  /** Stores a new key and value in entry p, whose key is equal to the new one. */
  method ReplaceEntry<K(!new), V>(tab: array<Entry?<K, V>>, p: Entry<K, V>, a_key: K, a_value: V,
                                  ghost w: View<K, V>, ghost hash: K -> nat, ghost equal: (K, K) -> bool)
    returns (ghost w': View<K, V>)
    requires Store(tab, w, hash, equal) && p in w.nodes && equal(a_key, p.key)
    modifies p`key, p`value
    ensures w'.buckets == w.buckets && w'.nodes == w.nodes && |w'.index| == |w.index|
    ensures Store(tab, w', hash, equal)
    ensures MapOf(w'.index, w.nodes, hash) == PutKey(old(MapOf(w.index, w.nodes, hash)), equal, a_key, a_value)
  {
    ghost var k0, rest := p.key, w.index - {p.key};
    assert k0 in w.index && |w.index| == |rest| + 1;
    SeparateReplaced(w.index, hash, equal, k0, a_key, p);
    RemoveFound(MapOf(w.index, w.nodes, hash), hash, equal, k0, a_key);
    SetEntry(p, a_key, a_value, w.index, w.nodes, hash);
    w' := w.(index := rest[a_key := p]);
  }

  lemma SeparateReplaced<K(!new), V>(m: map<K, V>, hash: K -> nat, equal: (K, K) -> bool, k0: K, k: K, v: V)
    requires Lawful(hash, equal) && Separate(m, equal) && k0 in m && equal(k, k0)
    ensures hash(k) == hash(k0)
    ensures Separate((m - {k0})[k := v], equal)
    ensures forall x {:trigger x in m} | x in m :: equal(k, x) == (x == k0)
    ensures k in m ==> k == k0
  {
    SameClass(hash, equal, k, k0, k0);
    SameClass(hash, equal, k, k0, k);
    forall x | x in m
      ensures equal(k, x) == (x == k0) == equal(x, k)
    {
      SameClass(hash, equal, k, k0, x);
    }
  }

  lemma RemoveFound<K(!new), V>(m: map<K, V>, hash: K -> nat, equal: (K, K) -> bool, k0: K, k: K)
    requires Lawful(hash, equal) && Separate(m, equal) && k0 in m && equal(k, k0)
    ensures RemoveKey(m, equal, k) == m - {k0}
  {
    SeparateReplaced(m, hash, equal, k0, k, m[k0]);
  }

  lemma Absent<K, V>(m: map<K, V>, equal: (K, K) -> bool, k: K, key_del: bool, value_del: bool)
    requires !Has(m, equal, k)
    ensures RemoveKey(m, equal, k) == m
    ensures KeyDels(m, equal, k, key_del) == [] && ValueDels(m, equal, k, value_del) == []
  {
  }

  /** Allocates an entry for a key that is not there and links it at the head of its bucket. */
  method AddEntry<K(!new), V>(tab: array<Entry?<K, V>>, a_key: K, a_value: V, hash: K -> nat,
                              ghost w: View<K, V>, ghost equal: (K, K) -> bool)
    returns (p: Entry<K, V>, ghost w': View<K, V>)
    requires Store(tab, w, hash, equal) && !Has(w.index, equal, a_key)
    modifies tab, w.nodes`prev
    ensures fresh(p) && w'.nodes == w.nodes + {p}
    ensures Store(tab, w', hash, equal) && |w'.index| == |w.index| + 1
    ensures MapOf(w'.index, w'.nodes, hash)
         == PutKey(old(MapOf(w.index, w.nodes, hash)), equal, a_key, a_value)
  {
    p := new Entry(hash(a_key), a_key, a_value);
    var i := Slot(p.hash_key, tab.Length);
    LinkAtHead(tab, p, i, w.buckets, w.nodes);
    w' := View(w.buckets[i := [p] + w.buckets[i]], w.nodes + {p}, w.index[a_key := p]);
    HomedAdded(w.buckets, w.nodes, p);
    SeparateAdded(w.index, hash, equal, a_key, p);
  }

  lemma HomedAdded<K, V>(bs: seq<seq<Entry<K, V>>>, nodes: set<Entry<K, V>>, p: Entry<K, V>)
    requires Homed(bs, nodes)
    ensures var i := Slot(p.hash_key, |bs|);
            Homed(bs[i := [p] + bs[i]], nodes + {p})
  {
  }

  lemma SeparateAdded<K(!new), V>(m: map<K, V>, hash: K -> nat, equal: (K, K) -> bool, k: K, v: V)
    requires Lawful(hash, equal) && Separate(m, equal) && !Has(m, equal, k)
    ensures Separate(m[k := v], equal) && k !in m
    ensures forall x | x in m :: !equal(k, x)
  {
    SameClass(hash, equal, k, k, k);
    forall x | x in m
      ensures !equal(k, x) && !equal(x, k)
    {
      if equal(x, k) { SameClass(hash, equal, x, k, k); }
    }
  }

  // ----- load -----

  /** The test of put, with 1.3 taken as 13/10. */
  predicate Overloaded(nelem: nat, size: nat) {
    10 * nelem > 13 * size
  }

  /** What every run keeps of the load: the table is never much fuller than the threshold, and the
      entries moved so far are paid for by the inserting puts so far. */
  ghost predicate Loaded(size0: nat, size: nat, nelem: nat, inserts: nat, moved: nat) {
    && size0 >= 1 && size >= size0
    && 10 * nelem <= 13 * size + 10
    && nelem <= inserts
    && if size == size0 then moved == 0
       else size >= 2 * size0 && 10 * moved + 13 * size0 <= 18 * size && 20 * inserts > 13 * size
  }

  lemma LoadBound(size0: nat, size: nat, nelem: nat, inserts: nat, moved: nat)
    requires Loaded(size0, size, nelem, inserts, moved)
    ensures moved <= 3 * inserts
    ensures 10 * (nelem - 1) <= 13 * size
  {
  }

  // ----- iteration -----

  lemma {:induction false} FlattenSplit<T>(bs: seq<seq<T>>, i: nat)
    requires i < |bs|
    ensures Flatten(bs) == Flatten(bs[..i]) + bs[i] + Flatten(bs[i + 1..])
  {
    var n := |bs| - 1;
    if i == n {
      assert Flatten(bs[i + 1..]) == [];
    } else {
      FlattenSplit(bs[..n], i);
      assert bs[..n][..i] == bs[..i];
      assert bs[i + 1..][..|bs[i + 1..]| - 1] == bs[..n][i + 1..];
    }
  }

  lemma {:induction false} FlattenSkip<T>(bs: seq<seq<T>>)
    requires forall i :: 0 <= i < |bs| ==> bs[i] == []
    ensures Flatten(bs) == []
  {
    if bs != [] { FlattenSkip(bs[..|bs| - 1]); }
  }

  /** The first entry of the first non-empty bucket from j on. */
  method FirstFrom<K, V>(tab: array<Entry?<K, V>>, j0: nat, ghost bs: seq<seq<Entry<K, V>>>,
                         ghost nodes: set<Entry<K, V>>)
    returns (p: Entry?<K, V>)
    requires Shape(tab, bs, nodes) && j0 <= tab.Length
    ensures p == At(Flatten(bs[j0..]), 0)
  {
    var j := j0;
    while j < tab.Length
      invariant j0 <= j <= tab.Length
      invariant forall i :: j0 <= i < j ==> bs[i] == []
    {
      assert Chain(tab[j], bs[j], nodes);
      if tab[j] != null {
        FlattenSplit(bs[j0..], j - j0);
        FlattenSkip(bs[j0..][..j - j0]);
        assert bs[j0..][j - j0] == bs[j];
        return tab[j];
      }
      j := j + 1;
    }
    FlattenSkip(bs[j0..]);
    p := null;
  }

  ghost predicate Distinct<T>(s: seq<T>) {
    forall j, k :: 0 <= j < k < |s| ==> s[j] != s[k]
  }

  ghost predicate SlotsBelow<K, V>(f: seq<Entry<K, V>>, n: nat, c: nat)
    requires n > 0
  {
    forall k :: 0 <= k < |f| ==> Slot(f[k].hash_key, n) < c
  }

  lemma AppendBucket<K, V>(g: seq<Entry<K, V>>, b: seq<Entry<K, V>>, n: nat, c: nat)
    requires n > 0 && Distinct(g) && SlotsBelow(g, n, c) && Distinct(b) && InSlot(b, c, n)
    ensures Distinct(g + b) && SlotsBelow(g + b, n, c + 1)
  {
    var f := g + b;
    forall k | 0 <= k < |f|
      ensures Slot(f[k].hash_key, n) < c + 1
    {
      if k < |g| { assert f[k] == g[k]; } else { assert f[k] == b[k - |g|]; }
    }
    forall j, k | 0 <= j < k < |f|
      ensures f[j] != f[k]
    {
      if k < |g| {
        assert g[j] != g[k];
      } else if j < |g| {
        assert Slot(g[j].hash_key, n) < c && Slot(b[k - |g|].hash_key, n) == c;
      } else {
        assert b[j - |g|] != b[k - |g|];
      }
    }
  }

  /** The bucket order lists every entry exactly once. */
  lemma {:induction false} FlattenDistinct<K, V>(bs: seq<seq<Entry<K, V>>>, n: nat, c: nat)
    requires n > 0 && c <= |bs|
    requires forall i {:trigger bs[i]} :: 0 <= i < |bs| ==> InSlot(bs[i], i, n) && Distinct(bs[i])
    ensures Distinct(Flatten(bs[..c])) && SlotsBelow(Flatten(bs[..c]), n, c)
    ensures forall i, k :: 0 <= i < c && 0 <= k < |bs[i]| ==> bs[i][k] in Flatten(bs[..c])
  {
    if c > 0 {
      FlattenDistinct(bs, n, c - 1);
      assert bs[..c][..c - 1] == bs[..c - 1];
      AppendBucket(Flatten(bs[..c - 1]), bs[c - 1], n, c - 1);
    }
  }

  /** The successor of an entry that stands at a known place of a sequence without repetition. */
  lemma Successor<K, V>(f: seq<Entry<K, V>>, a: seq<Entry<K, V>>, b: seq<Entry<K, V>>, c: seq<Entry<K, V>>,
                         at: nat, k: nat)
    requires f == a + b + c && Distinct(f)
    requires k < |b| && At(f, at) == b[k]
    ensures At(f, at + 1) == if k + 1 < |b| then b[k + 1] else At(c, 0)
  {
    assert f[|a| + k] == b[k];
    assert at == |a| + k;
  }

  lemma {:induction false} DistinctSize<T>(s: seq<T>, t: set<T>)
    requires Distinct(s)
    requires forall x :: x in t <==> x in s
    ensures |s| == |t|
  {
    if s == [] {
      assert t == {};
    } else {
      var n := |s| - 1;
      assert s == s[..n] + [s[n]];
      DistinctSize(s[..n], t - {s[n]});
    }
  }

  /** Unlinks entry p and forgets its key. */
  method RemoveEntry<K(!new), V>(tab: array<Entry?<K, V>>, p: Entry<K, V>,
                                 ghost w: View<K, V>, ghost hash: K -> nat, ghost equal: (K, K) -> bool)
    returns (ghost w': View<K, V>)
    requires Store(tab, w, hash, equal) && p in w.nodes
    modifies tab, w.nodes`prev, w.nodes`next
    ensures w'.nodes == w.nodes - {p} && |w'.index| == |w.index| - 1
    ensures Store(tab, w', hash, equal)
    ensures MapOf(w'.index, w'.nodes, hash) == old(MapOf(w.index, w.nodes, hash)) - {p.key}
  {
    ghost var i := Slot(p.hash_key, tab.Length);
    ghost var k :| 0 <= k < |w.buckets[i]| && w.buckets[i][k] == p;
    Unlink(tab, p, i, k, w.buckets, w.nodes);
    w' := View(w.buckets[i := Without(w.buckets[i], k)], w.nodes - {p}, w.index - {p.key});
    HomedRemoved(w.buckets, w.nodes, i, k);
    assert w.index == w'.index[p.key := p];
  }

  lemma HomedRemoved<K, V>(bs: seq<seq<Entry<K, V>>>, nodes: set<Entry<K, V>>, i: nat, k: nat)
    requires Homed(bs, nodes) && i < |bs| && k < |bs[i]|
    ensures Homed(bs[i := Without(bs[i], k)], nodes - {bs[i][k]})
  {
    forall e | e in nodes && e != bs[i][k]
      ensures e in bs[i := Without(bs[i], k)][Slot(e.hash_key, |bs|)]
    {
      var j :| 0 <= j < |bs[Slot(e.hash_key, |bs|)]| && bs[Slot(e.hash_key, |bs|)][j] == e;
      if Slot(e.hash_key, |bs|) == i {
        assert e == Without(bs[i], k)[if j < k then j else j - 1];
      }
    }
  }

  /** Bucket order is an enumeration of the entries without repetition. */
  lemma Enumeration<K(!new), V>(tab: array<Entry?<K, V>>, w: View<K, V>, hash: K -> nat, equal: (K, K) -> bool)
    requires Store(tab, w, hash, equal)
    ensures var f := Flatten(w.buckets);
            && Distinct(f) && |f| == |w.index|
            && (forall e :: e in w.nodes <==> e in f)
  {
    var f := Flatten(w.buckets);
    assert w.buckets[..|w.buckets|] == w.buckets;
    forall i {:trigger w.buckets[i]} | 0 <= i < |w.buckets|
      ensures InSlot(w.buckets[i], i, |w.buckets|) && Distinct(w.buckets[i])
    {
      assert Chain(tab[i], w.buckets[i], w.nodes);
    }
    FlattenDistinct(w.buckets, |w.buckets|, |w.buckets|);
    FlattenIn(w.buckets, w.nodes);
    forall e | e in w.nodes
      ensures e in f
    {
      var i := Slot(e.hash_key, |w.buckets|);
      var k :| 0 <= k < |w.buckets[i]| && w.buckets[i][k] == e;
    }
    DistinctSize(f, w.nodes);
    IndexSize(w.index, w.nodes, hash);
  }

  lemma {:induction false} FlattenIn<T>(bs: seq<seq<T>>, nodes: set<T>)
    requires forall i, k :: 0 <= i < |bs| && 0 <= k < |bs[i]| ==> bs[i][k] in nodes
    ensures forall k :: 0 <= k < |Flatten(bs)| ==> Flatten(bs)[k] in nodes
  {
    if bs != [] { FlattenIn(bs[..|bs| - 1], nodes); }
  }

  /** Every entry stands in the bucket that the hash of its key modulo the number of buckets picks. */
  lemma WhereHashed<K(!new), V>(tab: array<Entry?<K, V>>, w: View<K, V>, hash: K -> nat, equal: (K, K) -> bool)
    requires Store(tab, w, hash, equal)
    ensures forall i, k :: 0 <= i < |w.buckets| && 0 <= k < |w.buckets[i]| ==>
              hash(w.buckets[i][k].key) == w.buckets[i][k].hash_key && w.buckets[i][k].hash_key % tab.Length == i
  {
    forall i, k | 0 <= i < |w.buckets| && 0 <= k < |w.buckets[i]|
      ensures hash(w.buckets[i][k].key) == w.buckets[i][k].hash_key && w.buckets[i][k].hash_key % tab.Length == i
    {
      assert Chain(tab[i], w.buckets[i], w.nodes) && InSlot(w.buckets[i], i, tab.Length);
      assert w.buckets[i][k].key in w.index;
    }
  }

  /** e is the one entry whose key its own is equal to: the one get_entry returns for it. */
  ghost predicate OnlyFor<K, V>(nodes: set<Entry<K, V>>, equal: (K, K) -> bool, e: Entry<K, V>)
    reads nodes`key, {e}`key
  {
    e in nodes && forall p :: p in nodes && equal(e.key, p.key) ==> p == e
  }

  lemma OneForKey<K(!new), V>(tab: array<Entry?<K, V>>, w: View<K, V>, hash: K -> nat, equal: (K, K) -> bool)
    requires Store(tab, w, hash, equal)
    ensures forall e :: e in w.nodes ==> OnlyFor(w.nodes, equal, e)
  {
    forall e, p | e in w.nodes && p in w.nodes && equal(e.key, p.key)
      ensures p == e
    {
      assert e.key in w.index && p.key in w.index;
    }
  }

  /** Where an entry stands in its bucket, and what comes after it in bucket order. */
  lemma NextInOrder<K(!new), V>(tab: array<Entry?<K, V>>, w: View<K, V>, hash: K -> nat, equal: (K, K) -> bool,
                                e: Entry<K, V>, at: nat)
    returns (k: nat)
    requires Store(tab, w, hash, equal) && At(Flatten(w.buckets), at) == e
    ensures var i := Slot(e.hash_key, |w.buckets|);
            && k < |w.buckets[i]| && w.buckets[i][k] == e
            && At(Flatten(w.buckets), at + 1)
            == if k + 1 < |w.buckets[i]| then w.buckets[i][k + 1] else At(Flatten(w.buckets[i + 1..]), 0)
  {
    Enumeration(tab, w, hash, equal);
    assert e in w.nodes;
    var i := Slot(e.hash_key, |w.buckets|);
    k :| 0 <= k < |w.buckets[i]| && w.buckets[i][k] == e;
    FlattenSplit(w.buckets, i);
    Successor(Flatten(w.buckets), Flatten(w.buckets[..i]), w.buckets[i], Flatten(w.buckets[i + 1..]), at, k);
  }

  lemma {:induction false} IndexSize<K, V>(index: map<K, Entry<K, V>>, nodes: set<Entry<K, V>>, hash: K -> nat)
    requires Indexed(index, nodes, hash)
    ensures |index| == |nodes|
    decreases nodes
  {
    if nodes == {} {
      assert forall k :: k in index ==> index[k] in nodes;
      assert index == map[];
    } else {
      var e :| e in nodes;
      assert e.key in index;
      IndexSize(index - {e.key}, nodes - {e}, hash);
      assert index == (index - {e.key})[e.key := e];
    }
  }

  datatype Load = Load(size0: nat, inserts: nat, moved: nat)

  class Table<K(!new, ==), V> {
    const hash: K -> nat
    const equal: (K, K) -> bool
    const has_key_del: bool    // key_del is not NULL
    const has_value_del: bool  // value_del is not NULL

    var tab: array<Entry?<K, V>>
    var nelem: nat

    var key_dels: seq<K>       // the arguments of the calls to key_del, in order
    var value_dels: seq<V>

    ghost var w: View<K, V>
    ghost var load: Load       // initial size, inserting puts and entries moved by rehashes so far

    ghost predicate Valid()
      reads this, tab, w.nodes
    {
      && Store(tab, w, hash, equal)
      && nelem == |w.index|
      && Loaded(load.size0, tab.Length, nelem, load.inserts, load.moved)
    }

    /** The abstract value: the finite map the table holds. */
    ghost function Model(): (m: map<K, V>)
      reads this, w.nodes
      requires Indexed(w.index, w.nodes, hash)
      ensures m.Keys == w.index.Keys
    {
      MapOf(w.index, w.nodes, hash)
    }

    constructor (a_size: nat, hash: K -> nat, equal: (K, K) -> bool, has_key_del: bool, has_value_del: bool)
      requires a_size > 0  // every lookup divides by tab_size
      requires Lawful(hash, equal)
      ensures Valid() && fresh(tab) && w.nodes == {} && Model() == map[]
      ensures this.hash == hash && this.equal == equal
      ensures this.has_key_del == has_key_del && this.has_value_del == has_value_del
      ensures key_dels == [] && value_dels == [] && load == Load(a_size, 0, 0)
      ensures tab.Length == a_size
    {
      tab := new Entry?<K, V>[a_size](_ => null);
      nelem := 0;
      this.hash, this.equal := hash, equal;
      this.has_key_del, this.has_value_del := has_key_del, has_value_del;
      key_dels, value_dels := [], [];
      w, load := View(seq(a_size, _ => []), {}, map[]), Load(a_size, 0, 0);
    }

    /** The field updates that end an operation, once the entries are linked as w' says. */
    method Install(tab': array<Entry?<K, V>>, n: nat, ghost w': View<K, V>, ghost load': Load)
      requires Store(tab', w', hash, equal) && n == |w'.index|
      requires Loaded(load'.size0, tab'.Length, n, load'.inserts, load'.moved)
      modifies this`tab, this`nelem, this`w, this`load
      ensures Valid() && tab == tab' && nelem == n && w == w' && load == load'
      ensures Model() == old(MapOf(w'.index, w'.nodes, hash))
    {
      tab := tab';
      nelem := n;
      w, load := w', load';
      assert Store(tab, w, hash, equal);
    }

    /** The bucket walk that get_entry, get, put and remove share. */
    method GetEntry(a_key: K) returns (p: Entry?<K, V>)
      requires Valid()
      ensures p == null <==> !Has(Model(), equal, a_key)
      ensures p != null ==> p in w.nodes && equal(a_key, p.key) && p == w.index[p.key]
    {
      var i := Slot(hash(a_key), tab.Length);
      ghost var b, k := w.buckets[i], 0;
      assert Chain(tab[i], b, w.nodes);
      p := tab[i];
      while p != null
        invariant 0 <= k <= |b| && p == At(b, k)
        invariant forall m :: 0 <= m < k ==> !equal(a_key, b[m].key)
        decreases |b| - k
      {
        if equal(a_key, p.key) {
          return p;
        }
        p := p.next;
        k := k + 1;
      }
      forall x | x in w.index && equal(a_key, x)
        ensures w.index[x] in b
      {
        SameClass(hash, equal, a_key, x, x);
      }
    }

    method Get(a_key: K) returns (r: Option<V>)
      requires Valid()
      ensures r == if Has(Model(), equal, a_key) then Some(Model()[Stored(Model(), equal, a_key)]) else None
    {
      var p := GetEntry(a_key);
      if p == null {
        return None;
      }
      ghost var k := Stored(Model(), equal, a_key);
      SameClass(hash, equal, a_key, p.key, k);
      r := Some(p.value);
    }

    method Rehash(alloc_ok: bool) returns (rc: int)
      requires Valid() && Overloaded(nelem, tab.Length)
      modifies this`tab, this`nelem, this`w, this`load, w.nodes`prev, w.nodes`next
      ensures Valid() && Model() == old(Model()) && nelem == old(nelem)
      ensures rc == if alloc_ok then 0 else -1
      ensures rc != 0 ==> w == old(w) && load == old(load) && tab == old(tab)
      ensures rc == 0 ==> w == old(w).(buckets := Rehashed(old(w.buckets))) && fresh(tab)
      ensures rc == 0 ==> load == old(load).(moved := old(load.moved) + nelem) && tab.Length == 2 * old(tab.Length)
    {
      if !alloc_ok {
        return -1;
      }
      var tab2;
      ghost var nb;
      tab2, nb := MoveAll(tab, w.buckets, w.nodes);
      Install(tab2, nelem, w.(buckets := nb), load.(moved := load.moved + nelem));
      rc := 0;
    }

    /** The calls to key_del and value_del made before the entry for a_key is dropped. */
    method Release(p: Entry<K, V>, ghost a_key: K)
      requires Valid() && p in w.nodes && equal(a_key, p.key)
      modifies this`key_dels, this`value_dels
      ensures Valid() && Model() == old(Model())
      ensures key_dels == old(key_dels) + KeyDels(Model(), equal, a_key, has_key_del)
      ensures value_dels == old(value_dels) + ValueDels(Model(), equal, a_key, has_value_del)
    {
      assert p.key in w.index;
      SeparateReplaced(w.index, hash, equal, p.key, a_key, p);
      assert Has(Model(), equal, a_key) && Stored(Model(), equal, a_key) == p.key;
      if has_key_del {
        key_dels := key_dels + [p.key];
      }
      if has_value_del {
        value_dels := value_dels + [p.value];
      }
    }

    method Overwrite(p: Entry<K, V>, a_key: K, a_value: V)
      requires Valid() && p in w.nodes && equal(a_key, p.key)
      modifies this`key_dels, this`value_dels, this`tab, this`nelem, this`w, this`load, p`key, p`value
      ensures Valid() && w.buckets == old(w.buckets) && w.nodes == old(w.nodes)
      ensures tab == old(tab) && nelem == old(nelem) && load == old(load) && Has(old(Model()), equal, a_key)
      ensures Model() == PutKey(old(Model()), equal, a_key, a_value)
      ensures key_dels == old(key_dels) + KeyDels(old(Model()), equal, a_key, has_key_del)
      ensures value_dels == old(value_dels) + ValueDels(old(Model()), equal, a_key, has_value_del)
    {
      Release(p, a_key);
      ghost var w' := ReplaceEntry(tab, p, a_key, a_value, w, hash, equal);
      Install(tab, nelem, w', load);
    }

    /** The allocation and head insertion of a new entry. */
    method Insert(a_key: K, a_value: V)
      requires Valid() && !Has(Model(), equal, a_key) && !Overloaded(nelem, tab.Length)
      modifies this`tab, this`nelem, this`w, this`load, tab, w.nodes`prev
      ensures Valid() && fresh(w.nodes - old(w.nodes)) && tab == old(tab)
      ensures Model() == PutKey(old(Model()), equal, a_key, a_value)
      ensures nelem == old(nelem) + 1 && load == old(load).(inserts := old(load.inserts) + 1)
    {
      assert Loaded(load.size0, tab.Length, nelem + 1, load.inserts + 1, load.moved);
      ghost var w';
      var p;
      p, w' := AddEntry(tab, a_key, a_value, hash, w, equal);
      Install(tab, nelem + 1, w', load.(inserts := load.inserts + 1));
    }

    method Begin() returns (p: Entry?<K, V>)
      requires Valid()
      ensures p == At(Flatten(w.buckets), 0)
    {
      p := FirstFrom(tab, 0, w.buckets, w.nodes);
      assert w.buckets[0..] == w.buckets;
    }

    method Next(a_entry: Entry<K, V>, ghost at: nat) returns (p: Entry?<K, V>)
      requires Valid() && At(Flatten(w.buckets), at) == a_entry
      ensures p == At(Flatten(w.buckets), at + 1)
    {
      var i := Slot(a_entry.hash_key, tab.Length);
      ghost var k := NextInOrder(tab, w, hash, equal, a_entry, at);
      assert Chain(tab[i], w.buckets[i], w.nodes);
      if a_entry.next != null {
        return a_entry.next;
      }
      p := FirstFrom(tab, i + 1, w.buckets, w.nodes);
    }

    /** zc_hashtable_foreach, recording what it visits. */
    method ForEach() returns (visited: seq<Entry<K, V>>)
      requires Valid()
      ensures visited == Flatten(w.buckets) && |visited| == nelem
      ensures Distinct(visited) && forall e :: e in w.nodes <==> e in visited
      ensures forall e :: e in visited ==> OnlyFor(w.nodes, equal, e)
    {
      visited := [];
      var p := Begin();
      ghost var f := Flatten(w.buckets);
      while p != null
        invariant Valid() && w == old(w)
        invariant |visited| <= |f| && visited == f[..|visited|]
        invariant p == At(f, |visited|)
        decreases |f| - |visited|
      {
        ghost var n := |visited|;
        visited := visited + [p];
        assert visited == f[..n + 1];
        p := Next(p, n);
      }
      assert visited == f;
      Enumeration(tab, w, hash, equal);
      OneForKey(tab, w, hash, equal);
    }

    /** The inner loop of clean and del: the deleters run along one chain. */
    method ReleaseChain(head: Entry?<K, V>, ghost b: seq<Entry<K, V>>, ghost nodes: set<Entry<K, V>>,
                        ghost ks: seq<K>, ghost vs: seq<V>)
      requires Chain(head, b, nodes)
      requires Lists(b, ks, vs)
      modifies this`key_dels, this`value_dels
      ensures key_dels == old(key_dels) + if has_key_del then ks else []
      ensures value_dels == old(value_dels) + if has_value_del then vs else []
    {
      var p := head;
      ghost var k := 0;
      while p != null
        invariant 0 <= k <= |b| && p == At(b, k)
        invariant key_dels == old(key_dels) + if has_key_del then ks[..k] else []
        invariant value_dels == old(value_dels) + if has_value_del then vs[..k] else []
        decreases |b| - k
      {
        var q := p.next;
        if has_key_del {
          key_dels := key_dels + [p.key];
        }
        if has_value_del {
          value_dels := value_dels + [p.value];
        }
        p := q;
        k := k + 1;
      }
    }

    /** The deleters have run along buckets 0..i, in bucket order; ks and vs list all keys and values. */
    ghost predicate Released(i: nat, bs: seq<seq<Entry<K, V>>>, key_dels0: seq<K>, value_dels0: seq<V>,
                             ks: seq<K>, vs: seq<V>)
      reads this`key_dels, this`value_dels
    {
      && i <= |bs| && |ks| == |vs| == |Flatten(bs)|
      && var m := |Flatten(bs[..i])|;
      && m <= |ks|
      && key_dels == key_dels0 + (if has_key_del then ks[..m] else [])
      && value_dels == value_dels0 + (if has_value_del then vs[..m] else [])
    }

    lemma ReleasedNone(bs: seq<seq<Entry<K, V>>>, key_dels0: seq<K>, value_dels0: seq<V>, ks: seq<K>, vs: seq<V>)
      requires |ks| == |vs| == |Flatten(bs)| && key_dels == key_dels0 && value_dels == value_dels0
      ensures Released(0, bs, key_dels0, value_dels0, ks, vs)
    {
      assert key_dels0 + [] == key_dels0 && value_dels0 + [] == value_dels0;
    }

    lemma ReleasedAll(bs: seq<seq<Entry<K, V>>>, key_dels0: seq<K>, value_dels0: seq<V>, ks: seq<K>, vs: seq<V>)
      requires Released(|bs|, bs, key_dels0, value_dels0, ks, vs)
      ensures key_dels == key_dels0 + if has_key_del then ks else []
      ensures value_dels == value_dels0 + if has_value_del then vs else []
    {
      assert bs[..|bs|] == bs;
      assert ks[..|ks|] == ks && vs[..|vs|] == vs;
    }

    method ReleaseBucket(i: nat, ghost bs: seq<seq<Entry<K, V>>>, ghost nodes: set<Entry<K, V>>,
                         ghost f: seq<Entry<K, V>>,
                         ghost key_dels0: seq<K>, ghost value_dels0: seq<V>, ghost ks: seq<K>, ghost vs: seq<V>)
      requires i < tab.Length && Unmoved(tab, bs, nodes, i) && f == Flatten(bs)
      requires Lists(f, ks, vs) && Released(i, bs, key_dels0, value_dels0, ks, vs)
      modifies this`key_dels, this`value_dels
      ensures Unmoved(tab, bs, nodes, i)
      ensures Lists(f, ks, vs) && Released(i + 1, bs, key_dels0, value_dels0, ks, vs)
    {
      ghost var m, n := |Flatten(bs[..i])|, |bs[i]|;
      FlattenSplit(bs, i);
      assert bs[..i + 1][..i] == bs[..i];
      ListsSlice(f, ks, vs, Flatten(bs[..i]), bs[i], Flatten(bs[i + 1..]));
      ReleaseChain(tab[i], bs[i], nodes, ks[m..m + n], vs[m..m + n]);
      TakeMore(key_dels0, ks, m, n);
      TakeMore(value_dels0, vs, m, n);
    }

    method DropBucket(i: nat, ghost bs: seq<seq<Entry<K, V>>>, ghost nodes: set<Entry<K, V>>, ghost f: seq<Entry<K, V>>,
                      ghost key_dels0: seq<K>, ghost value_dels0: seq<V>, ghost ks: seq<K>, ghost vs: seq<V>)
      requires i < tab.Length && Unmoved(tab, bs, nodes, i)
      requires Lists(f, ks, vs) && Released(i + 1, bs, key_dels0, value_dels0, ks, vs)
      modifies tab
      ensures Unmoved(tab, bs, nodes, i + 1)
      ensures forall r :: 0 <= r < tab.Length ==> tab[r] == if r == i then null else old(tab[r])
      ensures Lists(f, ks, vs) && Released(i + 1, bs, key_dels0, value_dels0, ks, vs)
    {
      tab[i] := null;
    }

    method EmptyBucket(i: nat, ghost bs: seq<seq<Entry<K, V>>>, ghost nodes: set<Entry<K, V>>,
                       ghost f: seq<Entry<K, V>>,
                       ghost key_dels0: seq<K>, ghost value_dels0: seq<V>, ghost ks: seq<K>, ghost vs: seq<V>)
      requires i < tab.Length && Unmoved(tab, bs, nodes, i) && f == Flatten(bs)
      requires Lists(f, ks, vs) && Released(i, bs, key_dels0, value_dels0, ks, vs)
      modifies this`key_dels, this`value_dels, tab
      ensures Unmoved(tab, bs, nodes, i + 1)
      ensures forall r :: 0 <= r < tab.Length ==> tab[r] == if r == i then null else old(tab[r])
      ensures Lists(f, ks, vs) && Released(i + 1, bs, key_dels0, value_dels0, ks, vs)
    {
      ReleaseBucket(i, bs, nodes, f, key_dels0, value_dels0, ks, vs);
      DropBucket(i, bs, nodes, f, key_dels0, value_dels0, ks, vs);
    }

    /** The loops of clean. */
    method EmptyBuckets()
      requires Valid()
      modifies this`key_dels, this`value_dels, tab
      ensures forall r :: 0 <= r < tab.Length ==> tab[r] == null
      ensures key_dels == old(key_dels) + if has_key_del then old(Keys(Flatten(w.buckets))) else []
      ensures value_dels == old(value_dels) + if has_value_del then old(Values(Flatten(w.buckets))) else []
    {
      ghost var bs, nodes, f, kd, vd := w.buckets, w.nodes, Flatten(w.buckets), key_dels, value_dels;
      ghost var ks, vs := Keys(f), Values(f);
      ReleasedNone(bs, kd, vd, ks, vs);
      for i := 0 to tab.Length
        invariant Unmoved(tab, bs, nodes, i)
        invariant forall r :: 0 <= r < i ==> tab[r] == null
        invariant Lists(f, ks, vs) && Released(i, bs, kd, vd, ks, vs)
      {
        EmptyBucket(i, bs, nodes, f, kd, vd, ks, vs);
      }
      ReleasedAll(bs, kd, vd, ks, vs);
    }

    method Clean()
      requires Valid()
      modifies this`key_dels, this`value_dels, this`nelem, this`w, tab
      ensures Valid() && w.nodes == {} && Model() == map[] && nelem == 0
      ensures key_dels == old(key_dels) + if has_key_del then old(Keys(Flatten(w.buckets))) else []
      ensures value_dels == old(value_dels) + if has_value_del then old(Values(Flatten(w.buckets))) else []
    {
      EmptyBuckets();
      Reset();
    }

    /** The end of clean, when every bucket is empty. */
    method Reset()
      requires tab.Length > 0 && forall r :: 0 <= r < tab.Length ==> tab[r] == null
      requires Lawful(hash, equal) && Loaded(load.size0, tab.Length, nelem, load.inserts, load.moved)
      modifies this`nelem, this`w
      ensures Valid() && w.nodes == {} && Model() == map[] && nelem == 0
    {
      w := View(seq(tab.Length, _ => []), {}, map[]);
      nelem := 0;
    }

    /** del: the deleters run, and the table is not used again. */
    method Del()
      requires Valid()
      modifies this`key_dels, this`value_dels
      ensures key_dels == old(key_dels) + if has_key_del then old(Keys(Flatten(w.buckets))) else []
      ensures value_dels == old(value_dels) + if has_value_del then old(Values(Flatten(w.buckets))) else []
    {
      ghost var bs, nodes, f, kd, vd := w.buckets, w.nodes, Flatten(w.buckets), key_dels, value_dels;
      ghost var ks, vs := Keys(f), Values(f);
      ReleasedNone(bs, kd, vd, ks, vs);
      for i := 0 to tab.Length
        invariant Unmoved(tab, bs, nodes, i)
        invariant Lists(f, ks, vs) && Released(i, bs, kd, vd, ks, vs)
      {
        ReleaseBucket(i, bs, nodes, f, kd, vd, ks, vs);
      }
      ReleasedAll(bs, kd, vd, ks, vs);
    }

    /** put for a key that is not there, but for what the deleters are not called with. */
    method PutNew(a_key: K, a_value: V, alloc_tab: bool, alloc_entry: bool) returns (rc: int)
      requires Valid() && !Has(Model(), equal, a_key)
      modifies this`tab, this`nelem, this`w, this`load, tab, w.nodes`prev, w.nodes`next
      ensures Valid() && fresh(w.nodes - old(w.nodes)) && (tab == old(tab) || fresh(tab))
      ensures rc == if (Overloaded(old(nelem), old(tab.Length)) && !alloc_tab) || !alloc_entry then -1 else 0
      ensures Model() == if rc == 0 then PutKey(old(Model()), equal, a_key, a_value) else old(Model())
      ensures load.inserts == old(load.inserts) + if rc == 0 then 1 else 0
      ensures load.moved == old(load.moved) +
              if Overloaded(old(nelem), old(tab.Length)) && alloc_tab then old(nelem) else 0
      ensures tab.Length == old(tab.Length) * if Overloaded(old(nelem), old(tab.Length)) && alloc_tab then 2 else 1
    {
      if Overloaded(nelem, tab.Length) {
        rc := Rehash(alloc_tab);
        if rc != 0 {
          return -1;
        }
      }
      if !alloc_entry {
        return -1;
      }
      Insert(a_key, a_value);
      rc := 0;
    }

    method PutMissing(a_key: K, a_value: V, alloc_tab: bool, alloc_entry: bool) returns (rc: int)
      requires Valid() && !Has(Model(), equal, a_key)
      modifies this`tab, this`nelem, this`w, this`load, tab, w.nodes`prev, w.nodes`next
      ensures Valid() && fresh(w.nodes - old(w.nodes)) && (tab == old(tab) || fresh(tab))
      ensures rc == if (Overloaded(old(nelem), old(tab.Length)) && !alloc_tab) || !alloc_entry then -1 else 0
      ensures Model() == if rc == 0 then PutKey(old(Model()), equal, a_key, a_value) else old(Model())
      ensures load.inserts == old(load.inserts) + if rc == 0 then 1 else 0
      ensures load.moved == old(load.moved) +
              if Overloaded(old(nelem), old(tab.Length)) && alloc_tab then old(nelem) else 0
      ensures tab.Length == old(tab.Length) * if Overloaded(old(nelem), old(tab.Length)) && alloc_tab then 2 else 1
      ensures key_dels == old(key_dels) + KeyDels(old(Model()), equal, a_key, has_key_del)
      ensures value_dels == old(value_dels) + ValueDels(old(Model()), equal, a_key, has_value_del)
    {
      Absent(Model(), equal, a_key, has_key_del, has_value_del);
      rc := PutNew(a_key, a_value, alloc_tab, alloc_entry);
    }

    method Put(a_key: K, a_value: V, alloc_tab: bool, alloc_entry: bool) returns (rc: int)
      requires Valid()
      modifies this, tab, w.nodes
      ensures Valid() && fresh(w.nodes - old(w.nodes)) && (tab == old(tab) || fresh(tab))
      ensures rc == if !Has(old(Model()), equal, a_key)
                       && ((10 * old(nelem) > 13 * old(tab.Length) && !alloc_tab) || !alloc_entry) then -1 else 0
      ensures Model() == if rc == 0 then PutKey(old(Model()), equal, a_key, a_value) else old(Model())
      ensures key_dels == old(key_dels) + KeyDels(old(Model()), equal, a_key, has_key_del)
      ensures value_dels == old(value_dels) + ValueDels(old(Model()), equal, a_key, has_value_del)
      ensures load.inserts == old(load.inserts) + if rc == 0 && !Has(old(Model()), equal, a_key) then 1 else 0
      ensures load.moved == old(load.moved) +
              if !Has(old(Model()), equal, a_key) && Overloaded(old(nelem), old(tab.Length)) && alloc_tab
              then old(nelem) else 0
      ensures tab.Length == old(tab.Length) *
              if !Has(old(Model()), equal, a_key) && 10 * old(nelem) > 13 * old(tab.Length) && alloc_tab then 2 else 1
      ensures rc == 0 ==> a_key in Model() && Model()[a_key] == a_value
    {
      ghost var m := Model();
      var p := GetEntry(a_key);
      assert Model() == m;
      if p != null {
        Overwrite(p, a_key, a_value);
        rc := 0;
      } else {
        rc := PutMissing(a_key, a_value, alloc_tab, alloc_entry);
      }
    }

    /** The part of remove after the entry has been found. */
    method Discard(p: Entry<K, V>)
      requires Valid() && p in w.nodes
      modifies this`tab, this`nelem, this`w, this`load, tab, w.nodes`prev, w.nodes`next
      ensures Valid() && w.nodes == old(w.nodes) - {p}
      ensures tab == old(tab) && nelem == old(nelem) - 1 && load == old(load)
      ensures Model() == old(Model()) - {p.key}
    {
      ghost var w' := RemoveEntry(tab, p, w, hash, equal);
      Install(tab, nelem - 1, w', load);
    }

    /** With the calls to the deleters. */
    method Drop(p: Entry<K, V>, ghost a_key: K)
      requires Valid() && p in w.nodes && equal(a_key, p.key)
      modifies this`key_dels, this`value_dels, this`tab, this`nelem, this`w, this`load, tab, w.nodes`prev, w.nodes`next
      ensures Valid() && w.nodes == old(w.nodes) - {p} && tab == old(tab) && load == old(load)
      ensures Model() == RemoveKey(old(Model()), equal, a_key)
      ensures key_dels == old(key_dels) + KeyDels(old(Model()), equal, a_key, has_key_del)
      ensures value_dels == old(value_dels) + ValueDels(old(Model()), equal, a_key, has_value_del)
    {
      RemoveFound(Model(), hash, equal, p.key, a_key);
      Release(p, a_key);
      Discard(p);
    }

    method Remove(a_key: Option<K>)
      requires Valid()
      modifies this`key_dels, this`value_dels, this`tab, this`nelem, this`w, this`load, tab, w.nodes`prev, w.nodes`next
      ensures Valid() && w.nodes <= old(w.nodes) && tab == old(tab) && load == old(load)
      ensures a_key == None ==> Model() == old(Model()) && key_dels == old(key_dels) && value_dels == old(value_dels)
      ensures a_key.Some? ==>
        && Model() == RemoveKey(old(Model()), equal, a_key.value)
        && key_dels == old(key_dels) + KeyDels(old(Model()), equal, a_key.value, has_key_del)
        && value_dels == old(value_dels) + ValueDels(old(Model()), equal, a_key.value, has_value_del)
    {
      if a_key == None {
        return;
      }
      var p := GetEntry(a_key.value);
      if p == null {
        Absent(Model(), equal, a_key.value, has_key_del, has_value_del);
        assert key_dels + [] == key_dels && value_dels + [] == value_dels;
      } else {
        Drop(p, a_key.value);
      }
    }
  }
}
