/** The bytecode dispatch table (tsm_ccb.c). */
module Dispatch {
  import opened Wrappers

  /** A bytecode function; Reserve is tsm_reserve. */
  datatype Handler = Reserve | Function(name: string)

  /** A bytecode set: its functions serve the codes from base on. */
  datatype CodeSet = CodeSet(base: nat, bc: seq<Handler>)

  const BYTE_CODE_DEFAULT_SIZE := 512

  /** The 1.5x growth of the loop in ccb_add_bc. */
  function Grow(cnt: nat, need: nat): (r: nat)
    requires cnt >= 2
    ensures r >= cnt && r >= need
    decreases need - cnt
  {
    if need > cnt then Grow(cnt + cnt / 2, need) else cnt
  }

  /** The sizes that growth by half goes through, of which the last is the first to be enough. */
  lemma {:induction false} GrowSteps(cnt: nat, need: nat) returns (sizes: seq<nat>)
    requires cnt >= 2
    ensures |sizes| > 0 && sizes[0] == cnt && sizes[|sizes| - 1] == Grow(cnt, need)
    ensures forall k :: 0 < k < |sizes| ==> sizes[k] == sizes[k - 1] + sizes[k - 1] / 2
    ensures forall k :: 0 <= k < |sizes| - 1 ==> sizes[k] < need
    ensures sizes[|sizes| - 1] >= need
    decreases need - cnt
  {
    if need > cnt {
      var rest := GrowSteps(cnt + cnt / 2, need);
      sizes := [cnt] + rest;
    } else {
      sizes := [cnt];
    }
  }

  /** A table that had to grow is less than half as large again as it need be. */
  lemma {:induction false} GrowTight(cnt: nat, need: nat)
    requires cnt >= 2
    ensures if need > cnt then 2 * Grow(cnt, need) < 3 * need else Grow(cnt, need) == cnt
    decreases need - cnt
  {
    if need > cnt { GrowTight(cnt + cnt / 2, need); }
  }

  /** The table after a set has been added: grown, the rest left to Reserve, the set laid over. */
  function Added(t: seq<Handler>, s: CodeSet): (r: seq<Handler>)
    requires |t| >= 2
    ensures |r| == Grow(|t|, s.base + |s.bc|)
  {
    seq(Grow(|t|, s.base + |s.bc|), c requires 0 <= c =>
      if s.base <= c < s.base + |s.bc| then s.bc[c - s.base] else if c < |t| then t[c] else Reserve)
  }

  class ByteCode {
    var cnt: nat
    var bc: array<Handler>

    ghost predicate Valid()
      reads this
    {
      cnt == bc.Length >= 2
    }

    /** ccb_alloc_bc */
    constructor AllocBc()
      ensures Valid() && fresh(bc) && cnt == 512 && forall c :: 0 <= c < 512 ==> bc[c] == Reserve
      ensures bc[..] == LoadAll([])
    {
      cnt := BYTE_CODE_DEFAULT_SIZE;
      bc := new Handler[BYTE_CODE_DEFAULT_SIZE](_ => Reserve);
    }

    /** ccb_add_bc, copying the set to where its codes are. */
    method AddBc(bcs: CodeSet)
      requires Valid()
      modifies this
      ensures Valid() && fresh(bc) && bc[..] == Added(old(bc[..]), bcs)
      ensures if bcs.base + |bcs.bc| > old(cnt) then bcs.base + |bcs.bc| <= cnt && 2 * cnt < 3 * (bcs.base + |bcs.bc|)
              else cnt == old(cnt)
      ensures forall c :: 0 <= c < cnt ==>
                bc[c] == if bcs.base <= c < bcs.base + |bcs.bc| then bcs.bc[c - bcs.base]
                         else if c < old(cnt) then old(bc[..])[c] else Reserve
    {
      var n, m, t := cnt, cnt, bc[..];
      GrowTight(cnt, bcs.base + |bcs.bc|);
      while bcs.base + |bcs.bc| > n
        invariant n >= m && Grow(n, bcs.base + |bcs.bc|) == Grow(m, bcs.base + |bcs.bc|)
        decreases bcs.base + |bcs.bc| - n
      {
        n := n + n / 2;
      }
      var p := new Handler[n](_ => Reserve);
      for c := 0 to m
        invariant forall k :: 0 <= k < n ==> p[k] == if k < c then t[k] else Reserve
      {
        p[c] := t[c];
      }
      for c := 0 to |bcs.bc|
        invariant forall k :: 0 <= k < n ==>
                    p[k] == if bcs.base <= k < bcs.base + c then bcs.bc[k - bcs.base]
                            else if k < m then t[k] else Reserve
      {
        p[bcs.base + c] := bcs.bc[c];
      }
      bc := p;
      cnt := n;
    }
  }

  // ----- any order of loading -----

  function LoadAll(sets: seq<CodeSet>): (t: seq<Handler>)
    ensures |t| >= 2
  {
    if sets == [] then seq(BYTE_CODE_DEFAULT_SIZE, _ => Reserve)
    else Added(LoadAll(sets[..|sets| - 1]), sets[|sets| - 1])
  }

  function Need(s: CodeSet): nat {
    s.base + |s.bc|
  }

  predicate Serves(s: CodeSet, c: nat) {
    s.base <= c < s.base + |s.bc|
  }

  ghost predicate Disjoint(sets: seq<CodeSet>) {
    forall i, j, c: nat :: 0 <= i < j < |sets| && Serves(sets[i], c) ==> !Serves(sets[j], c)
  }

  function MaxNeed(sets: seq<CodeSet>): nat {
    if sets == [] then 0
    else
      var m, n := MaxNeed(sets[..|sets| - 1]), Need(sets[|sets| - 1]);
      if m < n then n else m
  }

  /** Growing in two steps is growing at once to the larger need. */
  lemma {:induction false} GrowTwice(cnt: nat, a: nat, b: nat)
    requires cnt >= 2
    ensures Grow(Grow(cnt, a), b) == Grow(cnt, if a < b then b else a)
    decreases a - cnt
  {
    if a > cnt { GrowTwice(cnt + cnt / 2, a, b); }
  }

  lemma {:induction false} LoadedSize(sets: seq<CodeSet>)
    ensures |LoadAll(sets)| == Grow(BYTE_CODE_DEFAULT_SIZE, MaxNeed(sets))
  {
    if sets != [] {
      var n := |sets| - 1;
      LoadedSize(sets[..n]);
      GrowTwice(BYTE_CODE_DEFAULT_SIZE, MaxNeed(sets[..n]), Need(sets[n]));
    }
  }

  /** A code goes to the set that serves it, or to Reserve. */
  lemma {:induction false} LoadedCode(sets: seq<CodeSet>, c: nat)
    requires Disjoint(sets) && c < |LoadAll(sets)|
    ensures forall i :: 0 <= i < |sets| && Serves(sets[i], c) ==> LoadAll(sets)[c] == sets[i].bc[c - sets[i].base]
    ensures (forall i :: 0 <= i < |sets| ==> !Serves(sets[i], c)) ==> LoadAll(sets)[c] == Reserve
  {
    if sets != [] {
      var n := |sets| - 1;
      var t := LoadAll(sets[..n]);
      if c < |t| {
        LoadedCode(sets[..n], c);
      }
      forall i | 0 <= i < |sets| && Serves(sets[i], c)
        ensures LoadAll(sets)[c] == sets[i].bc[c - sets[i].base]
      {
        if i < n {
          ServedInside(sets[..n], i, c);
          assert sets[..n][i] == sets[i];
        }
      }
    }
  }

  lemma {:induction false} ServedInside(sets: seq<CodeSet>, i: nat, c: nat)
    requires i < |sets| && Serves(sets[i], c)
    ensures c < |LoadAll(sets)|
  {
    if i < |sets| - 1 { ServedInside(sets[..|sets| - 1], i, c); }
  }

  lemma {:induction false} MaxNeedBounds(sets: seq<CodeSet>)
    ensures forall s :: s in sets ==> Need(s) <= MaxNeed(sets)
    ensures sets != [] ==> exists s :: s in sets && Need(s) == MaxNeed(sets)
  {
    if sets != [] {
      var n := |sets| - 1;
      MaxNeedBounds(sets[..n]);
      assert sets == sets[..n] + [sets[n]];
      if sets[..n] == [] || Need(sets[n]) >= MaxNeed(sets[..n]) {
        assert sets[n] in sets;
      } else {
        var s :| s in sets[..n] && Need(s) == MaxNeed(sets[..n]);
        assert s in sets;
      }
    }
  }

  /** The sizes a whole load goes through: each is half as large again as the one before, starting from 512,
      the last is the first that has room for every set, and it is what the load leaves. */
  lemma LoadedSteps(sets: seq<CodeSet>) returns (sizes: seq<nat>)
    ensures |sizes| > 0 && sizes[0] == 512 && sizes[|sizes| - 1] == |LoadAll(sets)|
    ensures forall k :: 0 < k < |sizes| ==> sizes[k] == sizes[k - 1] + sizes[k - 1] / 2
    ensures forall s :: s in sets ==> s.base + |s.bc| <= |LoadAll(sets)|
    ensures forall k :: 0 <= k < |sizes| - 1 ==> exists s :: s in sets && s.base + |s.bc| > sizes[k]
    ensures |LoadAll(sets)| == 512 || exists s :: s in sets && 2 * |LoadAll(sets)| < 3 * (s.base + |s.bc|)
  {
    LoadedSize(sets);
    MaxNeedBounds(sets);
    sizes := GrowSteps(BYTE_CODE_DEFAULT_SIZE, MaxNeed(sets));
    GrowTight(BYTE_CODE_DEFAULT_SIZE, MaxNeed(sets));
    if MaxNeed(sets) > BYTE_CODE_DEFAULT_SIZE {
      var s :| s in sets && Need(s) == MaxNeed(sets);
      forall k | 0 <= k < |sizes| - 1
        ensures exists s :: s in sets && s.base + |s.bc| > sizes[k]
      {
        assert s.base + |s.bc| > sizes[k];
      }
    }
  }

  /** The sets loaded one after the other into a fresh table. */
  method LoadSets(sets: seq<CodeSet>) returns (table: ByteCode)
    ensures table.Valid() && table.bc[..] == LoadAll(sets)
  {
    table := new ByteCode.AllocBc();
    for i := 0 to |sets|
      invariant fresh(table) && table.Valid() && table.bc[..] == LoadAll(sets[..i])
    {
      table.AddBc(sets[i]);
      assert sets[..i + 1][..i] == sets[..i];
    }
    assert sets[..|sets|] == sets;
  }

  lemma SameMembers(a: seq<CodeSet>, b: seq<CodeSet>)
    requires multiset(a) == multiset(b)
    ensures forall s :: s in a <==> s in b
    ensures a == [] <==> b == []
  {
    forall s
      ensures s in a <==> s in b
    {
      assert s in a <==> s in multiset(a);
      assert s in b <==> s in multiset(b);
    }
    assert |multiset(a)| == |a| && |multiset(b)| == |b|;
  }

  lemma SameMaxNeed(a: seq<CodeSet>, b: seq<CodeSet>)
    requires forall s :: s in a <==> s in b
    requires a == [] <==> b == []
    ensures MaxNeed(a) == MaxNeed(b)
  {
    MaxNeedBounds(a);
    MaxNeedBounds(b);
  }

  lemma SameCode(a: seq<CodeSet>, b: seq<CodeSet>, c: nat)
    requires forall s :: s in a <==> s in b
    requires Disjoint(a) && Disjoint(b) && c < |LoadAll(a)| && c < |LoadAll(b)|
    ensures LoadAll(a)[c] == LoadAll(b)[c]
  {
    LoadedCode(a, c);
    LoadedCode(b, c);
    if i :| 0 <= i < |a| && Serves(a[i], c) {
      assert a[i] in b;
      var j :| 0 <= j < |b| && b[j] == a[i];
      assert Serves(b[j], c);
    } else {
      forall j | 0 <= j < |b|
        ensures !Serves(b[j], c)
      {
        assert b[j] in a;
      }
    }
  }

  /** A set that occurs twice does so at two places. */
  lemma {:induction false} TwoPlaces(sets: seq<CodeSet>, s: CodeSet) returns (i: nat, j: nat)
    requires multiset(sets)[s] >= 2
    ensures i < j < |sets| && sets[i] == sets[j] == s
  {
    assert sets == [sets[0]] + sets[1..];
    if sets[0] == s {
      assert multiset(sets) == multiset{s} + multiset(sets[1..]);
      assert s in multiset(sets[1..]);
      i := 0;
      j :| 0 <= j < |sets[1..]| && sets[1..][j] == s;
      j := j + 1;
    } else {
      assert multiset(sets) == multiset{sets[0]} + multiset(sets[1..]);
      i, j := TwoPlaces(sets[1..], s);
      i, j := i + 1, j + 1;
    }
  }

  /** Two places of b go to two places of a. */
  lemma PlacesIn(a: seq<CodeSet>, b: seq<CodeSet>, i: nat, j: nat) returns (p: nat, q: nat)
    requires multiset(a) == multiset(b) && i < j < |b|
    ensures p < |a| && q < |a| && p != q && a[p] == b[i] && a[q] == b[j]
  {
    if b[i] == b[j] {
      TwiceIn(b, i, j);
      p, q := TwoPlaces(a, b[i]);
    } else {
      SameMembers(a, b);
      assert b[i] in a && b[j] in a;
      p :| p < |a| && a[p] == b[i];
      q :| q < |a| && a[q] == b[j];
    }
  }

  lemma DisjointAnyOrder(a: seq<CodeSet>, b: seq<CodeSet>)
    requires multiset(a) == multiset(b) && Disjoint(a)
    ensures Disjoint(b)
  {
    forall i, j, c: nat | 0 <= i < j < |b| && Serves(b[i], c)
      ensures !Serves(b[j], c)
    {
      var p, q := PlacesIn(a, b, i, j);
      assert Serves(a[p], c);
      if q < p { assert !Serves(a[q], c); }
    }
  }

  /** Loading disjoint sets in any order gives the same table, size included. */
  lemma AnyOrder(a: seq<CodeSet>, b: seq<CodeSet>)
    requires multiset(a) == multiset(b) && Disjoint(a)
    ensures LoadAll(a) == LoadAll(b)
  {
    DisjointAnyOrder(a, b);
    SameMembers(a, b);
    SameMaxNeed(a, b);
    LoadedSize(a);
    LoadedSize(b);
    forall c: nat | c < |LoadAll(a)|
      ensures LoadAll(a)[c] == LoadAll(b)[c]
    {
      SameCode(a, b, c);
    }
  }

  lemma TwiceAdded(t: seq<Handler>, a: CodeSet, b: CodeSet, c: nat)
    requires |t| >= 2 && c < |Added(Added(t, a), b)|
    ensures Added(Added(t, a), b)[c]
         == if Serves(b, c) then b.bc[c - b.base] else if Serves(a, c) then a.bc[c - a.base]
            else if c < |t| then t[c] else Reserve
  {
  }

  /** Two sets may be loaded in either order exactly when they agree on the codes they share. */
  lemma EitherOrderIff(t: seq<Handler>, a: CodeSet, b: CodeSet)
    requires |t| >= 2
    ensures Added(Added(t, a), b) == Added(Added(t, b), a)
       <==> forall c: nat :: Serves(a, c) && Serves(b, c) ==> a.bc[c - a.base] == b.bc[c - b.base]
  {
    var ab, ba := Added(Added(t, a), b), Added(Added(t, b), a);
    GrowTwice(|t|, Need(a), Need(b));
    GrowTwice(|t|, Need(b), Need(a));
    assert |ab| == |ba|;
    forall c: nat | c < |ab|
      ensures ab[c] == ba[c] <==> (Serves(a, c) && Serves(b, c) ==> a.bc[c - a.base] == b.bc[c - b.base])
    {
      TwiceAdded(t, a, b, c);
      TwiceAdded(t, b, a, c);
    }
    if ab == ba {
      forall c: nat | Serves(a, c) && Serves(b, c)
        ensures a.bc[c - a.base] == b.bc[c - b.base]
      {
        assert c < |ab| && ab[c] == ba[c];
      }
    }
  }

  // ----- as written -----

  /** Where line 29 copies a set to: the width of a pointer is counted once by hand and once by the compiler. */
  function Place(t: seq<Handler>, width: nat): (at: nat)
    requires width > 0
    ensures at >= |t|
  {
    assert (width - 1) * |t| >= 0;
    width * |t|
  }

  /** With that line as written, for pointers of any width, and the helpers stepping by elements; None where
      the copy runs past the new table. */
  function AddedAsWritten(t: seq<Handler>, s: CodeSet, width: nat): Option<seq<Handler>>
    requires width > 0 && |t| >= 2
  {
    var cnt, at := Grow(|t|, Need(s)), Place(t, width);
    if s.bc != [] && at + |s.bc| > cnt then None
    else Some(seq(cnt, c requires 0 <= c =>
      if at <= c < at + |s.bc| then s.bc[c - at] else if c < |t| then t[c] else Reserve))
  }

  /** A set whose copy to a wrong place goes unnoticed: it leaves all its codes to Reserve, as they were,
      and there is room for the copy. */
  predicate Harmless(t: seq<Handler>, s: CodeSet, width: nat)
    requires width > 0 && |t| >= 2
  {
    && (forall h :: h in s.bc ==> h == Reserve)
    && (forall c :: s.base <= c < Need(s) && c < |t| ==> t[c] == Reserve)
    && Place(t, width) + |s.bc| <= Grow(|t|, Need(s))
  }

  /** If the copy goes unnoticed, entry j is Reserve: it must be what the table has behind it, which is
      the entry as far on as the copy is off, or Reserve behind the last. */
  lemma {:induction false} EntryReserve(t: seq<Handler>, s: CodeSet, width: nat, j: nat)
    requires width > 0 && |t| >= 2 && j < |s.bc| && s.base != Place(t, width)
    requires AddedAsWritten(t, s, width) == Some(Added(t, s))
    ensures s.bc[j] == Reserve
    decreases |s.bc| - j
  {
    var r, w, at := Added(t, s), AddedAsWritten(t, s, width).value, Place(t, width);
    assert Grow(|t|, Need(s)) >= at + |s.bc|;
    if s.base < at {
      assert r[at + j] == w[at + j] == s.bc[j];
      if at + j < Need(s) { EntryReserve(t, s, width, at + j - s.base); }
    } else {
      assert r[s.base + j] == s.bc[j] == w[s.base + j];
      if s.base + j < at + |s.bc| { EntryReserve(t, s, width, s.base + j - at); }
    }
  }

  lemma Unnoticed(t: seq<Handler>, s: CodeSet, width: nat)
    requires width > 0 && |t| >= 2 && s.bc != [] && s.base != Place(t, width)
    requires AddedAsWritten(t, s, width) == Some(Added(t, s))
    ensures Harmless(t, s, width)
  {
    forall j: nat | j < |s.bc|
      ensures s.bc[j] == Reserve
    {
      EntryReserve(t, s, width, j);
    }
    forall c | s.base <= c < Need(s) && c < |t|
      ensures t[c] == Reserve
    {
      assert Added(t, s)[c] == s.bc[c - s.base] && AddedAsWritten(t, s, width).value[c] == t[c];
    }
  }

  lemma NoHarm(t: seq<Handler>, s: CodeSet, width: nat)
    requires width > 0 && |t| >= 2 && Harmless(t, s, width)
    ensures AddedAsWritten(t, s, width) == Some(Added(t, s))
  {
    var r, w := Added(t, s), AddedAsWritten(t, s, width).value;
    forall c | 0 <= c < |r|
      ensures r[c] == w[c]
    {
      if Serves(s, c) { assert s.bc[c - s.base] in s.bc; }
      if Place(t, width) <= c < Place(t, width) + |s.bc| { assert s.bc[c - Place(t, width)] in s.bc; }
    }
    assert r == w;
  }

  lemma RightPlace(t: seq<Handler>, s: CodeSet, width: nat)
    requires width > 0 && |t| >= 2 && (s.bc == [] || s.base == Place(t, width))
    ensures AddedAsWritten(t, s, width) == Some(Added(t, s))
  {
    assert AddedAsWritten(t, s, width).Some? && AddedAsWritten(t, s, width).value == Added(t, s);
  }

  /** With that line as written a set is added right exactly when it is empty, has its codes where the copy
      goes, or changes nothing wherever it goes. */
  lemma AddedAsWrittenIff(t: seq<Handler>, s: CodeSet, width: nat)
    requires width > 0 && |t| >= 2
    ensures AddedAsWritten(t, s, width) == Some(Added(t, s))
       <==> s.bc == [] || s.base == width * |t| || Harmless(t, s, width)
  {
    if s.bc == [] || s.base == Place(t, width) {
      RightPlace(t, s, width);
    } else if Harmless(t, s, width) {
      NoHarm(t, s, width);
    } else if AddedAsWritten(t, s, width) == Some(Added(t, s)) {
      Unnoticed(t, s, width);
    }
  }
}
