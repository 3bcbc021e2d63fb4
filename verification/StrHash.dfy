/** The string hash and equality the VM gives its variable table (common/fm_hashtable.c). */
module StrHash {
  import opened HashTables

  const UINT := 0x1_0000_0000

  /** A C string without its terminator, as signed chars. */
  type CString = s: seq<int> | forall i :: 0 <= i < |s| ==> -128 <= s[i] < 128 && s[i] != 0 witness []

  /** The polynomial the loop evaluates, over unbounded integers. */
  function Poly(s: seq<int>): int {
    if s == [] then 5381 else 33 * Poly(s[..|s| - 1]) + s[|s| - 1]
  }

  function HashOf(s: CString): nat {
    Poly(s) % UINT
  }

  predicate SameString(x: CString, y: CString) {
    x == y
  }

  lemma WrapOnce(x: int, k: nat, c: int)
    ensures (k * (x % UINT) + c) % UINT == (k * x + c) % UINT
  {
    var q := x / UINT;
    assert x == UINT * q + x % UINT;
    assert k * x == UINT * (k * q) + k * (x % UINT);
    Shifted(k * (x % UINT) + c, k * q);
  }

  lemma Shifted(x: int, q: int)
    ensures (x + UINT * q) % UINT == x % UINT
  {
    var y := x + UINT * q;
    var d := y / UINT - x / UINT - q;
    assert y % UINT - x % UINT == -(UINT * d);
  }

  /** From character to character: times 33 plus the signed character, from 5381, in 32 bits. */
  lemma {:induction false} HashSteps(s: CString) returns (hs: seq<nat>)
    ensures |hs| == |s| + 1 && hs[0] == 5381 && hs[|s|] == HashOf(s)
    ensures forall k :: 0 <= k < |s| ==> hs[k + 1] == (33 * hs[k] + s[k]) % 0x1_0000_0000
    decreases |s|
  {
    if s == [] {
      hs := [5381];
    } else {
      var n := |s| - 1;
      var front := HashSteps(s[..n]);
      WrapOnce(Poly(s[..n]), 33, s[n]);
      hs := front + [HashOf(s)];
    }
  }

  /** The wrap-around arithmetic of the loop computes the polynomial modulo the width of unsigned int. */
  method StrHash(str: CString) returns (h: nat)
    ensures h == HashOf(str) && h < UINT
  {
    h := 5381;
    var p := 0;
    while p < |str|
      invariant 0 <= p <= |str|
      invariant h == Poly(str[..p]) % UINT
    {
      assert str[..p + 1][..p] == str[..p];
      ghost var h0 := h;
      WrapOnce(32 * h0, 1, h0);
      WrapOnce(33 * h0, 1, str[p]);
      WrapOnce(Poly(str[..p]), 33, str[p]);
      h := (((h * 32) % UINT + h) % UINT + str[p]) % UINT;
      p := p + 1;
    }
    assert str[..p] == str;
  }

  /** Strings meet what the table asks of its hash and equality. */
  lemma StringsLawful()
    ensures Lawful(HashOf, SameString)
  {
    assert forall x, y :: SymmetricAt(HashOf, SameString, x, y);
  }
}
