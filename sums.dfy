/**
 * Accumulation of per-item partial results over sequences of worker or
 * client positions, as every coordinator does with `total += partial`,
 * and the fact that the total does not depend on the order of arrival.
 */
module Sums {

  /** The positions 0, 1, ..., n-1 in increasing (creation or join) order. */
  function Iota(n: nat): seq<nat>
  {
    seq(n, i requires 0 <= i => i)
  }

  /** The set of positions 0 .. n-1. */
  function Range(n: nat): (r: set<nat>)
    ensures forall k: nat :: k in r <==> k < n
  {
    if n == 0 then {} else Range(n - 1) + {n - 1}
  }

  predicate Distinct(s: seq<nat>)
  {
    forall i, j :: 0 <= i < j < |s| ==> s[i] != s[j]
  }

  /** `order` lists every position below n exactly once. */
  predicate Permutation(order: seq<nat>, n: nat)
  {
    && Distinct(order)
    && (forall j :: 0 <= j < |order| ==> order[j] < n)
    && (forall p: nat :: p < n ==> p in order)
  }

  /** Left-to-right accumulation `acc += f(x)` over `s`, starting from 0. */
  function SumReal(s: seq<nat>, f: nat -> real): real
  {
    if s == [] then 0.0 else SumReal(s[..|s| - 1], f) + f(s[|s| - 1])
  }

  /** The integer counterpart of SumReal, for hit counts. */
  function SumInt(s: seq<nat>, f: nat -> int): int
  {
    if s == [] then 0 else SumInt(s[..|s| - 1], f) + f(s[|s| - 1])
  }

  lemma SumRealSnoc(s: seq<nat>, j: nat, f: nat -> real)
    requires j < |s|
    ensures SumReal(s[..j + 1], f) == SumReal(s[..j], f) + f(s[j])
  {
    assert s[..j + 1][..j] == s[..j];
  }

  lemma SumIntSnoc(s: seq<nat>, j: nat, f: nat -> int)
    requires j < |s|
    ensures SumInt(s[..j + 1], f) == SumInt(s[..j], f) + f(s[j])
  {
    assert s[..j + 1][..j] == s[..j];
  }

  /** Summing two functions that agree everywhere gives the same sum. */
  lemma {:induction false} SumRealExt(s: seq<nat>, f: nat -> real, g: nat -> real)
    requires forall p: nat :: f(p) == g(p)
    ensures SumReal(s, f) == SumReal(s, g)
  {
    if s != [] {
      SumRealExt(s[..|s| - 1], f, g);
    }
  }

  lemma SumRealPush(s: seq<nat>, x: nat, f: nat -> real)
    ensures SumReal(s + [x], f) == SumReal(s, f) + f(x)
  {
    assert (s + [x])[..|s|] == s;
  }

  lemma SumIntPush(s: seq<nat>, x: nat, f: nat -> int)
    ensures SumInt(s + [x], f) == SumInt(s, f) + f(x)
  {
    assert (s + [x])[..|s|] == s;
  }

  lemma {:induction false} CardRange(n: nat)
    ensures |Range(n)| == n
  {
    if n > 0 {
      CardRange(n - 1);
    }
  }

  lemma FirstIn(s: seq<nat>)
    ensures s != [] ==> s[0] in s
  {
  }

  lemma IotaIsPermutation(n: nat)
    ensures |Iota(n)| == n && Permutation(Iota(n), n)
  {
    forall p: nat | p < n ensures p in Iota(n) {
      assert Iota(n)[p] == p;
    }
  }

  lemma IotaPrefix(n: nat)
    ensures Iota(n + 1)[..n] == Iota(n) && Iota(n + 1)[n] == n
  {
  }

  /** A permutation of 0 .. n-1 has exactly n elements. */
  lemma {:induction false} PermutationLength(order: seq<nat>, n: nat)
    requires Permutation(order, n)
    ensures |order| == n
  {
    var elems := set j | 0 <= j < |order| :: order[j];
    assert elems == Range(n) by {
      forall p | p in Range(n) ensures p in elems {
        assert p in order;
        var j :| 0 <= j < |order| && order[j] == p;
      }

    }
    CardRange(n);
    DistinctCard(order);
  }

  lemma {:induction false} DistinctCard(s: seq<nat>)
    requires Distinct(s)
    ensures |set j | 0 <= j < |s| :: s[j]| == |s|
  {
    if s != [] {
      var s' := s[..|s| - 1];
      DistinctCard(s');
      var elems := set j | 0 <= j < |s| :: s[j];
      var elems' := set j | 0 <= j < |s'| :: s'[j];
      assert elems == elems' + {s[|s| - 1]};
      assert s[|s| - 1] !in elems';
    }
  }

  lemma {:induction false} SumRealAppend(a: seq<nat>, b: seq<nat>, f: nat -> real)
    ensures SumReal(a + b, f) == SumReal(a, f) + SumReal(b, f)
    decreases |b|
  {
    if b == [] {
      assert a + b == a;
    } else {
      assert (a + b)[..|a + b| - 1] == a + b[..|b| - 1];
      SumRealAppend(a, b[..|b| - 1], f);
    }
  }

  lemma {:induction false} SumIntAppend(a: seq<nat>, b: seq<nat>, f: nat -> int)
    ensures SumInt(a + b, f) == SumInt(a, f) + SumInt(b, f)
    decreases |b|
  {
    if b == [] {
      assert a + b == a;
    } else {
      assert (a + b)[..|a + b| - 1] == a + b[..|b| - 1];
      SumIntAppend(a, b[..|b| - 1], f);
    }
  }

  /** Removing the element at k from a distinct sequence keeps it distinct and removes exactly that element. */
  lemma RemoveAt(b: seq<nat>, k: nat)
    requires Distinct(b) && k < |b|
    ensures Distinct(b[..k] + b[k + 1..])
    ensures forall x :: x in b[..k] + b[k + 1..] <==> x in b && x != b[k]
  {
    var b' := b[..k] + b[k + 1..];
    assert forall i :: 0 <= i < |b'| ==> b'[i] == if i < k then b[i] else b[i + 1];
  }

  lemma {:induction false} SumRealRemoveAt(b: seq<nat>, k: nat, f: nat -> real)
    requires k < |b|
    ensures SumReal(b, f) == SumReal(b[..k] + b[k + 1..], f) + f(b[k])
  {
    assert b == b[..k] + [b[k]] + b[k + 1..];
    SumRealAppend(b[..k] + [b[k]], b[k + 1..], f);
    SumRealAppend(b[..k], [b[k]], f);
    SumRealAppend(b[..k], b[k + 1..], f);
    assert [b[k]][..0] == [];
  }

  /**
   * Two arrival orders of the same distinct items give the same real total:
   * the sum of partial results does not depend on the order they arrive in.
   */
  lemma {:induction false} SumRealReorder(a: seq<nat>, b: seq<nat>, f: nat -> real)
    requires Distinct(a) && Distinct(b)
    requires forall x :: x in a <==> x in b
    ensures SumReal(a, f) == SumReal(b, f)
    decreases |a|
  {
    if a == [] {
      assert b == [] by {
        if b != [] {
          FirstIn(b);
          assert false;
        }
      }
    } else {
      var a', x := a[..|a| - 1], a[|a| - 1];
      assert x in a;
      var k :| 0 <= k < |b| && b[k] == x;
      RemoveAt(b, k);
      var b' := b[..k] + b[k + 1..];
      assert forall y :: y in a' <==> y in a && y != x by {
        assert forall i :: 0 <= i < |a'| ==> a'[i] == a[i];
      }
      SumRealReorder(a', b', f);
      SumRealRemoveAt(b, k, f);
    }
  }

  lemma {:induction false} SumIntRemoveAt(b: seq<nat>, k: nat, f: nat -> int)
    requires k < |b|
    ensures SumInt(b, f) == SumInt(b[..k] + b[k + 1..], f) + f(b[k])
  {
    assert b == b[..k] + [b[k]] + b[k + 1..];
    SumIntAppend(b[..k] + [b[k]], b[k + 1..], f);
    SumIntAppend(b[..k], [b[k]], f);
    SumIntAppend(b[..k], b[k + 1..], f);
    assert [b[k]][..0] == [];
  }

  /** The integer counterpart of SumRealReorder. */
  lemma {:induction false} SumIntReorder(a: seq<nat>, b: seq<nat>, f: nat -> int)
    requires Distinct(a) && Distinct(b)
    requires forall x :: x in a <==> x in b
    ensures SumInt(a, f) == SumInt(b, f)
    decreases |a|
  {
    if a == [] {
      assert b == [] by {
        if b != [] {
          FirstIn(b);
          assert false;
        }
      }
    } else {
      var a', x := a[..|a| - 1], a[|a| - 1];
      assert x in a;
      var k :| 0 <= k < |b| && b[k] == x;
      RemoveAt(b, k);
      var b' := b[..k] + b[k + 1..];
      assert forall y :: y in a' <==> y in a && y != x by {
        assert forall i :: 0 <= i < |a'| ==> a'[i] == a[i];
      }
      SumIntReorder(a', b', f);
      SumIntRemoveAt(b, k, f);
    }
  }

  /** Any report order that is a permutation of the n positions sums to the total in position order. */
  lemma PermutationSumReal(order: seq<nat>, n: nat, f: nat -> real)
    requires Permutation(order, n)
    ensures SumReal(order, f) == SumReal(Iota(n), f)
  {
    IotaIsPermutation(n);
    assert forall x :: x in order <==> x in Iota(n) by {
      forall x | x in order ensures x in Iota(n) {
        var j :| 0 <= j < |order| && order[j] == x;
      }
    }
    SumRealReorder(order, Iota(n), f);
  }

  /** The integer counterpart of PermutationSumReal. */
  lemma PermutationSumInt(order: seq<nat>, n: nat, f: nat -> int)
    requires Permutation(order, n)
    ensures SumInt(order, f) == SumInt(Iota(n), f)
  {
    IotaIsPermutation(n);
    assert forall x :: x in order <==> x in Iota(n) by {
      forall x | x in order ensures x in Iota(n) {
        var j :| 0 <= j < |order| && order[j] == x;
      }
    }
    SumIntReorder(order, Iota(n), f);
  }

  /** If every one of n partial counts lies in [0, bound], their total lies in [0, bound * n]. */
  lemma {:induction false} SumIntBounds(n: nat, f: nat -> int, bound: int)
    requires forall p: nat :: p < n ==> 0 <= f(p) <= bound
    ensures 0 <= SumInt(Iota(n), f) <= bound * n
  {
    if n > 0 {
      SumIntBounds(n - 1, f, bound);
      IotaPrefix(n - 1);
      assert bound * n == bound * (n - 1) + bound;
    }
  }
}
