/** Sums and counts used by the aggregate queries. Go ranges over a map in
    an unspecified order, so aggregates over a map are stated over its key
    set; aggregates over a slice or an array are stated over the sequence,
    left to right, the way the loops and `reduce` walk it. */
module Sums {

  /** Sum of `f` over a finite set of keys. */
  ghost function SumOver<K>(keys: set<K>, f: K -> int): int
    decreases keys
  {
    if keys == {} then 0 else var k :| k in keys; f(k) + SumOver(keys - {k}, f)
  }

  /** Any key may be taken out first: the sum does not depend on the order
      in which the keys are visited. */
  lemma {:induction false} SumOverRemove<K>(keys: set<K>, f: K -> int, k: K)
    requires k in keys
    ensures SumOver(keys, f) == f(k) + SumOver(keys - {k}, f)
    decreases keys
  {
    var j :| j in keys && SumOver(keys, f) == f(j) + SumOver(keys - {j}, f);
    if j != k {
      SumOverRemove(keys - {j}, f, k);
      SumOverRemove(keys - {k}, f, j);
      assert keys - {j} - {k} == keys - {k} - {j};
    }
  }

  /** Visiting one more key adds its value. */
  lemma SumOverAdd<K>(keys: set<K>, f: K -> int, k: K)
    requires k !in keys
    ensures SumOver(keys + {k}, f) == SumOver(keys, f) + f(k)
  {
    SumOverRemove(keys + {k}, f, k);
    assert keys + {k} - {k} == keys;
  }

  /** 1 where `p` holds, 0 elsewhere. */
  function Indicator<K>(p: K -> bool): K -> int {
    k => if p(k) then 1 else 0
  }

  /** The keys where `p` holds. */
  function Where<K>(keys: set<K>, p: K -> bool): set<K> {
    set k | k in keys && p(k)
  }

  /** Summing an indicator counts the keys where it holds. */
  lemma {:induction false} SumOverIndicator<K>(keys: set<K>, p: K -> bool)
    ensures SumOver(keys, Indicator(p)) == |Where(keys, p)|
    decreases keys
  {
    if keys != {} {
      var k :| k in keys;
      SumOverRemove(keys, Indicator(p), k);
      SumOverIndicator(keys - {k}, p);
      if p(k) {
        assert Where(keys, p) == Where(keys - {k}, p) + {k};
      } else {
        assert Where(keys, p) == Where(keys - {k}, p);
      }
    }
  }

  /** Left-to-right sum of `f` over a sequence. */
  function SeqSum<T>(s: seq<T>, f: T -> int): int
    decreases |s|
  {
    if s == [] then 0 else SeqSum(s[..|s| - 1], f) + f(s[|s| - 1])
  }

  /** Number of elements of a sequence that satisfy `p`, counted left to
      right. */
  function SeqCount<T>(s: seq<T>, p: T -> bool): nat
    decreases |s|
  {
    if s == [] then 0 else SeqCount(s[..|s| - 1], p) + (if p(s[|s| - 1]) then 1 else 0)
  }

  /** The positions of a sequence whose elements satisfy `p`. */
  ghost function Positions<T>(s: seq<T>, p: T -> bool): set<nat> {
    set i: nat | i < |s| && p(s[i])
  }

  /** The counted number is the number of satisfying positions. */
  lemma {:induction false} SeqCountIsPositions<T>(s: seq<T>, p: T -> bool)
    ensures SeqCount(s, p) == |Positions(s, p)|
    decreases |s|
  {
    if s != [] {
      var n := |s| - 1;
      SeqCountIsPositions(s[..n], p);
      if p(s[n]) {
        assert Positions(s, p) == Positions(s[..n], p) + {n};
      } else {
        assert Positions(s, p) == Positions(s[..n], p);
      }
    }
  }

  /** No more elements satisfy `p` than there are elements. */
  lemma {:induction false} SeqCountBound<T>(s: seq<T>, p: T -> bool)
    ensures SeqCount(s, p) <= |s|
    decreases |s|
  {
    if s != [] {
      SeqCountBound(s[..|s| - 1], p);
    }
  }

  /** The sum of a concatenation is the sum of the parts. */
  lemma {:induction false} SeqSumAppend<T>(a: seq<T>, b: seq<T>, f: T -> int)
    ensures SeqSum(a + b, f) == SeqSum(a, f) + SeqSum(b, f)
    decreases |b|
  {
    if b == [] {
      assert a + b == a;
    } else {
      var n := |b| - 1;
      assert (a + b)[..|a + b| - 1] == a + b[..n];
      SeqSumAppend(a, b[..n], f);
    }
  }

  /** A sum of non-negative terms is non-negative. */
  lemma {:induction false} SeqSumNonNegative<T>(s: seq<T>, f: T -> int)
    requires forall i :: 0 <= i < |s| ==> f(s[i]) >= 0
    ensures SeqSum(s, f) >= 0
    decreases |s|
  {
    if s != [] {
      SeqSumNonNegative(s[..|s| - 1], f);
    }
  }

  /** Extending a prefix by one element, for loops that walk a sequence. */
  lemma SeqSumStep<T>(s: seq<T>, i: nat, f: T -> int)
    requires i < |s|
    ensures SeqSum(s[..i + 1], f) == SeqSum(s[..i], f) + f(s[i])
  {
    assert s[..i + 1][..i] == s[..i];
  }

  lemma SeqCountStep<T>(s: seq<T>, i: nat, p: T -> bool)
    requires i < |s|
    ensures SeqCount(s[..i + 1], p) == SeqCount(s[..i], p) + (if p(s[i]) then 1 else 0)
  {
    assert s[..i + 1][..i] == s[..i];
  }
}
