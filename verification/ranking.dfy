/** Ordering records the way an `ORDER BY` list does: by a key compared
    component by component, with the record's place in the store as the
    last component, so that no two records tie. A record's rank is the
    number of records ordered before it, which is its index in the sorted
    list. */
module Ranking {

  /** Three sort columns, each written so that smaller comes first (a
      descending column is negated), and the store position. */
  datatype Key = Key(a: int, b: int, c: int, pos: int)

  predicate Less(x: Key, y: Key) {
    x.a < y.a || (x.a == y.a && (x.b < y.b || (x.b == y.b && (x.c < y.c || (x.c == y.c && x.pos < y.pos)))))
  }

  lemma LessTransitive(x: Key, y: Key, z: Key)
    requires Less(x, y) && Less(y, z)
    ensures Less(x, z)
  {
  }

  lemma LessTotal(x: Key, y: Key)
    ensures x == y || Less(x, y) || Less(y, x)
    ensures !(Less(x, y) && Less(y, x))
  {
  }

  /** No two keys are equal (the store positions differ). */
  predicate Distinct(ks: seq<Key>) {
    forall i, j :: 0 <= i < |ks| && 0 <= j < |ks| && i != j ==> ks[i] != ks[j]
  }

  /** How many keys of `ks` come before `x`. */
  function CountBelow(ks: seq<Key>, x: Key): (n: nat)
    ensures n <= |ks|
    decreases |ks|
  {
    if ks == [] then 0
    else (if Less(ks[0], x) then 1 else 0) + CountBelow(ks[1..], x)
  }

  /** The rank of the `i`th key: its index once the keys are sorted. */
  function Rank(ks: seq<Key>, i: nat): nat
    requires i < |ks|
  {
    CountBelow(ks, ks[i])
  }

  lemma {:induction false} CountBelowMono(ks: seq<Key>, x: Key, y: Key)
    requires Less(x, y)
    ensures CountBelow(ks, x) <= CountBelow(ks, y)
    ensures x in ks ==> CountBelow(ks, x) < CountBelow(ks, y)
    decreases |ks|
  {
    if ks != [] {
      CountBelowMono(ks[1..], x, y);
      if Less(ks[0], x) {
        LessTransitive(ks[0], x, y);
      }
      if x in ks && x !in ks[1..] {
        assert ks[0] == x;
      }
    }
  }

  lemma {:induction false} CountBelowMissing(ks: seq<Key>, x: Key)
    requires x in ks
    ensures CountBelow(ks, x) < |ks|
    decreases |ks|
  {
    if ks[0] != x {
      CountBelowMissing(ks[1..], x);
    } else {
      assert !Less(x, x);
    }
  }

  /** Ranks are below the number of keys, and the order of the keys is the
      order of their ranks. */
  lemma RankOrder(ks: seq<Key>, i: nat, j: nat)
    requires Distinct(ks) && i < |ks| && j < |ks|
    ensures Rank(ks, i) < |ks|
    ensures Less(ks[i], ks[j]) <==> Rank(ks, i) < Rank(ks, j)
    ensures i != j ==> Rank(ks, i) != Rank(ks, j)
  {
    CountBelowMissing(ks, ks[i]);
    LessTotal(ks[i], ks[j]);
    if Less(ks[i], ks[j]) {
      CountBelowMono(ks, ks[i], ks[j]);
    } else if Less(ks[j], ks[i]) {
      CountBelowMono(ks, ks[j], ks[i]);
    }
  }

  /** The ranks of the first `m` keys. */
  function RanksUpTo(ks: seq<Key>, m: nat): set<nat>
    requires m <= |ks|
  {
    set i | 0 <= i < m :: Rank(ks, i)
  }

  /** The numbers 0, 1, ..., n-1. */
  function Below(n: nat): (s: set<nat>)
    ensures |s| == n
    ensures forall r: nat :: r in s <==> r < n
  {
    if n == 0 then {} else Below(n - 1) + {n - 1}
  }

  lemma {:induction false} RanksUpToSize(ks: seq<Key>, m: nat)
    requires Distinct(ks) && m <= |ks|
    ensures |RanksUpTo(ks, m)| == m
    ensures RanksUpTo(ks, m) <= Below(|ks|)
  {
    if m == 0 {
      assert RanksUpTo(ks, 0) == {};
    } else {
      RanksUpToSize(ks, m - 1);
      RanksUpToStep(ks, m);
      NewRank(ks, m);
    }
  }

  lemma RanksUpToStep(ks: seq<Key>, m: nat)
    requires 0 < m <= |ks|
    ensures RanksUpTo(ks, m) == RanksUpTo(ks, m - 1) + {Rank(ks, m - 1)}
  {
  }

  /** The next key's rank is new and in range. */
  lemma NewRank(ks: seq<Key>, m: nat)
    requires Distinct(ks) && 0 < m <= |ks|
    ensures Rank(ks, m - 1) !in RanksUpTo(ks, m - 1) && Rank(ks, m - 1) < |ks|
  {
    forall i | 0 <= i < m - 1 ensures Rank(ks, i) != Rank(ks, m - 1) {
      RankOrder(ks, i, m - 1);
    }
    RankOrder(ks, m - 1, m - 1);
  }

  lemma SubsetOfSameSize(a: set<nat>, b: set<nat>)
    requires a <= b && |a| == |b|
    ensures a == b
  {
    if a != b {
      var x :| x in b && x !in a;
      SubsetSize(a, b - {x});
    }
  }

  lemma SubsetSize(a: set<nat>, b: set<nat>)
    requires a <= b
    ensures |a| <= |b|
    decreases |b|
  {
    if a != {} {
      var x :| x in a;
      SubsetSize(a - {x}, b - {x});
    }
  }

  /** The ranks are exactly 0, 1, ..., n-1: ranking is a permutation. */
  lemma RanksArePermutation(ks: seq<Key>)
    requires Distinct(ks)
    ensures RanksUpTo(ks, |ks|) == Below(|ks|)
  {
    RanksUpToSize(ks, |ks|);
    SubsetOfSameSize(RanksUpTo(ks, |ks|), Below(|ks|));
  }

  /** The index of the key with rank `r`. */
  function KeyAtRank(ks: seq<Key>, r: nat): (i: nat)
    requires Distinct(ks) && r < |ks|
    ensures i < |ks| && Rank(ks, i) == r
  {
    RanksArePermutation(ks);
    assert r in Below(|ks|);
    FindRank(ks, r, 0)
  }

  function FindRank(ks: seq<Key>, r: nat, from: nat): (i: nat)
    requires from <= |ks|
    requires exists i :: from <= i < |ks| && Rank(ks, i) == r
    ensures from <= i < |ks| && Rank(ks, i) == r
    decreases |ks| - from
  {
    if Rank(ks, from) == r then from else FindRank(ks, r, from + 1)
  }

  /** The keys' indices in sorted order. */
  function SortedIndices(ks: seq<Key>): (r: seq<nat>)
    requires Distinct(ks)
    ensures |r| == |ks|
    ensures forall p :: 0 <= p < |r| ==> r[p] < |ks| && Rank(ks, r[p]) == p
  {
    seq(|ks|, p requires 0 <= p < |ks| => KeyAtRank(ks, p))
  }

  /** Sorted order is increasing, and lists every index once. */
  lemma SortedIndicesSorted(ks: seq<Key>, p: nat, q: nat)
    requires Distinct(ks) && p < q < |ks|
    ensures Less(ks[SortedIndices(ks)[p]], ks[SortedIndices(ks)[q]])
  {
    var s := SortedIndices(ks);
    RankOrder(ks, s[p], s[q]);
  }
}
