/**
 * Signs of reorderings. Graphs and monomials are elements of an exterior algebra,
 * so reordering their edges or odd coordinates costs the sign of the reordering.
 * The Python code computes that sign with a selection sort that counts its swaps
 * (`selection_sort` of gcaops/util/permutation.py, whose body is the same loop
 * as the inline one in `SuperfunctionAlgebra._mul_on_basis`). Here the sign is
 * also given an independent meaning, (-1) to the number of inversions, and the
 * sort is proved to compute it.
 */
module Parity {
  import opened Combinatorics

  /** The comparison that Python's `<` provides on the sorted values. */
  ghost predicate StrictTotalOrder<T(!new)>(lt: (T, T) -> bool)
  {
    && (forall x :: !lt(x, x))
    && (forall x, y, z :: lt(x, y) && lt(y, z) ==> lt(x, z))
    && (forall x, y :: x != y ==> lt(x, y) || lt(y, x))
  }

  /** Non-decreasing with respect to `lt`. */
  ghost predicate Sorted<T>(s: seq<T>, lt: (T, T) -> bool)
  {
    forall p, q :: 0 <= p < q < |s| ==> !lt(s[q], s[p])
  }

  ghost predicate Distinct<T>(s: seq<T>)
  {
    forall i, j :: 0 <= i < j < |s| ==> s[i] != s[j]
  }

  function IntLess(x: int, y: int): bool { x < y }

  lemma IntLessIsStrictTotalOrder()
    ensures StrictTotalOrder(IntLess)
  {
  }

  /** +1 for an even count, -1 for an odd one. */
  function ParitySign(k: int): (r: int)
    ensures r == 1 || r == -1
  {
    if k % 2 == 0 then 1 else -1
  }

  lemma ParitySignAdd(a: int, b: int)
    ensures ParitySign(a + b) == ParitySign(a) * ParitySign(b)
  {
  }

  /** Number of elements of `t` below `u`. */
  function CountLess<T>(t: seq<T>, u: T, lt: (T, T) -> bool): nat
  {
    if |t| == 0 then 0 else (if lt(t[0], u) then 1 else 0) + CountLess(t[1..], u, lt)
  }

  /** Number of elements of `t` above `u`. */
  function CountGreater<T>(t: seq<T>, u: T, lt: (T, T) -> bool): nat
  {
    if |t| == 0 then 0 else (if lt(u, t[0]) then 1 else 0) + CountGreater(t[1..], u, lt)
  }

  /** Number of inversions: pairs of positions p < q with s[q] below s[p]. */
  function Inv<T>(s: seq<T>, lt: (T, T) -> bool): nat
  {
    if |s| == 0 then 0 else CountLess(s[1..], s[0], lt) + Inv(s[1..], lt)
  }

  /** Number of pairs (x in a, y in t) with y below x: the inversions between two blocks. */
  function Cross<T>(a: seq<T>, t: seq<T>, lt: (T, T) -> bool): nat
  {
    if |a| == 0 then 0 else CountLess(t, a[0], lt) + Cross(a[1..], t, lt)
  }

  /** The sign of the permutation that sorts a list without repetitions. */
  function SortSign<T>(s: seq<T>, lt: (T, T) -> bool): int
  {
    ParitySign(Inv(s, lt))
  }

  lemma {:induction false} CountLessConcat<T>(t1: seq<T>, t2: seq<T>, u: T, lt: (T, T) -> bool)
    ensures CountLess(t1 + t2, u, lt) == CountLess(t1, u, lt) + CountLess(t2, u, lt)
  {
    if |t1| != 0 {
      assert (t1 + t2)[0] == t1[0] && (t1 + t2)[1..] == t1[1..] + t2;
      CountLessConcat(t1[1..], t2, u, lt);
    } else {
      assert t1 + t2 == t2;
    }
  }

  lemma {:induction false} CountGreaterConcat<T>(t1: seq<T>, t2: seq<T>, u: T, lt: (T, T) -> bool)
    ensures CountGreater(t1 + t2, u, lt) == CountGreater(t1, u, lt) + CountGreater(t2, u, lt)
  {
    if |t1| != 0 {
      assert (t1 + t2)[0] == t1[0] && (t1 + t2)[1..] == t1[1..] + t2;
      CountGreaterConcat(t1[1..], t2, u, lt);
    } else {
      assert t1 + t2 == t2;
    }
  }

  lemma {:induction false} CrossConcatRight<T>(a: seq<T>, t1: seq<T>, t2: seq<T>, lt: (T, T) -> bool)
    ensures Cross(a, t1 + t2, lt) == Cross(a, t1, lt) + Cross(a, t2, lt)
  {
    if |a| != 0 {
      CountLessConcat(t1, t2, a[0], lt);
      CrossConcatRight(a[1..], t1, t2, lt);
    }
  }

  lemma {:induction false} CrossSingletonRight<T>(a: seq<T>, y: T, lt: (T, T) -> bool)
    ensures Cross(a, [y], lt) == CountGreater(a, y, lt)
  {
    if |a| != 0 {
      assert [y][0] == y && [y][1..] == [];
      assert CountLess([y], a[0], lt) == if lt(y, a[0]) then 1 else 0;
      CrossSingletonRight(a[1..], y, lt);
    }
  }

  /** The inversions of a concatenation: those inside each block plus those across. */
  lemma {:induction false} InvConcat<T>(a: seq<T>, t: seq<T>, lt: (T, T) -> bool)
    ensures Inv(a + t, lt) == Inv(a, lt) + Inv(t, lt) + Cross(a, t, lt)
  {
    if |a| != 0 {
      assert (a + t)[0] == a[0];
      assert (a + t)[1..] == a[1..] + t;
      CountLessConcat(a[1..], t, a[0], lt);
      InvConcat(a[1..], t, lt);
    } else {
      assert a + t == t;
    }
  }

  lemma InvCons<T>(x: T, t: seq<T>, lt: (T, T) -> bool)
    ensures Inv([x] + t, lt) == CountLess(t, x, lt) + Inv(t, lt)
  {
    assert ([x] + t)[1..] == t;
  }

  /** An element outside `t` is above or below each of its elements, never both. */
  lemma {:induction false} Trichotomy<T(!new)>(t: seq<T>, u: T, lt: (T, T) -> bool)
    requires StrictTotalOrder(lt)
    requires u !in t
    ensures CountLess(t, u, lt) + CountGreater(t, u, lt) == |t|
  {
    if |t| != 0 {
      assert t[0] != u;
      assert u !in t[1..];
      Trichotomy(t[1..], u, lt);
    }
  }

  /**
   * Inversions of x :: (m ++ [y] ++ b), expanded into counts that are
   * symmetric in x and y except for the ones involving m and the pair itself.
   */
  lemma InvExpand<T>(x: T, m: seq<T>, y: T, b: seq<T>, lt: (T, T) -> bool)
    ensures Inv([x] + m + [y] + b, lt)
         == CountLess(m, x, lt) + (if lt(y, x) then 1 else 0) + CountLess(b, x, lt)
            + Inv(m, lt) + CountGreater(m, y, lt) + Cross(m, b, lt)
            + CountLess(b, y, lt) + Inv(b, lt)
  {
    var yb := [y] + b;
    var rest := m + yb;
    Regroup(x, m, y, b);
    InvCons(x, rest, lt);
    CountLessConcat(m, yb, x, lt);
    CountLessCons(y, b, x, lt);
    InvConcat(m, yb, lt);
    CrossConcatRight(m, [y], b, lt);
    CrossSingletonRight(m, y, lt);
    InvCons(y, b, lt);
  }

  lemma Regroup<T>(x: T, m: seq<T>, y: T, b: seq<T>)
    ensures [x] + m + [y] + b == [x] + (m + ([y] + b))
  {
  }

  lemma RegroupFront<T>(a: seq<T>, x: T, m: seq<T>, y: T, b: seq<T>)
    ensures a + [x] + m + [y] + b == a + ([x] + m + [y] + b)
  {
  }

  lemma CountLessCons<T>(y: T, b: seq<T>, u: T, lt: (T, T) -> bool)
    ensures CountLess([y] + b, u, lt) == (if lt(y, u) then 1 else 0) + CountLess(b, u, lt)
  {
    assert ([y] + b)[0] == y && ([y] + b)[1..] == b;
  }

  /** Inversions across a fixed left block do not depend on the order of the right one. */
  lemma CrossFour<T>(a: seq<T>, p: seq<T>, q: seq<T>, r: seq<T>, t: seq<T>, lt: (T, T) -> bool)
    ensures Cross(a, p + q + r + t, lt)
         == Cross(a, p, lt) + Cross(a, q, lt) + Cross(a, r, lt) + Cross(a, t, lt)
  {
    CrossConcatRight(a, p + q + r, t, lt);
    CrossConcatRight(a, p + q, r, lt);
    CrossConcatRight(a, p, q, lt);
  }

  /** Inv(t) + Inv(t') for t = x m y b and t' = y m x b, when x, y are outside m. */
  lemma SwapPairOdd<T(!new)>(x: T, m: seq<T>, y: T, b: seq<T>, lt: (T, T) -> bool)
    requires StrictTotalOrder(lt)
    requires x != y && x !in m && y !in m
    ensures (Inv([x] + m + [y] + b, lt) + Inv([y] + m + [x] + b, lt)) % 2 == 1
  {
    InvExpand(x, m, y, b, lt);
    InvExpand(y, m, x, b, lt);
    Trichotomy(m, x, lt);
    Trichotomy(m, y, lt);
    assert (if lt(y, x) then 1 else 0) + (if lt(x, y) then 1 else 0) == 1;
  }

  /**
   * Exchanging two distinct values that do not occur between them changes the
   * number of inversions by an odd amount, so the sort sign flips.
   */
  lemma SwapFlipsParity<T(!new)>(a: seq<T>, x: T, m: seq<T>, y: T, b: seq<T>, lt: (T, T) -> bool)
    requires StrictTotalOrder(lt)
    requires x != y && x !in m && y !in m
    ensures SortSign(a + [y] + m + [x] + b, lt) == -SortSign(a + [x] + m + [y] + b, lt)
  {
    var t := [x] + m + [y] + b;
    var t' := [y] + m + [x] + b;
    RegroupFront(a, x, m, y, b);
    RegroupFront(a, y, m, x, b);
    InvConcat(a, t, lt);
    InvConcat(a, t', lt);
    CrossFour(a, [x], m, [y], b, lt);
    CrossFour(a, [y], m, [x], b, lt);
    SwapPairOdd(x, m, y, b, lt);
  }

  lemma {:induction false} CountLessNone<T>(t: seq<T>, u: T, lt: (T, T) -> bool)
    requires forall k :: 0 <= k < |t| ==> !lt(t[k], u)
    ensures CountLess(t, u, lt) == 0
  {
    if |t| != 0 {
      CountLessNone(t[1..], u, lt);
    }
  }

  /** A sorted list has no inversions, so its sort sign is +1. */
  lemma {:induction false} SortedNoInversions<T>(s: seq<T>, lt: (T, T) -> bool)
    requires Sorted(s, lt)
    ensures Inv(s, lt) == 0
  {
    if |s| != 0 {
      forall k | 0 <= k < |s[1..]| ensures !lt(s[1..][k], s[0]) {
        assert s[1..][k] == s[k + 1];
      }
      CountLessNone(s[1..], s[0], lt);
      SortedNoInversions(s[1..], lt);
    }
  }

  /**
   * `min(range(i, n), key=a.__getitem__)`: the first position of a minimum of
   * the suffix a[i..n].
   */
  method MinIndex<T(!new)>(a: array<T>, i: nat, lt: (T, T) -> bool) returns (j: nat)
    requires StrictTotalOrder(lt)
    requires i < a.Length
    ensures i <= j < a.Length
    ensures forall l :: i <= l < a.Length ==> !lt(a[l], a[j])
    ensures forall l :: i <= l < j ==> lt(a[j], a[l])
  {
    j := i;
    var k := i + 1;
    while k < a.Length
      invariant i <= j < k <= a.Length
      invariant forall l :: i <= l < k ==> !lt(a[l], a[j])
      invariant forall l :: i <= l < j ==> lt(a[j], a[l])
    {
      if lt(a[k], a[j]) {
        j := k;
      }
      k := k + 1;
    }
  }

  /**
   * The selection sort of gcaops: for each position i, find the first position of
   * a minimum of the suffix and swap it into place, flipping the sign on every
   * actual swap. The list ends sorted in place; for a list without repetitions
   * the result is the sign of the sorting permutation, and an already sorted
   * list is left alone with sign +1.
   */
  method SelectionSort<T(!new)>(a: array<T>, lt: (T, T) -> bool) returns (sign: int)
    requires StrictTotalOrder(lt)
    modifies a
    ensures Sorted(a[..], lt)
    ensures multiset(a[..]) == multiset(old(a[..]))
    ensures sign == 1 || sign == -1
    ensures Distinct(old(a[..])) ==> sign == SortSign(old(a[..]), lt)
    ensures Sorted(old(a[..]), lt) ==> sign == 1 && a[..] == old(a[..])
  {
    ghost var original := a[..];
    sign := 1;
    var n := a.Length;
    var i := 0;
    while i + 1 < n
      invariant 0 <= i && (n == 0 || i <= n - 1)
      invariant sign == 1 || sign == -1
      invariant multiset(a[..]) == multiset(original)
      invariant PrefixPlaced(a[..], i, lt)
      invariant Distinct(original) ==> Distinct(a[..])
      invariant Distinct(original) ==> SortSign(original, lt) == if sign == 1 then SortSign(a[..], lt) else -SortSign(a[..], lt)
      invariant Sorted(original, lt) ==> sign == 1 && a[..] == original
    {
      var swapped := PlaceMinimum(a, i, lt);
      if swapped {
        sign := -sign;
      }
      i := i + 1;
    }
    PrefixPlacedSorted(a[..], lt);
    SortedNoInversions(a[..], lt);
  }

  /**
   * One pass of the outer loop of `selection_sort`: find the first minimum of
   * a[i..] and swap it into position i, unless it is already there.
   */
  method PlaceMinimum<T(!new)>(a: array<T>, i: nat, lt: (T, T) -> bool) returns (swapped: bool)
    requires StrictTotalOrder(lt)
    requires i < a.Length && PrefixPlaced(a[..], i, lt)
    modifies a
    ensures multiset(a[..]) == multiset(old(a[..]))
    ensures PrefixPlaced(a[..], i + 1, lt)
    ensures !swapped ==> a[..] == old(a[..])
    ensures swapped ==> !Sorted(old(a[..]), lt)
    ensures Distinct(old(a[..])) ==> Distinct(a[..])
    ensures Distinct(old(a[..])) ==> SortSign(a[..], lt) == if swapped then -SortSign(old(a[..]), lt) else SortSign(old(a[..]), lt)
  {
    var j := MinIndex(a, i, lt);
    ghost var before := a[..];
    swapped := i != j;
    if swapped {
      a[i], a[j] := a[j], a[i];
      assert a[..] == before[i := before[j]][j := before[i]];
      SwapKeeps(before, a[..], i, j, lt);
    } else {
      PlaceStep(before, i, lt);
    }
  }

  /** The first i positions hold, in order, the i smallest values: none is above anything after it. */
  ghost predicate PrefixPlaced<T>(s: seq<T>, i: nat, lt: (T, T) -> bool)
  {
    forall p, q :: 0 <= p < i && p < q < |s| ==> !lt(s[q], s[p])
  }

  /** With the minimum of the suffix at position i, the placed prefix grows by one. */
  lemma PlaceStep<T>(s: seq<T>, i: nat, lt: (T, T) -> bool)
    requires i < |s|
    requires PrefixPlaced(s, i, lt)
    requires forall l :: i <= l < |s| ==> !lt(s[l], s[i])
    ensures PrefixPlaced(s, i + 1, lt)
  {
  }

  lemma PrefixPlacedSorted<T>(s: seq<T>, lt: (T, T) -> bool)
    requires |s| == 0 || PrefixPlaced(s, |s| - 1, lt)
    ensures Sorted(s, lt)
  {
  }

  /**
   * What one swap of SelectionSort preserves: the elements, the placed prefix
   * (now one longer), distinctness and the signed parity; and a sorted list is
   * never swapped.
   */
  lemma SwapKeeps<T(!new)>(before: seq<T>, after: seq<T>, i: nat, j: nat, lt: (T, T) -> bool)
    requires StrictTotalOrder(lt)
    requires i < j < |before| == |after|
    requires after == before[i := before[j]][j := before[i]]
    requires PrefixPlaced(before, i, lt)
    requires forall l :: i <= l < |before| ==> !lt(before[l], before[j])
    requires lt(before[j], before[i])
    ensures multiset(after) == multiset(before)
    ensures PrefixPlaced(after, i + 1, lt)
    ensures !Sorted(before, lt)
    ensures Distinct(before) ==> Distinct(after) && SortSign(after, lt) == -SortSign(before, lt)
  {
    SwapMultiset(before, after, i, j);
    SwapPlaced(before, after, i, j, lt);
    assert !Sorted(before, lt) by {
      assert lt(before[j], before[i]);
    }
    if Distinct(before) {
      SwapDistinct(before, after, i, j);
      SwapSign(before, after, i, j, lt);
    }
  }

  lemma SwapMultiset<T>(before: seq<T>, after: seq<T>, i: nat, j: nat)
    requires i < j < |before|
    requires after == before[i := before[j]][j := before[i]]
    ensures multiset(after) == multiset(before)
  {
    var mid := before[i := before[j]];
    assert multiset(mid) == multiset(before) - multiset{before[i]} + multiset{before[j]};
  }

  lemma SwapDistinct<T>(before: seq<T>, after: seq<T>, i: nat, j: nat)
    requires i < j < |before|
    requires after == before[i := before[j]][j := before[i]]
    requires Distinct(before)
    ensures Distinct(after)
  {
    forall p, q | 0 <= p < q < |after| ensures after[p] != after[q] {
      var p' := if p == i then j else if p == j then i else p;
      var q' := if q == i then j else if q == j then i else q;
      assert after[p] == before[p'] && after[q] == before[q'];
      if p' < q' {
        assert before[p'] != before[q'];
      } else {
        assert before[q'] != before[p'];
      }
    }
  }

  /** The swap brings the minimum of the suffix to position i and keeps the placed prefix. */
  lemma SwapPlaced<T>(before: seq<T>, after: seq<T>, i: nat, j: nat, lt: (T, T) -> bool)
    requires i < j < |before|
    requires after == before[i := before[j]][j := before[i]]
    requires PrefixPlaced(before, i, lt)
    requires forall l :: i <= l < |before| ==> !lt(before[l], before[j])
    ensures PrefixPlaced(after, i + 1, lt)
  {
    forall p, q | 0 <= p < i + 1 && p < q < |after| ensures !lt(after[q], after[p]) {
      var q' := if q == i then j else if q == j then i else q;
      assert after[q] == before[q'];
      if p == i {
        assert after[p] == before[j];
      } else {
        assert after[p] == before[p];
      }
    }
  }

  /** The sign bookkeeping of one swap of SelectionSort. */
  lemma SwapSign<T(!new)>(before: seq<T>, after: seq<T>, i: nat, j: nat, lt: (T, T) -> bool)
    requires StrictTotalOrder(lt)
    requires i < j < |before| == |after|
    requires Distinct(before)
    requires after == before[i := before[j]][j := before[i]]
    ensures SortSign(after, lt) == -SortSign(before, lt)
  {
    var a, x, m, y, b := before[..i], before[i], before[i + 1..j], before[j], before[j + 1..];
    assert before == a + [x] + m + [y] + b;
    assert after == a + [y] + m + [x] + b;
    forall k | 0 <= k < |m| ensures m[k] != x && m[k] != y {
      assert m[k] == before[i + 1 + k];
    }
    SwapFlipsParity(a, x, m, y, b, lt);
  }

  /** `selection_sort(list(s))` on a list of distinct integers: the sorted copy is dropped, the sign kept. */
  method SortSignOf(s: seq<int>) returns (sign: int)
    requires Distinct(s)
    ensures sign == SortSign(s, IntLess)
  {
    IntLessIsStrictTotalOrder();
    var a := new int[|s|](k requires 0 <= k < |s| => s[k]);
    assert a[..] == s;
    sign := SelectionSort(a, IntLess);
  }

  /** `s.index(x)` when x occurs in s; |s| (standing for ValueError) when it does not. */
  function IndexOf<T(==)>(s: seq<T>, x: T): (r: nat)
    ensures r <= |s|
    ensures r < |s| ==> s[r] == x
    ensures forall k :: 0 <= k < r ==> s[k] != x
  {
    if |s| == 0 then 0 else if s[0] == x then 0 else 1 + IndexOf(s[1..], x)
  }

  /** A permutation of range(n), given in one-line notation. */
  ghost predicate IsPermutation(p: seq<int>, n: nat)
  {
    && |p| == n
    && (forall k :: 0 <= k < n ==> 0 <= p[k] < n)
    && Distinct(p)
  }
}
