/**
 * Superfunctions: polynomials in n odd coordinates xi_0 .. xi_{n-1} with
 * coefficients in the base ring (gcaops/algebra/superfunction_algebra.py).
 * The monomials of degree d are the strictly increasing d-tuples of coordinates,
 * listed in `itertools.combinations` order; a superfunction stores, per degree,
 * the list of coefficients of those monomials. The coefficient ring is `int`.
 */
module SuperfunctionAlgebras {
  import opened Wrappers
  import opened Combinatorics
  import opened Parity

  // ---------------------------------------------------------------------------
  // keydefaultdict
  // ---------------------------------------------------------------------------

  datatype KeyError = KeyError

  /**
   * A dictionary whose factory receives the missing key. A miss stores and
   * returns `factory(key)`; without a factory a miss raises KeyError.
   */
  class KeyDefaultDict<K(==), V> {
    var store: map<K, V>
    const factory: Option<K -> V>

    constructor (factory: Option<K -> V>)
      ensures store == map[] && this.factory == factory
    {
      store := map[];
      this.factory := factory;
    }

    /** `self[key]`, going through `__missing__` on a miss. */
    method Get(key: K) returns (r: Result<V, KeyError>)
      modifies this
      ensures key in old(store) ==> r == Ok(old(store)[key]) && store == old(store)
      ensures key !in old(store) && factory.None? ==> r == Err(KeyError) && store == old(store)
      ensures key !in old(store) && factory.Some? ==>
        r == Ok(factory.value(key)) && store == old(store)[key := factory.value(key)]
    {
      if key in store {
        return Ok(store[key]);
      }
      match factory {
        case None =>
          return Err(KeyError);
        case Some(f) =>
          var ret := f(key);
          store := store[key := ret];
          return Ok(ret);
      }
    }

    /** `self[key] = value`. */
    method Set(key: K, value: V)
      modifies this
      ensures store == old(store)[key := value]
    {
      store := store[key := value];
    }
  }

  /** A value fetched once is stored: the next lookup of the same key returns it again. */
  method GetTwice<K(==), V>(d: KeyDefaultDict<K, V>, key: K) returns (first: Result<V, KeyError>, second: Result<V, KeyError>)
    modifies d
    ensures first.Ok? ==> second == first
    ensures first.Err? ==> d.factory.None? && key !in d.store
  {
    first := d.Get(key);
    second := d.Get(key);
  }

  // ---------------------------------------------------------------------------
  // The monomial basis
  // ---------------------------------------------------------------------------

  /** `_basis[d]`: the d-subsets of range(n) as increasing tuples, in combinations order. */
  function Basis(n: nat, d: nat): seq<seq<int>>
  {
    Combinations(Range(0, n), d)
  }

  /** `dimension(d)`, the length of the basis of degree d. */
  function Dimension(n: nat, d: nat): (r: nat)
    ensures r == Binomial(n, d)
  {
    CombinationsCount(Range(0, n), d);
    |Basis(n, d)|
  }

  lemma RangeIncreasing(n: nat)
    ensures StrictlyIncreasing(Range(0, n))
  {
  }

  /** Each basis monomial of degree d is a strictly increasing d-tuple of coordinates 0 .. n-1. */
  lemma BasisMonomial(n: nat, d: nat, k: nat)
    requires k < Dimension(n, d)
    ensures |Basis(n, d)[k]| == d && StrictlyIncreasing(Basis(n, d)[k])
    ensures forall x :: x in Basis(n, d)[k] ==> 0 <= x < n
  {
    RangeIncreasing(n);
    CombinationAt(Range(0, n), d, k);
  }

  /** Every strictly increasing tuple of coordinates is a basis monomial of its length. */
  lemma BasisComplete(n: nat, d: nat, c: seq<int>)
    requires StrictlyIncreasing(c) && |c| == d
    requires forall x :: x in c ==> 0 <= x < n
    ensures c in Basis(n, d)
    ensures IndexOf(Basis(n, d), c) < Dimension(n, d)
  {
    RangeIncreasing(n);
    forall x | x in c ensures x in Range(0, n) {
      assert Range(0, n)[x] == x;
    }
    CombinationComplete(Range(0, n), c);
  }

  // ---------------------------------------------------------------------------
  // Sorted merges: the reference for the product of two monomials
  // ---------------------------------------------------------------------------

  /** The merge of two increasing lists. */
  function Merge(l: seq<int>, r: seq<int>): seq<int>
    decreases |l| + |r|
  {
    if |l| == 0 then r
    else if |r| == 0 then l
    else if l[0] < r[0] then [l[0]] + Merge(l[1..], r)
    else [r[0]] + Merge(l, r[1..])
  }

  predicate Disjoint(l: seq<int>, r: seq<int>)
  {
    forall x :: x in l ==> x !in r
  }

  /** Merging keeps every element of both lists, with its multiplicity. */
  lemma {:induction false} MergeMultiset(l: seq<int>, r: seq<int>)
    ensures multiset(Merge(l, r)) == multiset(l) + multiset(r)
    decreases |l| + |r|
  {
    if |l| != 0 && |r| != 0 {
      if l[0] < r[0] {
        MergeMultiset(l[1..], r);
        ConsMultiset(l[0], Merge(l[1..], r));
        ConsMultiset(l[0], l[1..]);
        assert [l[0]] + l[1..] == l;
      } else {
        MergeMultiset(l, r[1..]);
        ConsMultiset(r[0], Merge(l, r[1..]));
        ConsMultiset(r[0], r[1..]);
        assert [r[0]] + r[1..] == r;
      }
    }
  }

  lemma ConsMultiset(x: int, t: seq<int>)
    ensures multiset([x] + t) == multiset{x} + multiset(t)
  {
  }

  /** Merging two disjoint increasing lists gives an increasing list. */
  lemma {:induction false} MergeIncreasing(l: seq<int>, r: seq<int>)
    requires StrictlyIncreasing(l) && StrictlyIncreasing(r) && Disjoint(l, r)
    ensures StrictlyIncreasing(Merge(l, r))
    decreases |l| + |r|
  {
    if |l| != 0 && |r| != 0 {
      if l[0] < r[0] {
        MergeIncreasing(l[1..], r);
        TailAbove(l);
        forall y | y in r ensures l[0] < y {
          HeadIsMin(r, y);
        }
        HeadBelowMerge(l[0], l[1..], r);
      } else {
        assert l[0] != r[0] by {
          assert l[0] in l;
        }
        DisjointTail(l, r);
        MergeIncreasing(l, r[1..]);
        TailAbove(r);
        forall y | y in l ensures r[0] < y {
          HeadIsMin(l, y);
        }
        HeadBelowMerge(r[0], l, r[1..]);
      }
    }
  }

  lemma TailAbove(s: seq<int>)
    requires StrictlyIncreasing(s) && |s| != 0
    ensures forall y :: y in s[1..] ==> s[0] < y
  {
    forall y | y in s[1..] ensures s[0] < y {
      var k :| 0 <= k < |s[1..]| && s[1..][k] == y;
      assert s[k + 1] == y;
    }
  }

  lemma DisjointTail(l: seq<int>, r: seq<int>)
    requires Disjoint(l, r) && |r| != 0
    ensures Disjoint(l, r[1..])
  {
    forall x | x in l ensures x !in r[1..] {
      forall k | 0 <= k < |r[1..]| ensures r[1..][k] != x {
        assert r[1..][k] == r[k + 1] && r[k + 1] in r;
      }
    }
  }

  /** A value below both merged lists can head their merge. */
  lemma HeadBelowMerge(x: int, a: seq<int>, b: seq<int>)
    requires StrictlyIncreasing(Merge(a, b))
    requires forall y :: y in a ==> x < y
    requires forall y :: y in b ==> x < y
    ensures StrictlyIncreasing([x] + Merge(a, b))
  {
    MergeMultiset(a, b);
    forall y | y in multiset(a) + multiset(b) ensures x < y {
      assert y in a || y in b;
    }
    HeadBelow(x, Merge(a, b), multiset(a) + multiset(b));
  }

  /** Prepending an element below everything in a strictly increasing list keeps it strictly increasing. */
  lemma HeadBelow(x: int, m: seq<int>, elems: multiset<int>)
    requires StrictlyIncreasing(m) && multiset(m) == elems
    requires forall y :: y in elems ==> x < y
    ensures StrictlyIncreasing([x] + m)
  {
    forall p, q | 0 <= p < q < |[x] + m| ensures ([x] + m)[p] < ([x] + m)[q] {
      assert ([x] + m)[q] == m[q - 1];
      assert m[q - 1] in multiset(m);
      if p != 0 {
        assert ([x] + m)[p] == m[p - 1];
      }
    }
  }

  lemma HeadIsMin(s: seq<int>, x: int)
    requires StrictlyIncreasing(s) && x in s
    ensures s[0] <= x
  {
    var k :| 0 <= k < |s| && s[k] == x;
    if k != 0 {
      assert s[0] < s[k];
    }
  }

  /** An increasing list is determined by its elements. */
  lemma {:induction false} IncreasingUnique(s: seq<int>, t: seq<int>)
    requires StrictlyIncreasing(s) && StrictlyIncreasing(t)
    requires multiset(s) == multiset(t)
    ensures s == t
  {
    assert |t| == |multiset(t)| == |multiset(s)| == |s|;
    if |s| != 0 {
      assert s[0] in multiset(s) && t[0] in multiset(t);
      HeadIsMin(t, s[0]);
      HeadIsMin(s, t[0]);
      var x := s[0];
      assert s == [x] + s[1..] && t == [x] + t[1..];
      assert multiset(s) == multiset{x} + multiset(s[1..]);
      assert multiset(t) == multiset{x} + multiset(t[1..]);
      assert multiset(s[1..]) == multiset(s) - multiset{x};
      assert multiset(t[1..]) == multiset(t) - multiset{x};
      TailIncreasing(s);
      TailIncreasing(t);
      IncreasingUnique(s[1..], t[1..]);
    }
  }

  // ---------------------------------------------------------------------------
  // _mul_on_basis
  // ---------------------------------------------------------------------------

  /**
   * What `_mul_on_basis` returns: nothing (with sign 1) when the degrees exceed
   * n or the monomials share a coordinate; otherwise the position of the merged
   * monomial in the basis of degree d1 + d2 and the sign of the reordering
   * that sorts the concatenation.
   */
  function MulOnBasisSpec(n: nat, d1: nat, k1: nat, d2: nat, k2: nat): (Option<nat>, int)
    requires d1 + d2 > n || (k1 < Dimension(n, d1) && k2 < Dimension(n, d2))
  {
    if d1 + d2 > n then (None, 1)
    else
      var left, right := Basis(n, d1)[k1], Basis(n, d2)[k2];
      if !Disjoint(left, right) then (None, 1)
      else (Some(IndexOf(Basis(n, d1 + d2), Merge(left, right))), SortSign(left + right, IntLess))
  }

  /**
   * `_mul_on_basis(degree1, k1, degree2, k2)`: concatenate the two monomials,
   * selection-sort the concatenation counting swaps, give up on a repeated
   * coordinate, and look the sorted tuple up in the basis.
   */
  method MulOnBasis(n: nat, d1: nat, k1: nat, d2: nat, k2: nat) returns (prod: Option<nat>, sign: int)
    requires d1 + d2 > n || (k1 < Dimension(n, d1) && k2 < Dimension(n, d2))
    ensures (prod, sign) == MulOnBasisSpec(n, d1, k1, d2, k2)
  {
    if d1 + d2 > n {
      return None, 1;
    }
    var left := Basis(n, d1)[k1];
    var right := Basis(n, d2)[k2];
    var sorted, repeat;
    sorted, sign, repeat := SortConcatenation(left, right);
    if repeat.Some? {
      assert !Disjoint(left, right) by {
        BasisMonomial(n, d1, k1);
        BasisMonomial(n, d2, k2);
        SharedFromRepeat(left, right, sorted, repeat.value);
      }
      return None, 1;
    }
    assert StrictlyIncreasing(sorted) by {
      AdjacentDistinctIncreasing(sorted);
    }
    ProductFromSorted(n, d1, k1, d2, k2, sorted);
    prod := Some(IndexOf(Basis(n, d1 + d2), sorted));
  }

  /**
   * The list `left + right` selection-sorted in place with its swaps counted,
   * then scanned for a coordinate that occurs twice.
   */
  method SortConcatenation(left: seq<int>, right: seq<int>) returns (sorted: seq<int>, sign: int, repeat: Option<nat>)
    ensures Sorted(sorted, IntLess) && multiset(sorted) == multiset(left + right)
    ensures Distinct(left + right) ==> sign == SortSign(left + right, IntLess)
    ensures repeat.Some? ==> repeat.value + 1 < |sorted| && sorted[repeat.value] == sorted[repeat.value + 1]
    ensures repeat.None? ==> forall l :: 0 <= l < |sorted| - 1 ==> sorted[l] != sorted[l + 1]
  {
    var cat := left + right;
    var lst := new int[|cat|](i requires 0 <= i < |cat| => cat[i]);
    assert lst[..] == cat;
    IntLessIsStrictTotalOrder();
    sign := SelectionSort(lst, IntLess);
    repeat := FindRepeat(lst);
    sorted := lst[..];
  }

  /** The first position i with a[i] == a[i + 1], if there is one. */
  method FindRepeat(a: array<int>) returns (r: Option<nat>)
    ensures r.Some? ==> r.value + 1 < a.Length && a[r.value] == a[r.value + 1]
    ensures r.None? ==> forall l :: 0 <= l < a.Length - 1 ==> a[l] != a[l + 1]
  {
    var i := 0;
    while i + 1 < a.Length
      invariant 0 <= i && (i < a.Length || i == 0)
      invariant forall l :: 0 <= l < i && l + 1 < a.Length ==> a[l] != a[l + 1]
    {
      if a[i] == a[i + 1] {
        return Some(i);
      }
      i := i + 1;
    }
    return None;
  }

  /** When the sorted concatenation has no repeat, it is the merge, found in the basis. */
  lemma ProductFromSorted(n: nat, d1: nat, k1: nat, d2: nat, k2: nat, sorted: seq<int>)
    requires d1 + d2 <= n && k1 < Dimension(n, d1) && k2 < Dimension(n, d2)
    requires StrictlyIncreasing(sorted)
    requires multiset(sorted) == multiset(Basis(n, d1)[k1] + Basis(n, d2)[k2])
    ensures Distinct(Basis(n, d1)[k1] + Basis(n, d2)[k2])
    ensures MulOnBasisSpec(n, d1, k1, d2, k2)
         == (Some(IndexOf(Basis(n, d1 + d2), sorted)), SortSign(Basis(n, d1)[k1] + Basis(n, d2)[k2], IntLess))
  {
    var left, right := Basis(n, d1)[k1], Basis(n, d2)[k2];
    BasisMonomial(n, d1, k1);
    BasisMonomial(n, d2, k2);
    DisjointFromIncreasing(left, right, sorted);
    MergeIncreasing(left, right);
    MergeMultiset(left, right);
    IncreasingUnique(sorted, Merge(left, right));
  }

  /** A repeat in the sorted concatenation of two increasing lists is a shared coordinate. */
  lemma SharedFromRepeat(l: seq<int>, r: seq<int>, s: seq<int>, i: nat)
    requires StrictlyIncreasing(l) && StrictlyIncreasing(r)
    requires multiset(s) == multiset(l + r)
    requires i + 1 < |s| && s[i] == s[i + 1]
    ensures !Disjoint(l, r)
  {
    var x := s[i];
    CountAtLeastTwo(s, i, i + 1);
    CountAtMostOne(l, x);
    CountAtMostOne(r, x);
    assert multiset(l + r)[x] == multiset(l)[x] + multiset(r)[x];
    assert x in l && x in r;
  }

  lemma AdjacentDistinctIncreasing(s: seq<int>)
    requires Sorted(s, IntLess)
    requires forall l :: 0 <= l < |s| - 1 ==> s[l] != s[l + 1]
    ensures StrictlyIncreasing(s)
  {
    forall p, q | 0 <= p < q < |s| ensures s[p] < s[q] {
      assert s[p] <= s[p + 1] && s[p] != s[p + 1];
    }
  }

  /** Two lists whose concatenation rearranges an increasing list have no coordinate in common. */
  lemma DisjointFromIncreasing(l: seq<int>, r: seq<int>, s: seq<int>)
    requires StrictlyIncreasing(s) && multiset(s) == multiset(l + r)
    ensures Disjoint(l, r) && Distinct(l + r)
  {
    MultisetDistinct(l + r, s);
    forall x | x in l ensures x !in r {
      var p :| 0 <= p < |l| && l[p] == x;
      forall q | 0 <= q < |r| ensures r[q] != x {
        assert (l + r)[p] != (l + r)[|l| + q];
      }
    }
  }

  /** A non-zero product of two basis monomials is the basis monomial holding both sets of coordinates. */
  lemma MulOnBasisProduct(n: nat, d1: nat, k1: nat, d2: nat, k2: nat)
    requires k1 < Dimension(n, d1) && k2 < Dimension(n, d2)
    requires MulOnBasisSpec(n, d1, k1, d2, k2).0.Some?
    ensures MulOnBasisSpec(n, d1, k1, d2, k2).0.value < Dimension(n, d1 + d2)
    ensures var m := Basis(n, d1 + d2)[MulOnBasisSpec(n, d1, k1, d2, k2).0.value];
      StrictlyIncreasing(m) && multiset(m) == multiset(Basis(n, d1)[k1] + Basis(n, d2)[k2])
  {
    var left, right := Basis(n, d1)[k1], Basis(n, d2)[k2];
    assert Disjoint(left, right) && MulOnBasisSpec(n, d1, k1, d2, k2).0.value == IndexOf(Basis(n, d1 + d2), Merge(left, right));
    assert |left| == d1 && |right| == d2 && StrictlyIncreasing(left) && StrictlyIncreasing(right)
      && (forall x :: x in left ==> 0 <= x < n) && (forall x :: x in right ==> 0 <= x < n) by {
      BasisMonomial(n, d1, k1);
      BasisMonomial(n, d2, k2);
    }
    MergedBasisMonomial(n, d1, d2, left, right);
  }

  lemma MergedBasisMonomial(n: nat, d1: nat, d2: nat, left: seq<int>, right: seq<int>)
    requires |left| == d1 && |right| == d2
    requires StrictlyIncreasing(left) && StrictlyIncreasing(right) && Disjoint(left, right)
    requires forall x :: x in left ==> 0 <= x < n
    requires forall x :: x in right ==> 0 <= x < n
    ensures IndexOf(Basis(n, d1 + d2), Merge(left, right)) < Dimension(n, d1 + d2)
    ensures var m := Basis(n, d1 + d2)[IndexOf(Basis(n, d1 + d2), Merge(left, right))];
      StrictlyIncreasing(m) && multiset(m) == multiset(left + right)
  {
    MergedMonomial(n, left, right);
  }

  /** The merge of two disjoint monomials is a basis monomial of the summed degree. */
  lemma MergedMonomial(n: nat, left: seq<int>, right: seq<int>)
    requires StrictlyIncreasing(left) && StrictlyIncreasing(right) && Disjoint(left, right)
    requires forall x :: x in left ==> 0 <= x < n
    requires forall x :: x in right ==> 0 <= x < n
    ensures IndexOf(Basis(n, |left| + |right|), Merge(left, right)) < Dimension(n, |left| + |right|)
    ensures StrictlyIncreasing(Merge(left, right))
    ensures multiset(Merge(left, right)) == multiset(left + right)
  {
    var m := Merge(left, right);
    assert StrictlyIncreasing(m) by {
      MergeIncreasing(left, right);
    }
    assert multiset(m) == multiset(left + right) by {
      MergeMultiset(left, right);
    }
    RearrangedMonomial(n, left, right, m);
  }

  /** An increasing rearrangement of two bounded lists is a basis monomial of their summed length. */
  lemma RearrangedMonomial(n: nat, left: seq<int>, right: seq<int>, m: seq<int>)
    requires StrictlyIncreasing(m) && multiset(m) == multiset(left + right)
    requires forall x :: x in left ==> 0 <= x < n
    requires forall x :: x in right ==> 0 <= x < n
    ensures IndexOf(Basis(n, |left| + |right|), m) < Dimension(n, |left| + |right|)
  {
    MergedBounded(n, left, right, m);
    BasisComplete(n, |m|, m);
  }

  /** A rearrangement of two bounded lists is bounded and as long as both together. */
  lemma MergedBounded(n: nat, left: seq<int>, right: seq<int>, m: seq<int>)
    requires multiset(m) == multiset(left + right)
    requires forall x :: x in left ==> 0 <= x < n
    requires forall x :: x in right ==> 0 <= x < n
    ensures |m| == |left| + |right|
    ensures forall x :: x in m ==> 0 <= x < n
  {
    forall x | x in m ensures 0 <= x < n {
      assert x in multiset(m);
      assert x in multiset(left) + multiset(right);
      assert x in left || x in right;
    }
    assert |multiset(m)| == |multiset(left + right)|;
  }

  lemma {:induction false} CrossEmptyRight(t: seq<int>)
    ensures Cross(t, [], IntLess) == 0
  {
    if |t| != 0 {
      CrossEmptyRight(t[1..]);
    }
  }

  /** Sign of exchanging two increasing disjoint blocks: (-1)^(|l| |r|). */
  lemma {:induction false} CrossSwap(a: seq<int>, t: seq<int>)
    requires Disjoint(a, t)
    ensures Cross(a, t, IntLess) + Cross(t, a, IntLess) == |a| * |t|
  {
    if |a| == 0 {
      CrossEmptyRight(t);
    } else {
      assert a[0] in a;
      forall x | x in a[1..] ensures x !in t {
        assert x in a;
      }
      CrossSwap(a[1..], t);
      assert a == [a[0]] + a[1..];
      CrossConcatRight(t, [a[0]], a[1..], IntLess);
      CrossSingletonRight(t, a[0], IntLess);
      IntTrichotomy(t, a[0]);
      assert |a| * |t| == |t| + (|a| - 1) * |t| by {
        MulPred(|a|, |t|);
      }
    }
  }

  lemma IntTrichotomy(t: seq<int>, u: int)
    requires u !in t
    ensures CountLess(t, u, IntLess) + CountGreater(t, u, IntLess) == |t|
  {
    IntLessIsStrictTotalOrder();
    Trichotomy(t, u, IntLess);
  }

  lemma MulPred(m: nat, n: nat)
    requires m > 0
    ensures m * n == n + (m - 1) * n
  {
  }

  /** Exchanging two increasing disjoint blocks multiplies the sort sign by (-1)^(|l| |r|). */
  lemma SwapBlocksSign(l: seq<int>, r: seq<int>)
    requires StrictlyIncreasing(l) && StrictlyIncreasing(r) && Disjoint(l, r)
    ensures SortSign(r + l, IntLess) == ParitySign(|l| * |r|) * SortSign(l + r, IntLess)
  {
    assert Sorted(l, IntLess) && Sorted(r, IntLess);
    var x, y := Inv(l + r, IntLess), Inv(r + l, IntLess);
    assert x == Cross(l, r, IntLess) by {
      InvConcat(l, r, IntLess);
      SortedNoInversions(l, IntLess);
      SortedNoInversions(r, IntLess);
    }
    assert y == Cross(r, l, IntLess) by {
      InvConcat(r, l, IntLess);
      SortedNoInversions(l, IntLess);
      SortedNoInversions(r, IntLess);
    }
    CrossSwap(l, r);
    SignOfSum(x, y, |l| * |r|);
  }

  lemma SignOfSum(a: int, b: int, c: int)
    requires a + b == c
    ensures ParitySign(b) == ParitySign(c) * ParitySign(a)
  {
    ParitySignAdd(a, b);
    if ParitySign(a) == 1 {
      assert ParitySign(c) == ParitySign(b);
    } else {
      assert ParitySign(c) == -ParitySign(b);
    }
  }

  /** The merge of two disjoint increasing lists does not depend on their order. */
  lemma MergeSymmetric(l: seq<int>, r: seq<int>)
    requires StrictlyIncreasing(l) && StrictlyIncreasing(r) && Disjoint(l, r)
    ensures Disjoint(r, l) && Merge(r, l) == Merge(l, r)
  {
    MergeIncreasing(l, r);
    MergeMultiset(l, r);
    MergeIncreasing(r, l);
    MergeMultiset(r, l);
    IncreasingUnique(Merge(l, r), Merge(r, l));
  }

  /**
   * Supercommutativity of the basis: multiplying the monomials in the other
   * order gives the same monomial, with the sign changed by (-1)^(d1 d2).
   */
  lemma MulOnBasisSupercommutative(n: nat, d1: nat, k1: nat, d2: nat, k2: nat)
    requires d1 + d2 > n || (k1 < Dimension(n, d1) && k2 < Dimension(n, d2))
    ensures MulOnBasisSpec(n, d2, k2, d1, k1).0 == MulOnBasisSpec(n, d1, k1, d2, k2).0
    ensures MulOnBasisSpec(n, d1, k1, d2, k2).0.Some? ==>
      MulOnBasisSpec(n, d2, k2, d1, k1).1 == ParitySign(d1 * d2) * MulOnBasisSpec(n, d1, k1, d2, k2).1
  {
    if d1 + d2 <= n {
      var left, right := Basis(n, d1)[k1], Basis(n, d2)[k2];
      BasisMonomial(n, d1, k1);
      BasisMonomial(n, d2, k2);
      assert d2 + d1 == d1 + d2;
      if Disjoint(left, right) {
        MergeSymmetric(left, right);
        SwapBlocksSign(left, right);
      } else {
        assert !Disjoint(right, left);
      }
    }
  }

  // ---------------------------------------------------------------------------
  // Superfunction arithmetic
  // ---------------------------------------------------------------------------

  /**
   * A superfunction: for each stored degree d, the list of coefficients of the
   * basis monomials of degree d. A degree that is not stored stands for a list
   * of zeros (the keydefaultdict fills it in on first access).
   */
  datatype Superfunction = Superfunction(coeffs: map<nat, seq<int>>)

  /** Every stored list is as long as the basis of its degree, as the code assumes throughout. */
  ghost predicate WellFormed(n: nat, m: map<nat, seq<int>>)
  {
    forall d :: d in m ==> |m[d]| == Binomial(n, d)
  }

  /** The coefficient of the k-th monomial of degree d. */
  function CoeffOf(m: map<nat, seq<int>>, d: nat, k: nat): int
  {
    if d in m && k < |m[d]| then m[d][k] else 0
  }

  function Zeros(len: nat): (r: seq<int>)
    ensures |r| == len
    ensures forall k :: 0 <= k < len ==> r[k] == 0
  {
    seq(len, k => 0)
  }

  /** The degrees of `keys` whose basis is non-empty, i.e. at most n. */
  function Nonempty(n: nat, keys: set<nat>): (r: set<nat>)
    ensures r <= keys
  {
    set d | d in keys && d <= n
  }

  /**
   * The copy made at the start of `__add__`, `__sub__` and `__mul__`: a degree
   * is written only through its coefficients, so one with an empty list is not copied.
   */
  function Copied(m: map<nat, seq<int>>): (r: map<nat, seq<int>>)
    ensures forall d, k: nat :: CoeffOf(r, d, k) == CoeffOf(m, d, k)
  {
    map d | d in m && |m[d]| != 0 :: m[d]
  }

  lemma CopiedKeys(n: nat, m: map<nat, seq<int>>)
    requires WellFormed(n, m)
    ensures WellFormed(n, Copied(m)) && Copied(m).Keys == Nonempty(n, m.Keys)
  {
    forall d | d in m {
      BinomialZero(n, d);
    }
  }

  /** `monomial_coefficients[d]` of the keydefaultdict: the stored list, or a new list of zeros. */
  function Block(n: nat, m: map<nat, seq<int>>, d: nat): seq<int>
  {
    if d in m then m[d] else Zeros(Binomial(n, d))
  }

  /**
   * `monomial_coefficients[d][k] += block[k]` (or `-=`) for every k: the inner
   * loop of `__add__` and `__sub__`.
   */
  method AccumulateBlock(n: nat, m: map<nat, seq<int>>, d: nat, block: seq<int>, subtract: bool)
    returns (m': map<nat, seq<int>>)
    requires WellFormed(n, m) && |block| == Binomial(n, d)
    ensures WellFormed(n, m') && m'.Keys == if |block| == 0 then m.Keys else m.Keys + {d}
    ensures forall e: nat, k: nat ::
              CoeffOf(m', e, k)
                == if e == d && k < |block| then Combined(CoeffOf(m, e, k), block[k], subtract)
                   else CoeffOf(m, e, k)
  {
    if |block| == 0 {
      // The loop over k does not run, so the degree is never looked up.
      return m;
    }
    var b := Block(n, m, d);
    var k := 0;
    while k < |block|
      invariant 0 <= k <= |block| == |b|
      invariant forall l :: 0 <= l < |b| ==>
                  b[l] == if l < k then Combined(CoeffOf(m, d, l), block[l], subtract) else CoeffOf(m, d, l)
    {
      b := b[k := if subtract then b[k] - block[k] else b[k] + block[k]];
      k := k + 1;
    }
    m' := m[d := b];
  }

  /** `a + b`, or `a - b` when subtracting. */
  function Combined(a: int, b: int, subtract: bool): int
  {
    if subtract then a - b else a + b
  }

  lemma NonemptyGrow(n: nat, keys: set<nat>, d: nat)
    ensures Nonempty(n, keys + {d}) == if d <= n then Nonempty(n, keys) + {d} else Nonempty(n, keys)
  {
  }

  /** `__add__` (subtract false) and `__sub__` (subtract true) of two superfunctions. */
  method Combine(n: nat, f: Superfunction, g: Superfunction, subtract: bool) returns (h: Superfunction)
    requires WellFormed(n, f.coeffs) && WellFormed(n, g.coeffs)
    ensures WellFormed(n, h.coeffs)
    ensures h.coeffs.Keys == Nonempty(n, f.coeffs.Keys + g.coeffs.Keys)
    ensures forall d: nat, k: nat ::
              CoeffOf(h.coeffs, d, k) == Combined(CoeffOf(f.coeffs, d, k), CoeffOf(g.coeffs, d, k), subtract)
  {
    CopiedKeys(n, f.coeffs);
    var m := Copied(f.coeffs);
    var todo := g.coeffs.Keys;
    while todo != {}
      invariant todo <= g.coeffs.Keys
      invariant WellFormed(n, m)
      invariant m.Keys == Nonempty(n, f.coeffs.Keys + (g.coeffs.Keys - todo))
      invariant forall d: nat, k: nat ::
                  CoeffOf(m, d, k)
                    == if d in todo then CoeffOf(f.coeffs, d, k)
                       else Combined(CoeffOf(f.coeffs, d, k), CoeffOf(g.coeffs, d, k), subtract)
      decreases todo
    {
      var d :| d in todo;
      BinomialZero(n, d);
      ghost var done := f.coeffs.Keys + (g.coeffs.Keys - todo);
      assert f.coeffs.Keys + (g.coeffs.Keys - (todo - {d})) == done + {d};
      NonemptyGrow(n, done, d);
      m := AccumulateBlock(n, m, d, g.coeffs[d], subtract);
      todo := todo - {d};
    }
    h := Superfunction(m);
  }

  /** `f + g`: coefficient-wise sum; neither operand changes. */
  method Add(n: nat, f: Superfunction, g: Superfunction) returns (h: Superfunction)
    requires WellFormed(n, f.coeffs) && WellFormed(n, g.coeffs)
    ensures WellFormed(n, h.coeffs)
    ensures h.coeffs.Keys == Nonempty(n, f.coeffs.Keys + g.coeffs.Keys)
    ensures forall d: nat, k: nat :: CoeffOf(h.coeffs, d, k) == CoeffOf(f.coeffs, d, k) + CoeffOf(g.coeffs, d, k)
  {
    h := Combine(n, f, g, false);
  }

  /** `f - g`: coefficient-wise difference. */
  method Sub(n: nat, f: Superfunction, g: Superfunction) returns (h: Superfunction)
    requires WellFormed(n, f.coeffs) && WellFormed(n, g.coeffs)
    ensures WellFormed(n, h.coeffs)
    ensures h.coeffs.Keys == Nonempty(n, f.coeffs.Keys + g.coeffs.Keys)
    ensures forall d: nat, k: nat :: CoeffOf(h.coeffs, d, k) == CoeffOf(f.coeffs, d, k) - CoeffOf(g.coeffs, d, k)
  {
    h := Combine(n, f, g, true);
  }

  /**
   * `f + c` (subtract false) or `f - c` (subtract true) for a base-ring element c:
   * only the coefficient of the constant monomial changes.
   */
  method AddScalar(n: nat, f: Superfunction, c: int, subtract: bool) returns (h: Superfunction)
    requires WellFormed(n, f.coeffs)
    ensures WellFormed(n, h.coeffs) && h.coeffs.Keys == Nonempty(n, f.coeffs.Keys) + {0}
    ensures CoeffOf(h.coeffs, 0, 0) == if subtract then CoeffOf(f.coeffs, 0, 0) - c else CoeffOf(f.coeffs, 0, 0) + c
    ensures forall d: nat, k: nat :: (d, k) != (0, 0) ==> CoeffOf(h.coeffs, d, k) == CoeffOf(f.coeffs, d, k)
  {
    CopiedKeys(n, f.coeffs);
    var m := Copied(f.coeffs);
    var b := Block(n, m, 0);
    assert |b| == 1;
    b := b[0 := if subtract then b[0] - c else b[0] + c];
    m := m[0 := b];
    h := Superfunction(m);
  }

  /** `[block[k] * c for k]`: the inner loop of `__mul__` by a base-ring element. */
  method ScaleBlock(block: seq<int>, c: int) returns (r: seq<int>)
    ensures |r| == |block|
    ensures forall k :: 0 <= k < |block| ==> r[k] == block[k] * c
  {
    r := block;
    var k := 0;
    while k < |block|
      invariant 0 <= k <= |block| == |r|
      invariant forall l :: 0 <= l < |block| ==> r[l] == if l < k then block[l] * c else block[l]
    {
      r := r[k := block[k] * c];
      k := k + 1;
    }
  }

  /** `f * c` for a base-ring element c: every coefficient scaled, the stored degrees kept. */
  method Scale(n: nat, f: Superfunction, c: int) returns (h: Superfunction)
    requires WellFormed(n, f.coeffs)
    ensures WellFormed(n, h.coeffs) && h.coeffs.Keys == Nonempty(n, f.coeffs.Keys)
    ensures forall d: nat, k: nat :: CoeffOf(h.coeffs, d, k) == CoeffOf(f.coeffs, d, k) * c
  {
    var m: map<nat, seq<int>> := map[];
    var todo := f.coeffs.Keys;
    while todo != {}
      invariant todo <= f.coeffs.Keys
      invariant WellFormed(n, m)
      invariant m.Keys == Nonempty(n, f.coeffs.Keys - todo)
      invariant forall d: nat, k: nat :: CoeffOf(m, d, k) == if d in todo then 0 else CoeffOf(f.coeffs, d, k) * c
      decreases todo
    {
      var d :| d in todo;
      BinomialZero(n, d);
      var b := ScaleBlock(f.coeffs[d], c);
      if |b| != 0 {
        m := m[d := b];
      }
      todo := todo - {d};
    }
    h := Superfunction(m);
  }

  /** `-f`: every coefficient negated (in the integers, -x is x * -1). */
  method Neg(n: nat, f: Superfunction) returns (h: Superfunction)
    requires WellFormed(n, f.coeffs)
    ensures WellFormed(n, h.coeffs) && h.coeffs.Keys == Nonempty(n, f.coeffs.Keys)
    ensures forall d: nat, k: nat :: CoeffOf(h.coeffs, d, k) == -CoeffOf(f.coeffs, d, k)
  {
    h := Scale(n, f, -1);
  }

  // ---- the product of two superfunctions ----

  /** A basis monomial with its coefficient. */
  datatype Term = Term(degree: nat, index: nat, coeff: int)

  predicate ValidTerm(n: nat, t: Term)
  {
    t.index < Binomial(n, t.degree)
  }

  /** The terms of degree d, in basis order. */
  function BlockTerms(n: nat, m: map<nat, seq<int>>, d: nat): (r: seq<Term>)
    ensures |r| == Binomial(n, d)
    ensures forall k :: 0 <= k < |r| ==> r[k] == Term(d, k, CoeffOf(m, d, k))
  {
    seq(Binomial(n, d), k requires 0 <= k < Binomial(n, d) => Term(d, k, CoeffOf(m, d, k)))
  }

  /** All terms of degrees d .. n, degree by degree. */
  function TermsFrom(n: nat, m: map<nat, seq<int>>, d: nat): (r: seq<Term>)
    requires d <= n + 1
    ensures forall t :: t in r ==> ValidTerm(n, t) && d <= t.degree <= n && t.coeff == CoeffOf(m, t.degree, t.index)
    decreases n + 1 - d
  {
    if d == n + 1 then [] else BlockTerms(n, m, d) + TermsFrom(n, m, d + 1)
  }

  function Terms(n: nat, m: map<nat, seq<int>>): seq<Term>
  {
    TermsFrom(n, m, 0)
  }

  /** What the pair of terms t1, t2 adds to the coefficient of the k-th monomial of degree d. */
  function Contribution(n: nat, t1: Term, t2: Term, d: nat, k: nat): int
    requires ValidTerm(n, t1) && ValidTerm(n, t2)
  {
    if t1.degree + t2.degree != d then 0
    else
      match MulOnBasisSpec(n, t1.degree, t1.index, t2.degree, t2.index)
      case (Some(p), sign) => if p == k then sign * t1.coeff * t2.coeff else 0
      case (None, _) => 0
  }

  function SumRow(n: nat, t1: Term, ts: seq<Term>, d: nat, k: nat): int
    requires ValidTerm(n, t1) && forall t :: t in ts ==> ValidTerm(n, t)
  {
    if |ts| == 0 then 0
    else SumRow(n, t1, ts[..|ts| - 1], d, k) + Contribution(n, t1, ts[|ts| - 1], d, k)
  }

  function SumRows(n: nat, ts1: seq<Term>, ts2: seq<Term>, d: nat, k: nat): int
    requires forall t :: t in ts1 ==> ValidTerm(n, t)
    requires forall t :: t in ts2 ==> ValidTerm(n, t)
  {
    if |ts1| == 0 then 0
    else SumRows(n, ts1[..|ts1| - 1], ts2, d, k) + SumRow(n, ts1[|ts1| - 1], ts2, d, k)
  }

  /**
   * The coefficient of the k-th monomial of degree d in f * g: the sum, over all
   * pairs of basis monomials whose product is that monomial, of the product sign
   * times both coefficients.
   */
  function ProductCoeff(n: nat, f: map<nat, seq<int>>, g: map<nat, seq<int>>, d: nat, k: nat): int
  {
    SumRows(n, Terms(n, f), Terms(n, g), d, k)
  }

  /** A non-zero term t2 whose monomial has a product with that of t1: the inner loop writes for it. */
  predicate Writes(n: nat, t1: Term, t2: Term)
  {
    ValidTerm(n, t1) && ValidTerm(n, t2) && t2.coeff != 0
    && MulOnBasisSpec(n, t1.degree, t1.index, t2.degree, t2.index).0.Some?
  }

  /** The degrees the inner loops create for one term t1. */
  ghost function RowDegrees(n: nat, t1: Term, ts2: seq<Term>): set<nat>
  {
    set t2 | t2 in ts2 && Writes(n, t1, t2) :: t1.degree + t2.degree
  }

  /**
   * The degrees d1 + d2 of the pairs of non-zero terms whose monomials have a
   * product: the rows of the non-zero terms of ts1, one after the other.
   */
  ghost function PairDegrees(n: nat, ts1: seq<Term>, ts2: seq<Term>): set<nat>
  {
    if |ts1| == 0 then {}
    else
      var t1 := ts1[|ts1| - 1];
      PairDegrees(n, ts1[..|ts1| - 1], ts2) + if t1.coeff != 0 then RowDegrees(n, t1, ts2) else {}
  }

  /**
   * The degrees `__mul__` stores in f * g: `monomial_coefficients[d1 + d2]` is
   * created for every pair of non-zero terms with a product, even when the sum cancels.
   */
  ghost function ProductDegrees(n: nat, f: map<nat, seq<int>>, g: map<nat, seq<int>>): set<nat>
  {
    PairDegrees(n, Terms(n, f), Terms(n, g))
  }

  /** A product is stored only in a degree that has basis monomials, so f * g never stores a degree above n. */
  lemma ProductDegreesAtMostN(n: nat, f: map<nat, seq<int>>, g: map<nat, seq<int>>)
    ensures forall d :: d in ProductDegrees(n, f, g) ==> d <= n
  {
    PairDegreesAtMostN(n, Terms(n, f), Terms(n, g));
  }

  lemma {:induction false} PairDegreesAtMostN(n: nat, ts1: seq<Term>, ts2: seq<Term>)
    ensures forall d :: d in PairDegrees(n, ts1, ts2) ==> d <= n
  {
    if |ts1| != 0 {
      PairDegreesAtMostN(n, ts1[..|ts1| - 1], ts2);
    }
  }

  lemma RowDegreesSnoc(n: nat, t1: Term, ts2: seq<Term>, j: nat)
    requires j < |ts2|
    ensures RowDegrees(n, t1, ts2[..j + 1])
              == RowDegrees(n, t1, ts2[..j]) + if Writes(n, t1, ts2[j]) then {t1.degree + ts2[j].degree} else {}
  {
    var t2 := ts2[j];
    assert ts2[..j + 1] == ts2[..j] + [t2];
    if Writes(n, t1, t2) {
      assert t2 in ts2[..j + 1];
    }
  }

  lemma PairDegreesSnoc(n: nat, ts1: seq<Term>, ts2: seq<Term>, i: nat)
    requires i < |ts1|
    ensures PairDegrees(n, ts1[..i + 1], ts2)
              == PairDegrees(n, ts1[..i], ts2) + if ts1[i].coeff != 0 then RowDegrees(n, ts1[i], ts2) else {}
  {
    assert ts1[..i + 1][..i] == ts1[..i];
  }

  /** One pass of the inner loop of `MulRow`: the running sums and the stored degrees move on by one term. */
  lemma MulRowStep(n: nat, m: map<nat, seq<int>>, prev: map<nat, seq<int>>, next: map<nat, seq<int>>, t1: Term, ts2: seq<Term>, j: nat)
    requires ValidTerm(n, t1) && forall t :: t in ts2 ==> ValidTerm(n, t)
    requires j < |ts2|
    requires forall d: nat, k: nat :: CoeffOf(prev, d, k) == CoeffOf(m, d, k) + SumRow(n, t1, ts2[..j], d, k)
    requires forall d: nat, k: nat :: CoeffOf(next, d, k) == CoeffOf(prev, d, k) + Contribution(n, t1, ts2[j], d, k)
    requires prev.Keys == m.Keys + RowDegrees(n, t1, ts2[..j])
    requires next.Keys == prev.Keys + (if Writes(n, t1, ts2[j]) then {t1.degree + ts2[j].degree} else {})
    ensures forall d: nat, k: nat :: CoeffOf(next, d, k) == CoeffOf(m, d, k) + SumRow(n, t1, ts2[..j + 1], d, k)
    ensures next.Keys == m.Keys + RowDegrees(n, t1, ts2[..j + 1])
  {
    SumRowSnoc(n, t1, ts2, j);
    RowDegreesSnoc(n, t1, ts2, j);
  }

  /** One pass of the outer loop of `Mul`: the running sums and the stored degrees move on by one row. */
  lemma MulStep(n: nat, prev: map<nat, seq<int>>, next: map<nat, seq<int>>, ts1: seq<Term>, ts2: seq<Term>, i: nat)
    requires forall t :: t in ts1 ==> ValidTerm(n, t)
    requires forall t :: t in ts2 ==> ValidTerm(n, t)
    requires i < |ts1|
    requires forall d: nat, k: nat :: CoeffOf(prev, d, k) == SumRows(n, ts1[..i], ts2, d, k)
    requires forall d: nat, k: nat :: CoeffOf(next, d, k) == CoeffOf(prev, d, k) + SumRow(n, ts1[i], ts2, d, k)
    requires prev.Keys == PairDegrees(n, ts1[..i], ts2)
    requires next.Keys == prev.Keys + (if ts1[i].coeff != 0 then RowDegrees(n, ts1[i], ts2) else {})
    ensures forall d: nat, k: nat :: CoeffOf(next, d, k) == SumRows(n, ts1[..i + 1], ts2, d, k)
    ensures next.Keys == PairDegrees(n, ts1[..i + 1], ts2)
  {
    SumRowsSnoc(n, ts1, ts2, i);
    PairDegreesSnoc(n, ts1, ts2, i);
  }

  /** `monomial_coefficients[d][p] += v` on the keydefaultdict. */
  method AddAt(n: nat, m: map<nat, seq<int>>, d: nat, p: nat, v: int) returns (m': map<nat, seq<int>>)
    requires WellFormed(n, m) && p < Binomial(n, d)
    ensures WellFormed(n, m') && m'.Keys == m.Keys + {d}
    ensures forall e: nat, k: nat :: CoeffOf(m', e, k) == CoeffOf(m, e, k) + (if e == d && k == p then v else 0)
  {
    var b := Block(n, m, d);
    b := b[p := b[p] + v];
    m' := m[d := b];
  }

  lemma SumRowSnoc(n: nat, t1: Term, ts: seq<Term>, j: nat)
    requires ValidTerm(n, t1) && forall t :: t in ts ==> ValidTerm(n, t)
    requires j < |ts|
    ensures forall t :: t in ts[..j] ==> ValidTerm(n, t)
    ensures forall t :: t in ts[..j + 1] ==> ValidTerm(n, t)
    ensures forall d: nat, k: nat ::
              SumRow(n, t1, ts[..j + 1], d, k) == SumRow(n, t1, ts[..j], d, k) + Contribution(n, t1, ts[j], d, k)
  {
    assert ts[..j + 1][..j] == ts[..j];
  }

  /** A term with coefficient zero contributes nothing. */
  lemma {:induction false} SumRowZero(n: nat, t1: Term, ts: seq<Term>, d: nat, k: nat)
    requires ValidTerm(n, t1) && forall t :: t in ts ==> ValidTerm(n, t)
    requires t1.coeff == 0
    ensures SumRow(n, t1, ts, d, k) == 0
  {
    if |ts| != 0 {
      assert forall t :: t in ts[..|ts| - 1] ==> t in ts;
      SumRowZero(n, t1, ts[..|ts| - 1], d, k);
    }
  }

  lemma SumRowZeroEverywhere(n: nat, t1: Term, ts: seq<Term>)
    requires ValidTerm(n, t1) && forall t :: t in ts ==> ValidTerm(n, t)
    requires t1.coeff == 0
    ensures forall d: nat, k: nat :: SumRow(n, t1, ts, d, k) == 0
  {
    forall d: nat, k: nat ensures SumRow(n, t1, ts, d, k) == 0 {
      SumRowZero(n, t1, ts, d, k);
    }
  }

  lemma SumRowsSnoc(n: nat, ts1: seq<Term>, ts2: seq<Term>, i: nat)
    requires forall t :: t in ts1 ==> ValidTerm(n, t)
    requires forall t :: t in ts2 ==> ValidTerm(n, t)
    requires i < |ts1|
    ensures ValidTerm(n, ts1[i])
    ensures forall t :: t in ts1[..i] ==> ValidTerm(n, t)
    ensures forall t :: t in ts1[..i + 1] ==> ValidTerm(n, t)
    ensures forall d: nat, k: nat ::
              SumRows(n, ts1[..i + 1], ts2, d, k) == SumRows(n, ts1[..i], ts2, d, k) + SumRow(n, ts1[i], ts2, d, k)
  {
    assert ts1[i] in ts1;
    assert ts1[..i + 1][..i] == ts1[..i];
  }

  /** The contribution of one pair, given the outcome of `_mul_on_basis` for it. */
  lemma ContributionIs(n: nat, t1: Term, t2: Term, prod: Option<nat>, sign: int)
    requires ValidTerm(n, t1) && ValidTerm(n, t2)
    requires (prod, sign) == MulOnBasisSpec(n, t1.degree, t1.index, t2.degree, t2.index)
    ensures forall d: nat, k: nat ::
              Contribution(n, t1, t2, d, k)
                == if prod.Some? && d == t1.degree + t2.degree && k == prod.value then sign * t1.coeff * t2.coeff
                   else 0
  {
  }

  /**
   * The two inner loops of `__mul__` for one term t1 of f: for every non-zero
   * term t2 of g, add sign * c1 * c2 at the product of the two monomials.
   */
  method MulRow(n: nat, m: map<nat, seq<int>>, t1: Term, ts2: seq<Term>) returns (m': map<nat, seq<int>>)
    requires WellFormed(n, m)
    requires ValidTerm(n, t1) && forall t :: t in ts2 ==> ValidTerm(n, t)
    ensures WellFormed(n, m')
    ensures forall d: nat, k: nat :: CoeffOf(m', d, k) == CoeffOf(m, d, k) + SumRow(n, t1, ts2, d, k)
    ensures m'.Keys == m.Keys + RowDegrees(n, t1, ts2)
  {
    m' := m;
    var j := 0;
    while j < |ts2|
      invariant 0 <= j <= |ts2|
      invariant WellFormed(n, m')
      invariant forall d: nat, k: nat :: CoeffOf(m', d, k) == CoeffOf(m, d, k) + SumRow(n, t1, ts2[..j], d, k)
      invariant m'.Keys == m.Keys + RowDegrees(n, t1, ts2[..j])
    {
      var t2 := ts2[j];
      assert t2 in ts2;
      ghost var prev := m';
      m' := MulTerm(n, m', t1, t2);
      MulRowStep(n, m, prev, m', t1, ts2, j);
      j := j + 1;
    }
    assert ts2[..|ts2|] == ts2;
  }

  /** The innermost step of `__mul__`: add the product of two terms, unless the second one is zero. */
  method MulTerm(n: nat, m: map<nat, seq<int>>, t1: Term, t2: Term) returns (m': map<nat, seq<int>>)
    requires WellFormed(n, m)
    requires ValidTerm(n, t1) && ValidTerm(n, t2)
    ensures WellFormed(n, m')
    ensures forall d: nat, k: nat :: CoeffOf(m', d, k) == CoeffOf(m, d, k) + Contribution(n, t1, t2, d, k)
    ensures m'.Keys == m.Keys + (if Writes(n, t1, t2) then {t1.degree + t2.degree} else {})
  {
    m' := m;
    if t2.coeff != 0 {
      var prod, sign := TermProduct(n, t1, t2);
      if prod.Some? {
        m' := AddAt(n, m', t1.degree + t2.degree, prod.value, sign * t1.coeff * t2.coeff);
      }
    } else {
      ContributionZero(n, t1, t2);
    }
  }

  /** The product of the monomials of two terms, as the contribution it makes to f * g. */
  method TermProduct(n: nat, t1: Term, t2: Term) returns (prod: Option<nat>, sign: int)
    requires ValidTerm(n, t1) && ValidTerm(n, t2)
    ensures (prod, sign) == MulOnBasisSpec(n, t1.degree, t1.index, t2.degree, t2.index)
    ensures prod.Some? ==> prod.value < Binomial(n, t1.degree + t2.degree)
    ensures forall d: nat, k: nat ::
              Contribution(n, t1, t2, d, k)
                == if prod.Some? && d == t1.degree + t2.degree && k == prod.value then sign * t1.coeff * t2.coeff
                   else 0
  {
    prod, sign := MulOnBasis(n, t1.degree, t1.index, t2.degree, t2.index);
    ContributionIs(n, t1, t2, prod, sign);
    ProductBound(n, t1, t2);
  }

  lemma ProductBound(n: nat, t1: Term, t2: Term)
    requires ValidTerm(n, t1) && ValidTerm(n, t2)
    ensures var prod := MulOnBasisSpec(n, t1.degree, t1.index, t2.degree, t2.index).0;
      prod.Some? ==> prod.value < Binomial(n, t1.degree + t2.degree)
  {
    var d1, k1, d2, k2 := t1.degree, t1.index, t2.degree, t2.index;
    assert k1 < Dimension(n, d1) && k2 < Dimension(n, d2);
    var prod := MulOnBasisSpec(n, d1, k1, d2, k2).0;
    if prod.Some? {
      assert prod.value < Dimension(n, d1 + d2) by {
        MulOnBasisProduct(n, d1, k1, d2, k2);
      }
    }
  }

  lemma ContributionZero(n: nat, t1: Term, t2: Term)
    requires ValidTerm(n, t1) && ValidTerm(n, t2)
    requires t1.coeff == 0 || t2.coeff == 0
    ensures forall d: nat, k: nat :: Contribution(n, t1, t2, d, k) == 0
  {
  }

  /** The double loop of `__mul__` over two lists of terms, accumulated into an empty dictionary. */
  method MulRows(n: nat, ts1: seq<Term>, ts2: seq<Term>) returns (m: map<nat, seq<int>>)
    requires forall t :: t in ts1 ==> ValidTerm(n, t)
    requires forall t :: t in ts2 ==> ValidTerm(n, t)
    ensures WellFormed(n, m)
    ensures forall d: nat, k: nat :: CoeffOf(m, d, k) == SumRows(n, ts1, ts2, d, k)
    ensures m.Keys == PairDegrees(n, ts1, ts2)
  {
    m := map[];
    var i := 0;
    while i < |ts1|
      invariant 0 <= i <= |ts1|
      invariant WellFormed(n, m)
      invariant forall d: nat, k: nat :: CoeffOf(m, d, k) == SumRows(n, ts1[..i], ts2, d, k)
      invariant m.Keys == PairDegrees(n, ts1[..i], ts2)
    {
      var t1 := ts1[i];
      assert t1 in ts1;
      ghost var prev := m;
      if t1.coeff != 0 {
        m := MulRow(n, m, t1, ts2);
      } else {
        SumRowZeroEverywhere(n, t1, ts2);
      }
      MulStep(n, prev, m, ts1, ts2, i);
      i := i + 1;
    }
    assert ts1[..|ts1|] == ts1;
  }

  /**
   * `f * g` for two superfunctions: for every pair of non-zero terms, multiply
   * the basis monomials and add sign * c1 * c2 at the product monomial.
   */
  method Mul(n: nat, f: Superfunction, g: Superfunction) returns (h: Superfunction)
    requires WellFormed(n, f.coeffs) && WellFormed(n, g.coeffs)
    ensures WellFormed(n, h.coeffs)
    ensures forall d: nat, k: nat :: CoeffOf(h.coeffs, d, k) == ProductCoeff(n, f.coeffs, g.coeffs, d, k)
    ensures h.coeffs.Keys == ProductDegrees(n, f.coeffs, g.coeffs)
  {
    var m := MulRows(n, Terms(n, f.coeffs), Terms(n, g.coeffs));
    h := Superfunction(m);
  }


  // ---- equality ----

  /** Both superfunctions have the same coefficient at every monomial. */
  ghost predicate SameCoefficients(f: Superfunction, g: Superfunction)
  {
    forall d: nat, k: nat :: CoeffOf(f.coeffs, d, k) == CoeffOf(g.coeffs, d, k)
  }

  /**
   * `__eq__` as written: it compares the whole coefficient list of a degree with
   * 0 (line 171) instead of the k-th coefficient, so it answers False as soon as
   * the difference stores a non-empty list, whatever the coefficients are.
   */
  method EqAsWritten(n: nat, f: Superfunction, g: Superfunction) returns (r: bool)
    requires WellFormed(n, f.coeffs) && WellFormed(n, g.coeffs)
    ensures r <==> forall d :: d in f.coeffs.Keys + g.coeffs.Keys ==> d > n
  {
    var difference := Sub(n, f, g);
    // Every degree the difference stores has a non-empty list, and the test at
    // line 171 holds for any list, so the first degree visited answers False.
    r := difference.coeffs.Keys == {};
    assert r <==> Nonempty(n, f.coeffs.Keys + g.coeffs.Keys) == {};
  }

  /** `__eq__` as intended: every coefficient of f - g is zero. */
  method Eq(n: nat, f: Superfunction, g: Superfunction) returns (r: bool)
    requires WellFormed(n, f.coeffs) && WellFormed(n, g.coeffs)
    ensures r <==> SameCoefficients(f, g)
  {
    var difference := Sub(n, f, g);
    var todo := difference.coeffs.Keys;
    while todo != {}
      invariant todo <= difference.coeffs.Keys
      invariant forall d: nat, k: nat :: d !in todo ==> CoeffOf(difference.coeffs, d, k) == 0
      decreases todo
    {
      var d :| d in todo;
      var block := difference.coeffs[d];
      var k := 0;
      while k < |block|
        invariant 0 <= k <= |block|
        invariant forall l :: 0 <= l < k ==> block[l] == 0
      {
        if block[k] != 0 {
          assert CoeffOf(difference.coeffs, d, k) != 0;
          return false;
        }
        k := k + 1;
      }
      todo := todo - {d};
    }
    return true;
  }

  /** The generator xi_0 of the algebra on two odd coordinates. */
  function Xi0(): Superfunction
  {
    Superfunction(map[1 := [1, 0]])
  }

  /**
   * On xi_0 = xi_0 the code as written answers False, although every
   * coefficient agrees.
   */
  lemma EqAsWrittenRejectsEqualOperands()
    ensures WellFormed(2, Xi0().coeffs)
    ensures SameCoefficients(Xi0(), Xi0())
    ensures !(forall d :: d in Xi0().coeffs.Keys + Xi0().coeffs.Keys ==> d > 2)
  {
    assert Binomial(2, 1) == 2 by {
      assert Binomial(0, 1) == 0 && Binomial(0, 0) == 1;
      assert Binomial(1, 1) == 1 && Binomial(1, 0) == 1;
    }
    assert forall d :: d in Xi0().coeffs ==> d == 1;
    assert 1 in Xi0().coeffs.Keys + Xi0().coeffs.Keys;
  }
}
