/**
 * The enumeration orders of Python's `range`, `itertools.combinations` and
 * `itertools.permutations`, which every module of the model relies on, together
 * with the counting functions that describe their lengths.
 */
module Combinatorics {

  /** `list(range(lo, hi))`. */
  function Range(lo: int, hi: int): (r: seq<int>)
    ensures |r| == if lo <= hi then hi - lo else 0
    ensures forall i :: 0 <= i < |r| ==> r[i] == lo + i
  {
    if lo < hi then seq(hi - lo, i requires 0 <= i < hi - lo => lo + i) else []
  }

  function Factorial(n: nat): (r: nat)
    ensures r >= 1
  {
    if n == 0 then 1 else n * Factorial(n - 1)
  }

  /** Pascal's triangle; zero when k > n. */
  function Binomial(n: nat, k: nat): nat
  {
    if k == 0 then 1 else if n == 0 then 0 else Binomial(n - 1, k - 1) + Binomial(n - 1, k)
  }

  /** C(n, k) vanishes exactly when k exceeds n. */
  lemma {:induction false} BinomialZero(n: nat, k: nat)
    ensures Binomial(n, k) == 0 <==> k > n
  {
    if k != 0 && n != 0 {
      BinomialZero(n - 1, k - 1);
      BinomialZero(n - 1, k);
    }
  }

  function Sum(s: seq<int>): (r: int)
    ensures (forall i :: 0 <= i < |s| ==> s[i] >= 0) ==> r >= 0
  {
    if |s| == 0 then 0 else s[0] + Sum(s[1..])
  }

  ghost predicate StrictlyIncreasing(s: seq<int>)
  {
    forall i, j :: 0 <= i < j < |s| ==> s[i] < s[j]
  }

  lemma TailIncreasing(s: seq<int>)
    requires StrictlyIncreasing(s) && |s| > 0
    ensures StrictlyIncreasing(s[1..])
  {
    forall p, q | 0 <= p < q < |s| - 1 ensures s[1..][p] < s[1..][q] {
      assert s[1..][p] == s[p + 1] && s[1..][q] == s[q + 1];
    }
  }

  /** Every element of `cs` with `x` put in front. */
  function PrependAll<T>(x: T, cs: seq<seq<T>>): (r: seq<seq<T>>)
    ensures |r| == |cs|
    ensures forall i :: 0 <= i < |r| ==> r[i] == [x] + cs[i]
  {
    seq(|cs|, i requires 0 <= i < |cs| => [x] + cs[i])
  }

  /**
   * `list(itertools.combinations(s, r))`: the r-element subsequences of `s`,
   * those that take `s[0]` first, in lexicographic order of positions.
   */
  function Combinations<T>(s: seq<T>, r: nat): seq<seq<T>>
    decreases |s|
  {
    if r == 0 then [[]]
    else if |s| == 0 then []
    else PrependAll(s[0], Combinations(s[1..], r - 1)) + Combinations(s[1..], r)
  }

  /** itertools.combinations yields C(|s|, r) tuples. */
  lemma {:induction false} CombinationsCount<T>(s: seq<T>, r: nat)
    ensures |Combinations(s, r)| == Binomial(|s|, r)
    decreases |s|
  {
    if r != 0 && |s| != 0 {
      CombinationsCount(s[1..], r - 1);
      CombinationsCount(s[1..], r);
    }
  }

  /** Every combination of a strictly increasing list is a strictly increasing r-subset of it. */
  lemma {:induction false} CombinationAt(s: seq<int>, r: nat, i: nat)
    requires StrictlyIncreasing(s)
    requires i < |Combinations(s, r)|
    ensures |Combinations(s, r)[i]| == r && StrictlyIncreasing(Combinations(s, r)[i])
    ensures forall x :: x in Combinations(s, r)[i] ==> x in s
    decreases |s|
  {
    if r != 0 {
      var tail := s[1..];
      var sub := Combinations(tail, r - 1);
      TailIncreasing(s);
      if i < |sub| {
        CombinationAt(tail, r - 1, i);
        assert Combinations(s, r)[i] == [s[0]] + sub[i];
        HeadBelowTail(s, sub[i]);
      } else {
        CombinationAt(tail, r, i - |sub|);
        assert Combinations(s, r)[i] == Combinations(tail, r)[i - |sub|];
      }
    }
  }

  /** The head of an increasing list put in front of an increasing list drawn from its tail. */
  lemma HeadBelowTail(s: seq<int>, t: seq<int>)
    requires StrictlyIncreasing(s) && |s| > 0 && StrictlyIncreasing(t)
    requires forall x :: x in t ==> x in s[1..]
    ensures StrictlyIncreasing([s[0]] + t)
    ensures forall x :: x in [s[0]] + t ==> x in s
  {
    forall x | x in t ensures s[0] < x && x in s {
      var k :| 0 <= k < |s| - 1 && s[1..][k] == x;
      assert s[k + 1] == x;
    }
    var c := [s[0]] + t;
    forall p, q | 0 <= p < q < |c| ensures c[p] < c[q] {
      assert c[q] == t[q - 1] && c[q] in t;
      if p != 0 {
        assert c[p] == t[p - 1];
      }
    }
  }

  /** itertools.combinations of a list without repetitions never yields the same tuple twice. */
  lemma {:induction false} CombinationsDistinct(s: seq<int>, r: nat)
    requires StrictlyIncreasing(s)
    ensures forall i, j :: 0 <= i < j < |Combinations(s, r)| ==> Combinations(s, r)[i] != Combinations(s, r)[j]
    decreases |s|
  {
    if r != 0 && |s| != 0 {
      var tail := s[1..];
      TailIncreasing(s);
      var sub := Combinations(tail, r - 1);
      var rest := Combinations(tail, r);
      CombinationsDistinct(tail, r - 1);
      CombinationsDistinct(tail, r);
      var front := PrependAll(s[0], sub);
      PrependAllDistinct(s[0], sub);
      forall p, q | 0 <= p < |front| && 0 <= q < |rest| ensures front[p] != rest[q] {
        TailCombinationHead(s, r, q);
        assert front[p][0] == s[0];
      }
      ConcatDistinct(front, rest);
    }
  }

  /** Prefixing one element keeps a list of lists without repetitions. */
  lemma PrependAllDistinct<T>(x: T, cs: seq<seq<T>>)
    requires forall i, j :: 0 <= i < j < |cs| ==> cs[i] != cs[j]
    ensures forall i, j :: 0 <= i < j < |PrependAll(x, cs)| ==> PrependAll(x, cs)[i] != PrependAll(x, cs)[j]
  {
    var p := PrependAll(x, cs);
    forall i, j | 0 <= i < j < |p| ensures p[i] != p[j] {
      assert p[i][1..] == cs[i] && p[j][1..] == cs[j];
    }
  }

  lemma ConcatDistinct<T>(a: seq<T>, b: seq<T>)
    requires forall i, j :: 0 <= i < j < |a| ==> a[i] != a[j]
    requires forall i, j :: 0 <= i < j < |b| ==> b[i] != b[j]
    requires forall p, q :: 0 <= p < |a| && 0 <= q < |b| ==> a[p] != b[q]
    ensures forall i, j :: 0 <= i < j < |a + b| ==> (a + b)[i] != (a + b)[j]
  {
    forall i, j | 0 <= i < j < |a + b| ensures (a + b)[i] != (a + b)[j] {
      if j < |a| {
        assert (a + b)[i] == a[i] && (a + b)[j] == a[j];
      } else if i >= |a| {
        assert (a + b)[i] == b[i - |a|] && (a + b)[j] == b[j - |a|];
      } else {
        assert (a + b)[i] == a[i] && (a + b)[j] == b[j - |a|];
      }
    }
  }

  /** A non-empty combination of the tail of an increasing list does not start with its head. */
  lemma TailCombinationHead(s: seq<int>, r: nat, q: nat)
    requires StrictlyIncreasing(s) && |s| != 0 && r != 0
    requires q < |Combinations(s[1..], r)|
    ensures |Combinations(s[1..], r)[q]| != 0 && Combinations(s[1..], r)[q][0] != s[0]
  {
    var tail := s[1..];
    TailIncreasing(s);
    CombinationAt(tail, r, q);
    var c := Combinations(tail, r)[q];
    assert c[0] in c;
    var k :| 0 <= k < |tail| && tail[k] == c[0];
    assert s[k + 1] == c[0];
  }

  lemma CombinationMember(s: seq<int>, r: nat, c: seq<int>)
    requires StrictlyIncreasing(s)
    requires c in Combinations(s, r)
    ensures |c| == r && StrictlyIncreasing(c)
    ensures forall x :: x in c ==> x in s
  {
    var i :| 0 <= i < |Combinations(s, r)| && Combinations(s, r)[i] == c;
    CombinationAt(s, r, i);
  }

  /** Conversely every strictly increasing list drawn from `s` is one of its combinations. */
  lemma {:induction false} CombinationComplete(s: seq<int>, c: seq<int>)
    requires StrictlyIncreasing(s) && StrictlyIncreasing(c)
    requires forall x :: x in c ==> x in s
    ensures c in Combinations(s, |c|)
    decreases |s|
  {
    if |c| != 0 {
      assert c[0] in c;
      var tail := s[1..];
      if c[0] == s[0] {
        RestWithinTail(s, c);
        TailIncreasing(c);
        CombinationComplete(tail, c[1..]);
        PrependedMember(s[0], Combinations(tail, |c| - 1), c);
      } else {
        WithinTail(s, c);
        CombinationComplete(tail, c);
      }
    }
  }

  /** After a shared head, the rest of c is drawn from the rest of s. */
  lemma RestWithinTail(s: seq<int>, c: seq<int>)
    requires StrictlyIncreasing(s) && StrictlyIncreasing(c)
    requires forall x :: x in c ==> x in s
    requires |c| != 0 && |s| != 0 && c[0] == s[0]
    ensures forall x :: x in c[1..] ==> x in s[1..]
  {
    forall x | x in c[1..] ensures x in s[1..] {
      var k :| 0 < k < |c| && c[k] == x;
      assert x in c;
      var p :| 0 <= p < |s| && s[p] == x;
      assert p != 0;
      assert s[1..][p - 1] == x;
    }
  }

  /** A list drawn from s that does not start with s's head is drawn from the rest of s. */
  lemma WithinTail(s: seq<int>, c: seq<int>)
    requires StrictlyIncreasing(s) && StrictlyIncreasing(c)
    requires forall x :: x in c ==> x in s
    requires |c| != 0 && |s| != 0 && c[0] != s[0]
    ensures forall x :: x in c ==> x in s[1..]
  {
    assert c[0] in c;
    var p0 :| 0 <= p0 < |s| && s[p0] == c[0];
    forall x | x in c ensures x in s[1..] {
      var k :| 0 <= k < |c| && c[k] == x;
      var p :| 0 <= p < |s| && s[p] == x;
      assert p != 0;
      assert s[1..][p - 1] == x;
    }
  }

  lemma PrependedMember(x: int, rest: seq<seq<int>>, c: seq<int>)
    requires |c| != 0 && c[0] == x && c[1..] in rest
    ensures c in PrependAll(x, rest)
  {
    var i :| 0 <= i < |rest| && rest[i] == c[1..];
    assert PrependAll(x, rest)[i] == c;
  }


  /**
   * The sum of `f` over a finite set, taking its elements in an arbitrary order
   * (the result does not depend on it, see SetSumRemove).
   */
  ghost function SetSum<T>(s: set<T>, f: T -> int): int
    decreases s
  {
    if s == {} then 0 else var x :| x in s; f(x) + SetSum(s - {x}, f)
  }

  /** Any element can be taken out of a set sum first. */
  lemma {:induction false} SetSumRemove<T>(s: set<T>, y: T, f: T -> int)
    requires y in s
    ensures SetSum(s, f) == f(y) + SetSum(s - {y}, f)
    decreases s
  {
    var x :| x in s && SetSum(s, f) == f(x) + SetSum(s - {x}, f);
    if x != y {
      SetSumRemove(s - {x}, y, f);
      SetSumRemove(s - {y}, x, f);
      assert s - {x} - {y} == s - {y} - {x};
    }
  }

  function RemoveAt<T>(s: seq<T>, i: nat): (r: seq<T>)
    requires i < |s|
    ensures |r| == |s| - 1
  {
    s[..i] + s[i + 1..]
  }

  lemma RemoveAtMultiset<T>(s: seq<T>, i: nat)
    requires i < |s|
    ensures multiset(s) == multiset(RemoveAt(s, i)) + multiset{s[i]}
  {
    assert s == s[..i] + [s[i]] + s[i + 1..];
  }

  /**
   * `list(itertools.permutations(s))`: the arrangements of the positions of `s`,
   * in lexicographic order of the positions.
   */
  function Permutations<T>(s: seq<T>): seq<seq<T>>
    decreases |s|, |s| + 1
  {
    if |s| == 0 then [[]] else PermutationsFrom(s, 0)
  }

  /** The arrangements of `s` that start with `s[i]`, then those starting with `s[i+1]`, .... */
  function PermutationsFrom<T>(s: seq<T>, i: nat): seq<seq<T>>
    requires i <= |s|
    decreases |s|, |s| - i
  {
    if i == |s| then []
    else PrependAll(s[i], Permutations(RemoveAt(s, i))) + PermutationsFrom(s, i + 1)
  }

  /** itertools.permutations yields |s|! tuples. */
  lemma {:induction false} PermutationsCount<T>(s: seq<T>)
    ensures |Permutations(s)| == Factorial(|s|)
    decreases |s|, |s| + 1
  {
    if |s| != 0 {
      PermutationsFromCount(s, 0);
      assert |s| * Factorial(|s| - 1) == Factorial(|s|);
    }
  }

  lemma {:induction false} PermutationsFromCount<T>(s: seq<T>, i: nat)
    requires 0 < |s| && i <= |s|
    ensures |PermutationsFrom(s, i)| == (|s| - i) * Factorial(|s| - 1)
    decreases |s|, |s| - i
  {
    if i < |s| {
      PermutationsCount(RemoveAt(s, i));
      PermutationsFromCount(s, i + 1);
      var f := Factorial(|s| - 1);
      assert (|s| - i) * f == f + (|s| - i - 1) * f;
    }
  }

  /** Each permutation rearranges the elements of `s`. */
  lemma {:induction false} PermutationMultiset<T>(s: seq<T>, p: seq<T>)
    requires p in Permutations(s)
    ensures multiset(p) == multiset(s)
    decreases |s|, |s| + 1
  {
    if |s| != 0 {
      PermutationFromMultiset(s, 0, p);
    }
  }

  lemma {:induction false} PermutationFromMultiset<T>(s: seq<T>, i: nat, p: seq<T>)
    requires i <= |s|
    requires p in PermutationsFrom(s, i)
    ensures multiset(p) == multiset(s)
    decreases |s|, |s| - i
  {
    if i < |s| {
      var sub := Permutations(RemoveAt(s, i));
      var head := PrependAll(s[i], sub);
      if p in head {
        var k :| 0 <= k < |head| && head[k] == p;
        PermutationMultiset(RemoveAt(s, i), sub[k]);
        RemoveAtMultiset(s, i);
        assert p == [s[i]] + sub[k];
        assert multiset(p) == multiset{s[i]} + multiset(sub[k]);
      } else {
        PermutationFromMultiset(s, i + 1, p);
      }
    }
  }

  lemma {:induction false} CountAtMostOne<T>(s: seq<T>, x: T)
    requires forall i, j :: 0 <= i < j < |s| ==> s[i] != s[j]
    ensures multiset(s)[x] <= 1
  {
    if |s| != 0 {
      assert s == [s[0]] + s[1..];
      CountAtMostOne(s[1..], x);
      if s[0] == x {
        assert x !in s[1..];
      }
    }
  }

  lemma CountAtLeastTwo<T>(p: seq<T>, i: nat, j: nat)
    requires i < j < |p|
    ensures p[i] == p[j] ==> multiset(p)[p[i]] >= 2
  {
    assert p == p[..i] + [p[i]] + p[i + 1..j] + [p[j]] + p[j + 1..];
  }

  /** Rearranging a list without repetitions yields a list without repetitions. */
  lemma MultisetDistinct<T>(p: seq<T>, s: seq<T>)
    requires multiset(p) == multiset(s)
    requires forall i, j :: 0 <= i < j < |s| ==> s[i] != s[j]
    ensures forall i, j :: 0 <= i < j < |p| ==> p[i] != p[j]
  {
    forall i, j | 0 <= i < j < |p| ensures p[i] != p[j] {
      CountAtMostOne(s, p[i]);
      CountAtLeastTwo(p, i, j);
    }
  }
}
