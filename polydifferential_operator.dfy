/**
 * Multi-linear polydifferential operators on a coordinate chart with n even
 * coordinates (gcaops/algebra/polydifferential_operator.py). A differential
 * monomial of arity a is an a-tuple of multi-indices, one per argument, each a
 * tuple of n derivative orders; an operator maps monomials to coefficients in
 * the base ring, here `int`.
 */
module PolyDifferentialOperators {
  import opened Wrappers
  import opened Combinatorics
  import opened Parity

  // ---------------------------------------------------------------------------
  // compositions: stars and bars
  // ---------------------------------------------------------------------------

  /**
   * The gaps between consecutive cut points `prev`, `t[0]`, ..., `t[|t|-1]`, `last`,
   * each less one: the list comprehension over `zip(first + t, t + last)`.
   */
  function Gaps(prev: int, t: seq<int>, last: int): (r: seq<int>)
    ensures |r| == |t| + 1
    decreases |t|
  {
    if |t| == 0 then [last - prev - 1] else [t[0] - prev - 1] + Gaps(t[0], t[1..], last)
  }

  /** `list(compositions(num, width))`: the bars are placed by `combinations(range(m), width - 1)`. */
  function Compositions(num: nat, width: nat): (r: seq<seq<int>>)
    requires width >= 1
  {
    var m := num + width - 1;
    var cuts := Combinations(Range(0, m), width - 1);
    seq(|cuts|, i requires 0 <= i < |cuts| => Gaps(-1, cuts[i], m))
  }

  /** A weak composition of `num` into `width` parts. */
  ghost predicate WeakComposition(c: seq<int>, num: nat, width: nat)
  {
    |c| == width && (forall i :: 0 <= i < |c| ==> c[i] >= 0) && Sum(c) == num
  }

  lemma {:induction false} GapsSum(prev: int, t: seq<int>, last: int)
    ensures Sum(Gaps(prev, t, last)) == last - prev - 1 - |t|
    decreases |t|
  {
    if |t| != 0 {
      GapsSum(t[0], t[1..], last);
    }
  }

  lemma {:induction false} GapsNonNegative(prev: int, t: seq<int>, last: int)
    requires StrictlyIncreasing(t)
    requires forall x :: x in t ==> prev < x < last
    requires prev < last
    ensures forall i :: 0 <= i < |t| + 1 ==> Gaps(prev, t, last)[i] >= 0
    decreases |t|
  {
    if |t| != 0 {
      TailIncreasing(t);
      forall x | x in t[1..] ensures t[0] < x < last {
        var k :| 0 <= k < |t[1..]| && t[1..][k] == x;
        assert t[k + 1] == x && x in t;
      }
      assert t[0] in t;
      GapsNonNegative(t[0], t[1..], last);
      var g := Gaps(prev, t, last);
      forall i | 0 < i < |t| + 1 ensures g[i] >= 0 {
        assert g[i] == Gaps(t[0], t[1..], last)[i - 1];
      }
    }
  }

  lemma {:induction false} GapsInjective(prev: int, t: seq<int>, u: seq<int>, last: int)
    requires |t| == |u|
    ensures Gaps(prev, t, last) == Gaps(prev, u, last) ==> t == u
    decreases |t|
  {
    if |t| != 0 && Gaps(prev, t, last) == Gaps(prev, u, last) {
      assert Gaps(prev, t, last)[0] == Gaps(prev, u, last)[0];
      assert Gaps(prev, t, last)[1..] == Gaps(t[0], t[1..], last);
      GapsInjective(t[0], t[1..], u[1..], last);
    }
  }

  /** The cut points that produce the composition `c`: its partial sums shifted by the bars. */
  function Cuts(prev: int, c: seq<int>): (t: seq<int>)
    requires |c| >= 1
    ensures |t| == |c| - 1
    decreases |c|
  {
    if |c| == 1 then [] else [prev + c[0] + 1] + Cuts(prev + c[0] + 1, c[1..])
  }

  lemma CutsInverse(prev: int, c: seq<int>)
    requires |c| >= 1 && forall i :: 0 <= i < |c| ==> c[i] >= 0
    ensures Gaps(prev, Cuts(prev, c), prev + Sum(c) + |c|) == c
    ensures StrictlyIncreasing(Cuts(prev, c))
    ensures forall x :: x in Cuts(prev, c) ==> prev < x < prev + Sum(c) + |c|
  {
    CutsGaps(prev, c);
    CutsIncreasing(prev, c);
  }

  lemma {:induction false} CutsGaps(prev: int, c: seq<int>)
    requires |c| >= 1
    ensures Gaps(prev, Cuts(prev, c), prev + Sum(c) + |c|) == c
    decreases |c|
  {
    if |c| > 1 {
      var p := prev + c[0] + 1;
      CutsGaps(p, c[1..]);
      assert c == [c[0]] + c[1..];
    }
  }

  lemma {:induction false} CutsIncreasing(prev: int, c: seq<int>)
    requires |c| >= 1 && forall i :: 0 <= i < |c| ==> c[i] >= 0
    ensures StrictlyIncreasing(Cuts(prev, c))
    ensures forall x :: x in Cuts(prev, c) ==> prev < x < prev + Sum(c) + |c|
    decreases |c|
  {
    if |c| > 1 {
      var p := prev + c[0] + 1;
      var rest := Cuts(p, c[1..]);
      assert StrictlyIncreasing(rest) && forall x :: x in rest ==> p < x < p + Sum(c[1..]) + |c[1..]| by {
        CutsIncreasing(p, c[1..]);
      }
      var t := Cuts(prev, c);
      assert t == [p] + rest;
      forall i, j | 0 <= i < j < |t| ensures t[i] < t[j] {
        assert t[j] == rest[j - 1] && t[j] in rest;
        if i > 0 {
          assert t[i] == rest[i - 1];
        }
      }
    }
  }

  /** Every composition has `width` non-negative parts summing to `num`. */
  lemma CompositionsAreWeak(num: nat, width: nat, i: nat)
    requires width >= 1 && i < |Compositions(num, width)|
    ensures WeakComposition(Compositions(num, width)[i], num, width)
  {
    var m := num + width - 1;
    RangeStrictlyIncreasing(m);
    var cuts := Combinations(Range(0, m), width - 1);
    CombinationAt(Range(0, m), width - 1, i);
    GapsSum(-1, cuts[i], m);
    GapsNonNegative(-1, cuts[i], m);
  }

  /** Conversely every weak composition of `num` into `width` parts is listed. */
  lemma CompositionsComplete(num: nat, width: nat, c: seq<int>)
    requires width >= 1 && WeakComposition(c, num, width)
    ensures c in Compositions(num, width)
  {
    var m := num + width - 1;
    RangeStrictlyIncreasing(m);
    CutsInverse(-1, c);
    var t := Cuts(-1, c);
    forall x | x in t ensures x in Range(0, m) {
      assert Range(0, m)[x] == x;
    }
    CombinationComplete(Range(0, m), t);
    var cuts := Combinations(Range(0, m), width - 1);
    var i :| 0 <= i < |cuts| && cuts[i] == t;
    CompositionAt(num, width, i);
  }

  /** The i-th composition is read off the i-th placement of the bars. */
  lemma CompositionAt(num: nat, width: nat, i: nat)
    requires width >= 1 && i < |Combinations(Range(0, num + width - 1), width - 1)|
    ensures |Compositions(num, width)| == |Combinations(Range(0, num + width - 1), width - 1)|
    ensures Compositions(num, width)[i] == Gaps(-1, Combinations(Range(0, num + width - 1), width - 1)[i], num + width - 1)
  {
  }

  /** `compositions(num, width)` yields C(num + width - 1, width - 1) lists, no two equal. */
  lemma CompositionsCountDistinct(num: nat, width: nat)
    requires width >= 1
    ensures |Compositions(num, width)| == Binomial(num + width - 1, width - 1)
    ensures forall i, j :: 0 <= i < j < |Compositions(num, width)| ==>
                             Compositions(num, width)[i] != Compositions(num, width)[j]
  {
    var m := num + width - 1;
    CombinationsCount(Range(0, m), width - 1);
    var cs := Compositions(num, width);
    assert |cs| == |Combinations(Range(0, m), width - 1)|;
    forall i, j | 0 <= i < j < |cs| ensures cs[i] != cs[j] {
      CompositionsDiffer(num, width, i, j);
    }
  }

  lemma CompositionsDiffer(num: nat, width: nat, i: nat, j: nat)
    requires width >= 1 && i < j < |Combinations(Range(0, num + width - 1), width - 1)|
    ensures Compositions(num, width)[i] != Compositions(num, width)[j]
  {
    var m := num + width - 1;
    var cuts := Combinations(Range(0, m), width - 1);
    RangeStrictlyIncreasing(m);
    assert cuts[i] != cuts[j] by {
      CombinationsDistinct(Range(0, m), width - 1);
    }
    CombinationAt(Range(0, m), width - 1, i);
    CombinationAt(Range(0, m), width - 1, j);
    CompositionAt(num, width, i);
    CompositionAt(num, width, j);
    GapsInjective(-1, cuts[i], cuts[j], m);
  }

  lemma RangeStrictlyIncreasing(n: nat)
    ensures StrictlyIncreasing(Range(0, n))
  {
  }

  // ---------------------------------------------------------------------------
  // Differential monomials
  // ---------------------------------------------------------------------------

  /** A multi-index: the derivative order along each of the n coordinates. */
  type MultiIndex = seq<int>

  /** A differential monomial: one multi-index per argument, so its arity is its length. */
  type Monomial = seq<MultiIndex>

  ghost predicate WellShaped(n: nat, mono: Monomial)
  {
    forall j :: 0 <= j < |mono| ==> |mono[j]| == n
  }

  /**
   * `_mul_on_basis`: two monomials of the same arity multiply argument by
   * argument, adding the derivative orders coordinate by coordinate.
   */
  function MulOnBasis(n: nat, a: Monomial, b: Monomial): (r: Monomial)
    requires |a| == |b| && WellShaped(n, a) && WellShaped(n, b)
    ensures |r| == |a| && WellShaped(n, r)
  {
    seq(|a|, j requires 0 <= j < |a| => seq(n, i requires 0 <= i < n => a[j][i] + b[j][i]))
  }

  /** The monomial of arity `arity` without derivatives: the identity in each argument. */
  function NoDerivatives(n: nat, arity: nat): (r: Monomial)
    ensures |r| == arity && WellShaped(n, r)
  {
    seq(arity, j requires 0 <= j < arity => seq(n, i requires 0 <= i < n => 0))
  }

  /** Multiplying monomials is commutative, associative and has the underived monomial as unit. */
  lemma MulOnBasisMonoid(n: nat, a: Monomial, b: Monomial, c: Monomial)
    requires |a| == |b| == |c| && WellShaped(n, a) && WellShaped(n, b) && WellShaped(n, c)
    ensures MulOnBasis(n, a, b) == MulOnBasis(n, b, a)
    ensures MulOnBasis(n, MulOnBasis(n, a, b), c) == MulOnBasis(n, a, MulOnBasis(n, b, c))
    ensures MulOnBasis(n, a, NoDerivatives(n, |a|)) == a
  {
    var z := NoDerivatives(n, |a|);
    forall j | 0 <= j < |a| ensures MulOnBasis(n, a, z)[j] == a[j] {
      assert |MulOnBasis(n, a, z)[j]| == |a[j]|;
    }
    forall j | 0 <= j < |a| ensures MulOnBasis(n, a, b)[j] == MulOnBasis(n, b, a)[j] {
    }
    var ab := MulOnBasis(n, a, b);
    var bc := MulOnBasis(n, b, c);
    forall j | 0 <= j < |a| ensures MulOnBasis(n, ab, c)[j] == MulOnBasis(n, a, bc)[j] {
      forall i | 0 <= i < n ensures MulOnBasis(n, ab, c)[j][i] == MulOnBasis(n, a, bc)[j][i] {
        assert ab[j][i] == a[j][i] + b[j][i] && bc[j][i] == b[j][i] + c[j][i];
      }
    }
  }

  // ---------------------------------------------------------------------------
  // Polydifferential operators
  // ---------------------------------------------------------------------------

  /**
   * A polydifferential operator: the coefficient of each stored monomial. The
   * source keeps one dictionary per arity; since the arity of a monomial is its
   * length, one map keyed by the monomial holds the same information.
   */
  datatype Operator = Operator(coeffs: map<Monomial, int>)

  /** The coefficient of `mono`; an absent monomial has coefficient zero. */
  function Coeff(f: map<Monomial, int>, mono: Monomial): int
  {
    if mono in f then f[mono] else 0
  }

  /**
   * An entry of the tuple that `__getitem__` looks up: a multi-index (itself a
   * tuple of ints), or any other hashable value, such as an int.
   */
  datatype Entry = Multi(index: MultiIndex) | Bare

  /**
   * The argument of `__getitem__`: a tuple of multi-indices, a tuple of ints
   * (a multi-index passed on its own, which is a tuple too), or a hashable
   * value that is not a tuple.
   */
  datatype Index = Tuple(factors: Monomial) | Ints(entries: seq<int>) | NonTuple

  /** The key looked up: a tuple is used as it is, anything else is wrapped into a 1-tuple. */
  function AsKey(idx: Index): (key: seq<Entry>)
    ensures idx.NonTuple? ==> key == [Bare]
    ensures idx.Tuple? ==> |key| == |idx.factors| && forall i :: 0 <= i < |key| ==> key[i] == Multi(idx.factors[i])
    ensures idx.Ints? ==> |key| == |idx.entries| && forall i :: 0 <= i < |key| ==> key[i] == Bare
  {
    match idx
    case Tuple(factors) => seq(|factors|, i requires 0 <= i < |factors| => Multi(factors[i]))
    case Ints(entries) => seq(|entries|, i requires 0 <= i < |entries| => Bare)
    case NonTuple => [Bare]
  }

  /** The monomial a key names, when every entry of it is a multi-index; stored keys are all of this form. */
  function MonomialOf(key: seq<Entry>): (r: Option<Monomial>)
    ensures r.Some? <==> forall i :: 0 <= i < |key| ==> key[i].Multi?
    ensures r.Some? ==> |r.value| == |key| && forall i :: 0 <= i < |key| ==> key[i] == Multi(r.value[i])
  {
    if forall i :: 0 <= i < |key| ==> key[i].Multi? then Some(seq(|key|, i requires 0 <= i < |key| => key[i].index))
    else None
  }

  /** `f[multi_indices]`: the coefficient stored under the key, or zero when the key names no stored monomial. */
  function GetItem(f: Operator, idx: Index): (r: int)
  {
    match MonomialOf(AsKey(idx))
    case Some(mono) => Coeff(f.coeffs, mono)
    case None => 0
  }

  /** `f[multi_indices] = new_value` for a tuple of multi-indices, on a copy. */
  function SetItem(f: Operator, mono: Monomial, value: int): (g: Operator)
    ensures g.coeffs.Keys == f.coeffs.Keys + {mono}
  {
    Operator(f.coeffs[mono := value])
  }

  /**
   * A tuple of multi-indices reads its stored coefficient; a bare multi-index and
   * a non-tuple name no stored monomial and read zero, the empty tuple aside.
   */
  lemma GetItemKinds(f: Operator, idx: Index)
    ensures idx.Tuple? ==> GetItem(f, idx) == Coeff(f.coeffs, idx.factors)
    ensures idx.Ints? ==> GetItem(f, idx) == if idx.entries == [] then Coeff(f.coeffs, []) else 0
    ensures idx.NonTuple? ==> GetItem(f, idx) == 0
  {
    var key := AsKey(idx);
    if idx.Tuple? {
      assert MonomialOf(key).value == idx.factors;
    } else if idx.Ints? && idx.entries != [] {
      assert !key[0].Multi?;
    } else if idx.NonTuple? {
      assert !key[0].Multi?;
    } else {
      assert MonomialOf(key).value == [];
    }
  }

  /** Reading back a stored coefficient gives it; every other coefficient is untouched. */
  lemma GetAfterSet(f: Operator, mono: Monomial, value: int, other: Index)
    ensures GetItem(SetItem(f, mono, value), Tuple(mono)) == value
    ensures MonomialOf(AsKey(other)) != Some(mono) ==>
              GetItem(SetItem(f, mono, value), other) == GetItem(f, other)
    ensures forall x :: x != [] ==> GetItem(SetItem(f, mono, value), Ints(x)) == 0
  {
    GetItemKinds(SetItem(f, mono, value), Tuple(mono));
    forall x | x != []
      ensures GetItem(SetItem(f, mono, value), Ints(x)) == 0
    {
      GetItemKinds(SetItem(f, mono, value), Ints(x));
    }
  }

  /**
   * `f + g` (subtract false) and `f - g` (subtract true): the coefficients of f
   * are copied, then those of g are added to (or subtracted from) them.
   */
  method Combine(f: Operator, g: Operator, subtract: bool) returns (h: Operator)
    ensures h.coeffs.Keys == f.coeffs.Keys + g.coeffs.Keys
    ensures forall mono :: Coeff(h.coeffs, mono) == if subtract then Coeff(f.coeffs, mono) - Coeff(g.coeffs, mono) else Coeff(f.coeffs, mono) + Coeff(g.coeffs, mono)
  {
    var m: map<Monomial, int> := map[];
    var todo := f.coeffs.Keys;
    while todo != {}
      invariant todo <= f.coeffs.Keys
      invariant m.Keys == f.coeffs.Keys - todo
      invariant forall mono :: mono in m ==> m[mono] == f.coeffs[mono]
      decreases todo
    {
      var mono :| mono in todo;
      m := m[mono := f.coeffs[mono]];
      todo := todo - {mono};
    }
    assert m == f.coeffs;
    todo := g.coeffs.Keys;
    while todo != {}
      invariant todo <= g.coeffs.Keys
      invariant m.Keys == f.coeffs.Keys + (g.coeffs.Keys - todo)
      invariant forall mono :: Coeff(m, mono) == if mono in todo then Coeff(f.coeffs, mono) else if subtract then Coeff(f.coeffs, mono) - Coeff(g.coeffs, mono) else Coeff(f.coeffs, mono) + Coeff(g.coeffs, mono)
      decreases todo
    {
      var mono :| mono in todo;
      var c := g.coeffs[mono];
      m := m[mono := if subtract then Coeff(m, mono) - c else Coeff(m, mono) + c];
      todo := todo - {mono};
    }
    assert f.coeffs.Keys - todo == f.coeffs.Keys;
    h := Operator(m);
  }

  /** `_add_`. */
  method Add(f: Operator, g: Operator) returns (h: Operator)
    ensures h.coeffs.Keys == f.coeffs.Keys + g.coeffs.Keys
    ensures forall mono :: Coeff(h.coeffs, mono) == Coeff(f.coeffs, mono) + Coeff(g.coeffs, mono)
  {
    h := Combine(f, g, false);
  }

  /** `_sub_`. */
  method Sub(f: Operator, g: Operator) returns (h: Operator)
    ensures h.coeffs.Keys == f.coeffs.Keys + g.coeffs.Keys
    ensures forall mono :: Coeff(h.coeffs, mono) == Coeff(f.coeffs, mono) - Coeff(g.coeffs, mono)
  {
    h := Combine(f, g, true);
  }

  /** `map_coefficients(fn)`: `fn` applied to every stored coefficient, the monomials kept. */
  method MapCoefficients(f: Operator, fn: int -> int) returns (h: Operator)
    ensures h.coeffs.Keys == f.coeffs.Keys
    ensures forall mono :: mono in h.coeffs ==> h.coeffs[mono] == fn(f.coeffs[mono])
  {
    var m: map<Monomial, int> := map[];
    var todo := f.coeffs.Keys;
    while todo != {}
      invariant todo <= f.coeffs.Keys
      invariant m.Keys == f.coeffs.Keys - todo
      invariant forall mono :: mono in m ==> m[mono] == fn(f.coeffs[mono])
      decreases todo
    {
      var mono :| mono in todo;
      m := m[mono := fn(f.coeffs[mono])];
      todo := todo - {mono};
    }
    assert f.coeffs.Keys - todo == f.coeffs.Keys;
    h := Operator(m);
  }

  /** `_neg_`. */
  method Neg(f: Operator) returns (h: Operator)
    ensures h.coeffs.Keys == f.coeffs.Keys
    ensures forall mono :: Coeff(h.coeffs, mono) == -Coeff(f.coeffs, mono)
  {
    h := MapCoefficients(f, x => -x);
  }

  /** `_lmul_`: every stored coefficient multiplied by the ring element c. */
  method Lmul(f: Operator, c: int) returns (h: Operator)
    ensures h.coeffs.Keys == f.coeffs.Keys
    ensures forall mono :: Coeff(h.coeffs, mono) == Coeff(f.coeffs, mono) * c
  {
    h := MapCoefficients(f, x => x * c);
  }

  /** `__bool__`: whether some stored coefficient is non-zero. */
  method Bool(f: Operator) returns (r: bool)
    ensures r <==> exists mono :: mono in f.coeffs && f.coeffs[mono] != 0
  {
    var todo := f.coeffs.Keys;
    while todo != {}
      invariant todo <= f.coeffs.Keys
      invariant forall mono :: mono in f.coeffs && mono !in todo ==> f.coeffs[mono] == 0
      decreases todo
    {
      var mono :| mono in todo;
      if f.coeffs[mono] != 0 {
        return true;
      }
      todo := todo - {mono};
    }
    return false;
  }

  /** An operator minus itself is zero, however many monomials it stores. */
  method SelfDifferenceIsZero(f: Operator) returns (r: bool)
    ensures !r
  {
    var d := Sub(f, f);
    forall mono | mono in d.coeffs ensures d.coeffs[mono] == 0 {
      assert Coeff(d.coeffs, mono) == 0;
    }
    r := Bool(d);
  }

  // ---------------------------------------------------------------------------
  // Symmetrization
  // ---------------------------------------------------------------------------

  /** How often `itertools.permutations(mono)` yields `target` (repeated arguments repeat it). */
  ghost function SymWeight(mono: Monomial, target: Monomial): int
  {
    multiset(Permutations(mono))[target]
  }

  /** The coefficient of `target` in the symmetrization of f. */
  ghost function SymmetrizedCoeff(f: map<Monomial, int>, keys: set<Monomial>, target: Monomial): int
  {
    SetSum(keys, mono => Coeff(f, mono) * SymWeight(mono, target))
  }

  /** Only rearrangements of a monomial receive its coefficient. */
  lemma SymWeightRearranges(mono: Monomial, target: Monomial)
    ensures SymWeight(mono, target) != 0 ==> multiset(target) == multiset(mono)
  {
    if SymWeight(mono, target) != 0 {
      PermutationMultiset(mono, target);
    }
  }

  /** `acc[p] += c` for every p in `perms`, in order. */
  method AddOverPermutations(acc: map<Monomial, int>, perms: seq<Monomial>, c: int) returns (acc': map<Monomial, int>)
    ensures forall target :: target in acc' <==> target in acc || target in perms
    ensures forall target :: Coeff(acc', target) == Coeff(acc, target) + c * multiset(perms)[target]
  {
    acc' := acc;
    var j := 0;
    while j < |perms|
      invariant j <= |perms|
      invariant forall target :: target in acc' <==> target in acc || target in perms[..j]
      invariant forall target :: Coeff(acc', target) == Coeff(acc, target) + c * multiset(perms[..j])[target]
    {
      var p := perms[j];
      assert perms[..j + 1] == perms[..j] + [p];
      ghost var before := acc';
      acc' := acc'[p := Coeff(acc', p) + c];
      forall target ensures Coeff(acc', target) == Coeff(acc, target) + c * multiset(perms[..j + 1])[target] {
        var k := multiset(perms[..j])[target];
        if target == p {
          assert multiset(perms[..j + 1])[target] == k + 1;
          MulSucc(c, k);
        } else {
          assert multiset(perms[..j + 1])[target] == k;
        }
      }
      j := j + 1;
    }
    assert perms[..j] == perms;
  }

  lemma MulSucc(c: int, k: int)
    ensures c * (k + 1) == c * k + c
  {
  }

  /** The sum over `done + {mono}` is the sum over `done` plus the term of `mono`. */
  lemma SetSumStep(done: set<Monomial>, mono: Monomial, w: Monomial -> int)
    requires mono !in done
    ensures SetSum(done + {mono}, w) == SetSum(done, w) + w(mono)
  {
    SetSumRemove(done + {mono}, mono, w);
    assert done + {mono} - {mono} == done;
  }

  /**
   * `symmetrization`: every stored coefficient is added at each tuple that
   * `itertools.permutations` yields from its monomial.
   */
  method Symmetrization(f: Operator) returns (h: Operator)
    ensures forall target :: Coeff(h.coeffs, target) == SymmetrizedCoeff(f.coeffs, f.coeffs.Keys, target)
    ensures forall target :: target in h.coeffs ==>
              exists mono :: mono in f.coeffs && target in Permutations(mono)
  {
    var m: map<Monomial, int> := map[];
    var todo := f.coeffs.Keys;
    while todo != {}
      invariant todo <= f.coeffs.Keys
      invariant forall target :: Coeff(m, target) == SymmetrizedCoeff(f.coeffs, f.coeffs.Keys - todo, target)
      invariant forall target :: target in m ==>
                  exists mono :: mono in f.coeffs && target in Permutations(mono)
      decreases todo
    {
      var mono :| mono in todo;
      var done := f.coeffs.Keys - todo;
      var m' := AddOverPermutations(m, Permutations(mono), f.coeffs[mono]);
      forall target
        ensures Coeff(m', target) == SymmetrizedCoeff(f.coeffs, done + {mono}, target)
      {
        SetSumStep(done, mono, x => Coeff(f.coeffs, x) * SymWeight(x, target));
      }
      assert f.coeffs.Keys - (todo - {mono}) == done + {mono};
      m := m';
      todo := todo - {mono};
    }
    assert f.coeffs.Keys - todo == f.coeffs.Keys;
    h := Operator(m);
  }

  // ---------------------------------------------------------------------------
  // Skew-symmetrization
  // ---------------------------------------------------------------------------

  /** `tuple(mono[sigma[k]] for k in range(arity))`. */
  function Permute(mono: Monomial, sigma: seq<int>): (r: Monomial)
    requires forall k :: 0 <= k < |sigma| ==> 0 <= sigma[k] < |mono|
    ensures |r| == |sigma|
  {
    seq(|sigma|, k requires 0 <= k < |sigma| => mono[sigma[k]])
  }

  ghost predicate ArgumentPermutations(mono: Monomial, sigmas: seq<seq<int>>)
  {
    forall s :: s in sigmas ==> forall k :: 0 <= k < |s| ==> 0 <= s[k] < |mono|
  }

  /** The sum of sign(sigma) over the sigmas in `sigmas` that send `mono` to `target`. */
  ghost function SignedCount(mono: Monomial, sigmas: seq<seq<int>>, target: Monomial): int
    requires ArgumentPermutations(mono, sigmas)
  {
    if |sigmas| == 0 then 0
    else
      var s := sigmas[|sigmas| - 1];
      SignedCount(mono, sigmas[..|sigmas| - 1], target) + (if Permute(mono, s) == target then SortSign(s, IntLess) else 0)
  }

  /** Each arrangement of `range(n)` lists 0 .. n-1 once each. */
  lemma PermutationOfRange(n: nat, sigma: seq<int>)
    requires sigma in Permutations(Range(0, n))
    ensures |sigma| == n && Distinct(sigma)
    ensures forall k :: 0 <= k < |sigma| ==> 0 <= sigma[k] < n
  {
    PermutationMultiset(Range(0, n), sigma);
    assert |multiset(sigma)| == |multiset(Range(0, n))|;
    forall k | 0 <= k < |sigma| ensures 0 <= sigma[k] < n {
      assert sigma[k] in multiset(Range(0, n));
    }
    MultisetDistinct(sigma, Range(0, n));
  }

  lemma PermutationsOfRange(mono: Monomial)
    ensures ArgumentPermutations(mono, Permutations(Range(0, |mono|)))
  {
    forall s | s in Permutations(Range(0, |mono|)) ensures forall k :: 0 <= k < |s| ==> 0 <= s[k] < |mono| {
      PermutationOfRange(|mono|, s);
    }
  }

  /** The signed number of permutations of the arguments that send `mono` to `target`. */
  ghost function SkewWeight(mono: Monomial, target: Monomial): int
  {
    PermutationsOfRange(mono);
    SignedCount(mono, Permutations(Range(0, |mono|)), target)
  }

  ghost function SkewSymmetrizedCoeff(f: map<Monomial, int>, keys: set<Monomial>, target: Monomial): int
  {
    SetSum(keys, mono => Coeff(f, mono) * SkewWeight(mono, target))
  }

  /**
   * `acc[mono permuted by sigma] += sign(sigma) * c` for every sigma in
   * `sigmas`, the sign computed by selection-sorting a copy of sigma.
   */
  method AddOverSignedPermutations(acc: map<Monomial, int>, mono: Monomial, sigmas: seq<seq<int>>, c: int)
    returns (acc': map<Monomial, int>)
    requires sigmas == Permutations(Range(0, |mono|))
    ensures ArgumentPermutations(mono, sigmas)
    ensures forall target :: target in acc' ==> target in acc || multiset(target) == multiset(mono)
    ensures forall target :: Coeff(acc', target) == Coeff(acc, target) + c * SignedCount(mono, sigmas, target)
  {
    PermutationsOfRange(mono);
    acc' := acc;
    var j := 0;
    while j < |sigmas|
      invariant j <= |sigmas|
      invariant ArgumentPermutations(mono, sigmas[..j])
      invariant forall target :: target in acc' ==> target in acc || multiset(target) == multiset(mono)
      invariant forall target :: Coeff(acc', target) == Coeff(acc, target) + c * SignedCount(mono, sigmas[..j], target)
    {
      PermutationOfRange(|mono|, sigmas[j]);
      var sign := SortSignOf(sigmas[j]);
      PermuteRearranges(mono, sigmas[j]);
      acc' := AddSigned(acc, acc', mono, sigmas, j, sign, c);
      j := j + 1;
    }
    assert sigmas[..j] == sigmas;
  }

  /** One step of AddOverSignedPermutations: `acc[permuted] += sign * c` for sigmas[j]. */
  method AddSigned(acc: map<Monomial, int>, cur: map<Monomial, int>, mono: Monomial, sigmas: seq<seq<int>>, j: nat, sign: int, c: int)
    returns (next: map<Monomial, int>)
    requires ArgumentPermutations(mono, sigmas) && j < |sigmas|
    requires sign == SortSign(sigmas[j], IntLess)
    requires multiset(Permute(mono, sigmas[j])) == multiset(mono)
    requires forall target :: target in cur ==> target in acc || multiset(target) == multiset(mono)
    requires forall target :: Coeff(cur, target) == Coeff(acc, target) + c * SignedCount(mono, sigmas[..j], target)
    ensures ArgumentPermutations(mono, sigmas[..j + 1])
    ensures forall target :: target in next ==> target in acc || multiset(target) == multiset(mono)
    ensures forall target :: Coeff(next, target) == Coeff(acc, target) + c * SignedCount(mono, sigmas[..j + 1], target)
  {
    var permuted := Permute(mono, sigmas[j]);
    SignedCountSnoc(mono, sigmas, j);
    next := cur[permuted := Coeff(cur, permuted) + sign * c];
    forall target
      ensures Coeff(next, target) == Coeff(acc, target) + c * SignedCount(mono, sigmas[..j + 1], target)
    {
      var k := SignedCount(mono, sigmas[..j], target);
      if target == permuted {
        MulShift(c, k, sign);
      }
    }
  }

  lemma MulShift(c: int, k: int, sign: int)
    ensures c * (k + sign) == c * k + sign * c
  {
  }


  lemma SignedCountSnoc(mono: Monomial, sigmas: seq<seq<int>>, j: nat)
    requires ArgumentPermutations(mono, sigmas) && j < |sigmas|
    ensures ArgumentPermutations(mono, sigmas[..j]) && ArgumentPermutations(mono, sigmas[..j + 1])
    ensures forall target :: SignedCount(mono, sigmas[..j + 1], target) ==
              SignedCount(mono, sigmas[..j], target) + (if Permute(mono, sigmas[j]) == target then SortSign(sigmas[j], IntLess) else 0)
  {
    assert sigmas[..j + 1][..j] == sigmas[..j];
  }

  /** Permuting the arguments by an arrangement of their positions rearranges the monomial. */
  lemma PermuteRearranges(mono: Monomial, sigma: seq<int>)
    requires sigma in Permutations(Range(0, |mono|))
    ensures forall k :: 0 <= k < |sigma| ==> 0 <= sigma[k] < |mono|
    ensures multiset(Permute(mono, sigma)) == multiset(mono)
  {
    PermutationOfRange(|mono|, sigma);
    PermutationMultiset(Range(0, |mono|), sigma);
    PermuteMultiset(mono, sigma, |sigma|);
    assert Permute(mono, sigma)[..|sigma|] == Permute(mono, sigma);
    assert sigma[..|sigma|] == sigma;
  }

  /** The first `i` permuted arguments are those at positions sigma[0 .. i-1]. */
  lemma PermuteMultiset(mono: Monomial, sigma: seq<int>, i: nat)
    requires |sigma| == |mono| && multiset(sigma) == multiset(Range(0, |sigma|)) && i <= |sigma|
    requires forall k :: 0 <= k < |sigma| ==> 0 <= sigma[k] < |mono|
    ensures multiset(Permute(mono, sigma)[..i]) == MultisetAt(mono, sigma[..i])
    ensures i == |sigma| ==> MultisetAt(mono, sigma[..i]) == multiset(mono)
  {
    PermutePrefix(mono, sigma, i);
    if i == |sigma| {
      assert sigma[..i] == sigma;
      MultisetAtAll(mono, sigma);
    }
  }

  lemma {:induction false} PermutePrefix(mono: Monomial, sigma: seq<int>, i: nat)
    requires i <= |sigma| && forall k :: 0 <= k < |sigma| ==> 0 <= sigma[k] < |mono|
    ensures multiset(Permute(mono, sigma)[..i]) == MultisetAt(mono, sigma[..i])
  {
    if i > 0 {
      PermutePrefix(mono, sigma, i - 1);
      assert Permute(mono, sigma)[..i] == Permute(mono, sigma)[..i - 1] + [mono[sigma[i - 1]]];
      assert sigma[..i][..i - 1] == sigma[..i - 1];
    }
  }

  /** The multiset of the arguments of `mono` at the positions in `positions`. */
  ghost function MultisetAt(mono: Monomial, positions: seq<int>): multiset<MultiIndex>
    requires forall k :: 0 <= k < |positions| ==> 0 <= positions[k] < |mono|
  {
    if |positions| == 0 then multiset{}
    else MultisetAt(mono, positions[..|positions| - 1]) + multiset{mono[positions[|positions| - 1]]}
  }

  /** Taking every position once, in any order, collects every argument once. */
  lemma MultisetAtAll(mono: Monomial, sigma: seq<int>)
    requires |sigma| == |mono| && forall k :: 0 <= k < |sigma| ==> 0 <= sigma[k] < |mono|
    requires multiset(sigma) == multiset(Range(0, |sigma|))
    ensures MultisetAt(mono, sigma) == multiset(mono)
  {
    MultisetAtPermuted(mono, sigma, Range(0, |mono|));
    MultisetAtRange(mono, |mono|);
    assert mono[..|mono|] == mono;
  }

  lemma {:induction false} MultisetAtRange(mono: Monomial, i: nat)
    requires i <= |mono|
    ensures MultisetAt(mono, Range(0, i)) == multiset(mono[..i])
  {
    if i > 0 {
      MultisetAtRange(mono, i - 1);
      MultisetAtRangeStep(mono, i);
      PrefixMultisetSnoc(mono, i);
    }
  }

  lemma MultisetAtRangeStep(mono: Monomial, i: nat)
    requires 0 < i <= |mono|
    ensures MultisetAt(mono, Range(0, i)) == MultisetAt(mono, Range(0, i - 1)) + multiset{mono[i - 1]}
  {
    var r := Range(0, i);
    assert r[..i - 1] == Range(0, i - 1) && r[i - 1] == i - 1;
  }

  lemma PrefixMultisetSnoc<T>(s: seq<T>, i: nat)
    requires 0 < i <= |s|
    ensures multiset(s[..i]) == multiset(s[..i - 1]) + multiset{s[i - 1]}
  {
    assert s[..i] == s[..i - 1] + [s[i - 1]];
  }

  /** MultisetAt depends only on the multiset of positions. */
  lemma {:induction false} MultisetAtPermuted(mono: Monomial, p: seq<int>, q: seq<int>)
    requires forall k :: 0 <= k < |p| ==> 0 <= p[k] < |mono|
    requires forall k :: 0 <= k < |q| ==> 0 <= q[k] < |mono|
    requires multiset(p) == multiset(q)
    ensures MultisetAt(mono, p) == MultisetAt(mono, q)
    decreases |p|
  {
    if |p| > 0 {
      var j := RemoveMatching(p, q);
      RemoveBounded(q, j, |mono|);
      MultisetAtPermuted(mono, p[..|p| - 1], RemoveAt(q, j));
      MultisetAtRemove(mono, q, j);
    }
  }

  /** A position of q holding the last element of p, and what is left of both without it. */
  lemma RemoveMatching<T>(p: seq<T>, q: seq<T>) returns (j: nat)
    requires |p| > 0 && multiset(p) == multiset(q)
    ensures j < |q| && q[j] == p[|p| - 1]
    ensures multiset(p[..|p| - 1]) == multiset(RemoveAt(q, j))
  {
    var x := p[|p| - 1];
    PrefixMultisetSnoc(p, |p|);
    assert p[..|p|] == p;
    assert x in multiset(q) by {
      assert x in multiset(p);
    }
    j :| 0 <= j < |q| && q[j] == x;
    RemoveAtMultiset(q, j);
    var a, b := multiset(p[..|p| - 1]), multiset(RemoveAt(q, j));
    assert a + multiset{x} == b + multiset{x};
    forall y ensures a[y] == b[y] {
      assert (a + multiset{x})[y] == (b + multiset{x})[y];
    }
  }

  lemma RemoveBounded(q: seq<int>, j: nat, bound: int)
    requires j < |q| && forall k :: 0 <= k < |q| ==> 0 <= q[k] < bound
    ensures forall k :: 0 <= k < |q| - 1 ==> 0 <= RemoveAt(q, j)[k] < bound
  {
    forall k | 0 <= k < |q| - 1 ensures 0 <= RemoveAt(q, j)[k] < bound {
      if k < j {
        assert RemoveAt(q, j)[k] == q[k];
      } else {
        assert RemoveAt(q, j)[k] == q[k + 1];
      }
    }
  }

  lemma {:induction false} MultisetAtRemove(mono: Monomial, q: seq<int>, j: nat)
    requires j < |q| && forall k :: 0 <= k < |q| ==> 0 <= q[k] < |mono|
    ensures forall k :: 0 <= k < |q| - 1 ==> 0 <= RemoveAt(q, j)[k] < |mono|
    ensures MultisetAt(mono, q) == MultisetAt(mono, RemoveAt(q, j)) + multiset{mono[q[j]]}
    decreases |q|
  {
    RemoveBounded(q, j, |mono|);
    var r := q[..|q| - 1];
    if j < |q| - 1 {
      var last := q[|q| - 1];
      assert forall k :: 0 <= k < |r| ==> r[k] == q[k];
      var whole := multiset{mono[last]};
      assert MultisetAt(mono, q) == MultisetAt(mono, r) + whole;
      assert MultisetAt(mono, r) == MultisetAt(mono, RemoveAt(r, j)) + multiset{mono[q[j]]} by {
        MultisetAtRemove(mono, r, j);
      }
      assert MultisetAt(mono, RemoveAt(q, j)) == MultisetAt(mono, RemoveAt(r, j)) + whole by {
        RemoveBeforeLast(q, j);
        RemoveBounded(r, j, |mono|);
        MultisetAtSnoc(mono, RemoveAt(r, j), last);
      }
    } else {
      assert RemoveAt(q, j) == r;
    }
  }

  lemma RemoveBeforeLast<T>(q: seq<T>, j: nat)
    requires j < |q| - 1
    ensures RemoveAt(q, j) == RemoveAt(q[..|q| - 1], j) + [q[|q| - 1]]
  {
  }

  lemma MultisetAtSnoc(mono: Monomial, p: seq<int>, x: int)
    requires 0 <= x < |mono| && forall k :: 0 <= k < |p| ==> 0 <= p[k] < |mono|
    ensures MultisetAt(mono, p + [x]) == MultisetAt(mono, p) + multiset{mono[x]}
  {
    assert (p + [x])[..|p|] == p;
  }

  /**
   * `skew_symmetrization`: for every permutation sigma of the arguments, the
   * stored coefficient times sign(sigma) is added at the permuted monomial.
   */
  method SkewSymmetrization(f: Operator) returns (h: Operator)
    ensures forall target :: Coeff(h.coeffs, target) == SkewSymmetrizedCoeff(f.coeffs, f.coeffs.Keys, target)
    ensures forall target :: target in h.coeffs ==>
              exists mono :: mono in f.coeffs && multiset(target) == multiset(mono)
  {
    var m: map<Monomial, int> := map[];
    var todo := f.coeffs.Keys;
    while todo != {}
      invariant todo <= f.coeffs.Keys
      invariant forall target :: Coeff(m, target) == SkewSymmetrizedCoeff(f.coeffs, f.coeffs.Keys - todo, target)
      invariant forall target :: target in m ==>
                  exists mono :: mono in f.coeffs && multiset(target) == multiset(mono)
      decreases todo
    {
      var mono :| mono in todo;
      var done := f.coeffs.Keys - todo;
      var arguments := Range(0, |mono|);
      var m' := AddOverSignedPermutations(m, mono, Permutations(arguments), f.coeffs[mono]);
      forall target
        ensures Coeff(m', target) == SkewSymmetrizedCoeff(f.coeffs, done + {mono}, target)
      {
        SetSumStep(done, mono, x => Coeff(f.coeffs, x) * SkewWeight(x, target));
      }
      assert f.coeffs.Keys - (todo - {mono}) == done + {mono};
      m := m';
      todo := todo - {mono};
    }
    assert f.coeffs.Keys - todo == f.coeffs.Keys;
    h := Operator(m);
  }

  // ---------------------------------------------------------------------------
  // The multiplicity of a term of an insertion
  // ---------------------------------------------------------------------------

  /** The product of the factorials of the parts. */
  function FactorialProduct(d: seq<nat>): (r: nat)
    ensures r >= 1
  {
    if |d| == 0 then 1 else FactorialProduct(d[..|d| - 1]) * Factorial(d[|d| - 1])
  }

  function Total(d: seq<nat>): nat
  {
    Sum(d)
  }

  /**
   * The multinomial coefficient (d_0 + ... + d_k)! / (d_0! ... d_k!) as a
   * product of binomial coefficients, one per part; an integer by construction.
   */
  function Multinomial(d: seq<nat>): nat
  {
    if |d| == 0 then 1 else Multinomial(d[..|d| - 1]) * Binomial(Total(d), d[|d| - 1])
  }

  lemma {:induction false} SumSnoc(d: seq<int>)
    requires |d| > 0
    ensures Sum(d) == Sum(d[..|d| - 1]) + d[|d| - 1]
  {
    if |d| > 1 {
      SumSnoc(d[1..]);
      assert d[1..][..|d| - 2] == d[..|d| - 1][1..];
    }
  }

  /** C(n, k) k! (n - k)! = n!. */
  lemma {:induction false} BinomialFactorial(n: nat, k: nat)
    requires k <= n
    ensures Binomial(n, k) * Factorial(k) * Factorial(n - k) == Factorial(n)
  {
    if k == 0 {
    } else if k == n {
      BinomialDiagonal(n);
    } else {
      BinomialFactorial(n - 1, k - 1);
      BinomialFactorial(n - 1, k);
      var a := Binomial(n - 1, k - 1);
      var b := Binomial(n - 1, k);
      var fk1 := Factorial(k - 1);
      var fnk := Factorial(n - k - 1);
      var f := Factorial(n - 1);
      assert Binomial(n, k) == a + b;
      assert Factorial(k) == k * fk1;
      assert Factorial(n - k) == (n - k) * fnk;
      assert Factorial(n) == n * f;
      assert a * fk1 * ((n - k) * fnk) == f;
      assert b * (k * fk1) * fnk == f;
      PascalFactorial(a, b, k, n - k, fk1, fnk, f);
      assert Binomial(n, k) * Factorial(k) * Factorial(n - k) == (a + b) * (k * fk1) * ((n - k) * fnk);
    }
  }

  lemma {:induction false} BinomialDiagonal(n: nat)
    ensures Binomial(n, n) == 1
  {
    if n > 0 {
      BinomialZero(n - 1, n);
      BinomialDiagonal(n - 1);
    }
  }

  /** The ring identity behind the inductive step of BinomialFactorial. */
  lemma PascalFactorial(a: int, b: int, k: int, l: int, p: int, q: int, f: int)
    requires a * p * (l * q) == f && b * (k * p) * q == f
    ensures (a + b) * (k * p) * (l * q) == (k + l) * f
  {
    calc {
      (a + b) * (k * p) * (l * q);
      k * (a * p * (l * q)) + l * (b * (k * p) * q);
      k * f + l * f;
    }
  }

  /** (Σd)! = Πd! · Multinomial(d): the division the source performs is exact. */
  lemma {:induction false} MultinomialExact(d: seq<nat>)
    ensures Factorial(Total(d)) == FactorialProduct(d) * Multinomial(d)
  {
    if |d| > 0 {
      var init := d[..|d| - 1];
      var x := d[|d| - 1];
      MultinomialExact(init);
      SumSnoc(d);
      assert Total(d) == Total(init) + x;
      BinomialFactorial(Total(d), x);
      var c := Binomial(Total(d), x);
      assert Total(d) - x == Total(init);
      assert FactorialProduct(d) == FactorialProduct(init) * Factorial(x);
      assert Multinomial(d) == Multinomial(init) * c;
      Regroup(FactorialProduct(init), Factorial(x), Multinomial(init), c, Factorial(Total(init)), Factorial(Total(d)));
    }
  }

  lemma Regroup(p: int, fx: int, m: int, c: int, fi: int, fd: int)
    requires fi == p * m && c * fx * fi == fd
    ensures (p * fx) * (m * c) == fd
  {
    calc {
      (p * fx) * (m * c);
      c * fx * (p * m);
    }
  }

  /** The product of the multinomial coefficients of all decompositions. */
  function MultinomialProduct(ds: seq<seq<nat>>): nat
  {
    if |ds| == 0 then 1 else MultinomialProduct(ds[..|ds| - 1]) * Multinomial(ds[|ds| - 1])
  }

  /**
   * The `multiplicity` loop of `insertion`: for each decomposition, the number of
   * ways to distribute the derivatives over the factors, (Σd)! // Πd!.
   */
  method Multiplicity(decompositions: seq<seq<nat>>) returns (multiplicity: nat)
    ensures multiplicity == MultinomialProduct(decompositions)
  {
    multiplicity := 1;
    var i := 0;
    while i < |decompositions|
      invariant i <= |decompositions|
      invariant multiplicity == MultinomialProduct(decompositions[..i])
    {
      var decomposition := decompositions[i];
      var denominator := FactorialProduct(decomposition);
      var numerator := Factorial(Total(decomposition));
      MultinomialExact(decomposition);
      var multinomial := numerator / denominator;
      DivExact(numerator, denominator, Multinomial(decomposition));
      assert decompositions[..i + 1][..i] == decompositions[..i];
      multiplicity := multiplicity * multinomial;
      i := i + 1;
    }
    assert decompositions[..i] == decompositions;
  }

  lemma DivExact(a: int, b: int, c: int)
    requires b > 0 && a == b * c
    ensures a / b == c
  {
    var q := a / b;
    var r := a % b;
    assert a == b * q + r && 0 <= r < b;
    Distributes(b, c, q);
    MulSign(b, c - q);
  }

  lemma Distributes(b: int, c: int, q: int)
    ensures b * c - b * q == b * (c - q)
  {
  }

  lemma MulSign(b: int, t: int)
    requires b > 0
    ensures t > 0 ==> b * t >= b
    ensures t < 0 ==> b * t <= -b
  {
    if t > 0 {
      assert b * t == b * (t - 1) + b;
    } else if t < 0 {
      assert b * t == -(b * (-t - 1) + b);
    }
  }
}
