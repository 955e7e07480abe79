/**
 * Graph vectors stored as dictionaries (gcaops/graph/graph_vector_dict.py).
 *
 * A vector is a `defaultdict` from basis keys to coefficients, in which an
 * absent key reads as zero. A Python dictionary remembers the order in which
 * its keys were first set and iterates in that order, so a vector here is the
 * list of its keys in that order together with the map of their coefficients.
 * The base ring is the integers. A basis is given by its `graph_to_key`, its
 * `key_to_graph` and the grading of a key (`key[:grading_size]`); the basis
 * modules show that their key maps are functions of the generated lists.
 */
module GraphVectors {
  import opened Wrappers
  import opened Parity

  /** A term `(coeff, graph)`. */
  datatype Term<G> = Term(coeff: int, graph: G)

  /** The key maps of a graph basis and the grading part of a key. */
  datatype Basis<!K, !G> = Basis(graphToKey: G -> (Option<K>, int), keyToGraph: K -> (Option<G>, int), grading: K -> seq<int>)

  /** A `defaultdict` read: the coefficient of `k`, zero when absent. */
  function Get<K(!new)>(values: map<K, int>, k: K): int
  {
    if k in values then values[k] else 0
  }

  /** The key list is the map's domain, each key once. */
  ghost predicate WellFormed<K(!new)>(keys: seq<K>, values: map<K, int>)
  {
    Distinct(keys) && forall k :: k in values <==> k in keys
  }

  /** The keys of `others` missing from `keys`, in order: those `v[k] += …` appends. */
  function Fresh<K(==,!new)>(keys: seq<K>, others: seq<K>): (r: seq<K>)
    ensures |r| <= |others|
  {
    if |others| == 0 then []
    else
      var last := others[|others| - 1];
      Fresh(keys, others[..|others| - 1]) + (if last in keys then [] else [last])
  }

  lemma {:induction false} FreshMembers<K(!new)>(keys: seq<K>, others: seq<K>)
    ensures forall x :: x in Fresh(keys, others) <==> x in others && x !in keys
  {
    if |others| != 0 {
      var init := others[..|others| - 1];
      var last := others[|others| - 1];
      assert others == init + [last];
      FreshMembers(keys, init);
    }
  }

  lemma {:induction false} FreshDistinct<K(!new)>(keys: seq<K>, others: seq<K>)
    requires Distinct(others)
    ensures Distinct(Fresh(keys, others))
  {
    if |others| != 0 {
      var init := others[..|others| - 1];
      var last := others[|others| - 1];
      assert others == init + [last];
      FreshDistinct(keys, init);
      FreshMembers(keys, init);
      assert last !in init;
    }
  }

  lemma DistinctConcat<K>(a: seq<K>, b: seq<K>)
    requires Distinct(a) && Distinct(b)
    requires forall x :: x in b ==> x !in a
    ensures Distinct(a + b)
  {
    forall i, j | 0 <= i < j < |a + b| ensures (a + b)[i] != (a + b)[j] {
      if i < |a| && j >= |a| {
        assert (a + b)[j] in b;
      }
    }
  }

  /** The keys with a non-zero coefficient, in order. */
  function NonZeroKeys<K(!new)>(keys: seq<K>, values: map<K, int>): (r: seq<K>)
    ensures |r| <= |keys|
    ensures forall k :: k in r <==> k in keys && Get(values, k) != 0
  {
    if |keys| == 0 then []
    else
      var last := keys[|keys| - 1];
      assert keys == keys[..|keys| - 1] + [last];
      NonZeroKeys(keys[..|keys| - 1], values) + (if Get(values, last) != 0 then [last] else [])
  }

  lemma {:induction false} NonZeroKeysDistinct<K(!new)>(keys: seq<K>, values: map<K, int>)
    requires Distinct(keys)
    ensures Distinct(NonZeroKeys(keys, values))
  {
    if |keys| != 0 {
      var init := keys[..|keys| - 1];
      assert keys == init + [keys[|keys| - 1]];
      NonZeroKeysDistinct(init, values);
    }
  }

  /** One more key read: it is kept when its coefficient is not zero. */
  lemma NonZeroKeysStep<K(!new)>(keys: seq<K>, values: map<K, int>, i: nat)
    requires i < |keys|
    ensures |NonZeroKeys(keys[..i + 1], values)|
         == |NonZeroKeys(keys[..i], values)| + (if Get(values, keys[i]) != 0 then 1 else 0)
  {
    assert keys[..i + 1][..i] == keys[..i];
  }

  /** The counting loop of `__len__`: one step per key, counting the non-zero coefficients. */
  method CountNonZero<K(!new)>(keys: seq<K>, values: map<K, int>) returns (n: nat)
    ensures n == |NonZeroKeys(keys, values)|
  {
    n := 0;
    var i := 0;
    while i < |keys|
      invariant 0 <= i <= |keys|
      invariant n == |NonZeroKeys(keys[..i], values)|
    {
      NonZeroKeysStep(keys, values, i);
      if Get(values, keys[i]) != 0 {
        n := n + 1;
      }
      i := i + 1;
    }
    assert keys[..i] == keys;
  }

  /** No key survives exactly when every coefficient is zero. */
  lemma NonZeroKeysEmpty<K(!new)>(keys: seq<K>, values: map<K, int>)
    requires WellFormed(keys, values)
    ensures |NonZeroKeys(keys, values)| == 0 <==> forall k :: Get(values, k) == 0
  {
    if |NonZeroKeys(keys, values)| == 0 {
      forall k ensures Get(values, k) == 0 {
        assert k !in NonZeroKeys(keys, values);
      }
    } else {
      assert NonZeroKeys(keys, values)[0] in NonZeroKeys(keys, values);
    }
  }

  ghost function Support<K(!new)>(values: map<K, int>): set<K>
  {
    set k | k in values && values[k] != 0
  }

  lemma {:induction false} DistinctCard<K(!new)>(s: seq<K>)
    requires Distinct(s)
    ensures |set x | x in s| == |s|
  {
    if |s| != 0 {
      var init := s[..|s| - 1];
      var last := s[|s| - 1];
      assert s == init + [last];
      DistinctCard(init);
      assert (set x | x in s) == (set x | x in init) + {last};
    }
  }

  /** Counting the non-zero coefficients in key order counts the support. */
  lemma SupportSize<K(!new)>(keys: seq<K>, values: map<K, int>)
    requires WellFormed(keys, values)
    ensures |NonZeroKeys(keys, values)| == |Support(values)|
  {
    NonZeroKeysDistinct(keys, values);
    DistinctCard(NonZeroKeys(keys, values));
    assert (set x | x in NonZeroKeys(keys, values)) == Support(values);
  }

  /** A key of a vector with its coefficient, as read, and what `key_to_graph` gives for it. */
  datatype Entry<G> = Entry(coeff: int, graph: Option<G>, sign: int)

  /** The entries of the keys with a non-zero coefficient, in key order. */
  function Entries<K(!new), G>(keys: seq<K>, values: map<K, int>, keyToGraph: K -> (Option<G>, int)): (r: seq<Entry<G>>)
    ensures |r| == |NonZeroKeys(keys, values)|
    ensures forall i :: 0 <= i < |r| ==>
              var k := NonZeroKeys(keys, values)[i];
              r[i] == Entry(Get(values, k), keyToGraph(k).0, keyToGraph(k).1)
  {
    if |keys| == 0 then []
    else
      var k := keys[|keys| - 1];
      Entries(keys[..|keys| - 1], values, keyToGraph)
      + (if Get(values, k) != 0 then [Entry(Get(values, k), keyToGraph(k).0, keyToGraph(k).1)] else [])
  }

  /** The terms `(coeff * sign, graph)` that `__iter__` yields for entries. */
  function Signed<G>(es: seq<Entry<G>>): (r: seq<Term<Option<G>>>)
    ensures |r| == |es|
    ensures forall i :: 0 <= i < |es| ==> r[i] == Term(es[i].coeff * es[i].sign, es[i].graph)
  {
    seq(|es|, i requires 0 <= i < |es| => Term(es[i].coeff * es[i].sign, es[i].graph))
  }

  lemma SignedConcat<G>(a: seq<Entry<G>>, b: seq<Entry<G>>)
    ensures Signed(a + b) == Signed(a) + Signed(b)
  {
  }

  /** One more key read by `__iter__`. */
  lemma IterSnoc<K(!new), G>(keys: seq<K>, values: map<K, int>, keyToGraph: K -> (Option<G>, int), j: nat)
    requires j < |keys|
    ensures Get(values, keys[j]) == 0 ==>
              Signed(Entries(keys[..j + 1], values, keyToGraph)) == Signed(Entries(keys[..j], values, keyToGraph))
    ensures Get(values, keys[j]) != 0 ==>
              Signed(Entries(keys[..j + 1], values, keyToGraph))
              == Signed(Entries(keys[..j], values, keyToGraph)) + [Term(Get(values, keys[j]) * keyToGraph(keys[j]).1, keyToGraph(keys[j]).0)]
  {
    EntriesSnoc(keys, values, keyToGraph, j);
    var e := Entry(Get(values, keys[j]), keyToGraph(keys[j]).0, keyToGraph(keys[j]).1);
    SignedConcat(Entries(keys[..j], values, keyToGraph), [e]);
  }

  /** One more key read by the loops of `insertion` as written. */
  lemma EntriesSnoc<K(!new), G>(keys: seq<K>, values: map<K, int>, keyToGraph: K -> (Option<G>, int), j: nat)
    requires j < |keys|
    ensures Get(values, keys[j]) == 0 ==>
              Entries(keys[..j + 1], values, keyToGraph) == Entries(keys[..j], values, keyToGraph)
    ensures Get(values, keys[j]) != 0 ==>
              Entries(keys[..j + 1], values, keyToGraph)
              == Entries(keys[..j], values, keyToGraph) + [Entry(Get(values, keys[j]), keyToGraph(keys[j]).0, keyToGraph(keys[j]).1)]
  {
    assert keys[..j + 1][..j] == keys[..j];
    assert Entries(keys[..j], values, keyToGraph) + [] == Entries(keys[..j], values, keyToGraph);
  }

  /** Every graph of `gs` with the coefficient c. */
  function Scaled<G>(c: int, gs: seq<G>): (r: seq<Term<G>>)
    ensures |r| == |gs|
    ensures forall i :: 0 <= i < |gs| ==> r[i] == Term(c, gs[i])
  {
    seq(|gs|, i requires 0 <= i < |gs| => Term(c, gs[i]))
  }

  lemma ConcatAssoc<T>(a: seq<T>, b: seq<T>, c: seq<T>)
    ensures (a + b) + c == a + (b + c)
  {
  }

  /** A product of integers is zero exactly when a factor is. */
  lemma ProductZero(a: int, b: int)
    ensures a * b == 0 <==> a == 0 || b == 0
  {
  }

  /**
   * The terms of one user term inserted into each victim term, the coefficient
   * being the product of the two; zero products are skipped.
   */
  function Row<G>(u: Term<Option<G>>, vs: seq<Term<Option<G>>>, position: int, ins: (G, int, G) -> seq<G>): seq<Term<G>>
  {
    if |vs| == 0 then []
    else
      var v := vs[|vs| - 1];
      Row(u, vs[..|vs| - 1], position, ins)
      + (if u.graph.None? || v.graph.None? || u.coeff == 0 || v.coeff == 0 then []
         else Scaled(u.coeff * v.coeff, ins(u.graph.value, position, v.graph.value)))
  }

  /** Bilinear insertion of the terms `us` into the terms `vs`, user by user. */
  function Pairs<G>(us: seq<Term<Option<G>>>, vs: seq<Term<Option<G>>>, position: int, ins: (G, int, G) -> seq<G>): seq<Term<G>>
  {
    if |us| == 0 then []
    else Pairs(us[..|us| - 1], vs, position, ins) + Row(us[|us| - 1], vs, position, ins)
  }

  lemma RowSnoc<G>(u: Term<Option<G>>, vs: seq<Term<Option<G>>>, v: Term<Option<G>>, position: int, ins: (G, int, G) -> seq<G>)
    requires u.graph.Some? && v.graph.Some?
    ensures u.coeff == 0 || v.coeff == 0 ==> Row(u, vs + [v], position, ins) == Row(u, vs, position, ins)
    ensures u.coeff != 0 && v.coeff != 0 ==>
              Row(u, vs + [v], position, ins)
              == Row(u, vs, position, ins) + Scaled(u.coeff * v.coeff, ins(u.graph.value, position, v.graph.value))
  {
    assert (vs + [v])[..|vs|] == vs;
    assert Row(u, vs, position, ins) + [] == Row(u, vs, position, ins);
  }

  lemma PairsSnoc<G>(us: seq<Term<Option<G>>>, u: Term<Option<G>>, vs: seq<Term<Option<G>>>, position: int, ins: (G, int, G) -> seq<G>)
    ensures Pairs(us + [u], vs, position, ins) == Pairs(us, vs, position, ins) + Row(u, vs, position, ins)
  {
    assert (us + [u])[..|us|] == us;
  }

  /**
   * The inner loop of `insertion` as written: the product is taken with the
   * current `user_coeff` and the victim's coefficient as read, and `user_coeff`
   * is multiplied by the user's sign after every product that is kept. The
   * second component is `user_coeff` at the end.
   */
  function AsWrittenRow<G>(userCoeff: int, userSign: int, user: Option<G>, vs: seq<Entry<G>>, position: int, ins: (G, int, G) -> seq<G>): (seq<Term<G>>, int)
  {
    if |vs| == 0 then ([], userCoeff)
    else
      var (terms, c) := AsWrittenRow(userCoeff, userSign, user, vs[..|vs| - 1], position, ins);
      var v := vs[|vs| - 1];
      if c == 0 || v.coeff == 0 || user.None? || v.graph.None? then (terms, c)
      else (terms + Scaled(c * v.coeff, ins(user.value, position, v.graph.value)), c * userSign)
  }

  function AsWrittenPairs<G>(us: seq<Entry<G>>, vs: seq<Entry<G>>, position: int, ins: (G, int, G) -> seq<G>): seq<Term<G>>
  {
    if |us| == 0 then []
    else
      var u := us[|us| - 1];
      AsWrittenPairs(us[..|us| - 1], vs, position, ins) + AsWrittenRow(u.coeff, u.sign, u.graph, vs, position, ins).0
  }

  lemma AsWrittenRowSnoc<G>(userCoeff: int, userSign: int, user: Option<G>, vs: seq<Entry<G>>, v: Entry<G>, position: int, ins: (G, int, G) -> seq<G>)
    requires user.Some? && v.graph.Some?
    ensures AsWrittenRow(userCoeff, userSign, user, vs, position, ins).1 == 0 || v.coeff == 0 ==>
              AsWrittenRow(userCoeff, userSign, user, vs + [v], position, ins) == AsWrittenRow(userCoeff, userSign, user, vs, position, ins)
    ensures AsWrittenRow(userCoeff, userSign, user, vs, position, ins).1 != 0 && v.coeff != 0 ==>
              var (terms, c) := AsWrittenRow(userCoeff, userSign, user, vs, position, ins);
              AsWrittenRow(userCoeff, userSign, user, vs + [v], position, ins)
              == (terms + Scaled(c * v.coeff, ins(user.value, position, v.graph.value)), c * userSign)
  {
    assert (vs + [v])[..|vs|] == vs;
  }

  lemma AsWrittenPairsSnoc<G>(us: seq<Entry<G>>, u: Entry<G>, vs: seq<Entry<G>>, position: int, ins: (G, int, G) -> seq<G>)
    ensures AsWrittenPairs(us + [u], vs, position, ins)
            == AsWrittenPairs(us, vs, position, ins) + AsWrittenRow(u.coeff, u.sign, u.graph, vs, position, ins).0
  {
    assert (us + [u])[..|us|] == us;
  }

  function UserKeyToGraph(k: int): (Option<int>, int)
  {
    (Some(10), -1)
  }

  function VictimKeyToGraph(k: int): (Option<int>, int)
  {
    (Some(10 * k), 1)
  }

  function Join(u: int, position: int, v: int): seq<int>
  {
    [u + v]
  }

  lemma ExampleUserEntries()
    ensures Entries([0], map[0 := 1], UserKeyToGraph) == [Entry(1, Some(10), -1)]
  {
    assert [0][..0] == [] && [0][..1] == [0];
    EntriesSnoc([0], map[0 := 1], UserKeyToGraph, 0);
  }

  lemma ExampleVictimEntries()
    ensures Entries([1, 2], map[1 := 1, 2 := 1], VictimKeyToGraph) == [Entry(1, Some(10), 1), Entry(1, Some(20), 1)]
  {
    var values := map[1 := 1, 2 := 1];
    assert [1, 2][..0] == [] && [1, 2][..1] == [1] && [1, 2][..2] == [1, 2];
    assert Entries([1], values, VictimKeyToGraph) == [Entry(1, Some(10), 1)] by {
      EntriesSnoc([1, 2], values, VictimKeyToGraph, 0);
    }
    EntriesSnoc([1, 2], values, VictimKeyToGraph, 1);
  }

  lemma ExampleAsWrittenRow()
    ensures AsWrittenRow(1, -1, Some(10), [Entry(1, Some(10), 1), Entry(1, Some(20), 1)], 0, Join).0 == [Term(1, 20), Term(-1, 30)]
  {
    var e1 := Entry(1, Some(10), 1);
    var e2 := Entry(1, Some(20), 1);
    assert AsWrittenRow(1, -1, Some(10), [], 0, Join) == ([], 1);
    assert [] + [e1] == [e1];
    AsWrittenRowSnoc(1, -1, Some(10), [], e1, 0, Join);
    assert Join(10, 0, 10) == [20];
    assert [] + Scaled(1, [20]) == [Term(1, 20)];
    assert AsWrittenRow(1, -1, Some(10), [e1], 0, Join) == ([Term(1, 20)], -1);
    assert [e1] + [e2] == [e1, e2];
    AsWrittenRowSnoc(1, -1, Some(10), [e1], e2, 0, Join);
    assert Join(10, 0, 20) == [30];
    assert [Term(1, 20)] + Scaled(-1, [30]) == [Term(1, 20), Term(-1, 30)];
  }

  lemma ExampleRow()
    ensures Row(Term(-1, Some(10)), [Term(1, Some(10)), Term(1, Some(20))], 0, Join) == [Term(-1, 20), Term(-1, 30)]
  {
    var u := Term(-1, Some(10));
    var v1 := Term(1, Some(10));
    var v2 := Term(1, Some(20));
    assert Row(u, [], 0, Join) == [];
    assert [] + [v1] == [v1];
    RowSnoc(u, [], v1, 0, Join);
    assert Join(10, 0, 10) == [20];
    assert [] + Scaled(-1, [20]) == [Term(-1, 20)];
    assert [v1] + [v2] == [v1, v2];
    RowSnoc(u, [v1], v2, 0, Join);
    assert Join(10, 0, 20) == [30];
    assert [Term(-1, 20)] + Scaled(-1, [30]) == [Term(-1, 20), Term(-1, 30)];
  }

  /**
   * The signs of `key_to_graph` are lost as written: a user key of coefficient
   * 1 whose graph comes with sign -1, inserted into two victims of coefficient
   * 1, gives the terms 1 and -1, where the signed coefficients give -1 and -1.
   */
  lemma InsertionSignCounterexample()
    ensures AsWrittenPairs(Entries([0], map[0 := 1], UserKeyToGraph), Entries([1, 2], map[1 := 1, 2 := 1], VictimKeyToGraph), 0, Join)
            == [Term(1, 20), Term(-1, 30)]
    ensures Pairs(Signed(Entries([0], map[0 := 1], UserKeyToGraph)), Signed(Entries([1, 2], map[1 := 1, 2 := 1], VictimKeyToGraph)), 0, Join)
            == [Term(-1, 20), Term(-1, 30)]
  {
    var e0 := Entry(1, Some(10), -1);
    var victims := [Entry(1, Some(10), 1), Entry(1, Some(20), 1)];
    ExampleUserEntries();
    ExampleVictimEntries();
    ExampleAsWrittenRow();
    assert [] + [e0] == [e0];
    AsWrittenPairsSnoc([], e0, victims, 0, Join);
    assert AsWrittenPairs([], victims, 0, Join) == [];
    var u := Term(-1, Some(10));
    assert Signed([e0]) == [u];
    assert Signed(victims) == [Term(1, Some(10)), Term(1, Some(20))];
    ExampleRow();
    assert [] + [u] == [u];
    PairsSnoc([], u, Signed(victims), 0, Join);
    assert Pairs([], Signed(victims), 0, Join) == [];
  }

  /** The key of each term's graph contributes its coefficient times the sign: `__call__` on a list. */
  function TermsSum<K(==), G>(basis: Basis<K, G>, terms: seq<Term<G>>, k: K): int
  {
    if |terms| == 0 then 0
    else
      var t := terms[|terms| - 1];
      var (key, sign) := basis.graphToKey(t.graph);
      TermsSum(basis, terms[..|terms| - 1], k) + (if key == Some(k) then t.coeff * sign else 0)
  }

  /** The keys the terms' graphs have. */
  function TermKeys<K(!new), G>(basis: Basis<K, G>, terms: seq<Term<G>>): set<K>
  {
    if |terms| == 0 then {}
    else
      var key := basis.graphToKey(terms[|terms| - 1].graph).0;
      TermKeys(basis, terms[..|terms| - 1]) + (if key.Some? then {key.value} else {})
  }

  /** The keys `v[k] += …` appends while the terms are added, in the order of their first term. */
  function TermKeyOrder<K(==,!new), G>(basis: Basis<K, G>, terms: seq<Term<G>>): (r: seq<K>)
    ensures Distinct(r)
    ensures forall k :: k in r <==> k in TermKeys(basis, terms)
  {
    if |terms| == 0 then []
    else
      var prev := TermKeyOrder(basis, terms[..|terms| - 1]);
      var key := basis.graphToKey(terms[|terms| - 1].graph).0;
      if key.Some? && key.value !in prev then prev + [key.value] else prev
  }

  /**
   * Terms that cancel leave their key stored with coefficient zero: for
   * `[(3, g), (-3, g)]` every coefficient is zero, so the vector has length 0.
   */
  lemma CancellingTerms<K(!new), G>(basis: Basis<K, G>, g: G, k: K)
    ensures TermsSum(basis, [Term(3, g), Term(-3, g)], k) == 0
    ensures TermKeys(basis, [Term(3, g), Term(-3, g)]) == if basis.graphToKey(g).0.Some? then {basis.graphToKey(g).0.value} else {}
  {
    var (key, sign) := basis.graphToKey(g);
    assert [Term(3, g), Term(-3, g)][..1] == [Term(3, g)];
    assert [Term(3, g)][..0] == [];
    assert TermsSum(basis, [Term(3, g)], k) == if key == Some(k) then 3 * sign else 0;
    assert TermKeys(basis, [Term(3, g)]) == if key.Some? then {key.value} else {};
  }

  /** The module applied to a graph agrees with the module applied to `[(1, graph)]`. */
  lemma SingleTerm<K(!new), G>(basis: Basis<K, G>, g: G, k: K)
    ensures TermsSum(basis, [Term(1, g)], k) == if basis.graphToKey(g).0 == Some(k) then basis.graphToKey(g).1 else 0
    ensures TermKeys(basis, [Term(1, g)]) == if basis.graphToKey(g).0.Some? then {basis.graphToKey(g).0.value} else {}
  {
    assert [Term(1, g)][..0] == [];
  }

  /** The keys of the given grading, in order. */
  function Homogeneous<K(!new)>(keys: seq<K>, gradingOf: K -> seq<int>, grading: seq<int>): (r: seq<K>)
    ensures forall k :: k in r <==> k in keys && gradingOf(k) == grading
  {
    if |keys| == 0 then []
    else
      var last := keys[|keys| - 1];
      assert keys == keys[..|keys| - 1] + [last];
      Homogeneous(keys[..|keys| - 1], gradingOf, grading) + (if gradingOf(last) == grading then [last] else [])
  }

  /** The keys whose coefficient `f` sends to a non-zero value, in order. */
  function Surviving<K(!new)>(keys: seq<K>, values: map<K, int>, f: int -> int): (r: seq<K>)
    ensures forall k :: k in r <==> k in keys && k in values && f(values[k]) != 0
  {
    if |keys| == 0 then []
    else
      var last := keys[|keys| - 1];
      assert keys == keys[..|keys| - 1] + [last];
      Surviving(keys[..|keys| - 1], values, f) + (if last in values && f(values[last]) != 0 then [last] else [])
  }

  /** The coefficients of the keys of one grading. */
  function Part<K(!new)>(values: map<K, int>, gradingOf: K -> seq<int>, grading: seq<int>): map<K, int>
  {
    map k | k in values && gradingOf(k) == grading :: values[k]
  }

  /**
   * The homogeneous parts split a vector: every key lies in the part of its own
   * grading with its coefficient, and in no other part.
   */
  lemma PartsPartition<K(!new)>(values: map<K, int>, gradingOf: K -> seq<int>, k: K, grading: seq<int>)
    requires k in values
    ensures k in Part(values, gradingOf, gradingOf(k)) && Part(values, gradingOf, gradingOf(k))[k] == values[k]
    ensures grading != gradingOf(k) ==> k !in Part(values, gradingOf, grading)
  {
  }

  /** The loop of `__iter__`: one step per key, yielding the signed term of each non-zero coefficient. */
  method SignedTerms<K(!new), G>(keys: seq<K>, values: map<K, int>, keyToGraph: K -> (Option<G>, int))
    returns (terms: seq<Term<Option<G>>>)
    ensures terms == Signed(Entries(keys, values, keyToGraph))
  {
    terms := [];
    var i := 0;
    while i < |keys|
      invariant 0 <= i <= |keys|
      invariant terms == Signed(Entries(keys[..i], values, keyToGraph))
    {
      var key := keys[i];
      IterSnoc(keys, values, keyToGraph, i);
      var c := Get(values, key);
      if c != 0 {
        var graphAndSign := keyToGraph(key);
        terms := terms + [Term(c * graphAndSign.1, graphAndSign.0)];
      }
      i := i + 1;
    }
    assert keys[..i] == keys;
  }

  /** One more key read by `homogeneous_part`. */
  lemma HomogeneousSnoc<K(!new)>(keys: seq<K>, gradingOf: K -> seq<int>, grading: seq<int>, i: nat)
    requires i < |keys|
    ensures Homogeneous(keys[..i + 1], gradingOf, grading)
         == Homogeneous(keys[..i], gradingOf, grading) + (if gradingOf(keys[i]) == grading then [keys[i]] else [])
  {
    assert keys[..i + 1][..i] == keys[..i];
  }

  /** The coefficients of the keys of one grading among the given keys. */
  ghost function PartOn<K(!new)>(keys: seq<K>, values: map<K, int>, gradingOf: K -> seq<int>, grading: seq<int>): map<K, int>
  {
    map k | k in keys && k in values && gradingOf(k) == grading :: values[k]
  }

  /** One more key read by `homogeneous_part`: its coefficient is copied when it has the grading. */
  lemma PartOnSnoc<K(!new)>(keys: seq<K>, values: map<K, int>, gradingOf: K -> seq<int>, grading: seq<int>, i: nat)
    requires i < |keys| && keys[i] in values
    ensures PartOn(keys[..i + 1], values, gradingOf, grading)
         == if gradingOf(keys[i]) == grading then PartOn(keys[..i], values, gradingOf, grading)[keys[i] := values[keys[i]]]
            else PartOn(keys[..i], values, gradingOf, grading)
  {
    assert keys[..i + 1] == keys[..i] + [keys[i]];
  }

  /** The loop of `homogeneous_part`: the keys of that grading in order, with their coefficients. */
  method HomogeneousEntries<K(!new)>(keys: seq<K>, values: map<K, int>, gradingOf: K -> seq<int>, grading: seq<int>)
    returns (ks: seq<K>, vs: map<K, int>)
    requires forall k :: k in keys <==> k in values
    ensures ks == Homogeneous(keys, gradingOf, grading)
    ensures vs == Part(values, gradingOf, grading)
  {
    ks := [];
    vs := map[];
    var i := 0;
    while i < |keys|
      invariant 0 <= i <= |keys|
      invariant ks == Homogeneous(keys[..i], gradingOf, grading)
      invariant vs == PartOn(keys[..i], values, gradingOf, grading)
    {
      var key := keys[i];
      HomogeneousSnoc(keys, gradingOf, grading, i);
      PartOnSnoc(keys, values, gradingOf, grading, i);
      if gradingOf(key) == grading {
        ks := ks + [key];
        vs := vs[key := values[key]];
      }
      i := i + 1;
    }
    assert keys[..i] == keys;
    assert vs == Part(values, gradingOf, grading);
    assert keys[..i] == keys;
  }

  /** What `__add__` (`+=`) or `__sub__` (`-=`) adds for a coefficient c of the other vector. */
  function Addend(c: int, subtract: bool): int
  {
    if subtract then -c else c
  }

  /** The coefficients once the keys `seen` of the other vector have been added or subtracted, one at a time. */
  function Combined<K(!new)>(values: map<K, int>, seen: seq<K>, otherValues: map<K, int>, subtract: bool): map<K, int>
  {
    if |seen| == 0 then values
    else
      var prev := Combined(values, seen[..|seen| - 1], otherValues, subtract);
      var k := seen[|seen| - 1];
      prev[k := Get(prev, k) + Addend(Get(otherValues, k), subtract)]
  }

  /** Each key seen once: its coefficient is changed by the other's coefficient, every other key is kept. */
  lemma {:induction false} CombinedSeen<K(!new)>(values: map<K, int>, seen: seq<K>, otherValues: map<K, int>, subtract: bool)
    requires Distinct(seen)
    ensures forall k :: Get(Combined(values, seen, otherValues, subtract), k)
                        == Get(values, k) + (if k in seen then Addend(Get(otherValues, k), subtract) else 0)
    ensures forall k :: k in Combined(values, seen, otherValues, subtract) <==> k in values || k in seen
  {
    if |seen| != 0 {
      var init := seen[..|seen| - 1];
      var last := seen[|seen| - 1];
      assert seen == init + [last];
      assert last !in init;
      CombinedSeen(values, init, otherValues, subtract);
    }
  }

  /** A key not yet seen keeps its place and its coefficient. */
  lemma {:induction false} CombinedUnseen<K(!new)>(values: map<K, int>, seen: seq<K>, otherValues: map<K, int>, subtract: bool, k: K)
    requires k !in seen
    ensures k in Combined(values, seen, otherValues, subtract) <==> k in values
  {
    if |seen| != 0 {
      var init := seen[..|seen| - 1];
      assert seen == init + [seen[|seen| - 1]];
      CombinedUnseen(values, init, otherValues, subtract, k);
    }
  }

  /** Once every key of the other vector has been read, each coefficient is the sum or difference. */
  lemma CombinedAll<K(!new)>(values: map<K, int>, otherKeys: seq<K>, otherValues: map<K, int>, subtract: bool)
    requires WellFormed(otherKeys, otherValues)
    ensures forall k :: Get(Combined(values, otherKeys, otherValues, subtract), k)
                        == Get(values, k) + (if subtract then -Get(otherValues, k) else Get(otherValues, k))
    ensures forall k :: k in Combined(values, otherKeys, otherValues, subtract) <==> k in values || k in otherValues
  {
    CombinedSeen(values, otherKeys, otherValues, subtract);
  }

  /** One more key of the other vector, as `Fresh` sees it. */
  lemma FreshSnoc<K(!new)>(keys: seq<K>, others: seq<K>, i: nat)
    requires i < |others|
    ensures Fresh(keys, others[..i + 1]) == Fresh(keys, others[..i]) + (if others[i] in keys then [] else [others[i]])
  {
    assert others[..i + 1][..i] == others[..i];
  }

  /** One more key k of the other vector: it is stored already exactly when it is one of the original keys. */
  lemma CombineStep<K(!new)>(keys: seq<K>, values: map<K, int>, otherKeys: seq<K>, otherValues: map<K, int>, subtract: bool, i: nat)
    requires WellFormed(keys, values) && WellFormed(otherKeys, otherValues) && i < |otherKeys|
    ensures otherKeys[i] in otherValues
    ensures otherKeys[i] in Combined(values, otherKeys[..i], otherValues, subtract) <==> otherKeys[i] in keys
    ensures Combined(values, otherKeys[..i + 1], otherValues, subtract)
         == var prev := Combined(values, otherKeys[..i], otherValues, subtract);
            prev[otherKeys[i] := Get(prev, otherKeys[i]) + Addend(otherValues[otherKeys[i]], subtract)]
    ensures Fresh(keys, otherKeys[..i + 1]) == Fresh(keys, otherKeys[..i]) + (if otherKeys[i] in keys then [] else [otherKeys[i]])
  {
    assert otherKeys[..i + 1][..i] == otherKeys[..i];
    assert otherKeys[i] !in otherKeys[..i] by {
      assert forall j :: 0 <= j < i ==> otherKeys[j] != otherKeys[i];
    }
    CombinedUnseen(values, otherKeys[..i], otherValues, subtract, otherKeys[i]);
  }

  /** The loop of `__add__`/`__sub__` on the two dictionaries: `v[k] += c` (or `-= c`) for each key k of the other. */
  method CombineLoop<K(!new)>(keys: seq<K>, values: map<K, int>, otherKeys: seq<K>, otherValues: map<K, int>, subtract: bool)
    returns (ks: seq<K>, vs: map<K, int>)
    requires WellFormed(keys, values) && WellFormed(otherKeys, otherValues)
    ensures ks == keys + Fresh(keys, otherKeys)
    ensures vs == Combined(values, otherKeys, otherValues, subtract)
  {
    ks, vs := keys, values;
    var i := 0;
    while i < |otherKeys|
      invariant 0 <= i <= |otherKeys|
      invariant ks == keys + Fresh(keys, otherKeys[..i])
      invariant vs == Combined(values, otherKeys[..i], otherValues, subtract)
    {
      var k := otherKeys[i];
      CombineStep(keys, values, otherKeys, otherValues, subtract, i);
      if k !in vs {
        ConcatAssoc(keys, Fresh(keys, otherKeys[..i]), [k]);
        ks := ks + [k];
      } else {
        assert Fresh(keys, otherKeys[..i]) + [] == Fresh(keys, otherKeys[..i]);
      }
      vs := vs[k := Get(vs, k) + Addend(otherValues[k], subtract)];
      i := i + 1;
    }
    assert otherKeys[..i] == otherKeys;
  }

  /** `__add__`/`__sub__` on the dictionaries: the other's new keys are appended, coefficients add or subtract. */
  method CombineDicts<K(!new)>(keys: seq<K>, values: map<K, int>, otherKeys: seq<K>, otherValues: map<K, int>, subtract: bool)
    returns (ks: seq<K>, vs: map<K, int>)
    requires WellFormed(keys, values) && WellFormed(otherKeys, otherValues)
    ensures WellFormed(ks, vs)
    ensures ks == keys + Fresh(keys, otherKeys)
    ensures forall k :: Get(vs, k) == Get(values, k) + (if subtract then -Get(otherValues, k) else Get(otherValues, k))
    ensures forall k :: k in vs <==> k in values || k in otherValues
  {
    ks, vs := CombineLoop(keys, values, otherKeys, otherValues, subtract);
    CombinedAll(values, otherKeys, otherValues, subtract);
    FreshMembers(keys, otherKeys);
    FreshDistinct(keys, otherKeys);
    DistinctConcat(keys, Fresh(keys, otherKeys));
  }

  class GraphModule<K(==,!new), G> {
    /** `_graph_basis`; the base ring is the integers. */
    const basis: Basis<K, G>

    constructor(basis: Basis<K, G>)
      ensures this.basis == basis
    {
      this.basis := basis;
    }

    /** `zero()`: the vector with no keys. */
    method Zero() returns (v: GraphVector<K, G>)
      ensures fresh(v) && v.parent == this && v.Valid()
      ensures v.keys == [] && v.values == map[]
    {
      v := new GraphVector(this, [], map[]);
    }

    /** `self(graph)`: `{key: sign}` for the graph's key, the zero vector when it has none. */
    method FromGraph(graph: G) returns (v: GraphVector<K, G>)
      ensures fresh(v) && v.parent == this && v.Valid()
      ensures forall k :: Get(v.values, k) == TermsSum(basis, [Term(1, graph)], k)
      ensures forall k :: k in v.values <==> k in TermKeys(basis, [Term(1, graph)])
    {
      var (key, sign) := basis.graphToKey(graph);
      forall k ensures TermsSum(basis, [Term(1, graph)], k) == if key == Some(k) then sign else 0 {
        SingleTerm(basis, graph, k);
      }
      if key.Some? {
        v := new GraphVector(this, [key.value], map[key.value := 1 * sign]);
      } else {
        v := Zero();
      }
      forall k ensures k in v.values <==> k in TermKeys(basis, [Term(1, graph)]) {
        SingleTerm(basis, graph, k);
      }
    }

    /** `self(terms)`: each term's coefficient times its sign is added at its graph's key. */
    method FromTerms(terms: seq<Term<G>>) returns (v: GraphVector<K, G>)
      ensures fresh(v) && v.parent == this && v.Valid()
      ensures forall k :: Get(v.values, k) == TermsSum(basis, terms, k)
      ensures forall k :: k in v.values <==> k in TermKeys(basis, terms)
      ensures v.keys == TermKeyOrder(basis, terms)
    {
      v := Zero();
      var i := 0;
      while i < |terms|
        invariant 0 <= i <= |terms|
        invariant fresh(v) && v.parent == this && v.Valid()
        invariant forall k :: Get(v.values, k) == TermsSum(basis, terms[..i], k)
        invariant forall k :: k in v.values <==> k in TermKeys(basis, terms[..i])
        invariant v.keys == TermKeyOrder(basis, terms[..i])
      {
        var (key, sign) := basis.graphToKey(terms[i].graph);
        var coeff := terms[i].coeff * sign;
        assert terms[..i + 1][..i] == terms[..i];
        if key.Some? {
          var k := key.value;
          if k !in v.values {
            v.keys := v.keys + [k];
          }
          v.values := v.values[k := Get(v.values, k) + coeff];
        }
        i := i + 1;
      }
      assert terms[..i] == terms;
    }
  }

  class GraphVector<K(==,!new), G> {
    const parent: GraphModule<K, G>
    /** The keys of `_vector` in the order they were first set. */
    var keys: seq<K>
    /** The coefficients of `_vector`. */
    var values: map<K, int>

    ghost predicate Valid()
      reads this
    {
      WellFormed(keys, values)
    }

    /** `GraphVector_dict(parent, vector)`: a copy of the dictionary, key by key in its order. */
    constructor(parent: GraphModule<K, G>, keys: seq<K>, values: map<K, int>)
      requires WellFormed(keys, values)
      ensures this.parent == parent && this.keys == keys && this.values == values
      ensures Valid()
    {
      this.parent := parent;
      this.keys := keys;
      this.values := values;
    }

    /** `copy()` and unary `+`. */
    method Copy() returns (r: GraphVector<K, G>)
      requires Valid()
      ensures fresh(r) && r.parent == parent && r.keys == keys && r.values == values && r.Valid()
    {
      r := new GraphVector(parent, keys, values);
    }

    /** `__iter__`: `(coeff * sign, graph)` for each key with a non-zero coefficient, in key order. */
    method Iter() returns (terms: seq<Term<Option<G>>>)
      requires Valid()
      ensures terms == Signed(Entries(keys, values, parent.basis.keyToGraph))
      ensures |terms| == |Support(values)|
    {
      terms := SignedTerms(keys, values, parent.basis.keyToGraph);
      SupportSize(keys, values);
    }

    /** `__len__`: the number of keys whose coefficient is not zero. */
    method Len() returns (n: nat)
      requires Valid()
      ensures n == |Support(values)|
      ensures n == 0 <==> forall k :: Get(values, k) == 0
    {
      n := CountNonZero(keys, values);
      SupportSize(keys, values);
      NonZeroKeysEmpty(keys, values);
    }

    /** `__neg__`: every coefficient negated, the keys in the same order. */
    method Neg() returns (r: GraphVector<K, G>)
      requires Valid()
      ensures fresh(r) && r.parent == parent && r.Valid()
      ensures r.keys == keys
      ensures forall k :: Get(r.values, k) == -Get(values, k)
      ensures forall k :: k in r.values <==> k in values
    {
      r := new GraphVector(parent, keys, map k | k in values :: -values[k]);
    }

    /**
     * The loop of `__add__` and of `__sub__` (`subtract`): a copy of this
     * vector to which each coefficient of `other`, or its negation, is added,
     * key by key in `other`'s order.
     */
    method Combine(other: GraphVector<K, G>, subtract: bool) returns (r: GraphVector<K, G>)
      requires Valid() && other.Valid()
      ensures fresh(r) && r.parent == parent && r.Valid()
      ensures r.keys == keys + Fresh(keys, other.keys)
      ensures forall k :: Get(r.values, k) == Get(values, k) + (if subtract then -Get(other.values, k) else Get(other.values, k))
      ensures forall k :: k in r.values <==> k in values || k in other.values
    {
      var ks, vs := CombineDicts(keys, values, other.keys, other.values, subtract);
      r := new GraphVector(parent, ks, vs);
    }

    /** `__add__` of two vectors (adding the integer 0 is `Copy`). */
    method Add(other: GraphVector<K, G>) returns (r: GraphVector<K, G>)
      requires Valid() && other.Valid()
      ensures fresh(r) && r.parent == parent && r.Valid()
      ensures r.keys == keys + Fresh(keys, other.keys)
      ensures forall k :: Get(r.values, k) == Get(values, k) + Get(other.values, k)
      ensures forall k :: k in r.values <==> k in values || k in other.values
    {
      r := Combine(other, false);
    }

    /** `__sub__` of two vectors. */
    method Sub(other: GraphVector<K, G>) returns (r: GraphVector<K, G>)
      requires Valid() && other.Valid()
      ensures fresh(r) && r.parent == parent && r.Valid()
      ensures r.keys == keys + Fresh(keys, other.keys)
      ensures forall k :: Get(r.values, k) == Get(values, k) - Get(other.values, k)
      ensures forall k :: k in r.values <==> k in values || k in other.values
    {
      r := Combine(other, true);
    }

    /** `__mul__` by a ring element: a copy whose coefficients are multiplied in place. */
    method Scale(c: int) returns (r: GraphVector<K, G>)
      requires Valid()
      ensures fresh(r) && r.parent == parent && r.Valid()
      ensures r.keys == keys
      ensures forall k :: Get(r.values, k) == Get(values, k) * c
      ensures forall k :: k in r.values <==> k in values
    {
      var vs := values;
      var i := 0;
      while i < |keys|
        invariant 0 <= i <= |keys|
        invariant forall k :: k in vs <==> k in values
        invariant forall j :: 0 <= j < |keys| ==> vs[keys[j]] == if j < i then values[keys[j]] * c else values[keys[j]]
      {
        vs := vs[keys[i] := vs[keys[i]] * c];
        i := i + 1;
      }
      forall k | k in values ensures vs[k] == values[k] * c {
        var j :| 0 <= j < |keys| && keys[j] == k;
      }
      r := new GraphVector(parent, keys, vs);
    }

    /** `__eq__`: whether every coefficient of the difference is zero. */
    method Eq(other: GraphVector<K, G>) returns (r: bool)
      requires Valid() && other.Valid()
      ensures r <==> forall k :: Get(values, k) == Get(other.values, k)
    {
      var difference := Sub(other);
      var i := 0;
      while i < |difference.keys|
        invariant 0 <= i <= |difference.keys|
        invariant forall j :: 0 <= j < i ==> difference.values[difference.keys[j]] == 0
      {
        var k := difference.keys[i];
        if difference.values[k] != 0 {
          assert Get(difference.values, k) != 0;
          return false;
        }
        i := i + 1;
      }
      forall k ensures Get(values, k) == Get(other.values, k) {
        if k in difference.values {
          var j :| 0 <= j < |difference.keys| && difference.keys[j] == k;
        }
      }
      return true;
    }

    /**
     * `gradings()`: the gradings of the stored keys, zero coefficients
     * included; exactly those whose homogeneous part has a key.
     */
    function Gradings(): (r: set<seq<int>>)
      reads this
      ensures forall g :: g in r <==> Part(values, parent.basis.grading, g) != map[]
    {
      var r := set k | k in values :: parent.basis.grading(k);
      assert forall g :: Part(values, parent.basis.grading, g) != map[] ==> g in r by {
        forall g | Part(values, parent.basis.grading, g) != map[] ensures g in r {
          var k :| k in Part(values, parent.basis.grading, g);
        }
      }
      assert forall g :: g in r ==> Part(values, parent.basis.grading, g) != map[] by {
        forall g | g in r ensures Part(values, parent.basis.grading, g) != map[] {
          var k :| k in values && parent.basis.grading(k) == g;
          assert k in Part(values, parent.basis.grading, g);
        }
      }
      r
    }

    /** `homogeneous_part(*grading)`: the keys of that grading with their coefficients, in order. */
    method HomogeneousPart(grading: seq<int>) returns (r: GraphVector<K, G>)
      requires Valid()
      ensures fresh(r) && r.parent == parent && r.Valid()
      ensures r.keys == Homogeneous(keys, parent.basis.grading, grading)
      ensures r.values == Part(values, parent.basis.grading, grading)
    {
      var ks, vs := HomogeneousEntries(keys, values, parent.basis.grading, grading);
      NonZeroKeysDistinct(keys, values);
      HomogeneousDistinct(keys, parent.basis.grading, grading);
      r := new GraphVector(parent, ks, vs);
    }

    /**
     * `map_coefficients(f, new_parent)`: f applied to every coefficient, keys
     * whose new coefficient is zero dropped; the parent stays unless a new one
     * is given.
     */
    method MapCoefficients(f: int -> int, newParent: Option<GraphModule<K, G>>) returns (r: GraphVector<K, G>)
      requires Valid()
      ensures fresh(r) && r.Valid()
      ensures r.parent == if newParent.Some? then newParent.value else parent
      ensures forall k :: Get(r.values, k) == if k in values then f(values[k]) else 0
      ensures forall k :: k in r.values ==> r.values[k] != 0
      ensures r.keys == Surviving(keys, values, f)
    {
      var newParent' := if newParent.Some? then newParent.value else parent;
      var ks: seq<K> := [];
      var vs: map<K, int> := map[];
      var i := 0;
      while i < |keys|
        invariant 0 <= i <= |keys|
        invariant WellFormed(ks, vs)
        invariant ks == Surviving(keys[..i], values, f)
        invariant forall k :: k in vs <==> k in keys[..i] && f(values[k]) != 0
        invariant forall k :: k in vs ==> vs[k] == f(values[k])
      {
        var key := keys[i];
        assert keys[..i + 1] == keys[..i] + [key];
        assert key !in keys[..i];
        var c := f(values[key]);
        if c != 0 {
          ks := ks + [key];
          vs := vs[key := c];
        }
        i := i + 1;
      }
      assert keys[..i] == keys;
      r := new GraphVector(newParent', ks, vs);
    }

    /** `terms.append([product_coeff, g])` for every graph of `gs`. */
    static method AppendScaled(terms: seq<Term<G>>, c: int, gs: seq<G>) returns (terms': seq<Term<G>>)
      ensures terms' == terms + Scaled(c, gs)
    {
      terms' := terms;
      var m := 0;
      while m < |gs|
        invariant 0 <= m <= |gs|
        invariant terms' == terms + Scaled(c, gs[..m])
      {
        assert Scaled(c, gs[..m + 1]) == Scaled(c, gs[..m]) + [Term(c, gs[m])];
        terms' := terms' + [Term(c, gs[m])];
        m := m + 1;
      }
      assert gs[..m] == gs;
    }

    /**
     * The terms of `insertion(position, other)` with the signs of `key_to_graph`
     * applied before the product is taken: the bilinear insertion of the terms
     * `__iter__` yields for this vector into those it yields for `other`.
     */
    method InsertionTerms(position: int, other: GraphVector<K, G>, ins: (G, int, G) -> seq<G>) returns (terms: seq<Term<G>>)
      requires Valid() && other.Valid()
      requires forall k :: k in values && values[k] != 0 ==> parent.basis.keyToGraph(k).0.Some?
      requires forall k :: k in other.values && other.values[k] != 0 ==> other.parent.basis.keyToGraph(k).0.Some?
      ensures terms == Pairs(Signed(Entries(keys, values, parent.basis.keyToGraph)),
                             Signed(Entries(other.keys, other.values, other.parent.basis.keyToGraph)), position, ins)
    {
      var keyToGraph := parent.basis.keyToGraph;
      ghost var vsAll := Signed(Entries(other.keys, other.values, other.parent.basis.keyToGraph));
      terms := [];
      var i := 0;
      while i < |keys|
        invariant 0 <= i <= |keys|
        invariant terms == Pairs(Signed(Entries(keys[..i], values, keyToGraph)), vsAll, position, ins)
      {
        var userKey := keys[i];
        IterSnoc(keys, values, keyToGraph, i);
        var userCoeff := values[userKey];
        if userCoeff != 0 {
          var (user, userSign) := keyToGraph(userKey);
          userCoeff := userCoeff * userSign;
          var u := Term(userCoeff, user);
          PairsSnoc(Signed(Entries(keys[..i], values, keyToGraph)), u, vsAll, position, ins);
          terms := InsertionRow(terms, u, position, other, ins);
        }
        i := i + 1;
      }
      assert keys[..i] == keys;
    }

    /** The victim loop for one signed user term. */
    static method InsertionRow(terms: seq<Term<G>>, u: Term<Option<G>>, position: int, other: GraphVector<K, G>, ins: (G, int, G) -> seq<G>)
      returns (terms': seq<Term<G>>)
      requires other.Valid() && u.graph.Some?
      requires forall k :: k in other.values && other.values[k] != 0 ==> other.parent.basis.keyToGraph(k).0.Some?
      ensures terms' == terms + Row(u, Signed(Entries(other.keys, other.values, other.parent.basis.keyToGraph)), position, ins)
    {
      var keyToGraph := other.parent.basis.keyToGraph;
      terms' := terms;
      var j := 0;
      assert Entries(other.keys[..0], other.values, keyToGraph) == [];
      assert terms + [] == terms;
      while j < |other.keys|
        invariant 0 <= j <= |other.keys|
        invariant terms' == terms + Row(u, Signed(Entries(other.keys[..j], other.values, keyToGraph)), position, ins)
      {
        var victimKey := other.keys[j];
        ghost var vs := Signed(Entries(other.keys[..j], other.values, keyToGraph));
        IterSnoc(other.keys, other.values, keyToGraph, j);
        var victimCoeff := other.values[victimKey];
        if victimCoeff != 0 {
          var (victim, victimSign) := keyToGraph(victimKey);
          victimCoeff := victimCoeff * victimSign;
          var v := Term(victimCoeff, victim);
          assert Signed(Entries(other.keys[..j + 1], other.values, keyToGraph)) == vs + [v];
          RowSnoc(u, vs, v, position, ins);
          var productCoeff := u.coeff * victimCoeff;
          ProductZero(u.coeff, victimCoeff);
          if productCoeff != 0 {
            terms' := AppendScaled(terms', productCoeff, ins(u.graph.value, position, victim.value));
            ConcatAssoc(terms, Row(u, vs, position, ins), Scaled(productCoeff, ins(u.graph.value, position, victim.value)));
          }
        }
        j := j + 1;
      }
      assert other.keys[..j] == other.keys;
    }

    /**
     * The terms of `insertion(position, other)` as written: the product is
     * taken before the signs of `key_to_graph` are applied, and the user's sign
     * then accumulates in `user_coeff` from one victim to the next.
     */
    method InsertionTermsAsWritten(position: int, other: GraphVector<K, G>, ins: (G, int, G) -> seq<G>) returns (terms: seq<Term<G>>)
      requires Valid() && other.Valid()
      requires forall k :: k in values && values[k] != 0 ==> parent.basis.keyToGraph(k).0.Some?
      requires forall k :: k in other.values && other.values[k] != 0 ==> other.parent.basis.keyToGraph(k).0.Some?
      ensures terms == AsWrittenPairs(Entries(keys, values, parent.basis.keyToGraph),
                                      Entries(other.keys, other.values, other.parent.basis.keyToGraph), position, ins)
    {
      var keyToGraph := parent.basis.keyToGraph;
      ghost var vsAll := Entries(other.keys, other.values, other.parent.basis.keyToGraph);
      terms := [];
      var i := 0;
      while i < |keys|
        invariant 0 <= i <= |keys|
        invariant terms == AsWrittenPairs(Entries(keys[..i], values, keyToGraph), vsAll, position, ins)
      {
        var userKey := keys[i];
        EntriesSnoc(keys, values, keyToGraph, i);
        var userCoeff := values[userKey];
        if userCoeff != 0 {
          AsWrittenPairsSnoc(Entries(keys[..i], values, keyToGraph), Entry(userCoeff, keyToGraph(userKey).0, keyToGraph(userKey).1), vsAll, position, ins);
          terms := InsertionRowAsWritten(terms, userKey, userCoeff, position, other, ins);
        }
        i := i + 1;
      }
      assert keys[..i] == keys;
    }

    /** The victim loop as written, `user_coeff` carried from one victim to the next. */
    method InsertionRowAsWritten(terms: seq<Term<G>>, userKey: K, userCoeff: int, position: int, other: GraphVector<K, G>, ins: (G, int, G) -> seq<G>)
      returns (terms': seq<Term<G>>)
      requires other.Valid() && parent.basis.keyToGraph(userKey).0.Some?
      requires forall k :: k in other.values && other.values[k] != 0 ==> other.parent.basis.keyToGraph(k).0.Some?
      ensures terms' == terms + AsWrittenRow(userCoeff, parent.basis.keyToGraph(userKey).1, parent.basis.keyToGraph(userKey).0,
                                             Entries(other.keys, other.values, other.parent.basis.keyToGraph), position, ins).0
    {
      var userToGraph := parent.basis.keyToGraph;
      var victimToGraph := other.parent.basis.keyToGraph;
      ghost var userSign0 := userToGraph(userKey).1;
      ghost var user0 := userToGraph(userKey).0;
      terms' := terms;
      var userCoeff' := userCoeff;
      var j := 0;
      ghost var es: seq<Entry<G>> := [];
      assert other.keys[..0] == [];
      assert terms + [] == terms;
      while j < |other.keys|
        invariant 0 <= j <= |other.keys|
        invariant es == Entries(other.keys[..j], other.values, victimToGraph)
        invariant terms' == terms + AsWrittenRow(userCoeff, userSign0, user0, es, position, ins).0
        invariant userCoeff' == AsWrittenRow(userCoeff, userSign0, user0, es, position, ins).1
      {
        var victimKey := other.keys[j];
        ghost var row := AsWrittenRow(userCoeff, userSign0, user0, es, position, ins);
        EntriesSnoc(other.keys, other.values, victimToGraph, j);
        var victimCoeff := other.values[victimKey];
        if victimCoeff != 0 {
          ghost var e := Entry(victimCoeff, victimToGraph(victimKey).0, victimToGraph(victimKey).1);
          AsWrittenRowSnoc(userCoeff, userSign0, user0, es, e, position, ins);
          var productCoeff := userCoeff' * victimCoeff;
          ProductZero(userCoeff', victimCoeff);
          if productCoeff != 0 {
            var (user, userSign) := userToGraph(userKey);
            userCoeff' := userCoeff' * userSign;
            var (victim, victimSign) := victimToGraph(victimKey);
            victimCoeff := victimCoeff * victimSign;
            var graphs := ins(user.value, position, victim.value);
            terms' := AppendScaled(terms', productCoeff, graphs);
            ConcatAssoc(terms, row.0, Scaled(productCoeff, graphs));
          }
          es := es + [e];
        }
        j := j + 1;
      }
      assert other.keys[..j] == other.keys;
    }

    /** `insertion(position, other)` with the signs applied: the module applied to the signed terms. */
    method Insertion(position: int, other: GraphVector<K, G>, ins: (G, int, G) -> seq<G>) returns (r: GraphVector<K, G>)
      requires Valid() && other.Valid()
      requires forall k :: k in values && values[k] != 0 ==> parent.basis.keyToGraph(k).0.Some?
      requires forall k :: k in other.values && other.values[k] != 0 ==> other.parent.basis.keyToGraph(k).0.Some?
      ensures fresh(r) && r.parent == parent && r.Valid()
      ensures forall k :: Get(r.values, k) ==
                TermsSum(parent.basis, Pairs(Signed(Entries(keys, values, parent.basis.keyToGraph)),
                                             Signed(Entries(other.keys, other.values, other.parent.basis.keyToGraph)), position, ins), k)
      ensures r.keys == TermKeyOrder(parent.basis, Pairs(Signed(Entries(keys, values, parent.basis.keyToGraph)),
                                                         Signed(Entries(other.keys, other.values, other.parent.basis.keyToGraph)), position, ins))
    {
      var terms := InsertionTerms(position, other, ins);
      r := parent.FromTerms(terms);
    }
  }

  lemma {:induction false} HomogeneousDistinct<K(!new)>(keys: seq<K>, gradingOf: K -> seq<int>, grading: seq<int>)
    requires Distinct(keys)
    ensures Distinct(Homogeneous(keys, gradingOf, grading))
  {
    if |keys| != 0 {
      var init := keys[..|keys| - 1];
      assert keys == init + [keys[|keys| - 1]];
      HomogeneousDistinct(init, gradingOf, grading);
    }
  }
}
