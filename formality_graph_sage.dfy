/**
 * The combinatorial glue around Sage and nauty in gcaops/util/formality_graph_sage.py.
 * A formality graph has ground vertices 0 .. gv-1 (the sinks) and aerial vertices
 * gv .. gv+av-1, and a list of directed edges. Sage's `canonical_label`, its
 * `automorphism_group` and the nauty pipeline are outside the model: their
 * results are parameters of the operations below, each with the guarantee
 * Sage gives about it as a precondition.
 */
module FormalityGraphSage {
  import opened Wrappers
  import opened Combinatorics
  import opened Parity
  import opened UndirectedGraphs

  // ---------------------------------------------------------------------------
  // The vertex partition handed to canonical_label
  // ---------------------------------------------------------------------------

  /** One singleton block per ground vertex, then one block with all aerial vertices. */
  function Partition(gv: nat, av: nat): (p: seq<seq<int>>)
    ensures |p| == gv + 1
  {
    seq(gv, v requires 0 <= v < gv => [v]) + [Range(gv, gv + av)]
  }

  /** The blocks one after the other. */
  function Flatten(blocks: seq<seq<int>>): seq<int>
  {
    if |blocks| == 0 then [] else Flatten(blocks[..|blocks| - 1]) + blocks[|blocks| - 1]
  }

  lemma {:induction false} FlattenSingletons(gv: nat, av: nat, k: nat)
    requires k <= gv
    ensures Flatten(Partition(gv, av)[..k]) == Range(0, k)
  {
    if k > 0 {
      FlattenSingletons(gv, av, k - 1);
      assert Partition(gv, av)[..k][..k - 1] == Partition(gv, av)[..k - 1];
    }
  }

  /** The ground vertices are fixed one by one and the blocks cover range(gv + av) once, in order. */
  lemma PartitionCovers(gv: nat, av: nat)
    ensures forall v :: 0 <= v < gv ==> Partition(gv, av)[v] == [v]
    ensures Flatten(Partition(gv, av)) == Range(0, gv + av)
  {
    var p := Partition(gv, av);
    FlattenSingletons(gv, av, gv);
    assert p[..gv + 1][..gv] == p[..gv];
    assert p[..gv + 1] == p;
    assert Range(0, gv) + Range(gv, gv + av) == Range(0, gv + av);
  }

  // ---------------------------------------------------------------------------
  // Loop orders
  // ---------------------------------------------------------------------------

  /**
   * The largest number of 2-cycles tried: with loops allowed (None or True) half
   * the edges, rounded down, so that the undirected graph still has at least as
   * many edges as it has doubled ones; with loops forbidden none.
   */
  function MaxLoopOrder(numEdges: nat, loops: Option<bool>): (r: nat)
    ensures 2 * r <= numEdges
    ensures loops != Some(false) ==> numEdges < 2 * (r + 1)
    ensures loops == Some(false) ==> r == 0
  {
    if loops.None? || loops.value then numEdges / 2 else 0
  }

  // ---------------------------------------------------------------------------
  // Relabelling the chosen sinks to 0 .. gv-1
  // ---------------------------------------------------------------------------

  /** The vertices among 0 .. k-1 that are not sinks, in increasing order. */
  function NonSinks(k: nat, sinks: seq<int>): seq<int>
  {
    if k == 0 then []
    else
      var rest := NonSinks(k - 1, sinks);
      if k - 1 in sinks then rest else rest + [k - 1]
  }

  lemma {:induction false} NonSinksSpec(k: nat, sinks: seq<int>)
    ensures forall v :: v in NonSinks(k, sinks) <==> 0 <= v < k && v !in sinks
    ensures StrictlyIncreasing(NonSinks(k, sinks))
  {
    if k > 0 {
      NonSinksSpec(k - 1, sinks);
      var rest := NonSinks(k - 1, sinks);
      if k - 1 !in sinks {
        var r := rest + [k - 1];
        forall i, j | 0 <= i < j < |r| ensures r[i] < r[j] {
          assert r[i] == rest[i] && rest[i] in rest;
          if j < |rest| {
            assert r[j] == rest[j];
          }
        }
      }
    }
  }

  /** `sinks + non_sinks`: the old vertex that receives label i is the i-th element. */
  function RelabelOrder(n: nat, sinks: seq<int>): seq<int>
  {
    sinks + NonSinks(n, sinks)
  }

  /** `dict(zip(keys, range(len(keys))))`: a later duplicate key overrides an earlier one. */
  function ZipRange(keys: seq<int>): map<int, int>
  {
    if |keys| == 0 then map[] else ZipRange(keys[..|keys| - 1])[keys[|keys| - 1] := |keys| - 1]
  }

  lemma {:induction false} ZipRangeDistinct(keys: seq<int>)
    requires Distinct(keys)
    ensures forall v :: v in ZipRange(keys) <==> v in keys
    ensures forall i :: 0 <= i < |keys| ==> keys[i] in ZipRange(keys) && ZipRange(keys)[keys[i]] == i
  {
    if |keys| > 0 {
      var init := keys[..|keys| - 1];
      ZipRangeDistinct(init);
      assert keys == init + [keys[|keys| - 1]];
      forall i | 0 <= i < |keys| - 1 ensures keys[i] in ZipRange(keys) && ZipRange(keys)[keys[i]] == i {
        assert keys[i] == init[i] && keys[i] != keys[|keys| - 1];
      }
    }
  }

  /** `relabeling` for one choice of sinks of a digraph on n vertices. */
  function Relabeling(n: nat, sinks: seq<int>): map<int, int>
  {
    ZipRange(RelabelOrder(n, sinks))
  }

  /**
   * For strictly increasing sinks in range(n): the new labels in order name a
   * permutation of range(n) that starts with the sinks and lists the other
   * vertices in increasing order, and the relabelling is its inverse, so it is a
   * bijection of range(n) that sends the i-th sink to i.
   */
  lemma RelabelingBijective(n: nat, sinks: seq<int>)
    requires StrictlyIncreasing(sinks) && forall v :: v in sinks ==> 0 <= v < n
    ensures IsPermutation(RelabelOrder(n, sinks), n)
    ensures RelabelOrder(n, sinks)[..|sinks|] == sinks
    ensures StrictlyIncreasing(RelabelOrder(n, sinks)[|sinks|..])
    ensures forall v :: v in Relabeling(n, sinks) <==> 0 <= v < n
    ensures forall i :: 0 <= i < n ==> Relabeling(n, sinks)[RelabelOrder(n, sinks)[i]] == i
  {
    NonSinksSpec(n, sinks);
    var rest := NonSinks(n, sinks);
    var order := RelabelOrder(n, sinks);
    assert order[..|sinks|] == sinks && order[|sinks|..] == rest;
    forall i, j | 0 <= i < j < |order| ensures order[i] != order[j] {
      if j < |sinks| {
      } else if i >= |sinks| {
        assert order[i] == rest[i - |sinks|] && order[j] == rest[j - |sinks|];
      } else {
        assert order[i] in sinks && order[j] == rest[j - |sinks|] && order[j] in rest;
      }
    }
    assert forall v :: v in order <==> 0 <= v < n;
    CountDistinctRange(order, n);
    ZipRangeDistinct(order);
  }

  /** A list without repetitions whose elements are exactly 0 .. n-1 has length n. */
  lemma CountDistinctRange(s: seq<int>, n: nat)
    requires Distinct(s) && forall v :: v in s <==> 0 <= v < n
    ensures |s| == n
  {
    var ms := multiset(s);
    var mr := multiset(Range(0, n));
    forall v ensures ms[v] == mr[v] {
      CountAtMostOne(s, v);
      CountAtMostOne(Range(0, n), v);
      if 0 <= v < n {
        assert Range(0, n)[v] == v;
        assert v in s && v in Range(0, n);
      } else {
        assert v !in s && v !in Range(0, n);
      }
    }
    assert ms == mr;
    assert |ms| == |mr|;
  }

  // ---------------------------------------------------------------------------
  // The sink / ground-permutation loop of formality_graph_generate
  // ---------------------------------------------------------------------------

  /**
   * What Sage and nauty supply to `formality_graph_generate`, over a type D of
   * digraphs: `nauty(e)` lists the digraphs with e undirected edges, `degreesOk`
   * is the sorted-out-degree filter, `sinksOf` lists the vertices of out-degree
   * zero in increasing order, `inDegree(h, v)` is the in-degree of vertex v,
   * `maxAerialInDegree` is the option of that name, `canon(h, relabeling, sigma)`
   * is the sorted edge list of the
   * canonical form of h relabelled by `relabeling` and then by sigma on the
   * ground vertices, and `keep` is the conjunction of the filters applied to the
   * resulting graph (differential orders, odd automorphisms, primality).
   */
  datatype Oracles<!D> = Oracles(
    nauty: nat -> seq<D>,
    degreesOk: D -> bool,
    sinksOf: D -> seq<int>,
    inDegree: (D, int) -> int,
    maxAerialInDegree: Option<int>,
    canon: (D, map<int, int>, seq<int>) -> seq<Edge>,
    keep: seq<Edge> -> bool)

  /** The ValueError `max()` raises on an empty sequence. */
  datatype GenerateError = EmptyMax

  /** `max` of a non-empty sequence. */
  function MaxOf(s: seq<int>): int
    requires |s| > 0
  {
    if |s| == 1 then s[0]
    else
      var m := MaxOf(s[..|s| - 1]);
      if s[|s| - 1] > m then s[|s| - 1] else m
  }

  /** The maximum is one of the elements, and no element exceeds it. */
  lemma {:induction false} MaxOfSpec(s: seq<int>)
    requires |s| > 0
    ensures MaxOf(s) in s
    ensures forall x :: x in s ==> x <= MaxOf(s)
  {
    if |s| > 1 {
      var init := s[..|s| - 1];
      assert s == init + [s[|s| - 1]];
      MaxOfSpec(init);
    }
  }

  /** The in-degrees of the vertices that are not sinks, in vertex order. */
  function NonSinkInDegrees<D>(o: Oracles<D>, d: D, n: nat, sinks: seq<int>): seq<int>
  {
    var ns := NonSinks(n, sinks);
    seq(|ns|, i requires 0 <= i < |ns| => o.inDegree(d, ns[i]))
  }

  /**
   * The aerial in-degree test for one choice of sinks: with a bound, the
   * largest in-degree of a non-sink must not exceed it, and with no non-sink
   * at all `max` raises.
   */
  function AerialCheck<D>(o: Oracles<D>, d: D, n: nat, sinks: seq<int>): Result<bool, GenerateError>
  {
    if o.maxAerialInDegree.None? then Ok(true)
    else
      var degrees := NonSinkInDegrees(o, d, n, sinks);
      if |degrees| == 0 then Err(EmptyMax) else Ok(MaxOf(degrees) <= o.maxAerialInDegree.value)
  }

  /**
   * The test raises exactly when a bound is given and every vertex is a sink;
   * otherwise it keeps the choice exactly when no non-sink exceeds the bound.
   */
  lemma AerialCheckSpec<D>(o: Oracles<D>, d: D, n: nat, sinks: seq<int>)
    ensures AerialCheck(o, d, n, sinks).Err? <==> o.maxAerialInDegree.Some? && forall v :: 0 <= v < n ==> v in sinks
    ensures AerialCheck(o, d, n, sinks).Ok? ==>
              (AerialCheck(o, d, n, sinks).value <==>
                 o.maxAerialInDegree.None?
                 || forall v :: 0 <= v < n && v !in sinks ==> o.inDegree(d, v) <= o.maxAerialInDegree.value)
  {
    var ns := NonSinks(n, sinks);
    NonSinksSpec(n, sinks);
    if o.maxAerialInDegree.Some? {
      var bound := o.maxAerialInDegree.value;
      var degrees := NonSinkInDegrees(o, d, n, sinks);
      if |ns| == 0 {
        forall v | 0 <= v < n ensures v in sinks {
          assert v !in ns;
        }
      } else {
        assert ns[0] in ns;
        MaxOfSpec(degrees);
        var m := MaxOf(degrees);
        if m <= bound {
          forall v | 0 <= v < n && v !in sinks ensures o.inDegree(d, v) <= bound {
            assert v in ns;
            var i :| 0 <= i < |ns| && ns[i] == v;
            assert degrees[i] in degrees;
          }
        } else {
          var i :| 0 <= i < |degrees| && degrees[i] == m;
          assert ns[i] in ns;
        }
      }
    }
  }

  /** `ground_permutations`: only the identity modulo ground permutations, otherwise all of them. */
  function GroundPermutations(gv: nat, modGround: bool): seq<seq<int>>
  {
    if modGround then [Range(0, gv)] else Permutations(Range(0, gv))
  }

  /**
   * The canonical edge lists produced for one choice of sinks, in the order of
   * the ground permutations, or none when the aerial in-degree bound rejects it.
   */
  function Row<D>(o: Oracles<D>, d: D, n: nat, sinks: seq<int>, perms: seq<seq<int>>): seq<seq<Edge>>
  {
    if AerialCheck(o, d, n, sinks) == Ok(true) then seq(|perms|, j requires 0 <= j < |perms| => o.canon(d, Relabeling(n, sinks), perms[j])) else []
  }

  /** Every graph considered for a digraph d: the rows of all sink choices, one after the other. */
  function Candidates<D>(o: Oracles<D>, d: D, n: nat, sinkChoices: seq<seq<int>>, perms: seq<seq<int>>): seq<seq<Edge>>
  {
    if |sinkChoices| == 0 then []
    else Candidates(o, d, n, sinkChoices[..|sinkChoices| - 1], perms) + Row(o, d, n, sinkChoices[|sinkChoices| - 1], perms)
  }

  /** The candidates for digraph d in formality_graph_generate. */
  function DigraphCandidates<D>(o: Oracles<D>, d: D, gv: nat, av: nat, modGround: bool): seq<seq<Edge>>
  {
    Candidates(o, d, gv + av, Combinations(o.sinksOf(d), gv), GroundPermutations(gv, modGround))
  }

  /**
   * The list `seen` becomes after the graphs of s are met in order: a graph
   * already in the list is skipped, a new one is appended.
   */
  function Extend<T(==)>(seen: seq<T>, s: seq<T>): seq<T>
  {
    if |s| == 0 then seen
    else
      var e := Extend(seen, s[..|s| - 1]);
      if s[|s| - 1] in e then e else e + [s[|s| - 1]]
  }

  /** The elements of s that pass `keep`, in order: the `continue`s after the `seen` test. */
  function Filter<T>(keep: T -> bool, s: seq<T>): seq<T>
  {
    if |s| == 0 then []
    else Filter(keep, s[..|s| - 1]) + (if keep(s[|s| - 1]) then [s[|s| - 1]] else [])
  }

  /** What the generator yields for one digraph d: the first occurrences of its candidates that pass `keep`, in order. */
  function DigraphOutput<D>(o: Oracles<D>, d: D, gv: nat, av: nat, modGround: bool): seq<seq<Edge>>
  {
    Filter(o.keep, Extend([], DigraphCandidates(o, d, gv, av, modGround)))
  }

  /** What the generator yields for the digraphs ds of one loop order: the outputs of those passing the degree filter, one after the other. */
  function LoopOrderOutput<D>(o: Oracles<D>, ds: seq<D>, gv: nat, av: nat, modGround: bool): seq<seq<Edge>>
  {
    if |ds| == 0 then []
    else
      LoopOrderOutput(o, ds[..|ds| - 1], gv, av, modGround)
      + (if o.degreesOk(ds[|ds| - 1]) then DigraphOutput(o, ds[|ds| - 1], gv, av, modGround) else [])
  }

  /** What the generator yields for loop orders 0 .. m-1, in increasing order of loop order. */
  function AllOutput<D>(o: Oracles<D>, m: nat, numEdges: nat, gv: nat, av: nat, modGround: bool): seq<seq<Edge>>
    requires m <= numEdges + 1
  {
    if m == 0 then []
    else AllOutput(o, m - 1, numEdges, gv, av, modGround) + LoopOrderOutput(o, o.nauty(numEdges - (m - 1)), gv, av, modGround)
  }

  /** Some choice of sinks among `sinkChoices` makes the aerial in-degree test raise. */
  ghost predicate SinkChoicesFail<D>(o: Oracles<D>, d: D, n: nat, sinkChoices: seq<seq<int>>)
  {
    |sinkChoices| != 0
    && (SinkChoicesFail(o, d, n, sinkChoices[..|sinkChoices| - 1])
        || AerialCheck(o, d, n, sinkChoices[|sinkChoices| - 1]).Err?)
  }

  /** A choice that raises makes every longer list of choices raise. */
  lemma {:induction false} SinkChoicesFailPrefix<D>(o: Oracles<D>, d: D, n: nat, sinkChoices: seq<seq<int>>, i: nat)
    requires i <= |sinkChoices|
    requires SinkChoicesFail(o, d, n, sinkChoices[..i])
    ensures SinkChoicesFail(o, d, n, sinkChoices)
    decreases |sinkChoices|
  {
    if i < |sinkChoices| {
      var init := sinkChoices[..|sinkChoices| - 1];
      assert init[..i] == sinkChoices[..i];
      SinkChoicesFailPrefix(o, d, n, init, i);
    } else {
      assert sinkChoices[..i] == sinkChoices;
    }
  }

  /** The generator raises while it handles digraph d. */
  ghost predicate DigraphFails<D>(o: Oracles<D>, d: D, gv: nat, av: nat)
  {
    SinkChoicesFail(o, d, gv + av, Combinations(o.sinksOf(d), gv))
  }

  /** The generator raises while it handles one of the digraphs ds that pass the degree filter. */
  ghost predicate LoopOrderFails<D>(o: Oracles<D>, ds: seq<D>, gv: nat, av: nat)
  {
    exists d :: d in ds && o.degreesOk(d) && DigraphFails(o, d, gv, av)
  }

  /** The generator raises while it handles the given loop order. */
  ghost predicate LoopOrderFailsAt<D>(o: Oracles<D>, loopOrder: nat, numEdges: nat, gv: nat, av: nat)
    requires loopOrder <= numEdges
  {
    LoopOrderFails(o, o.nauty(numEdges - loopOrder), gv, av)
  }

  /** The generator raises while it handles one of the loop orders 0 .. m-1. */
  ghost predicate AllFail<D>(o: Oracles<D>, m: nat, numEdges: nat, gv: nat, av: nat)
    requires m <= numEdges + 1
  {
    exists loopOrder: nat :: loopOrder < m && LoopOrderFailsAt(o, loopOrder, numEdges, gv, av)
  }

  lemma {:induction false} ExtendMembers<T>(seen: seq<T>, s: seq<T>)
    ensures forall x :: x in Extend(seen, s) <==> x in seen || x in s
  {
    if |s| != 0 {
      var init := s[..|s| - 1];
      assert s == init + [s[|s| - 1]];
      ExtendMembers(seen, init);
    }
  }

  lemma {:induction false} ExtendDistinct<T>(seen: seq<T>, s: seq<T>)
    requires Distinct(seen)
    ensures Distinct(Extend(seen, s))
  {
    if |s| != 0 {
      ExtendDistinct(seen, s[..|s| - 1]);
    }
  }

  /** Meeting a then b is meeting a + b. */
  lemma {:induction false} ExtendConcat<T>(seen: seq<T>, a: seq<T>, b: seq<T>)
    ensures Extend(Extend(seen, a), b) == Extend(seen, a + b)
  {
    if |b| == 0 {
      assert a + b == a;
    } else {
      var init := b[..|b| - 1];
      assert (a + b)[..|a + b| - 1] == a + init;
      ExtendConcat(seen, a, init);
    }
  }

  lemma {:induction false} FilterMembers<T>(keep: T -> bool, s: seq<T>)
    ensures forall x :: x in Filter(keep, s) <==> x in s && keep(x)
  {
    if |s| != 0 {
      var init := s[..|s| - 1];
      assert s == init + [s[|s| - 1]];
      FilterMembers(keep, init);
    }
  }

  lemma {:induction false} FilterDistinct<T>(keep: T -> bool, s: seq<T>)
    requires Distinct(s)
    ensures Distinct(Filter(keep, s))
  {
    if |s| != 0 {
      var init := s[..|s| - 1];
      assert s == init + [s[|s| - 1]];
      FilterDistinct(keep, init);
      FilterMembers(keep, init);
    }
  }

  /** Filtering one more element. */
  lemma FilterSnoc<T>(keep: T -> bool, s: seq<T>, x: T)
    ensures Filter(keep, s + [x]) == Filter(keep, s) + (if keep(x) then [x] else [])
  {
    assert (s + [x])[..|s|] == s;
  }

  /** The yield of one digraph holds each graph once, and exactly the candidates that pass `keep`. */
  lemma DigraphOutputMembers<D>(o: Oracles<D>, d: D, gv: nat, av: nat, modGround: bool)
    ensures Distinct(DigraphOutput(o, d, gv, av, modGround))
    ensures forall g :: g in DigraphOutput(o, d, gv, av, modGround) <==> g in DigraphCandidates(o, d, gv, av, modGround) && o.keep(g)
  {
    var cands := DigraphCandidates(o, d, gv, av, modGround);
    ExtendDistinct([], cands);
    ExtendMembers([], cands);
    FilterDistinct(o.keep, Extend([], cands));
    FilterMembers(o.keep, Extend([], cands));
  }

  /** The yield of one loop order is exactly its candidates that pass `keep`. */
  lemma {:induction false} LoopOrderOutputMembers<D>(o: Oracles<D>, ds: seq<D>, gv: nat, av: nat, modGround: bool)
    ensures forall g :: g in LoopOrderOutput(o, ds, gv, av, modGround) <==> g in LoopOrderCandidates(o, ds, gv, av, modGround) && o.keep(g)
  {
    if |ds| != 0 {
      var last := ds[|ds| - 1];
      LoopOrderOutputMembers(o, ds[..|ds| - 1], gv, av, modGround);
      DigraphOutputMembers(o, last, gv, av, modGround);
    }
  }

  /** The whole yield is exactly the candidates of every loop order that pass `keep`. */
  lemma {:induction false} AllOutputMembers<D>(o: Oracles<D>, m: nat, numEdges: nat, gv: nat, av: nat, modGround: bool)
    requires m <= numEdges + 1
    ensures forall g :: g in AllOutput(o, m, numEdges, gv, av, modGround) <==> g in AllCandidates(o, m, numEdges, gv, av, modGround) && o.keep(g)
  {
    if m != 0 {
      AllOutputMembers(o, m - 1, numEdges, gv, av, modGround);
      LoopOrderOutputMembers(o, o.nauty(numEdges - (m - 1)), gv, av, modGround);
    }
  }

  /**
   * The graphs yielded for one digraph d: the candidates in order, each graph
   * only at its first occurrence (a graph already in `seen` is skipped), and
   * only those that pass `keep`.
   */
  method GenerateForDigraph<D>(o: Oracles<D>, d: D, gv: nat, av: nat, modGround: bool)
    returns (r: Result<seq<seq<Edge>>, GenerateError>)
    ensures r.Err? <==> DigraphFails(o, d, gv, av)
    ensures r.Ok? ==> r.value == DigraphOutput(o, d, gv, av, modGround)
    ensures r.Ok? ==> Distinct(r.value)
    ensures r.Ok? ==> forall g :: g in r.value <==> g in DigraphCandidates(o, d, gv, av, modGround) && o.keep(g)
  {
    var sinkChoices := Combinations(o.sinksOf(d), gv);
    var perms := GroundPermutations(gv, modGround);
    r := ScanSinkChoices(o, d, gv + av, sinkChoices, perms);
    assert r.Err? <==> DigraphFails(o, d, gv, av);
    if r.Ok? {
      assert r.value == DigraphOutput(o, d, gv, av, modGround) by {
        DigraphOutputIs(o, d, gv, av, modGround);
      }
      DigraphOutputMembers(o, d, gv, av, modGround);
    }
  }

  /** The yield of one digraph, written over its sink choices and ground permutations. */
  lemma DigraphOutputIs<D>(o: Oracles<D>, d: D, gv: nat, av: nat, modGround: bool)
    ensures DigraphOutput(o, d, gv, av, modGround)
         == Filter(o.keep, Extend([], Candidates(o, d, gv + av, Combinations(o.sinksOf(d), gv), GroundPermutations(gv, modGround))))
  {
  }

  /** The loop over the choices of sinks of one digraph, with `seen` shared by all of them. */
  method ScanSinkChoices<D>(o: Oracles<D>, d: D, n: nat, sinkChoices: seq<seq<int>>, perms: seq<seq<int>>)
    returns (r: Result<seq<seq<Edge>>, GenerateError>)
    ensures r.Err? <==> SinkChoicesFail(o, d, n, sinkChoices)
    ensures r.Ok? ==> r.value == Filter(o.keep, Extend([], Candidates(o, d, n, sinkChoices, perms)))
  {
    var seen: seq<seq<Edge>> := [];
    var out := [];
    var i := 0;
    while i < |sinkChoices|
      invariant i <= |sinkChoices|
      invariant !SinkChoicesFail(o, d, n, sinkChoices[..i])
      invariant seen == Extend([], Candidates(o, d, n, sinkChoices[..i], perms))
      invariant out == Filter(o.keep, seen)
    {
      var sinks := sinkChoices[i];
      var check := AerialCheck(o, d, n, sinks);
      assert sinkChoices[..i + 1][..i] == sinkChoices[..i];
      if check.Err? {
        SinkChoicesFailPrefix(o, d, n, sinkChoices, i + 1);
        return Err(check.error);
      }
      CandidatesSnoc(o, d, n, sinkChoices, i, perms);
      ExtendConcat([], Candidates(o, d, n, sinkChoices[..i], perms), Row(o, d, n, sinks, perms));
      if check.value {
        seen, out := ScanRow(o, d, n, sinks, perms, seen, out);
      }
      i := i + 1;
    }
    assert sinkChoices[..i] == sinkChoices;
    r := Ok(out);
  }

  /** One more choice of sinks appends its row, which is empty when the aerial bound rejects it. */
  lemma CandidatesSnoc<D>(o: Oracles<D>, d: D, n: nat, sinkChoices: seq<seq<int>>, i: nat, perms: seq<seq<int>>)
    requires i < |sinkChoices|
    ensures Candidates(o, d, n, sinkChoices[..i + 1], perms)
         == Candidates(o, d, n, sinkChoices[..i], perms) + Row(o, d, n, sinkChoices[i], perms)
    ensures AerialCheck(o, d, n, sinkChoices[i]) != Ok(true) ==> Row(o, d, n, sinkChoices[i], perms) == []
  {
    assert sinkChoices[..i + 1][..i] == sinkChoices[..i];
  }

  /**
   * The inner loop over ground permutations for one accepted choice of sinks:
   * each canonical edge list not seen before is recorded, and yielded when it
   * passes `keep`.
   */
  method ScanRow<D>(o: Oracles<D>, d: D, n: nat, sinks: seq<int>, perms: seq<seq<int>>,
                    seen0: seq<seq<Edge>>, out0: seq<seq<Edge>>)
    returns (seen: seq<seq<Edge>>, out: seq<seq<Edge>>)
    requires AerialCheck(o, d, n, sinks) == Ok(true)
    requires out0 == Filter(o.keep, seen0)
    ensures seen == Extend(seen0, Row(o, d, n, sinks, perms))
    ensures out == Filter(o.keep, seen)
  {
    var relabeling := Relabeling(n, sinks);
    ghost var row := Row(o, d, n, sinks, perms);
    seen, out := seen0, out0;
    var j := 0;
    while j < |perms|
      invariant j <= |perms|
      invariant seen == Extend(seen0, row[..j])
      invariant out == Filter(o.keep, seen)
    {
      var g := o.canon(d, relabeling, perms[j]);
      assert row[..j + 1] == row[..j] + [g];
      assert row[..j + 1][..j] == row[..j];
      if g !in seen {
        FilterSnoc(o.keep, seen, g);
        seen := seen + [g];
        if o.keep(g) {
          out := out + [g];
        }
      }
      j := j + 1;
    }
    assert row[..j] == row;
  }

  /** The candidates of the digraphs in `ds` that pass the out-degree filter, digraph by digraph. */
  function LoopOrderCandidates<D>(o: Oracles<D>, ds: seq<D>, gv: nat, av: nat, modGround: bool): seq<seq<Edge>>
  {
    if |ds| == 0 then []
    else
      LoopOrderCandidates(o, ds[..|ds| - 1], gv, av, modGround)
      + (if o.degreesOk(ds[|ds| - 1]) then DigraphCandidates(o, ds[|ds| - 1], gv, av, modGround) else [])
  }

  /** The candidates of loop orders 0 .. m-1, in increasing order of loop order. */
  function AllCandidates<D>(o: Oracles<D>, m: nat, numEdges: nat, gv: nat, av: nat, modGround: bool): seq<seq<Edge>>
    requires m <= numEdges + 1
  {
    if m == 0 then []
    else AllCandidates(o, m - 1, numEdges, gv, av, modGround) + LoopOrderCandidates(o, o.nauty(numEdges - (m - 1)), gv, av, modGround)
  }

  /**
   * `formality_graph_generate`: for loop orders 0 .. MaxLoopOrder in increasing
   * order, every digraph nauty lists with `numEdges - loopOrder` undirected edges
   * and the requested out-degrees contributes the graphs of GenerateForDigraph,
   * in nauty's order. The yield is exactly the candidates that pass the
   * filters; duplicates are only removed within one digraph.
   */
  method Generate<D>(o: Oracles<D>, gv: nat, av: nat, numEdges: nat, loops: Option<bool>, modGround: bool)
    returns (r: Result<seq<seq<Edge>>, GenerateError>)
    ensures r.Err? <==> AllFail(o, MaxLoopOrder(numEdges, loops) + 1, numEdges, gv, av)
    ensures r.Ok? ==> r.value == AllOutput(o, MaxLoopOrder(numEdges, loops) + 1, numEdges, gv, av, modGround)
    ensures r.Ok? ==>
              forall g :: g in r.value <==> g in AllCandidates(o, MaxLoopOrder(numEdges, loops) + 1, numEdges, gv, av, modGround) && o.keep(g)
  {
    r := GenerateLoopOrders(o, gv, av, numEdges, MaxLoopOrder(numEdges, loops), modGround);
    AllOutputMembers(o, MaxLoopOrder(numEdges, loops) + 1, numEdges, gv, av, modGround);
  }

  /** The loop over loop orders 0 .. maxLoopOrder of `formality_graph_generate`. */
  method GenerateLoopOrders<D>(o: Oracles<D>, gv: nat, av: nat, numEdges: nat, maxLoopOrder: nat, modGround: bool)
    returns (r: Result<seq<seq<Edge>>, GenerateError>)
    requires maxLoopOrder <= numEdges
    ensures r.Err? <==> AllFail(o, maxLoopOrder + 1, numEdges, gv, av)
    ensures r.Ok? ==> r.value == AllOutput(o, maxLoopOrder + 1, numEdges, gv, av, modGround)
  {
    var out := [];
    var loopOrder := 0;
    while loopOrder <= maxLoopOrder
      invariant loopOrder <= maxLoopOrder + 1
      invariant !AllFail(o, loopOrder, numEdges, gv, av)
      invariant out == AllOutput(o, loopOrder, numEdges, gv, av, modGround)
    {
      var found := GenerateLoopOrder(o, o.nauty(numEdges - loopOrder), gv, av, modGround);
      if found.Err? {
        assert LoopOrderFailsAt(o, loopOrder, numEdges, gv, av);
        return Err(found.error);
      }
      out := out + found.value;
      loopOrder := loopOrder + 1;
    }
    r := Ok(out);
  }

  /** The graphs of one loop order: those of every digraph that passes the out-degree filter, in nauty's order. */
  method GenerateLoopOrder<D>(o: Oracles<D>, digraphs: seq<D>, gv: nat, av: nat, modGround: bool)
    returns (r: Result<seq<seq<Edge>>, GenerateError>)
    ensures r.Err? <==> LoopOrderFails(o, digraphs, gv, av)
    ensures r.Ok? ==> r.value == LoopOrderOutput(o, digraphs, gv, av, modGround)
    ensures r.Ok? ==> forall g :: g in r.value <==> g in LoopOrderCandidates(o, digraphs, gv, av, modGround) && o.keep(g)
  {
    var out := [];
    var k := 0;
    while k < |digraphs|
      invariant k <= |digraphs|
      invariant !LoopOrderFails(o, digraphs[..k], gv, av)
      invariant out == LoopOrderOutput(o, digraphs[..k], gv, av, modGround)
    {
      var h := digraphs[k];
      assert digraphs[..k + 1][..k] == digraphs[..k];
      assert digraphs[..k + 1] == digraphs[..k] + [h];
      if o.degreesOk(h) {
        var found := GenerateForDigraph(o, h, gv, av, modGround);
        if found.Err? {
          assert h in digraphs;
          return Err(found.error);
        }
        out := out + found.value;
      }
      k := k + 1;
    }
    assert digraphs[..k] == digraphs;
    LoopOrderOutputMembers(o, digraphs, gv, av, modGround);
    r := Ok(out);
  }

  // ---------------------------------------------------------------------------
  // formality_graph_canonicalize, after canonical_label
  // ---------------------------------------------------------------------------

  predicate EdgeIn(e: Edge, n: nat)
  {
    0 <= e.first < n && 0 <= e.last < n
  }

  /** `(sigma[a], sigma[b])` for an edge `(a, b)`. */
  function RelabelEdge(e: Edge, sigma: seq<int>): Edge
    requires EdgeIn(e, |sigma|)
  {
    Edge(sigma[e.first], sigma[e.last])
  }

  /** `edge_permutation`: every edge relabelled by sigma, in the original order. */
  function RelabelEdges(edges: seq<Edge>, sigma: seq<int>): (r: seq<Edge>)
    requires forall e :: e in edges ==> EdgeIn(e, |sigma|)
    ensures |r| == |edges|
    ensures forall i :: 0 <= i < |edges| ==> r[i] == RelabelEdge(edges[i], sigma)
  {
    seq(|edges|, i requires 0 <= i < |edges| => RelabelEdge(edges[i], sigma))
  }

  /** `[new_edges.index(e) for e in edge_permutation]`. */
  function IndexPermutation(newEdges: seq<Edge>, moved: seq<Edge>): (r: seq<int>)
    ensures |r| == |moved|
  {
    seq(|moved|, i requires 0 <= i < |moved| => IndexOf(newEdges, moved[i]))
  }

  /** A relabelling by a permutation keeps distinct edges distinct. */
  lemma RelabelDistinct(edges: seq<Edge>, sigma: seq<int>, n: nat)
    requires IsPermutation(sigma, n) && Distinct(edges)
    requires forall e :: e in edges ==> EdgeIn(e, n)
    ensures Distinct(RelabelEdges(edges, sigma))
  {
    var moved := RelabelEdges(edges, sigma);
    forall i, j | 0 <= i < j < |moved| ensures moved[i] != moved[j] {
      assert edges[i] in edges && edges[j] in edges;
      assert edges[i].first != edges[j].first || edges[i].last != edges[j].last;
    }
  }

  /**
   * When `moved` rearranges `newEdges` and has no repetitions, looking up each
   * element of `moved` in `newEdges` gives a permutation of the positions, and
   * the position found holds that element.
   */
  lemma IndexPermutationIsPermutation(newEdges: seq<Edge>, moved: seq<Edge>)
    requires multiset(newEdges) == multiset(moved) && Distinct(moved)
    ensures IsPermutation(IndexPermutation(newEdges, moved), |moved|)
    ensures forall i :: 0 <= i < |moved| ==>
              IndexPermutation(newEdges, moved)[i] < |newEdges| && newEdges[IndexPermutation(newEdges, moved)[i]] == moved[i]
  {
    var p := IndexPermutation(newEdges, moved);
    assert |newEdges| == |moved| by {
      assert |multiset(newEdges)| == |multiset(moved)|;
    }
    forall i | 0 <= i < |moved| ensures 0 <= p[i] < |moved| && newEdges[p[i]] == moved[i] {
      assert moved[i] in multiset(newEdges);
      assert moved[i] in newEdges;
    }
    forall i, j | 0 <= i < j < |moved| ensures p[i] != p[j] {
      assert newEdges[p[i]] == moved[i] && newEdges[p[j]] == moved[j];
    }
  }

  datatype CanonicalizeError = DoubleEdges  // "don't know how to canonicalize graph with double edges"

  /** What `formality_graph_canonicalize` returns: the canonical edges, `undo_canonicalize`, the sign. */
  datatype Canonical = Canonical(edges: seq<Edge>, undo: seq<int>, sign: int)

  /**
   * `formality_graph_canonicalize` after the call to `canonical_label`, which
   * supplies the certificate `sigma` (a permutation of the vertices) and the
   * sorted edges `newEdges` of the relabelled graph. A graph with a repeated
   * edge is refused. Otherwise `undo` is the inverse of sigma and the sign is
   * that of the reordering of the relabelled edges into `newEdges`.
   */
  method Canonicalize(n: nat, edges: seq<Edge>, sigma: seq<int>, newEdges: seq<Edge>)
    returns (r: Result<Canonical, CanonicalizeError>)
    requires forall e :: e in edges ==> EdgeIn(e, n)
    requires IsPermutation(sigma, n)
    requires Distinct(edges) ==> Sorted(newEdges, EdgeLess) && multiset(newEdges) == multiset(RelabelEdges(edges, sigma))
    ensures r.Err? <==> !Distinct(edges)
    ensures r.Ok? ==> r.value.edges == newEdges
    ensures r.Ok? ==> IsPermutation(r.value.undo, n)
    ensures r.Ok? ==> forall v :: 0 <= v < n ==> r.value.undo[sigma[v]] == v && sigma[r.value.undo[v]] == v
    ensures r.Ok? ==> IsPermutation(IndexPermutation(newEdges, RelabelEdges(edges, sigma)), |edges|)
    ensures r.Ok? ==> r.value.sign == SortSign(IndexPermutation(newEdges, RelabelEdges(edges, sigma)), IntLess)
    ensures r.Ok? ==> r.value.sign == 1 || r.value.sign == -1
  {
    var hasDouble := HasRepeatedEdge(edges);
    if hasDouble {
      return Err(DoubleEdges);
    }
    var moved := RelabelEdges(edges, sigma);
    RelabelDistinct(edges, sigma, n);
    var indexPermutation := IndexPermutation(newEdges, moved);
    IndexPermutationIsPermutation(newEdges, moved);
    var undo := Invert(sigma, n);
    var sign := SortSignOf(indexPermutation);
    return Ok(Canonical(newEdges, undo, sign));
  }

  /** `len(H.edges()) != len(g.edges())`: Sage's digraph keeps one copy of a repeated edge. */
  method HasRepeatedEdge(edges: seq<Edge>) returns (r: bool)
    ensures r <==> !Distinct(edges)
  {
    var i := 0;
    while i < |edges|
      invariant i <= |edges|
      invariant Distinct(edges[..i])
    {
      var j := 0;
      while j < i
        invariant j <= i
        invariant forall k :: 0 <= k < j ==> edges[k] != edges[i]
      {
        if edges[j] == edges[i] {
          return true;
        }
        j := j + 1;
      }
      assert edges[..i + 1] == edges[..i] + [edges[i]];
      i := i + 1;
    }
    assert edges[..i] == edges;
    return false;
  }

  /** `undo_canonicalize[v] = k` for every item `k: v` of sigma. */
  method Invert(sigma: seq<int>, n: nat) returns (undo: seq<int>)
    requires IsPermutation(sigma, n)
    ensures IsPermutation(undo, n)
    ensures forall v :: 0 <= v < n ==> undo[sigma[v]] == v && sigma[undo[v]] == v
  {
    var a := new int[n](_ => 0);
    var k := 0;
    while k < n
      invariant k <= n
      invariant forall j :: 0 <= j < k ==> a[sigma[j]] == j
      invariant forall v :: 0 <= v < n ==> (exists j :: 0 <= j < k && sigma[j] == v) || a[v] == 0
    {
      a[sigma[k]] := k;
      k := k + 1;
    }
    undo := a[..];
    forall v | 0 <= v < n ensures 0 <= undo[v] < n && sigma[undo[v]] == v {
      PermutationOnto(sigma, n, v);
      var j :| 0 <= j < n && sigma[j] == v;
      assert undo[v] == j;
    }
    forall i, j | 0 <= i < j < n ensures undo[i] != undo[j] {
      assert sigma[undo[i]] == i && sigma[undo[j]] == j;
    }
  }

  /** A permutation of range(n) takes every value in range(n). */
  lemma PermutationOnto(sigma: seq<int>, n: nat, v: int)
    requires IsPermutation(sigma, n) && 0 <= v < n
    ensures exists j :: 0 <= j < n && sigma[j] == v
  {
    MissingValue(sigma, n, v);
    assert v in sigma;
  }

  /** Without v, a list of distinct values from range(n) has fewer than n elements. */
  lemma MissingValue(s: seq<int>, n: nat, v: int)
    requires Distinct(s) && (forall k :: 0 <= k < |s| ==> 0 <= s[k] < n) && 0 <= v < n
    ensures v !in s ==> |s| <= n - 1
  {
    if v !in s {
      var squeezed := seq(|s|, k requires 0 <= k < |s| => if s[k] > v then s[k] - 1 else s[k]);
      forall i, j | 0 <= i < j < |s| ensures squeezed[i] != squeezed[j] {
        assert s[i] != v && s[j] != v && s[i] != s[j];
      }
      forall k | 0 <= k < |s| ensures 0 <= squeezed[k] < n - 1 {
        assert s[k] != v;
      }
      DistinctBelow(squeezed, n - 1);
    }
  }

  /** Pigeonhole: distinct values below m are at most m many. */
  lemma {:induction false} DistinctBelow(s: seq<int>, m: nat)
    requires Distinct(s) && forall k :: 0 <= k < |s| ==> 0 <= s[k] < m
    ensures |s| <= m
    decreases m
  {
    if m > 0 {
      var i := IndexOf(s, m - 1);
      if i < |s| {
        var rest := s[..i] + s[i + 1..];
        forall k | 0 <= k < |rest| ensures 0 <= rest[k] < m - 1 {
          if k < i {
            assert rest[k] == s[k];
          } else {
            assert rest[k] == s[k + 1];
          }
        }
        forall p, q | 0 <= p < q < |rest| ensures rest[p] != rest[q] {
          var p' := if p < i then p else p + 1;
          var q' := if q < i then q else q + 1;
          assert rest[p] == s[p'] && rest[q] == s[q'];
        }
        DistinctBelow(rest, m - 1);
      } else {
        forall k | 0 <= k < |s| ensures 0 <= s[k] < m - 1 {
          assert s[k] != m - 1;
        }
        DistinctBelow(s, m - 1);
      }
    } else if |s| > 0 {
      assert false;
    }
  }

  // ---------------------------------------------------------------------------
  // formality_graph_has_odd_automorphism, after automorphism_group
  // ---------------------------------------------------------------------------

  /** The sign of the permutation of edge positions that the vertex permutation sigma induces. */
  function EdgeSign(edges: seq<Edge>, sigma: seq<int>): int
    requires forall e :: e in edges ==> EdgeIn(e, |sigma|)
  {
    SortSign(IndexPermutation(edges, RelabelEdges(edges, sigma)), IntLess)
  }

  /** sigma is an automorphism of the digraph: a vertex permutation that maps the edge set onto itself. */
  ghost predicate IsAutomorphism(edges: seq<Edge>, sigma: seq<int>, n: nat)
  {
    && |sigma| == n
    && IsPermutation(sigma, n)
    && (forall e :: e in edges ==> EdgeIn(e, n))
    && multiset(RelabelEdges(edges, sigma)) == multiset(edges)
  }

  /**
   * An automorphism of a graph without repeated edges permutes the edge
   * positions, so its edge sign is +1 or -1.
   */
  lemma EdgeSignOfAutomorphism(edges: seq<Edge>, sigma: seq<int>, n: nat)
    requires Distinct(edges) && IsAutomorphism(edges, sigma, n)
    ensures IsPermutation(IndexPermutation(edges, RelabelEdges(edges, sigma)), |edges|)
    ensures EdgeSign(edges, sigma) == 1 || EdgeSign(edges, sigma) == -1
  {
    RelabelDistinct(edges, sigma, n);
    IndexPermutationIsPermutation(edges, RelabelEdges(edges, sigma));
  }

  /** The identity automorphism is even: it fixes every edge position. */
  lemma IdentityEdgeSign(edges: seq<Edge>, n: nat)
    requires Distinct(edges) && forall e :: e in edges ==> EdgeIn(e, n)
    ensures EdgeSign(edges, Range(0, n)) == 1
  {
    var moved := RelabelEdges(edges, Range(0, n));
    forall i | 0 <= i < |edges| ensures moved[i] == edges[i] {
      assert edges[i] in edges;
    }
    assert moved == edges;
    var p := IndexPermutation(edges, moved);
    forall i | 0 <= i < |p| ensures p[i] == i {
      assert IndexOf(edges, edges[i]) <= i;
    }
    IntLessIsStrictTotalOrder();
    SortedNoInversions(p, IntLess);
  }

  /**
   * `formality_graph_has_odd_automorphism`, given the generators Sage returns for
   * the automorphism group that fixes each ground vertex: true, at the first
   * such generator, exactly when some generator induces an odd permutation of the
   * edge positions.
   */
  method HasOddAutomorphism(n: nat, edges: seq<Edge>, gens: seq<seq<int>>) returns (r: bool)
    requires Distinct(edges) && forall e :: e in edges ==> EdgeIn(e, n)
    requires forall g :: 0 <= g < |gens| ==> |gens[g]| == n && IsAutomorphism(edges, gens[g], n)
    ensures r <==> exists g :: 0 <= g < |gens| && EdgeSign(edges, gens[g]) == -1
  {
    var i := 0;
    while i < |gens|
      invariant i <= |gens|
      invariant forall g :: 0 <= g < i ==> EdgeSign(edges, gens[g]) != -1
    {
      var sigma := gens[i];
      var edgePermutation := RelabelEdges(edges, sigma);
      var indexPermutation := IndexPermutation(edges, edgePermutation);
      EdgeSignOfAutomorphism(edges, sigma, n);
      var sign := SortSignOf(indexPermutation);
      if sign == -1 {
        return true;
      }
      i := i + 1;
    }
    return false;
  }
}
