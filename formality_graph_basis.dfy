/**
 * Bases of formality graphs (gcaops/graph/formality_graph_basis.py).
 *
 * A formality graph has ground vertices 0 .. gv-1, aerial vertices
 * gv .. gv+av-1 and an ordered list of directed edges. The complex and operad
 * bases identify a graph by `(gv, av, e, index)`, the position of its
 * canonical form in the cached list of that tri-grading (the operad basis
 * appends a relabelling); the lazy basis puts the canonical edges themselves in
 * the key; the quantization bases (Kontsevich and Leibniz graphs) are graded by
 * `(gv, av)` only, the edge count following from the shape of the graphs. The
 * lists come from the formality graph cache through a `keydefaultdict`, and the
 * cache returns exactly what its generator gives, so a list is a function of the
 * generator here. The canonicaliser, the odd-automorphism test and
 * `relabeled` are parameters.
 */
module FormalityGraphBases {
  import opened Wrappers
  import opened Parity
  import opened Combinatorics
  import opened UndirectedGraphs
  import opened GraphCaches
  import opened SuperfunctionAlgebras
  import U = UndirectedGraphBases

  /** The value of a formality graph: the numbers of ground and aerial vertices and the edge list. */
  datatype Graph = Graph(groundVertices: int, aerialVertices: int, edges: seq<Edge>)

  /** What `formality_graph_cache.canonicalize_graph` returns: the normal form, the permutation back to the input, the sign. */
  datatype Canonical = Canonical(graph: Graph, undo: seq<int>, sign: int)

  /** `(gv, av, e)` of a graph: the grading its list is looked up under. */
  function TriGrading(g: Graph): (int, int, int)
  {
    (g.groundVertices, g.aerialVertices, |g.edges|)
  }

  /** The `keydefaultdict` of a tri-graded basis holds, for each grading it was asked for, the list of that grading. */
  ghost predicate FilledFrom3(d: KeyDefaultDict<(int, int, int), seq<Graph>>, lists: (int, int, int) -> seq<Graph>)
    reads d
  {
    d.factory.Some?
    && (forall k :: d.factory.value(k) == lists(k.0, k.1, k.2))
    && forall k :: k in d.store ==> d.store[k] == lists(k.0, k.1, k.2)
  }

  /** `self._graphs[gv, av, e]`: a lookup that fills the dictionary on a miss. */
  method Lookup3(d: KeyDefaultDict<(int, int, int), seq<Graph>>, lists: (int, int, int) -> seq<Graph>, gv: int, av: int, e: int)
    returns (r: seq<Graph>)
    requires FilledFrom3(d, lists)
    modifies d
    ensures FilledFrom3(d, lists)
    ensures r == lists(gv, av, e)
  {
    var got := d.Get((gv, av, e));
    r := got.value;
  }

  /** Lists hold distinct graphs of their own tri-grading, as generated lists of canonical forms do. */
  ghost predicate ListsWellFormed(lists: (int, int, int) -> seq<Graph>)
  {
    forall gv, av, e :: Distinct(lists(gv, av, e))
      && forall k :: 0 <= k < |lists(gv, av, e)| ==> TriGrading(lists(gv, av, e)[k]) == (gv, av, e)
  }

  // ---------------------------------------------------------------------------
  // The complex basis
  // ---------------------------------------------------------------------------

  /**
   * `partial(formality_graph_cache.graphs, positive_differential_order=…,
   * connected=…, loops=…, has_odd_automorphism=False)`: the cache's defaults
   * for every other option.
   */
  function ComplexOptions(positiveDifferentialOrder: Option<bool>, connected: Option<bool>, loops: Option<bool>): FormalityOptions
  {
    FormalityOptions(connected, None, None, None, None, loops, None, Some(false), positiveDifferentialOrder, false)
  }

  /**
   * `FormalityGraphComplexBasis.graph_to_key` on the canonical form `c` of the
   * input: the key `(gv, av, e, index)` with the canonicaliser's sign, or
   * `(None, 1)` when the canonical form is not in the list of its grading.
   */
  function ComplexGraphToKey(lists: (int, int, int) -> seq<Graph>, c: Canonical): (Option<seq<int>>, int)
  {
    var (gv, av, e) := TriGrading(c.graph);
    match U.PyFind(lists(gv, av, e), c.graph)
    case Some(index) => (Some([gv, av, e, index]), c.sign)
    case None => (None, 1)
  }

  /** `FormalityGraphComplexBasis.key_to_graph`: the graph at the key's position, with sign +1. */
  function ComplexKeyToGraph(lists: (int, int, int) -> seq<Graph>, key: seq<int>): (Option<Graph>, int)
    requires |key| == 4
  {
    (U.PyIndex(lists(key[0], key[1], key[2]), key[3]), 1)
  }

  /**
   * The key of a graph leads back to its canonical form with sign +1, and a
   * graph has no key exactly when its canonical form is missing from the list.
   */
  lemma ComplexRoundTrip(lists: (int, int, int) -> seq<Graph>, c: Canonical)
    ensures ComplexGraphToKey(lists, c).0.None? <==> c.graph !in lists(c.graph.groundVertices, c.graph.aerialVertices, |c.graph.edges|)
    ensures ComplexGraphToKey(lists, c).0.None? ==> ComplexGraphToKey(lists, c).1 == 1
    ensures ComplexGraphToKey(lists, c).0.Some? ==>
              ComplexGraphToKey(lists, c).1 == c.sign
              && ComplexKeyToGraph(lists, ComplexGraphToKey(lists, c).0.value) == (Some(c.graph), 1)
  {
  }

  /**
   * The other direction: the graph at a valid key is a canonical form whose key
   * is that key again; an index past the end has no graph.
   */
  lemma ComplexKeyRoundTrip(lists: (int, int, int) -> seq<Graph>, gv: int, av: int, e: int, index: int, sign: int, undo: seq<int>)
    requires ListsWellFormed(lists)
    ensures 0 <= index < |lists(gv, av, e)| ==>
              ComplexKeyToGraph(lists, [gv, av, e, index]).0 == Some(lists(gv, av, e)[index])
              && ComplexGraphToKey(lists, Canonical(lists(gv, av, e)[index], undo, sign)) == (Some([gv, av, e, index]), sign)
    ensures index >= |lists(gv, av, e)| ==> ComplexKeyToGraph(lists, [gv, av, e, index]) == (None, 1)
  {
    if 0 <= index < |lists(gv, av, e)| {
      var g := lists(gv, av, e)[index];
      assert TriGrading(g) == (gv, av, e);
      assert g in lists(gv, av, e);
    }
  }

  class FormalityGraphComplexBasis {
    const positiveDifferentialOrder: Option<bool>
    const connected: Option<bool>
    const loops: Option<bool>
    /** `formality_graph_cache.canonicalize_graph`. */
    const canonicalize: Graph -> Canonical
    /** The formality graph cache's `graphs` for this basis's options. */
    const lists: (int, int, int) -> seq<Graph>
    /** `_graphs`, keyed by `(gv, av, e)`. */
    const graphs: KeyDefaultDict<(int, int, int), seq<Graph>>

    ghost predicate Valid()
      reads graphs
    {
      FilledFrom3(graphs, lists)
    }

    constructor (positiveDifferentialOrder: Option<bool>, connected: Option<bool>, loops: Option<bool>,
                 canonicalize: Graph -> Canonical, formality: (int, int, int, FormalityOptions) -> seq<Graph>)
      ensures this.positiveDifferentialOrder == positiveDifferentialOrder && this.connected == connected && this.loops == loops
      ensures this.canonicalize == canonicalize
      ensures forall gv, av, e :: lists(gv, av, e) == formality(gv, av, e, ComplexOptions(positiveDifferentialOrder, connected, loops))
      ensures fresh(graphs) && Valid()
    {
      this.positiveDifferentialOrder := positiveDifferentialOrder;
      this.connected := connected;
      this.loops := loops;
      this.canonicalize := canonicalize;
      var f := (gv: int, av: int, e: int) => formality(gv, av, e, ComplexOptions(positiveDifferentialOrder, connected, loops));
      lists := f;
      graphs := new KeyDefaultDict(Some((k: (int, int, int)) => f(k.0, k.1, k.2)));
    }

    method GraphToKey(graph: Graph) returns (key: Option<seq<int>>, sign: int)
      requires Valid()
      modifies graphs
      ensures Valid()
      ensures (key, sign) == ComplexGraphToKey(lists, canonicalize(graph))
    {
      var c := canonicalize(graph);
      var (gv, av, e) := TriGrading(c.graph);
      var gs := Lookup3(graphs, lists, gv, av, e);
      var index := U.PyFind(gs, c.graph);
      if index.None? {
        return None, 1;
      }
      return Some([gv, av, e, index.value]), c.sign;
    }

    method KeyToGraph(key: seq<int>) returns (g: Option<Graph>, sign: int)
      requires Valid() && |key| == 4
      modifies graphs
      ensures Valid()
      ensures (g, sign) == ComplexKeyToGraph(lists, key)
    {
      var gs := Lookup3(graphs, lists, key[0], key[1], key[2]);
      return U.PyIndex(gs, key[3]), 1;
    }

    /** `graphs(num_ground_vertices, num_aerial_vertices, num_edges)`. */
    method Graphs(gv: int, av: int, e: int) returns (r: seq<Graph>)
      requires Valid()
      modifies graphs
      ensures Valid()
      ensures r == lists(gv, av, e)
    {
      r := Lookup3(graphs, lists, gv, av, e);
    }

    /** `cardinality(...)`: the number of keys of that grading. */
    method Cardinality(gv: int, av: int, e: int) returns (n: nat)
      requires Valid()
      modifies graphs
      ensures Valid()
      ensures n == |lists(gv, av, e)|
      ensures forall index :: 0 <= index < n <==> ComplexKeyToGraph(lists, [gv, av, e, index]).0.Some? && index >= 0
    {
      var gs := Lookup3(graphs, lists, gv, av, e);
      n := |gs|;
    }
  }

  // ---------------------------------------------------------------------------
  // The lazy complex basis
  // ---------------------------------------------------------------------------

  /** The lazy key `(gv, av, e) + tuple(edges)`. */
  datatype LazyKey = LazyKey(groundVertices: int, aerialVertices: int, numEdges: int, edges: seq<Edge>)

  /**
   * `FormalityGraphComplexBasis_lazy.graph_to_key`: no key for a graph with an
   * odd automorphism; otherwise the grading and the edges of the canonical form,
   * with the canonicaliser's sign. No list is consulted.
   */
  function LazyGraphToKey(hasOddAutomorphism: Graph -> bool, canonicalize: Graph -> Canonical, graph: Graph): (Option<LazyKey>, int)
  {
    if hasOddAutomorphism(graph) then (None, 1)
    else
      var c := canonicalize(graph);
      (Some(LazyKey(c.graph.groundVertices, c.graph.aerialVertices, |c.graph.edges|, c.graph.edges)), c.sign)
  }

  /**
   * `FormalityGraphComplexBasis_lazy.key_to_graph`: the graph with the key's
   * vertex counts and edges, sign +1, unless it has an odd automorphism. The
   * edge count in the key is not read.
   */
  function LazyKeyToGraph(hasOddAutomorphism: Graph -> bool, key: LazyKey): (Option<Graph>, int)
  {
    var g := Graph(key.groundVertices, key.aerialVertices, key.edges);
    if hasOddAutomorphism(g) then (None, 1) else (Some(g), 1)
  }

  /**
   * For a canonicaliser that keeps the presence of an odd automorphism (an
   * isomorphism invariant): a graph has no lazy key exactly when it has an odd
   * automorphism, and otherwise its key leads back to its canonical form.
   */
  lemma LazyRoundTrip(hasOddAutomorphism: Graph -> bool, canonicalize: Graph -> Canonical, graph: Graph)
    requires hasOddAutomorphism(canonicalize(graph).graph) == hasOddAutomorphism(graph)
    ensures LazyGraphToKey(hasOddAutomorphism, canonicalize, graph).0.None? <==> hasOddAutomorphism(graph)
    ensures LazyGraphToKey(hasOddAutomorphism, canonicalize, graph).0.None? ==> LazyGraphToKey(hasOddAutomorphism, canonicalize, graph).1 == 1
    ensures LazyGraphToKey(hasOddAutomorphism, canonicalize, graph).0.Some? ==>
              LazyGraphToKey(hasOddAutomorphism, canonicalize, graph).1 == canonicalize(graph).sign
              && LazyKeyToGraph(hasOddAutomorphism, LazyGraphToKey(hasOddAutomorphism, canonicalize, graph).0.value)
                 == (Some(canonicalize(graph).graph), 1)
  {
  }

  /**
   * A key whose edge count matches its edges and whose graph is canonical with
   * no odd automorphism is the key of the graph it names; the edge count of a
   * key never changes the graph it names.
   */
  lemma LazyKeyRoundTrip(hasOddAutomorphism: Graph -> bool, canonicalize: Graph -> Canonical, key: LazyKey, n: int)
    requires key.numEdges == |key.edges|
    requires !hasOddAutomorphism(Graph(key.groundVertices, key.aerialVertices, key.edges))
    requires canonicalize(Graph(key.groundVertices, key.aerialVertices, key.edges)).graph == Graph(key.groundVertices, key.aerialVertices, key.edges)
    ensures LazyKeyToGraph(hasOddAutomorphism, key) == (Some(Graph(key.groundVertices, key.aerialVertices, key.edges)), 1)
    ensures LazyGraphToKey(hasOddAutomorphism, canonicalize, LazyKeyToGraph(hasOddAutomorphism, key).0.value).0 == Some(key)
    ensures LazyKeyToGraph(hasOddAutomorphism, key.(numEdges := n)) == LazyKeyToGraph(hasOddAutomorphism, key)
  {
  }

  // ---------------------------------------------------------------------------
  // The operad basis
  // ---------------------------------------------------------------------------

  /**
   * `FormalityGraphOperadBasis.graph_to_key`: the complex key of the canonical
   * form followed by the permutation that undoes the canonical labelling.
   */
  function OperadGraphToKey(lists: (int, int, int) -> seq<Graph>, c: Canonical): (Option<seq<int>>, int)
  {
    var (gv, av, e) := TriGrading(c.graph);
    match U.PyFind(lists(gv, av, e), c.graph)
    case Some(index) => (Some([gv, av, e, index] + c.undo), c.sign)
    case None => (None, 1)
  }

  /** The graph `key_to_graph` relabels: the listed graph at `key[3]`, before its edges are sorted. */
  function OperadListed(lists: (int, int, int) -> seq<Graph>, key: seq<int>): Option<Graph>
    requires |key| >= 4
  {
    U.PyIndex(lists(key[0], key[1], key[2]), key[3])
  }

  /**
   * The operad key of a graph splits back into its canonical form and the
   * permutation undoing the labelling; the first four entries are the complex key.
   */
  lemma OperadRoundTrip(lists: (int, int, int) -> seq<Graph>, c: Canonical)
    ensures OperadGraphToKey(lists, c).0.None? <==> ComplexGraphToKey(lists, c).0.None?
    ensures OperadGraphToKey(lists, c).1 == ComplexGraphToKey(lists, c).1
    ensures OperadGraphToKey(lists, c).0.Some? ==>
              var key := OperadGraphToKey(lists, c).0.value;
              |key| >= 4 && key[..4] == ComplexGraphToKey(lists, c).0.value && key[4..] == c.undo
              && OperadListed(lists, key) == Some(c.graph)
  {
    if OperadGraphToKey(lists, c).0.Some? {
      var key := OperadGraphToKey(lists, c).0.value;
      assert key[..4] == ComplexGraphToKey(lists, c).0.value;
      assert key[4..] == c.undo;
    }
  }

  /**
   * A formality graph whose edge list is rewritten in place. `canonicalize_edges`
   * (gcaops/graph/formality_graph.py, which is not part of this model) sorts the
   * directed edges lexicographically and reports the sign of the reordering.
   */
  class FormalityGraph {
    const groundVertices: int
    const aerialVertices: int
    const edges: array<Edge>

    constructor Wrap(groundVertices: int, aerialVertices: int, edges: array<Edge>)
      ensures this.groundVertices == groundVertices && this.aerialVertices == aerialVertices && this.edges == edges
    {
      this.groundVertices := groundVertices;
      this.aerialVertices := aerialVertices;
      this.edges := edges;
    }

    method CanonicalizeEdges() returns (sign: int)
      modifies edges
      ensures Sorted(edges[..], EdgeLess)
      ensures multiset(edges[..]) == multiset(old(edges[..]))
      ensures sign == 1 || sign == -1
      ensures Distinct(old(edges[..])) ==> sign == SortSign(old(edges[..]), EdgeLess)
      ensures Sorted(old(edges[..]), EdgeLess) ==> sign == 1 && edges[..] == old(edges[..])
    {
      EdgeLessIsStrictTotalOrder();
      sign := SelectionSort(edges, EdgeLess);
    }
  }

  class FormalityGraphOperadBasis {
    const positiveDifferentialOrder: Option<bool>
    const connected: Option<bool>
    const loops: Option<bool>
    const canonicalize: Graph -> Canonical
    /** `FormalityGraph.relabeled`, which is not part of this model. */
    const relabeled: (Graph, seq<int>) -> Graph
    const lists: (int, int, int) -> seq<Graph>
    const graphs: KeyDefaultDict<(int, int, int), seq<Graph>>

    ghost predicate Valid()
      reads graphs
    {
      FilledFrom3(graphs, lists)
    }

    constructor (positiveDifferentialOrder: Option<bool>, connected: Option<bool>, loops: Option<bool>,
                 canonicalize: Graph -> Canonical, relabeled: (Graph, seq<int>) -> Graph,
                 formality: (int, int, int, FormalityOptions) -> seq<Graph>)
      ensures this.positiveDifferentialOrder == positiveDifferentialOrder && this.connected == connected && this.loops == loops
      ensures this.canonicalize == canonicalize && this.relabeled == relabeled
      ensures forall gv, av, e :: lists(gv, av, e) == formality(gv, av, e, ComplexOptions(positiveDifferentialOrder, connected, loops))
      ensures fresh(graphs) && Valid()
    {
      this.positiveDifferentialOrder := positiveDifferentialOrder;
      this.connected := connected;
      this.loops := loops;
      this.canonicalize := canonicalize;
      this.relabeled := relabeled;
      var f := (gv: int, av: int, e: int) => formality(gv, av, e, ComplexOptions(positiveDifferentialOrder, connected, loops));
      lists := f;
      graphs := new KeyDefaultDict(Some((k: (int, int, int)) => f(k.0, k.1, k.2)));
    }

    method GraphToKey(graph: Graph) returns (key: Option<seq<int>>, sign: int)
      requires Valid()
      modifies graphs
      ensures Valid()
      ensures (key, sign) == OperadGraphToKey(lists, canonicalize(graph))
    {
      var c := canonicalize(graph);
      var (gv, av, e) := TriGrading(c.graph);
      var gs := Lookup3(graphs, lists, gv, av, e);
      var index := U.PyFind(gs, c.graph);
      if index.None? {
        return None, 1;
      }
      return Some([gv, av, e, index.value] + c.undo), c.sign;
    }

    /**
     * `key_to_graph`: the listed graph relabelled by `key[4:]`, then its edges
     * sorted in place; the sign is that of the sorting.
     */
    method KeyToGraph(key: seq<int>) returns (g: Option<FormalityGraph>, sign: int)
      requires Valid() && |key| >= 4
      modifies graphs
      ensures Valid()
      ensures OperadListed(lists, key).None? <==> g.None?
      ensures g.None? ==> sign == 1
      ensures g.Some? ==>
        var h := relabeled(OperadListed(lists, key).value, key[4..]);
        fresh(g.value) && fresh(g.value.edges)
        && g.value.groundVertices == h.groundVertices && g.value.aerialVertices == h.aerialVertices
        && Sorted(g.value.edges[..], EdgeLess) && multiset(g.value.edges[..]) == multiset(h.edges)
        && (sign == 1 || sign == -1)
        && (Distinct(h.edges) ==> sign == SortSign(h.edges, EdgeLess))
    {
      var gs := Lookup3(graphs, lists, key[0], key[1], key[2]);
      var listed := U.PyIndex(gs, key[3]);
      if listed.None? {
        return None, 1;
      }
      var h := relabeled(listed.value, key[4..]);
      var edges := new Edge[|h.edges|](i requires 0 <= i < |h.edges| => h.edges[i]);
      assert edges[..] == h.edges;
      var graph := new FormalityGraph.Wrap(h.groundVertices, h.aerialVertices, edges);
      sign := graph.CanonicalizeEdges();
      g := Some(graph);
    }
  }

  // ---------------------------------------------------------------------------
  // Quantization bases: Kontsevich and Leibniz graphs
  // ---------------------------------------------------------------------------

  /** The keyword arguments `kontsevich_graphs` and `leibniz_graphs` pass on to the cache. */
  datatype QuantizationOptions = QuantizationOptions(
    positiveDifferentialOrder: Option<bool>, connected: Option<bool>, loops: Option<bool>,
    modGroundPermutations: bool, maxAerialInDegree: Option<int>, hasOddAutomorphism: Option<bool>)

  /** `[x] * n`: the empty list when n <= 0. */
  function Repeat(x: int, n: int): (r: seq<int>)
    ensures |r| == if n <= 0 then 0 else n
    ensures forall k :: 0 <= k < |r| ==> r[k] == x
  {
    if n <= 0 then [] else seq(n, k => x)
  }

  /** The cache query of `kontsevich_graphs((gv, av), ...)`: `2·av` edges, all av aerial vertices of out-degree 2. */
  function KontsevichQuery(gv: int, av: int, o: QuantizationOptions): (int, int, int, FormalityOptions)
  {
    (gv, av, 2 * av,
     FormalityOptions(o.connected, Some(2), Some(av), None, o.maxAerialInDegree, o.loops, None,
                      o.hasOddAutomorphism, o.positiveDifferentialOrder, o.modGroundPermutations))
  }

  /** `sorted_out_degrees` of `leibniz_graphs`: sinks on the ground, wedges in the air, one tripod. */
  function LeibnizOutDegrees(gv: int, av: int): seq<int>
  {
    Repeat(0, gv) + Repeat(2, av - 1) + [3]
  }

  /** The cache query of `leibniz_graphs((gv, av), ...)`: `2(av-1)+3` edges, one vertex of out-degree 3. */
  function LeibnizQuery(gv: int, av: int, o: QuantizationOptions): (int, int, int, FormalityOptions)
  {
    (gv, av, 2 * (av - 1) + 3,
     FormalityOptions(o.connected, Some(3), Some(1), Some(LeibnizOutDegrees(gv, av)), o.maxAerialInDegree, o.loops, None,
                      o.hasOddAutomorphism, o.positiveDifferentialOrder, o.modGroundPermutations))
  }

  /** `kontsevich_graphs`: the formality graphs of its query. */
  function KontsevichGraphs(formality: (int, int, int, FormalityOptions) -> seq<Graph>, gv: int, av: int, o: QuantizationOptions): seq<Graph>
  {
    var q := KontsevichQuery(gv, av, o);
    formality(q.0, q.1, q.2, q.3)
  }

  /** `leibniz_graphs`: the formality graphs of its query. */
  function LeibnizGraphs(formality: (int, int, int, FormalityOptions) -> seq<Graph>, gv: int, av: int, o: QuantizationOptions): seq<Graph>
  {
    var q := LeibnizQuery(gv, av, o);
    formality(q.0, q.1, q.2, q.3)
  }

  lemma {:induction false} SumConcat(a: seq<int>, b: seq<int>)
    ensures Sum(a + b) == Sum(a) + Sum(b)
  {
    if |a| != 0 {
      assert (a + b)[0] == a[0] && (a + b)[1..] == a[1..] + b;
      SumConcat(a[1..], b);
    } else {
      assert a + b == b;
    }
  }

  lemma {:induction false} SumRepeat(x: int, n: nat)
    ensures Sum(Repeat(x, n)) == x * n
  {
    if n != 0 {
      assert Sum(Repeat(x, n)) == x + Sum(Repeat(x, n - 1)) by {
        var r := Repeat(x, n);
        assert r[0] == x && r[1..] == Repeat(x, n - 1);
      }
      SumRepeat(x, n - 1);
      MulSucc(x, n - 1);
    }
  }

  lemma MulSucc(x: int, m: nat)
    ensures x * (m + 1) == x + x * m
  {
  }

  /**
   * The Kontsevich query is consistent: ground sinks and av aerial wedges have
   * out-degrees summing to the edge count, and exactly the av aerial vertices
   * reach the maximal out-degree.
   */
  lemma KontsevichDegrees(gv: nat, av: nat, o: QuantizationOptions)
    ensures var q := KontsevichQuery(gv, av, o);
            var degrees := Repeat(0, gv) + Repeat(2, av);
            && Sum(degrees) == q.2
            && multiset(degrees)[q.3.maxOutDegree.value] == q.3.numVertsOfMaxOutDegree.value
            && forall k :: 0 <= k < |degrees| ==> degrees[k] <= q.3.maxOutDegree.value
  {
    var degrees := Repeat(0, gv) + Repeat(2, av);
    SumConcat(Repeat(0, gv), Repeat(2, av));
    SumRepeat(0, gv);
    SumRepeat(2, av);
    assert multiset(Repeat(0, gv))[2] == 0;
    assert multiset(Repeat(2, av))[2] == av by {
      MultisetRepeat(2, av);
    }
  }

  lemma {:induction false} MultisetRepeat(x: int, n: nat)
    ensures multiset(Repeat(x, n))[x] == n
    ensures forall y :: y != x ==> multiset(Repeat(x, n))[y] == 0
  {
    if n != 0 {
      assert Repeat(x, n) == Repeat(x, n - 1) + [x];
      MultisetRepeat(x, n - 1);
    }
  }

  /**
   * The Leibniz query is consistent for av >= 1: the sorted out-degrees list
   * one degree per vertex, is sorted, sums to the edge count, ends with the
   * maximal out-degree and holds it exactly once.
   */
  lemma LeibnizDegrees(gv: nat, av: nat, o: QuantizationOptions)
    requires av >= 1
    ensures var q := LeibnizQuery(gv, av, o);
            var sod := q.3.sortedOutDegrees.value;
            && |sod| == gv + av
            && Sorted(sod, IntLess)
            && Sum(sod) == q.2
            && sod[|sod| - 1] == q.3.maxOutDegree.value
            && multiset(sod)[q.3.maxOutDegree.value] == q.3.numVertsOfMaxOutDegree.value
  {
    var sod := LeibnizOutDegrees(gv, av);
    assert Sum(sod) == 2 * (av - 1) + 3 by {
      SumConcat(Repeat(0, gv) + Repeat(2, av - 1), [3]);
      SumConcat(Repeat(0, gv), Repeat(2, av - 1));
      SumRepeat(0, gv);
      SumRepeat(2, av - 1);
    }
    assert multiset(sod)[3] == 1 by {
      MultisetRepeat(0, gv);
      MultisetRepeat(2, av - 1);
      assert multiset(sod) == multiset(Repeat(0, gv)) + multiset(Repeat(2, av - 1)) + multiset{3};
    }
    LeibnizSorted(gv, av);
  }

  lemma LeibnizSorted(gv: nat, av: nat)
    requires av >= 1
    ensures Sorted(LeibnizOutDegrees(gv, av), IntLess)
  {
    var sod := LeibnizOutDegrees(gv, av);
    forall p | 0 <= p < |sod| ensures sod[p] == if p < gv then 0 else if p < gv + av - 1 then 2 else 3 {
    }
  }

  /**
   * Each bi-grading of a quantization basis has its own cache entry, and the
   * Kontsevich and Leibniz bases never share one: their cache keys differ
   * whenever the gradings or the kind of basis differ.
   */
  lemma QuantizationKeysDistinct(gv1: int, av1: int, gv2: int, av2: int, o1: QuantizationOptions, o2: QuantizationOptions)
    ensures (gv1, av1) != (gv2, av2) ==>
              FormalityKey(KontsevichQuery(gv1, av1, o1).0, KontsevichQuery(gv1, av1, o1).1, KontsevichQuery(gv1, av1, o1).2, KontsevichQuery(gv1, av1, o1).3)
              != FormalityKey(KontsevichQuery(gv2, av2, o2).0, KontsevichQuery(gv2, av2, o2).1, KontsevichQuery(gv2, av2, o2).2, KontsevichQuery(gv2, av2, o2).3)
    ensures (gv1, av1) != (gv2, av2) ==>
              FormalityKey(LeibnizQuery(gv1, av1, o1).0, LeibnizQuery(gv1, av1, o1).1, LeibnizQuery(gv1, av1, o1).2, LeibnizQuery(gv1, av1, o1).3)
              != FormalityKey(LeibnizQuery(gv2, av2, o2).0, LeibnizQuery(gv2, av2, o2).1, LeibnizQuery(gv2, av2, o2).2, LeibnizQuery(gv2, av2, o2).3)
    ensures FormalityKey(KontsevichQuery(gv1, av1, o1).0, KontsevichQuery(gv1, av1, o1).1, KontsevichQuery(gv1, av1, o1).2, KontsevichQuery(gv1, av1, o1).3)
            != FormalityKey(LeibnizQuery(gv2, av2, o2).0, LeibnizQuery(gv2, av2, o2).1, LeibnizQuery(gv2, av2, o2).2, LeibnizQuery(gv2, av2, o2).3)
  {
    var k1 := KontsevichQuery(gv1, av1, o1);
    var k2 := KontsevichQuery(gv2, av2, o2);
    var l1 := LeibnizQuery(gv1, av1, o1);
    var l2 := LeibnizQuery(gv2, av2, o2);
    FormalityKeyRoundTrip(k1.0, k1.1, k1.2, k1.3);
    FormalityKeyRoundTrip(k2.0, k2.1, k2.2, k2.3);
    FormalityKeyRoundTrip(l1.0, l1.1, l1.2, l1.3);
    FormalityKeyRoundTrip(l2.0, l2.1, l2.2, l2.3);
  }

  /**
   * A quantization basis (`KontsevichGraphBasis` or `LeibnizGraphBasis`): keys
   * `(gv, av, index)` into the list of the bi-grading `(gv, av)`.
   */
  function QuantizationGraphToKey(lists: (int, int) -> seq<Graph>, c: Canonical): (Option<seq<int>>, int)
  {
    var gv, av := c.graph.groundVertices, c.graph.aerialVertices;
    match U.PyFind(lists(gv, av), c.graph)
    case Some(index) => (Some([gv, av, index]), c.sign)
    case None => (None, 1)
  }

  /** `QuantizationGraphBasis.key_to_graph`: the graph at the key's position, with sign +1. */
  function QuantizationKeyToGraph(lists: (int, int) -> seq<Graph>, key: seq<int>): (Option<Graph>, int)
    requires |key| == 3
  {
    (U.PyIndex(lists(key[0], key[1]), key[2]), 1)
  }

  /** The quantization key of a graph leads back to its canonical form, and exists exactly when that form is listed. */
  lemma QuantizationRoundTrip(lists: (int, int) -> seq<Graph>, c: Canonical)
    ensures QuantizationGraphToKey(lists, c).0.None? <==> c.graph !in lists(c.graph.groundVertices, c.graph.aerialVertices)
    ensures QuantizationGraphToKey(lists, c).0.None? ==> QuantizationGraphToKey(lists, c).1 == 1
    ensures QuantizationGraphToKey(lists, c).0.Some? ==>
              QuantizationGraphToKey(lists, c).1 == c.sign
              && QuantizationKeyToGraph(lists, QuantizationGraphToKey(lists, c).0.value) == (Some(c.graph), 1)
  {
  }

  /** Every quantization list has no repeats and holds only graphs of its own bi-grading. */
  ghost predicate BiListsWellFormed(lists: (int, int) -> seq<Graph>)
  {
    forall gv, av :: Distinct(lists(gv, av))
      && forall k :: 0 <= k < |lists(gv, av)| ==>
           lists(gv, av)[k].groundVertices == gv && lists(gv, av)[k].aerialVertices == av
  }

  /**
   * The other direction: the graph at a valid quantization key is a canonical
   * form whose key is that key again; an index past the end has no graph.
   */
  lemma QuantizationKeyRoundTrip(lists: (int, int) -> seq<Graph>, gv: int, av: int, index: int, sign: int, undo: seq<int>)
    requires BiListsWellFormed(lists)
    ensures 0 <= index < |lists(gv, av)| ==>
              QuantizationKeyToGraph(lists, [gv, av, index]).0 == Some(lists(gv, av)[index])
              && QuantizationGraphToKey(lists, Canonical(lists(gv, av)[index], undo, sign)) == (Some([gv, av, index]), sign)
    ensures index >= |lists(gv, av)| ==> QuantizationKeyToGraph(lists, [gv, av, index]) == (None, 1)
  {
    if 0 <= index < |lists(gv, av)| {
      var g := lists(gv, av)[index];
      assert g.groundVertices == gv && g.aerialVertices == av;
      assert g in lists(gv, av);
    }
  }

  class QuantizationGraphBasis {
    const options: QuantizationOptions
    const canonicalize: Graph -> Canonical
    /** `kontsevich_graphs` or `leibniz_graphs` with this basis's options. */
    const lists: (int, int) -> seq<Graph>
    /** `_graphs`, keyed by `(gv, av)`. */
    const graphs: KeyDefaultDict<(int, int), seq<Graph>>

    ghost predicate Valid()
      reads graphs
    {
      U.FilledFrom(graphs, lists)
    }

    /** `KontsevichGraphBasis.__init__`: Kontsevich graphs with no odd automorphism. */
    constructor Kontsevich(positiveDifferentialOrder: Option<bool>, connected: Option<bool>, loops: Option<bool>,
                           modGroundPermutations: bool, maxAerialInDegree: Option<int>,
                           canonicalize: Graph -> Canonical, formality: (int, int, int, FormalityOptions) -> seq<Graph>)
      ensures options == QuantizationOptions(positiveDifferentialOrder, connected, loops, modGroundPermutations, maxAerialInDegree, Some(false))
      ensures this.canonicalize == canonicalize
      ensures forall gv, av :: lists(gv, av) == KontsevichGraphs(formality, gv, av, options)
      ensures fresh(graphs) && Valid()
    {
      var o := QuantizationOptions(positiveDifferentialOrder, connected, loops, modGroundPermutations, maxAerialInDegree, Some(false));
      options := o;
      this.canonicalize := canonicalize;
      var f := (gv: int, av: int) => KontsevichGraphs(formality, gv, av, o);
      lists := f;
      graphs := new KeyDefaultDict(Some((k: (int, int)) => f(k.0, k.1)));
    }

    /** `LeibnizGraphBasis.__init__`: Leibniz graphs with no odd automorphism. */
    constructor Leibniz(positiveDifferentialOrder: Option<bool>, connected: Option<bool>, loops: Option<bool>,
                        modGroundPermutations: bool, maxAerialInDegree: Option<int>,
                        canonicalize: Graph -> Canonical, formality: (int, int, int, FormalityOptions) -> seq<Graph>)
      ensures options == QuantizationOptions(positiveDifferentialOrder, connected, loops, modGroundPermutations, maxAerialInDegree, Some(false))
      ensures this.canonicalize == canonicalize
      ensures forall gv, av :: lists(gv, av) == LeibnizGraphs(formality, gv, av, options)
      ensures fresh(graphs) && Valid()
    {
      var o := QuantizationOptions(positiveDifferentialOrder, connected, loops, modGroundPermutations, maxAerialInDegree, Some(false));
      options := o;
      this.canonicalize := canonicalize;
      var f := (gv: int, av: int) => LeibnizGraphs(formality, gv, av, o);
      lists := f;
      graphs := new KeyDefaultDict(Some((k: (int, int)) => f(k.0, k.1)));
    }

    method GraphToKey(graph: Graph) returns (key: Option<seq<int>>, sign: int)
      requires Valid()
      modifies graphs
      ensures Valid()
      ensures (key, sign) == QuantizationGraphToKey(lists, canonicalize(graph))
    {
      var c := canonicalize(graph);
      var gv, av := c.graph.groundVertices, c.graph.aerialVertices;
      var gs := U.Lookup(graphs, lists, gv, av);
      var index := U.PyFind(gs, c.graph);
      if index.None? {
        return None, 1;
      }
      return Some([gv, av, index.value]), c.sign;
    }

    method KeyToGraph(key: seq<int>) returns (g: Option<Graph>, sign: int)
      requires Valid() && |key| == 3
      modifies graphs
      ensures Valid()
      ensures (g, sign) == QuantizationKeyToGraph(lists, key)
    {
      var gs := U.Lookup(graphs, lists, key[0], key[1]);
      return U.PyIndex(gs, key[2]), 1;
    }

    /** `graphs(num_ground_vertices, num_aerial_vertices)`. */
    method Graphs(gv: int, av: int) returns (r: seq<Graph>)
      requires Valid()
      modifies graphs
      ensures Valid()
      ensures r == lists(gv, av)
    {
      r := U.Lookup(graphs, lists, gv, av);
    }

    /** `cardinality(num_ground_vertices, num_aerial_vertices)`: the number of keys of that bi-grading. */
    method Cardinality(gv: int, av: int) returns (n: nat)
      requires Valid()
      modifies graphs
      ensures Valid()
      ensures n == |lists(gv, av)|
      ensures forall index :: 0 <= index < n <==> QuantizationKeyToGraph(lists, [gv, av, index]).0.Some? && index >= 0
    {
      var gs := U.Lookup(graphs, lists, gv, av);
      n := |gs|;
    }
  }

  // ---------------------------------------------------------------------------
  // Signs of the weight relations
  // ---------------------------------------------------------------------------

  /** `flip_sign` of `flipping_weight_relations`: -1 for an odd number of aerial vertices. */
  function FlipSign(av: int): int
  {
    if av % 2 == 1 then -1 else 1
  }

  /** (-1)^n. */
  function MinusOnePower(n: nat): int
  {
    if n == 0 then 1 else -MinusOnePower(n - 1)
  }

  /**
   * The flip reverses the orientation of each of the av aerial factors of the
   * configuration space, so its sign is (-1)^av: -1 exactly when av is odd.
   */
  lemma {:induction false} FlipSignIsPower(av: nat)
    ensures FlipSign(av) == MinusOnePower(av)
    ensures FlipSign(av) == -1 <==> av % 2 == 1
  {
    if av != 0 {
      FlipSignIsPower(av - 1);
    }
  }

  /**
   * `cyclic` of `cyclic_weight_relations`: the ground vertices rotated by one
   * (vertex 0 goes to gv-1, vertex k to k-1), the aerial vertices fixed.
   */
  function Cyclic(gv: int, av: int): seq<int>
  {
    [gv - 1] + Range(0, gv - 1) + Range(gv, gv + av)
  }

  /** With at least one ground vertex the cyclic list is a permutation of range(gv + av). */
  lemma CyclicPermutation(gv: int, av: int)
    requires gv >= 1 && av >= 0
    ensures IsPermutation(Cyclic(gv, av), gv + av)
    ensures Cyclic(gv, av)[0] == gv - 1
    ensures forall k :: 1 <= k < gv ==> Cyclic(gv, av)[k] == k - 1
    ensures forall k :: gv <= k < gv + av ==> Cyclic(gv, av)[k] == k
  {
    var c := Cyclic(gv, av);
    assert |c| == gv + av;
    forall k | 1 <= k < gv ensures c[k] == k - 1 {
      assert c[k] == Range(0, gv - 1)[k - 1];
    }
    forall k | gv <= k < gv + av ensures c[k] == k {
      assert c[k] == Range(gv, gv + av)[k - gv];
    }
  }

  lemma {:induction false} CountLessAll(t: seq<int>, u: int)
    requires forall k :: 0 <= k < |t| ==> t[k] < u
    ensures CountLess(t, u, IntLess) == |t|
  {
    if |t| != 0 {
      CountLessAll(t[1..], u);
    }
  }

  /**
   * The factor `-1 if gv % 2 == 0 else 1` put on the relabelled graph is the
   * sign of the cyclic permutation, a gv-cycle with gv - 1 inversions.
   */
  lemma CyclicSign(gv: int, av: int)
    requires gv >= 1 && av >= 0
    ensures SortSign(Cyclic(gv, av), IntLess) == if gv % 2 == 0 then -1 else 1
  {
    CyclicInversions(gv, av);
  }

  /** Only the first entry, gv - 1, is out of order: it stands above the gv - 1 entries below it. */
  lemma CyclicInversions(gv: int, av: int)
    requires gv >= 1 && av >= 0
    ensures Inv(Cyclic(gv, av), IntLess) == gv - 1
  {
    var low, high := Range(0, gv - 1), Range(gv, gv + av);
    var t := low + high;
    assert Cyclic(gv, av) == [gv - 1] + t;
    InvCons(gv - 1, t, IntLess);
    CountLessConcat(low, high, gv - 1, IntLess);
    CountLessAll(low, gv - 1);
    CountLessNone(high, gv - 1, IntLess);
    RangesSorted(gv, av);
    SortedNoInversions(t, IntLess);
  }

  /** The vertices other than gv - 1, in increasing order. */
  lemma RangesSorted(gv: int, av: int)
    requires gv >= 1 && av >= 0
    ensures Sorted(Range(0, gv - 1) + Range(gv, gv + av), IntLess)
  {
    var t := Range(0, gv - 1) + Range(gv, gv + av);
    forall p | 0 <= p < |t| ensures t[p] == if p < gv - 1 then p else p + 1 {
    }
  }

  // ---------------------------------------------------------------------------
  // redirect_subsets_of_edges
  // ---------------------------------------------------------------------------

  /** `good_indices` from position `from` on: the edges that do not already end at `target`. */
  function GoodIndices(edges: seq<Edge>, target: int, from: nat): (r: seq<int>)
    requires from <= |edges|
    ensures StrictlyIncreasing(r)
    ensures forall x :: x in r <==> from <= x < |edges| && edges[x].last != target
    decreases |edges| - from
  {
    if from == |edges| then []
    else
      var rest := GoodIndices(edges, target, from + 1);
      if edges[from].last != target then
        assert forall j :: 0 <= j < |rest| ==> rest[j] in rest;
        [from] + rest
      else rest
  }

  /** The list `new_edges` ends as for a choice of positions: the edges chosen now end at `target`. */
  function Redirected(edges: seq<Edge>, indices: seq<int>, target: int): (r: seq<Edge>)
    ensures |r| == |edges|
  {
    seq(|edges|, k requires 0 <= k < |edges| => if k in indices then Edge(edges[k].first, target) else edges[k])
  }

  /** `new_edges = list(edges)`, then the target of each chosen edge overwritten in turn. */
  method RedirectCopy(edges: seq<Edge>, indices: seq<int>, target: int) returns (newEdges: seq<Edge>)
    requires forall x :: x in indices ==> 0 <= x < |edges|
    ensures newEdges == Redirected(edges, indices, target)
  {
    var a := new Edge[|edges|](k requires 0 <= k < |edges| => edges[k]);
    var i := 0;
    while i < |indices|
      invariant 0 <= i <= |indices|
      invariant a[..] == Redirected(edges, indices[..i], target)
    {
      var idx := indices[i];
      assert idx in indices;
      assert indices[..i + 1] == indices[..i] + [idx];
      a[idx] := Edge(a[idx].first, target);
      i := i + 1;
    }
    assert indices[..i] == indices;
    newEdges := a[..];
  }

  /** The subsets `combinations(good, n)` for n = 0 .. m-1, in the order they are taken. */
  function SubsetsBelow(good: seq<int>, m: nat): seq<seq<int>>
  {
    if m == 0 then [] else SubsetsBelow(good, m - 1) + Combinations(good, m - 1)
  }

  function RedirectAll(edges: seq<Edge>, subsets: seq<seq<int>>, target: int): (r: seq<seq<Edge>>)
    ensures |r| == |subsets|
    ensures forall i :: 0 <= i < |r| ==> r[i] == Redirected(edges, subsets[i], target)
  {
    seq(|subsets|, i requires 0 <= i < |subsets| => Redirected(edges, subsets[i], target))
  }

  lemma RedirectAllSnoc(edges: seq<Edge>, done: seq<seq<int>>, cs: seq<seq<int>>, j: nat, target: int)
    requires j < |cs|
    ensures RedirectAll(edges, done + cs[..j + 1], target)
         == RedirectAll(edges, done + cs[..j], target) + [Redirected(edges, cs[j], target)]
  {
    assert done + cs[..j + 1] == (done + cs[..j]) + [cs[j]];
  }

  /** Everything `redirect_subsets_of_edges(edges, redirect_to)` yields, in order. */
  function RedirectSubsets(edges: seq<Edge>, target: int): seq<seq<Edge>>
  {
    var good := GoodIndices(edges, target, 0);
    RedirectAll(edges, SubsetsBelow(good, |good| + 1), target)
  }

  /** The generator `redirect_subsets_of_edges`, its yields collected in order. */
  method RedirectSubsetsOfEdges(edges: seq<Edge>, target: int) returns (yielded: seq<seq<Edge>>)
    ensures yielded == RedirectSubsets(edges, target)
  {
    var good := GoodIndices(edges, target, 0);
    yielded := [];
    var numRedirects := 0;
    while numRedirects < |good| + 1
      invariant 0 <= numRedirects <= |good| + 1
      invariant yielded == RedirectAll(edges, SubsetsBelow(good, numRedirects), target)
    {
      var combos := Combinations(good, numRedirects);
      var j := 0;
      while j < |combos|
        invariant 0 <= j <= |combos|
        invariant yielded == RedirectAll(edges, SubsetsBelow(good, numRedirects) + combos[..j], target)
      {
        assert forall x :: x in combos[j] ==> 0 <= x < |edges| by {
          CombinationAt(good, numRedirects, j);
        }
        var newEdges := RedirectCopy(edges, combos[j], target);
        RedirectAllSnoc(edges, SubsetsBelow(good, numRedirects), combos, j, target);
        yielded := yielded + [newEdges];
        j := j + 1;
      }
      assert combos[..j] == combos;
      numRedirects := numRedirects + 1;
    }
  }

  lemma {:induction false} SubsetsBelowMember(good: seq<int>, m: nat, c: seq<int>)
    requires StrictlyIncreasing(good)
    requires c in SubsetsBelow(good, m)
    ensures StrictlyIncreasing(c) && forall x :: x in c ==> x in good
  {
    if m != 0 {
      if c in SubsetsBelow(good, m - 1) {
        SubsetsBelowMember(good, m - 1, c);
      } else {
        CombinationMember(good, m - 1, c);
      }
    }
  }

  lemma {:induction false} SubsetsBelowHas(good: seq<int>, m: nat, n: nat, c: seq<int>)
    requires n < m
    requires c in Combinations(good, n)
    ensures c in SubsetsBelow(good, m)
  {
    var earlier := SubsetsBelow(good, m - 1);
    var last := Combinations(good, m - 1);
    if n < m - 1 {
      SubsetsBelowHas(good, m - 1, n, c);
      assert c in earlier;
    } else {
      assert c in last;
    }
    assert SubsetsBelow(good, m) == earlier + last;
  }

  /**
   * Every yielded list keeps the length and the sources of `edges`, and differs
   * from it only at edges that did not end at `target` and now do.
   */
  lemma RedirectSubsetsSound(edges: seq<Edge>, target: int, i: nat)
    requires i < |RedirectSubsets(edges, target)|
    ensures var r := RedirectSubsets(edges, target)[i];
            && |r| == |edges|
            && forall k :: 0 <= k < |edges| ==>
                 r[k].first == edges[k].first && (r[k] != edges[k] ==> edges[k].last != target && r[k].last == target)
  {
    var good := GoodIndices(edges, target, 0);
    var subsets := SubsetsBelow(good, |good| + 1);
    assert subsets[i] in subsets;
    SubsetsBelowMember(good, |good| + 1, subsets[i]);
  }

  /**
   * Conversely every choice of edges not ending at `target` is yielded, and the
   * edges a yielded list changes are exactly the chosen ones.
   */
  lemma RedirectSubsetsComplete(edges: seq<Edge>, target: int, c: seq<int>)
    requires StrictlyIncreasing(c)
    requires forall x :: x in c ==> 0 <= x < |edges| && edges[x].last != target
    ensures Redirected(edges, c, target) in RedirectSubsets(edges, target)
    ensures forall k :: 0 <= k < |edges| ==> (Redirected(edges, c, target)[k] != edges[k] <==> k in c)
  {
    RedirectSubsetsHave(edges, target, c);
    RedirectedChanges(edges, c, target);
  }

  lemma RedirectedChanges(edges: seq<Edge>, c: seq<int>, target: int)
    requires forall x :: x in c ==> 0 <= x < |edges| && edges[x].last != target
    ensures forall k :: 0 <= k < |edges| ==> (Redirected(edges, c, target)[k] != edges[k] <==> k in c)
  {
  }

  lemma RedirectSubsetsHave(edges: seq<Edge>, target: int, c: seq<int>)
    requires StrictlyIncreasing(c)
    requires forall x :: x in c ==> 0 <= x < |edges| && edges[x].last != target
    ensures Redirected(edges, c, target) in RedirectSubsets(edges, target)
  {
    var good := GoodIndices(edges, target, 0);
    CombinationComplete(good, c);
    if |c| > |good| {
      CombinationsCount(good, |c|);
      BinomialZero(|good|, |c|);
      assert false;
    }
    SubsetsBelowHas(good, |good| + 1, |c|, c);
    var subsets := SubsetsBelow(good, |good| + 1);
    var i :| 0 <= i < |subsets| && subsets[i] == c;
    assert RedirectSubsets(edges, target)[i] == Redirected(edges, c, target);
  }
}
