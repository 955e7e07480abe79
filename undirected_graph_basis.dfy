/**
 * Bases of undirected graphs (gcaops/graph/undirected_graph_basis.py).
 *
 * A basis element is identified by a key: the number of vertices, the number of
 * edges and the position of a canonical graph in the cached list for that
 * grading, followed in the operad basis by a relabelling of the vertices. The
 * lists come from the undirected graph cache through a `keydefaultdict`; the
 * cache returns exactly what the generator gives (GraphCaches), so the list of a
 * grading is a function of the generator here. The canonicaliser and
 * `relabeled` are parameters.
 */
module UndirectedGraphBases {
  import opened Wrappers
  import opened Parity
  import opened UndirectedGraphs
  import opened GraphCaches
  import opened SuperfunctionAlgebras

  /** The value of an undirected graph: `len(g)` vertices and the list `g.edges()`. */
  datatype Graph = Graph(numVertices: int, edges: seq<Edge>)

  /** What `undirected_graph_canonicalize` returns: the normal form, the permutation back to the input, the sign. */
  datatype Canonical = Canonical(graph: Graph, undo: seq<int>, sign: int)

  /** `(v, e)` of a graph: the grading its list is looked up under. */
  function Grading(g: Graph): (int, int)
  {
    (g.numVertices, |g.edges|)
  }

  /**
   * `lst[i]` on a Python list: a negative index counts from the end, and an
   * index outside `-len(lst) .. len(lst) - 1` raises IndexError (None here).
   */
  function PyIndex<T>(s: seq<T>, i: int): (r: Option<T>)
    ensures 0 <= i < |s| ==> r == Some(s[i])
    ensures -|s| <= i < 0 ==> r == Some(s[|s| + i])
    ensures r.None? <==> i < -|s| || |s| <= i
  {
    if 0 <= i < |s| then Some(s[i]) else if -|s| <= i < 0 then Some(s[|s| + i]) else None
  }

  /** `lst.index(x)`: the first position of x, or None for the ValueError when x is absent. */
  function PyFind<T(==)>(s: seq<T>, x: T): (r: Option<nat>)
    ensures r.Some? ==> r.value < |s| && s[r.value] == x && forall k :: 0 <= k < r.value ==> s[k] != x
    ensures r.None? <==> x !in s
  {
    var i := IndexOf(s, x);
    if i < |s| then Some(i) else None
  }

  // ---------------------------------------------------------------------------
  // The complex basis
  // ---------------------------------------------------------------------------

  datatype BasisError = MinDegreeNotAllowed   // 'min_degree can only be 0 or 3'

  /** The options the complex basis looks its lists up with: no odd automorphism. */
  function ComplexOptions(connected: Option<bool>, biconnected: Option<bool>, minDegree: int): UndirectedOptions
  {
    UndirectedOptions(connected, biconnected, minDegree, Some(false))
  }

  /**
   * The complex basis built with its default None flags and the operad basis,
   * which keeps the cache's False defaults, look their lists up under different
   * keys of the shared store, yet both name the same database file.
   */
  lemma ComplexAndOperadShareFile(v: int, e: int)
    ensures UndirectedKey(v, e, ComplexOptions(None, None, 0)) != UndirectedKey(v, e, OperadOptions())
    ensures UndirectedFilename(v, e, ComplexOptions(None, None, 0)) == UndirectedFilename(v, e, OperadOptions())
  {
    UndirectedKeyRoundTrip(v, e, ComplexOptions(None, None, 0));
    UndirectedKeyRoundTrip(v, e, OperadOptions());
    FilenameInjective(FilenameOptions(v, e, false, None, None, 0, None, Some(false)),
                      FilenameOptions(v, e, false, Some(false), Some(false), 0, None, Some(false)));
  }

  /**
   * `UndirectedGraphComplexBasis.graph_to_key` on the canonical form `c` of the
   * input: the key `(v, e, index)` with the canonicaliser's sign, or `(None, 1)`
   * when the canonical form is not in the list of its grading.
   */
  function ComplexGraphToKey(lists: (int, int) -> seq<Graph>, c: Canonical): (Option<seq<int>>, int)
  {
    var (v, e) := Grading(c.graph);
    match PyFind(lists(v, e), c.graph)
    case Some(index) => (Some([v, e, index]), c.sign)
    case None => (None, 1)
  }

  /** `UndirectedGraphComplexBasis.key_to_graph`: the graph at the key's position, with sign +1. */
  function ComplexKeyToGraph(lists: (int, int) -> seq<Graph>, key: seq<int>): (Option<Graph>, int)
    requires |key| == 3
  {
    (PyIndex(lists(key[0], key[1]), key[2]), 1)
  }

  /**
   * The key of a graph leads back to its canonical form with sign +1, and a
   * graph has no key exactly when its canonical form is missing from the list.
   */
  lemma ComplexRoundTrip(lists: (int, int) -> seq<Graph>, c: Canonical)
    ensures ComplexGraphToKey(lists, c).0.None? <==> c.graph !in lists(c.graph.numVertices, |c.graph.edges|)
    ensures ComplexGraphToKey(lists, c).0.None? ==> ComplexGraphToKey(lists, c).1 == 1
    ensures ComplexGraphToKey(lists, c).0.Some? ==>
              ComplexGraphToKey(lists, c).1 == c.sign
              && ComplexKeyToGraph(lists, ComplexGraphToKey(lists, c).0.value) == (Some(c.graph), 1)
  {
  }

  /** Lists hold distinct graphs of their own grading, as generated lists of canonical forms do. */
  ghost predicate ListsWellFormed(lists: (int, int) -> seq<Graph>)
  {
    forall v, e :: Distinct(lists(v, e)) && forall k :: 0 <= k < |lists(v, e)| ==> Grading(lists(v, e)[k]) == (v, e)
  }

  /**
   * The other direction: the graph at a valid key is a canonical form whose key
   * is that key again.
   */
  lemma ComplexKeyRoundTrip(lists: (int, int) -> seq<Graph>, v: int, e: int, index: nat, sign: int, undo: seq<int>)
    requires ListsWellFormed(lists)
    requires index < |lists(v, e)|
    ensures ComplexKeyToGraph(lists, [v, e, index]).0 == Some(lists(v, e)[index])
    ensures ComplexGraphToKey(lists, Canonical(lists(v, e)[index], undo, sign)) == (Some([v, e, index]), sign)
  {
    var g := lists(v, e)[index];
    assert Grading(g) == (v, e);
    assert g in lists(v, e);
  }

  /** The `keydefaultdict` of a basis holds, for each grading it was asked for, the list of that grading. */
  ghost predicate FilledFrom<G>(d: KeyDefaultDict<(int, int), seq<G>>, lists: (int, int) -> seq<G>)
    reads d
  {
    d.factory.Some?
    && (forall k :: d.factory.value(k) == lists(k.0, k.1))
    && forall k :: k in d.store ==> d.store[k] == lists(k.0, k.1)
  }

  /** `self._graphs[v, e]`: a lookup that fills the dictionary on a miss. */
  method Lookup<G>(d: KeyDefaultDict<(int, int), seq<G>>, lists: (int, int) -> seq<G>, v: int, e: int)
    returns (r: seq<G>)
    requires FilledFrom(d, lists)
    modifies d
    ensures FilledFrom(d, lists)
    ensures r == lists(v, e)
  {
    var got := d.Get((v, e));
    r := got.value;
  }

  class UndirectedGraphComplexBasis {
    const connected: Option<bool>
    const biconnected: Option<bool>
    const minDegree: int
    /** `undirected_graph_canonicalize`. */
    const canonicalize: Graph -> Canonical
    /** The undirected graph cache's `graphs` for this basis's options. */
    const lists: (int, int) -> seq<Graph>
    /** `_graphs`, keyed by `(v, e)`. */
    const graphs: KeyDefaultDict<(int, int), seq<Graph>>

    ghost predicate Valid()
      reads graphs
    {
      FilledFrom(graphs, lists)
    }

    constructor Wrap(connected: Option<bool>, biconnected: Option<bool>, minDegree: int,
                     canonicalize: Graph -> Canonical, undirected: (int, int, UndirectedOptions) -> seq<Graph>)
      ensures this.connected == connected && this.biconnected == biconnected && this.minDegree == minDegree
      ensures this.canonicalize == canonicalize
      ensures forall v, e :: lists(v, e) == undirected(v, e, ComplexOptions(connected, biconnected, minDegree))
      ensures fresh(graphs) && Valid()
    {
      this.connected := connected;
      this.biconnected := biconnected;
      this.minDegree := minDegree;
      this.canonicalize := canonicalize;
      var f := (v: int, e: int) => undirected(v, e, ComplexOptions(connected, biconnected, minDegree));
      lists := f;
      graphs := new KeyDefaultDict(Some((k: (int, int)) => f(k.0, k.1)));
    }

    /** `__init__`: only minimal degrees 0 and 3 are accepted. */
    static method New(connected: Option<bool>, biconnected: Option<bool>, minDegree: int,
                      canonicalize: Graph -> Canonical, undirected: (int, int, UndirectedOptions) -> seq<Graph>)
      returns (r: Result<UndirectedGraphComplexBasis, BasisError>)
      ensures r.Ok? <==> minDegree == 0 || minDegree == 3
      ensures r.Err? ==> r.error == MinDegreeNotAllowed
      ensures r.Ok? ==> fresh(r.value) && fresh(r.value.graphs) && r.value.Valid() && r.value.minDegree == minDegree
    {
      if !(minDegree == 0 || minDegree == 3) {
        return Err(MinDegreeNotAllowed);
      }
      var b := new UndirectedGraphComplexBasis.Wrap(connected, biconnected, minDegree, canonicalize, undirected);
      return Ok(b);
    }

    method GraphToKey(graph: Graph) returns (key: Option<seq<int>>, sign: int)
      requires Valid()
      modifies graphs
      ensures Valid()
      ensures (key, sign) == ComplexGraphToKey(lists, canonicalize(graph))
    {
      var c := canonicalize(graph);
      var (v, e) := Grading(c.graph);
      var gs := Lookup(graphs, lists, v, e);
      var index := PyFind(gs, c.graph);
      if index.None? {
        return None, 1;
      }
      return Some([v, e, index.value]), c.sign;
    }

    method KeyToGraph(key: seq<int>) returns (g: Option<Graph>, sign: int)
      requires Valid() && |key| == 3
      modifies graphs
      ensures Valid()
      ensures (g, sign) == ComplexKeyToGraph(lists, key)
    {
      var gs := Lookup(graphs, lists, key[0], key[1]);
      return PyIndex(gs, key[2]), 1;
    }

    /** `graphs(vertices, edges)`. */
    method Graphs(v: int, e: int) returns (r: seq<Graph>)
      requires Valid()
      modifies graphs
      ensures Valid()
      ensures r == lists(v, e)
    {
      r := Lookup(graphs, lists, v, e);
    }

    /** `cardinality(vertices, edges)`: the number of keys of that grading. */
    method Cardinality(v: int, e: int) returns (n: nat)
      requires Valid()
      modifies graphs
      ensures Valid()
      ensures n == |lists(v, e)|
      ensures forall index :: 0 <= index < n <==> ComplexKeyToGraph(lists, [v, e, index]).0.Some? && index >= 0
    {
      var gs := Lookup(graphs, lists, v, e);
      n := |gs|;
    }
  }

  // ---------------------------------------------------------------------------
  // The operad basis
  // ---------------------------------------------------------------------------

  /** `partial(undirected_graph_cache.graphs, has_odd_automorphism=False)`: the cache's defaults otherwise. */
  function OperadOptions(): UndirectedOptions
  {
    UndirectedOptions(Some(false), Some(false), 0, Some(false))
  }

  /**
   * `UndirectedGraphOperadBasis.graph_to_key`: the complex key of the canonical
   * form followed by the permutation that undoes the canonical labelling.
   */
  function OperadGraphToKey(lists: (int, int) -> seq<Graph>, c: Canonical): (Option<seq<int>>, int)
  {
    var (v, e) := Grading(c.graph);
    match PyFind(lists(v, e), c.graph)
    case Some(index) => (Some([v, e, index] + c.undo), c.sign)
    case None => (None, 1)
  }

  /** The graph `key_to_graph` relabels: the listed graph at `key[2]`, before its edges are sorted. */
  function OperadListed(lists: (int, int) -> seq<Graph>, key: seq<int>): Option<Graph>
    requires |key| >= 3
  {
    PyIndex(lists(key[0], key[1]), key[2])
  }

  /**
   * The operad key of a graph splits back into its canonical form and the
   * permutation undoing the labelling; the complex part is the complex key.
   */
  lemma OperadRoundTrip(lists: (int, int) -> seq<Graph>, c: Canonical)
    ensures OperadGraphToKey(lists, c).0.None? <==> ComplexGraphToKey(lists, c).0.None?
    ensures OperadGraphToKey(lists, c).1 == ComplexGraphToKey(lists, c).1
    ensures OperadGraphToKey(lists, c).0.Some? ==>
              var key := OperadGraphToKey(lists, c).0.value;
              |key| >= 3 && key[..3] == ComplexGraphToKey(lists, c).0.value && key[3..] == c.undo
              && OperadListed(lists, key) == Some(c.graph)
  {
    if OperadGraphToKey(lists, c).0.Some? {
      var key := OperadGraphToKey(lists, c).0.value;
      assert key[..3] == ComplexGraphToKey(lists, c).0.value;
      assert key[3..] == c.undo;
    }
  }

  class UndirectedGraphOperadBasis {
    const canonicalize: Graph -> Canonical
    /** `Graph.relabeled`, which is not part of this model. */
    const relabeled: (Graph, seq<int>) -> Graph
    const lists: (int, int) -> seq<Graph>
    const graphs: KeyDefaultDict<(int, int), seq<Graph>>

    ghost predicate Valid()
      reads graphs
    {
      FilledFrom(graphs, lists)
    }

    constructor (canonicalize: Graph -> Canonical, relabeled: (Graph, seq<int>) -> Graph,
                 undirected: (int, int, UndirectedOptions) -> seq<Graph>)
      ensures this.canonicalize == canonicalize && this.relabeled == relabeled
      ensures forall v, e :: lists(v, e) == undirected(v, e, OperadOptions())
      ensures fresh(graphs) && Valid()
    {
      this.canonicalize := canonicalize;
      this.relabeled := relabeled;
      var f := (v: int, e: int) => undirected(v, e, OperadOptions());
      lists := f;
      graphs := new KeyDefaultDict(Some((k: (int, int)) => f(k.0, k.1)));
    }

    method GraphToKey(graph: Graph) returns (key: Option<seq<int>>, sign: int)
      requires Valid()
      modifies graphs
      ensures Valid()
      ensures (key, sign) == OperadGraphToKey(lists, canonicalize(graph))
    {
      var c := canonicalize(graph);
      var (v, e) := Grading(c.graph);
      var gs := Lookup(graphs, lists, v, e);
      var index := PyFind(gs, c.graph);
      if index.None? {
        return None, 1;
      }
      return Some([v, e, index.value] + c.undo), c.sign;
    }

    /**
     * `key_to_graph`: the listed graph relabelled by `key[3:]`, then its edges
     * sorted in place; the sign is that of the sorting.
     */
    method KeyToGraph(key: seq<int>) returns (g: Option<UndirectedGraph>, sign: int)
      requires Valid() && |key| >= 3
      modifies graphs
      ensures Valid()
      ensures OperadListed(lists, key).None? <==> g.None?
      ensures g.None? ==> sign == 1
      ensures g.Some? ==>
        var h := relabeled(OperadListed(lists, key).value, key[3..]);
        fresh(g.value) && fresh(g.value.edges)
        && g.value.numVertices == h.numVertices
        && Sorted(g.value.edges[..], EdgeLess) && multiset(g.value.edges[..]) == multiset(h.edges)
        && (sign == 1 || sign == -1)
        && (Distinct(h.edges) ==> sign == SortSign(h.edges, EdgeLess))
    {
      var gs := Lookup(graphs, lists, key[0], key[1]);
      var listed := PyIndex(gs, key[2]);
      if listed.None? {
        return None, 1;
      }
      var h := relabeled(listed.value, key[3..]);
      var edges := new Edge[|h.edges|](i requires 0 <= i < |h.edges| => h.edges[i]);
      assert edges[..] == h.edges;
      var graph := new UndirectedGraph.Wrap(h.numVertices, edges);
      sign := graph.CanonicalizeEdges();
      g := Some(graph);
    }
  }
}
