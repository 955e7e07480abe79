/**
 * Undirected graphs with vertices 0 .. n-1 and an ordered list of edges
 * (gcaops/graph/undirected_graph.py). The graph keeps the very list it was
 * given and rewrites it in place: each edge gets its lower endpoint first, and
 * `canonicalize_edges` sorts the list, reporting the sign of the reordering.
 */
module UndirectedGraphs {
  import opened Wrappers
  import opened Parity

  /** An edge `(first, last)`; Python tuples of integers. */
  datatype Edge = Edge(first: int, last: int)

  /** Python's lexicographic `<` on pairs. */
  function EdgeLess(e: Edge, f: Edge): bool
  {
    e.first < f.first || (e.first == f.first && e.last < f.last)
  }

  lemma EdgeLessIsStrictTotalOrder()
    ensures StrictTotalOrder(EdgeLess)
  {
  }

  /** The edge with its endpoints in increasing order. */
  function Normalize(e: Edge): (r: Edge)
    ensures r.first <= r.last
    ensures r == e || r == Edge(e.last, e.first)
    ensures e.first <= e.last ==> r == e
  {
    if e.first > e.last then Edge(e.last, e.first) else e
  }

  function NormalizeAll(s: seq<Edge>): (r: seq<Edge>)
    ensures |r| == |s|
    ensures forall k :: 0 <= k < |s| ==> r[k] == Normalize(s[k])
  {
    seq(|s|, k requires 0 <= k < |s| => Normalize(s[k]))
  }

  /** Both endpoints are vertex labels of a graph on n vertices (only the upper bound is checked). */
  predicate InRange(e: Edge, n: int)
  {
    e.first < n && e.last < n
  }

  /** The position of the first edge with an endpoint >= n, or |s| when there is none. */
  function FirstOutOfRange(s: seq<Edge>, n: int): (k: nat)
    ensures k <= |s|
    ensures forall i :: 0 <= i < k ==> InRange(s[i], n)
    ensures k < |s| ==> !InRange(s[k], n)
  {
    if |s| == 0 then 0 else if !InRange(s[0], n) then 0 else 1 + FirstOutOfRange(s[1..], n)
  }

  /** A list whose first k edges are normalised and whose other edges are untouched. */
  lemma NormalizedPrefix(current: seq<Edge>, original: seq<Edge>, k: nat)
    requires |current| == |original| && k <= |original|
    requires forall i :: 0 <= i < k ==> current[i] == Normalize(original[i])
    requires forall i :: k <= i < |original| ==> current[i] == original[i]
    ensures current == NormalizeAll(original[..k]) + original[k..]
  {
    var target := NormalizeAll(original[..k]) + original[k..];
    assert |target| == |current|;
    forall i | 0 <= i < |current| ensures current[i] == target[i] {
      if i < k {
        assert target[i] == Normalize(original[..k][i]);
      } else {
        assert target[i] == original[k..][i - k];
      }
    }
  }

  datatype GraphError =
    | NegativeVertexCount   // 'num_vertices must be a natural number'
    | VertexOutOfRange      // 'Vertex labels must be between 0 and the number of vertices'

  class UndirectedGraph {
    var numVertices: int
    /** The caller's list itself, not a copy. */
    var edges: array<Edge>

    /** The state after the assignments of `__init__`; validation is done by `New`. */
    constructor Wrap(n: int, edgeList: array<Edge>)
      ensures numVertices == n && edges == edgeList
    {
      numVertices := n;
      edges := edgeList;
    }

    /**
     * `UndirectedGraph(num_vertices, edges)`. A negative vertex count is refused
     * before anything happens. Otherwise the edges are normalised in place one
     * after the other, and the first edge with an endpoint outside the vertex
     * range raises, leaving the edges before it already normalised and the rest
     * untouched.
     */
    static method New(n: int, edgeList: array<Edge>) returns (r: Result<UndirectedGraph, GraphError>)
      modifies edgeList
      ensures n < 0 ==> r == Err(NegativeVertexCount) && edgeList[..] == old(edgeList[..])
      ensures n >= 0 ==> (r.Ok? <==> FirstOutOfRange(old(edgeList[..]), n) == edgeList.Length)
      ensures n >= 0 && r.Err? ==> r.error == VertexOutOfRange
      ensures r.Ok? ==> r.value.numVertices == n && r.value.edges == edgeList && fresh(r.value)
      ensures r.Ok? ==> edgeList[..] == NormalizeAll(old(edgeList[..]))
      ensures n >= 0 ==>
        var k := FirstOutOfRange(old(edgeList[..]), n);
        edgeList[..] == NormalizeAll(old(edgeList[..k])) + old(edgeList[k..])
    {
      if !(n >= 0) {
        return Err(NegativeVertexCount);
      }
      ghost var original := edgeList[..];
      ghost var stop := FirstOutOfRange(original, n);
      var k := 0;
      while k < edgeList.Length
        invariant 0 <= k <= stop
        invariant edgeList.Length == |original|
        invariant forall i :: 0 <= i < k ==> edgeList[i] == Normalize(original[i])
        invariant forall i :: k <= i < edgeList.Length ==> edgeList[i] == original[i]
      {
        var e := edgeList[k];
        if e.first >= n || e.last >= n {
          assert k == stop;
          NormalizedPrefix(edgeList[..], original, k);
          return Err(VertexOutOfRange);
        }
        if e.first > e.last {
          edgeList[k] := Edge(e.last, e.first);
        }
        k := k + 1;
      }
      NormalizedPrefix(edgeList[..], original, k);
      assert original[..k] == original && original[k..] == [];
      var g := new UndirectedGraph.Wrap(n, edgeList);
      return Ok(g);
    }

    /**
     * `canonicalize_edges`: sort the edges lexicographically in place and return
     * the sign of that edge permutation. A sorted list is left alone with +1.
     */
    method CanonicalizeEdges() returns (sign: int)
      modifies edges
      ensures Sorted(edges[..], EdgeLess)
      ensures multiset(edges[..]) == multiset(old(edges[..]))
      ensures sign == 1 || sign == -1
      ensures Distinct(old(edges[..])) ==> sign == SortSign(old(edges[..]), EdgeLess)
      ensures Sorted(old(edges[..]), EdgeLess) ==> sign == 1 && edges[..] == old(edges[..])
    {
      EdgeLessIsStrictTotalOrder();
      sign := SelectionSort(edges, EdgeLess);
    }
  }
}
