# gcaops core in Dafny

This project models the combinatorial core of gcaops ("Graph Complex Action on
Poisson Structures"), a Python/Sage library for graph complexes and for how they
act on polyvector fields and polydifferential operators. The model covers:

- **Undirected graphs** (`undirected_graph.dfy`). An `UndirectedGraph` shares the
  caller's edge list as an `array`. The constructor normalises each edge in place
  and rejects out-of-range vertices part way through. `CanonicalizeEdges` is an
  in-place selection sort, and its sign is the parity of the sorting permutation.
  The sort and the inversion-count theory behind its sign are in `parity.dfy`.
- **Superfunction algebra** (`superfunction_algebra.dfy`). The algebra of
  polynomials in odd coordinates `xi_0 .. xi_{n-1}`. It models:
  - the monomial basis as `itertools.combinations` lists;
  - the supercommutative product of basis monomials, computed by sorting the
    concatenation and taking its sign;
  - the degree-indexed coefficient lists and the arithmetic on them (`+`, `-`,
    scalar `+`, scaling, negation, the product);
  - `keydefaultdict`;
  - the equality test, whose bug is reported under Findings.
- **Polydifferential operators** (`polydifferential_operator.dfy`). It models:
  - the weak compositions that enumerate multi-indices of derivatives;
  - the product of monomials in derivatives;
  - coefficient access by monomial;
  - linear combinations, `bool`;
  - symmetrization and skew-symmetrization over argument permutations;
  - the multinomial multiplicity used by insertion.
- **Formality graph generation** (`formality_graph_sage.dfy`). This is the logic
  of `nauty_generate_formality` and `formality_graph_canonicalize` that runs after
  the external tools answer:
  - the partition of the vertices into ground and aerial;
  - the loop order;
  - the relabelling that numbers the sinks first (0, 1, …);
  - the list the generation loop yields, in order: loop orders upwards, digraphs
    in the order the generator lists them, and within one digraph the first
    occurrence of each graph;
  - the aerial in-degree test, including the `ValueError` that `max()` raises
    when a bound is given and no vertex is left outside the sinks;
  - the sign of the canonical edge order;
  - the inverse labelling;
  - the search for an automorphism that permutes the edges oddly.
- **Graph cache** (`graph_cache.dfy`). It models:
  - the file names built from the options, each with a proved decoder. Two
    option sets share a file exactly when they agree up to the truth value of
    `connected` and `biconnected`. The name tests those two flags for truth, so
    None and False give the same file. The complex basis (default None flags)
    and the operad basis (the cache's False defaults) therefore store different
    cache keys in one file;
  - the key layout of the shared in-memory store;
  - the undirected, directed and formality caches over that store;
  - the orientation rows that tie each directed graph to its undirected graph.
- **Graph bases** (`undirected_graph_basis.dfy`, `formality_graph_basis.dfy`).
  These are the complex, operad and quantization (Kontsevich and Leibniz) bases
  with their `graph_to_key` / `key_to_graph` pairs. The complex, lazy and
  quantization bases have round trips proved in both directions. The operad
  bases have only graph→key→graph, because their `key_to_graph` goes through
  `relabeled`, which is a parameter here. This file also has the helpers of the weight
  relations: the cyclic permutation and its sign, `(-1)^k` by repeated flips, and
  the redirection of subsets of edges.
- **Graph vectors** (`graph_vector_dict.dfy`). A `GraphVector` is a class whose
  fields are the insertion-ordered key list and the coefficient dictionary of a
  Python `dict`. It models:
  - iteration, `len`;
  - negation, addition, subtraction, scaling;
  - equality;
  - homogeneous parts;
  - `map_coefficients`;
  - insertion;
  - the module's constructors.

Modelling choices:
- The coefficient ring is the integers, so `is_zero` is `== 0` and `simplify`
  is the identity.
- The following external services are function parameters, about which nothing
  is assumed beyond what the source relies on:
  - canonical labelling and automorphism groups (nauty/bliss through Sage);
  - graph generation by `geng`/`directg`;
  - `relabeled`;
  - the insertion of graphs into graphs.
- Python list behaviour is written out:
  - negative indices;
  - `list.index` raising `ValueError`;
  - the order of `itertools.combinations` and `itertools.permutations`.
- Where a Python operation mutates a list or a dictionary, the model is a method
  with `modifies` on a class field or an array, and its contract states the
  whole new state.

## Model

| member | source | states |
|---|---|---|
| UndirectedGraphs.UndirectedGraph.New | gcaops/graph/undirected_graph.py:18-30 | a negative vertex count fails and leaves the edges alone; otherwise success holds exactly when no edge leaves the vertex range, the edges before the first bad one are normalised to (min, max) in place and the rest are untouched; on success the graph aliases the caller's list |
| UndirectedGraphs.UndirectedGraph.CanonicalizeEdges | gcaops/graph/undirected_graph.py:44-48 | the edges end lexicographically sorted and are a permutation of the old ones; the sign is ±1, equals (-1)^inversions for distinct edges, and a sorted list is left unchanged with sign +1 |
| Parity.SelectionSort | gcaops/algebra/superfunction_algebra.py:274-280 | the in-place selection sort sorts, permutes, returns ±1, and for distinct elements returns the parity sign of the inversion count |
| Parity.SwapFlipsParity | gcaops/algebra/superfunction_algebra.py:276-280 | exchanging two distinct elements that no element between them equals negates the sorting sign |
| Parity.SortedNoInversions | gcaops/algebra/superfunction_algebra.py:274-280 | a sorted list has no inversions, so its sorting sign is +1 |
| SuperfunctionAlgebras.KeyDefaultDict.Get | gcaops/algebra/superfunction_algebra.py:5-11 | a stored key returns its value; a miss raises KeyError without a factory and otherwise stores and returns factory(key) |
| SuperfunctionAlgebras.KeyDefaultDict.Set | gcaops/algebra/superfunction_algebra.py:5-11 | item assignment updates exactly that key |
| SuperfunctionAlgebras.GetTwice | gcaops/algebra/superfunction_algebra.py:5-11 | a value fetched once is returned again by the next lookup; a failing lookup means there is no factory and no entry |
| SuperfunctionAlgebras.Dimension | gcaops/algebra/superfunction_algebra.py:255-263 | the degree-d part of the algebra in n odd coordinates has binomial(n, d) basis monomials |
| SuperfunctionAlgebras.BasisMonomial | gcaops/algebra/superfunction_algebra.py:217 | every basis entry is a strictly increasing d-tuple of indices below n |
| SuperfunctionAlgebras.BasisComplete | gcaops/algebra/superfunction_algebra.py:255-263 | every strictly increasing d-tuple below n is in the basis, exactly once |
| SuperfunctionAlgebras.MulOnBasis | gcaops/algebra/superfunction_algebra.py:265-287 | the method (selection sort with a sign, then a scan for repeats) agrees with the specification: no product when the degrees exceed n or the monomials share an index, otherwise the index of the sorted concatenation with the sign of the sort |
| SuperfunctionAlgebras.SortConcatenation | gcaops/algebra/superfunction_algebra.py:273-284 | the selection sort of the concatenation is sorted and a permutation of it, its sign is the sign of the sort when the entries are distinct, and a repeat is reported exactly when two adjacent sorted entries agree |
| SuperfunctionAlgebras.FindRepeat | gcaops/algebra/superfunction_algebra.py:282-284 | the scan returns a position of two equal neighbours, or reports that no two neighbours are equal |
| SuperfunctionAlgebras.ProductFromSorted | gcaops/algebra/superfunction_algebra.py:271-287 | when the sorted concatenation has no repeats, the monomials are disjoint and the product is its index in the basis of degree d1 + d2 with the sign of the sort |
| SuperfunctionAlgebras.MulOnBasisProduct | gcaops/algebra/superfunction_algebra.py:285-287 | a product that exists is a basis monomial of degree d1 + d2 holding exactly the indices of both factors |
| SuperfunctionAlgebras.MulOnBasisSupercommutative | gcaops/algebra/superfunction_algebra.py:177 | swapping two basis monomials of degrees d1, d2 multiplies their product by (-1)^(d1*d2) |
| SuperfunctionAlgebras.CopiedKeys | gcaops/algebra/superfunction_algebra.py:84-87 | the copy at the start of each operation stores exactly the operand's degrees whose lists are non-empty |
| SuperfunctionAlgebras.Combine | gcaops/algebra/superfunction_algebra.py:80-120 | every coefficient of the sum or difference is the sum or difference of the operands' coefficients, and exactly the degrees up to n stored in either operand are stored |
| SuperfunctionAlgebras.Add | gcaops/algebra/superfunction_algebra.py:80-98 | coefficientwise sum, with the stored degrees of both operands |
| SuperfunctionAlgebras.Sub | gcaops/algebra/superfunction_algebra.py:100-120 | coefficientwise difference, with the stored degrees of both operands |
| SuperfunctionAlgebras.AddScalar | gcaops/algebra/superfunction_algebra.py:88-89 | adding or subtracting a scalar changes only the constant coefficient, and degree 0 is stored afterwards |
| SuperfunctionAlgebras.Scale | gcaops/algebra/superfunction_algebra.py:128-136 | every coefficient is multiplied by the scalar and the stored degrees are kept |
| SuperfunctionAlgebras.Neg | gcaops/algebra/superfunction_algebra.py:70-78 | every coefficient is negated and the stored degrees are kept |
| SuperfunctionAlgebras.Mul | gcaops/algebra/superfunction_algebra.py:137-151 | each coefficient of the product is the sum, over all pairs of basis monomials whose product lands there, of sign times the two coefficients; the stored degrees are exactly d1 + d2 over the pairs of non-zero terms whose product exists, even where the sum cancels |
| SuperfunctionAlgebras.ProductDegreesAtMostN | gcaops/algebra/superfunction_algebra.py:265-270 | a product never stores a degree above n, because `_mul_on_basis` has no product past that degree |
| SuperfunctionAlgebras.MulTerm | gcaops/algebra/superfunction_algebra.py:142-151 | one term of the double loop adds its signed contribution at the merged monomial and nowhere else, and creates that degree exactly when the right term is non-zero and the product exists |
| SuperfunctionAlgebras.MulRow | gcaops/algebra/superfunction_algebra.py:142-148 | the inner loop adds the contributions of one left term against every right term, and creates exactly the degrees of the right terms that are non-zero and have a product with it |
| SuperfunctionAlgebras.MulRows | gcaops/algebra/superfunction_algebra.py:138-148 | the double loop over two term lists, starting from an empty dictionary, leaves at each monomial the sum of all row contributions and stores exactly the degrees that some non-zero pair with an existing product writes |
| SuperfunctionAlgebras.TermProduct | gcaops/algebra/superfunction_algebra.py:146-148 | one pair of basis monomials contributes sign times both coefficients at their product and nothing elsewhere |
| SuperfunctionAlgebras.EqAsWritten | gcaops/algebra/superfunction_algebra.py:164-173 | as written, `==` answers True only when neither operand stores a degree at most n |
| SuperfunctionAlgebras.EqAsWrittenRejectsEqualOperands | gcaops/algebra/superfunction_algebra.py:164-173 | as written, xi_0 in two odd coordinates is not equal to itself |
| SuperfunctionAlgebras.Eq | gcaops/algebra/superfunction_algebra.py:164-173 | corrected equality: True exactly when every coefficient of the two operands agrees |
| PolyDifferentialOperators.CompositionsAreWeak | gcaops/algebra/polydifferential_operator.py:15-20 | every tuple produced is a weak composition: k non-negative parts summing to n |
| PolyDifferentialOperators.CompositionsComplete | gcaops/algebra/polydifferential_operator.py:15-20 | every weak composition of n into k parts is produced |
| PolyDifferentialOperators.CompositionsCountDistinct | gcaops/algebra/polydifferential_operator.py:15-20 | there are binomial(n+k-1, k-1) compositions and no repeats |
| PolyDifferentialOperators.GapsInjective | gcaops/algebra/polydifferential_operator.py:15-20 | distinct cut positions give distinct compositions |
| PolyDifferentialOperators.CutsInverse | gcaops/algebra/polydifferential_operator.py:15-20 | the cut positions recovered from a composition are the ones it came from |
| PolyDifferentialOperators.MulOnBasis | gcaops/algebra/polydifferential_operator.py:559-567 | the product of two monomials of the same arity has that arity and multi-indices of the same length |
| PolyDifferentialOperators.MulOnBasisMonoid | gcaops/algebra/polydifferential_operator.py:559-574 | the product of monomials is commutative and associative, and the monomial without derivatives is its unit |
| PolyDifferentialOperators.NoDerivatives | gcaops/algebra/polydifferential_operator.py:573 | the monomial of the identity operator has the requested arity and multi-indices of length n |
| PolyDifferentialOperators.AsKey | gcaops/algebra/polydifferential_operator.py:125-127 | a tuple argument (of multi-indices, or of ints) is the key as it is, with its length as arity; anything else is wrapped into a 1-tuple |
| PolyDifferentialOperators.MonomialOf | gcaops/algebra/polydifferential_operator.py:127-128 | a key names a monomial exactly when every entry is a multi-index, and then names the monomial of those multi-indices |
| PolyDifferentialOperators.GetItemKinds | gcaops/algebra/polydifferential_operator.py:121-128 | a tuple of multi-indices reads its stored coefficient or zero; a bare multi-index (a tuple of ints) and a non-tuple read zero, the empty tuple aside |
| PolyDifferentialOperators.SetItem | gcaops/algebra/polydifferential_operator.py:130-137 | assigning a coefficient stores that monomial, also when the value is zero, and no other |
| PolyDifferentialOperators.GetAfterSet | gcaops/algebra/polydifferential_operator.py:121-137 | reading a monomial after assigning it returns the value, every index naming another key reads as before, and a bare multi-index still reads zero |
| PolyDifferentialOperators.MapCoefficients | gcaops/algebra/polydifferential_operator.py:156-166 | the same monomials are stored, each coefficient replaced by f of it; zero results are kept |
| PolyDifferentialOperators.Neg | gcaops/algebra/polydifferential_operator.py:168-172 | every coefficient is negated and the stored monomials are kept |
| PolyDifferentialOperators.Combine | gcaops/algebra/polydifferential_operator.py:174-198 | coefficientwise sum or difference, storing every monomial stored in either operand |
| PolyDifferentialOperators.Add | gcaops/algebra/polydifferential_operator.py:174-185 | coefficientwise sum |
| PolyDifferentialOperators.Sub | gcaops/algebra/polydifferential_operator.py:187-198 | coefficientwise difference |
| PolyDifferentialOperators.Lmul | gcaops/algebra/polydifferential_operator.py:245-257 | every coefficient is multiplied by the scalar and the stored monomials are kept |
| PolyDifferentialOperators.Bool | gcaops/algebra/polydifferential_operator.py:271-279 | an operator is true exactly when some coefficient is nonzero |
| PolyDifferentialOperators.SelfDifferenceIsZero | gcaops/algebra/polydifferential_operator.py:187-198 | an operator minus itself is false under `bool` |
| PolyDifferentialOperators.Symmetrization | gcaops/algebra/polydifferential_operator.py:317-326 | each coefficient is the sum over stored monomials of their coefficient times the number of argument permutations that give the target; only rearrangements of stored monomials are stored |
| PolyDifferentialOperators.AddOverPermutations | gcaops/algebra/polydifferential_operator.py:324-325 | the loop over `permutations(multi_indices)` adds the coefficient once per occurrence of each target and stores exactly the targets met |
| PolyDifferentialOperators.SkewSymmetrization | gcaops/algebra/polydifferential_operator.py:328-341 | each coefficient is the sum over stored monomials and argument permutations of sign times coefficient; only rearrangements of stored monomials are stored |
| PolyDifferentialOperators.AddOverSignedPermutations | gcaops/algebra/polydifferential_operator.py:337-340 | the loop over permutations of the arguments adds sign times the coefficient at each permuted monomial |
| PolyDifferentialOperators.PermuteRearranges | gcaops/algebra/polydifferential_operator.py:339 | a monomial permuted by a permutation of its arguments has the same entries |
| PolyDifferentialOperators.BinomialFactorial | gcaops/algebra/polydifferential_operator.py:216-222 | binomial(n, k) * k! * (n-k)! == n! |
| PolyDifferentialOperators.MultinomialExact | gcaops/algebra/polydifferential_operator.py:219-221 | the integer division is exact: (sum d)! equals the product of the d_i! times the multinomial coefficient |
| PolyDifferentialOperators.Multiplicity | gcaops/algebra/polydifferential_operator.py:216-222 | the loop computes the product of the multinomial coefficients of the decompositions |
| FormalityGraphSage.MaxLoopOrder | gcaops/util/formality_graph_sage.py:39-42 | the bound is num_edges // 2 when loops are allowed or unspecified, and 0 when they are forbidden |
| FormalityGraphSage.PartitionCovers | gcaops/util/formality_graph_sage.py:44 | the partition has each ground vertex as a singleton and, flattened, lists every vertex once in order |
| FormalityGraphSage.NonSinksSpec | gcaops/util/formality_graph_sage.py:56 | the non-sinks are exactly the vertices not chosen as sinks, in increasing order |
| FormalityGraphSage.ZipRangeDistinct | gcaops/util/formality_graph_sage.py:60 | zipping distinct vertices with range gives each vertex its position |
| FormalityGraphSage.RelabelingBijective | gcaops/util/formality_graph_sage.py:60 | the relabelling puts the sinks first, is a bijection of the vertices and is the inverse of sinks + non_sinks |
| FormalityGraphSage.ScanRow | gcaops/util/formality_graph_sage.py:66-81 | over the ground permutations in order, `seen` gains each canonical graph at its first occurrence only, and the output is, in order, the seen graphs that pass the filters |
| FormalityGraphSage.AerialCheckSpec | gcaops/util/formality_graph_sage.py:56-58 | the aerial in-degree test raises exactly when a bound is given and every vertex is a sink; otherwise it keeps a choice of sinks exactly when no non-sink has in-degree above the bound |
| FormalityGraphSage.MaxOfSpec | gcaops/util/formality_graph_sage.py:57 | `max` of a non-empty sequence is one of its elements and no element exceeds it |
| FormalityGraphSage.ScanSinkChoices | gcaops/util/formality_graph_sage.py:54-81 | raises exactly when the aerial test raises for some sink choice; otherwise, over the sink choices in combinations order, with `seen` shared by all of them, the output is the first occurrences of the candidates that pass the filters, in order |
| FormalityGraphSage.GenerateForDigraph | gcaops/util/formality_graph_sage.py:51-81 | for one generated digraph it raises exactly when the aerial test raises for one of its sink choices; otherwise the output is the first occurrences of its candidates that pass the filters, in candidate order, so it has no repeats and holds exactly the candidates that pass |
| FormalityGraphSage.ExtendConcat | gcaops/util/formality_graph_sage.py:54-74 | meeting the rows of two sink choices one after the other with one `seen` list is meeting their concatenation |
| FormalityGraphSage.DigraphOutputMembers | gcaops/util/formality_graph_sage.py:54-81 | the yield of one digraph has no repeats and holds exactly its candidates that pass the filters |
| FormalityGraphSage.Generate | gcaops/util/formality_graph_sage.py:39-81 | the generator raises exactly when the aerial test raises for a sink choice of a digraph it reaches; otherwise it yields the outputs of loop orders 0 up to the bound, in increasing order, one after the other, so it yields exactly the candidates that pass the filters, repeats across digraphs kept |
| FormalityGraphSage.GenerateLoopOrders | gcaops/util/formality_graph_sage.py:45-48 | the loop over loop orders raises exactly when one of them raises, and otherwise concatenates their outputs in increasing loop order |
| FormalityGraphSage.AllOutputMembers | gcaops/util/formality_graph_sage.py:45-81 | the yield over loop orders holds exactly the candidates of those loop orders that pass the filters |
| FormalityGraphSage.GenerateLoopOrder | gcaops/util/formality_graph_sage.py:46-81 | for one loop order it raises exactly when one of the digraphs that pass the out-degree filter raises; otherwise it yields their outputs one after the other in the generator's order, so exactly their candidates that pass the filters |
| FormalityGraphSage.LoopOrderOutputMembers | gcaops/util/formality_graph_sage.py:46-81 | the yield of one loop order holds exactly the candidates of its accepted digraphs that pass the filters |
| FormalityGraphSage.Canonicalize | gcaops/util/formality_graph_sage.py:83-97 | a graph with a repeated edge raises; otherwise it returns the sorted canonical edges, the inverse of the canonical labelling, and the ±1 sign of the index permutation of the relabelled edges |
| FormalityGraphSage.HasRepeatedEdge | gcaops/util/formality_graph_sage.py:87-89 | true exactly when the edge list has a repeat |
| FormalityGraphSage.IndexPermutationIsPermutation | gcaops/util/formality_graph_sage.py:92-93 | for distinct edges that are a rearrangement of the new edges, `new_edges.index` gives a permutation locating each edge |
| FormalityGraphSage.RelabelEdges | gcaops/util/formality_graph_sage.py:92 | each edge is mapped endpoint by endpoint, keeping order and length |
| FormalityGraphSage.Invert | gcaops/util/formality_graph_sage.py:94-96 | the result is a permutation that is the two-sided inverse of the canonical labelling |
| FormalityGraphSage.EdgeSignOfAutomorphism | gcaops/util/formality_graph_sage.py:104-107 | an automorphism induces a permutation of the edge indices, whose sign is ±1 |
| FormalityGraphSage.IdentityEdgeSign | gcaops/util/formality_graph_sage.py:104-107 | the identity induces an even permutation of the edges |
| FormalityGraphSage.HasOddAutomorphism | gcaops/util/formality_graph_sage.py:99-109 | true exactly when some generator of the automorphism group induces an odd permutation of the edges |
| GraphCaches.OptionsToFilename | gcaops/graph/graph_cache.py:15-28 | the database file name is the option pieces joined by `_` with `.db` appended |
| GraphCaches.JoinDegrees | gcaops/graph/graph_cache.py:45 | the sorted out-degrees written in decimal and joined by `_`, one after the other |
| GraphCaches.FilenameRoundTrip | gcaops/graph/graph_cache.py:15-28 | decoding the file name gives back the options, with a None `connected` or `biconnected` read as False |
| GraphCaches.FilenameInjective | gcaops/graph/graph_cache.py:15-28 | two undirected option sets share a file exactly when they agree up to the truth value of `connected` and `biconnected` |
| GraphCaches.FormalityOptionsToFilename | gcaops/graph/graph_cache.py:30-57 | the formality file name is the grading and option pieces joined by `_` with `.db` appended |
| GraphCaches.FormalityFilenameRoundTrip | gcaops/graph/graph_cache.py:30-57 | decoding the formality file name gives back the options |
| GraphCaches.FormalityFilenameInjective | gcaops/graph/graph_cache.py:30-57 | different formality option sets never share a file |
| GraphCaches.UndirectedKeyRoundTrip | gcaops/graph/graph_cache.py:109 | an undirected cache key determines its grading and options and is never read as a directed or formality key |
| GraphCaches.DirectedKeyRoundTrip | gcaops/graph/graph_cache.py:193 | a directed cache key determines its grading and options and is never read as an undirected or formality key |
| GraphCaches.FormalityKeyRoundTrip | gcaops/graph/graph_cache.py:258 | a formality cache key determines its grading and options and is never read as an undirected or directed key, so the shared dictionary never mixes them |
| GraphCaches.AddGraphs | gcaops/graph/graph_cache.py:94-101 | a non-empty result is left alone; an empty one receives the generated graphs in order |
| GraphCaches.UndirectedGraphCache.Graphs | gcaops/graph/graph_cache.py:103-123 | a lookup returns the generated list for that key; a hit changes nothing, a miss stores the list under that key only |
| GraphCaches.FormalityGraphCache.Graphs | gcaops/graph/graph_cache.py:248-272 | the same for formality graphs |
| GraphCaches.LoopOrders | gcaops/graph/graph_cache.py:162-167 | the number of loop orders is num_edges // 2 + 1 when loops are allowed, 1 when they are forbidden, and none for a negative edge count with loops allowed |
| GraphCaches.DirectedGraphCache.Graphs | gcaops/graph/graph_cache.py:187-213 | a lookup returns the orientations of every loop order in turn; a miss stores them and records the orientation rows under the same key, a hit changes nothing |
| GraphCaches.DirectedGraphCache.OrientationPass | gcaops/graph/graph_cache.py:167-185 | one loop order collects its orientations, and rows only for the loopless pass |
| GraphCaches.DirectedGraphCache.OrientAll | gcaops/graph/graph_cache.py:171-185 | the loop over undirected graphs collects each one's orientations and, in the loopless pass, their rows |
| GraphCaches.DirectedGraphCache.OrientGraph | gcaops/graph/graph_cache.py:173-185 | one undirected graph appends all its orientations, and in the loopless pass a row for each with its coefficient |
| GraphCaches.AppendOrientations | gcaops/graph/graph_cache.py:180-185 | appending orientations advances `h_idx` by their number and adds a row for each only when the undirected index is known |
| GraphCaches.RowsSound | gcaops/graph/graph_cache.py:171-185 | every row names an undirected graph and one of its orientations by index, with the coefficient between them |
| GraphCaches.OrientationSound | gcaops/graph/graph_cache.py:149-185 | the stored orientation rows index the stored directed list correctly and carry the orientation coefficient |
| GraphCaches.LooplessFirst | gcaops/graph/graph_cache.py:167-181 | the directed list starts with the loopless orientations, so row indices of the loopless pass are positions in the full list |
| GraphCaches.SelectRows | gcaops/graph/graph_cache.py:222-225 | selecting the rows of one undirected graph gives their (directed index, coefficient) pairs in order |
| GraphCaches.CoeffsSound | gcaops/graph/graph_cache.py:215-225 | every selected pair names an orientation of the requested undirected graph with its coefficient |
| GraphCaches.DirectedGraphCache.UndirectedToDirectedCoeffs | gcaops/graph/graph_cache.py:215-225 | the pairs of the requested undirected graph in the recorded rows; none only when another cache filled the key first, which raises KeyError in the source |
| UndirectedGraphBases.ComplexAndOperadShareFile | gcaops/graph/undirected_graph_basis.py:23-32 | the complex basis with None flags and the operad basis with the cache's False defaults use different cache keys but the same database file |
| UndirectedGraphBases.UndirectedGraphComplexBasis.New | gcaops/graph/undirected_graph_basis.py:23-32 | a minimum degree other than 0 or 3 raises; otherwise the basis keeps that degree and starts with an empty cache |
| UndirectedGraphBases.UndirectedGraphComplexBasis.GraphToKey | gcaops/graph/undirected_graph_basis.py:46-52 | the key is (v, e, position of the canonical form) with the canonicalisation sign, or (None, 1) when the canonical form is not listed |
| UndirectedGraphBases.UndirectedGraphComplexBasis.KeyToGraph | gcaops/graph/undirected_graph_basis.py:66-70 | the graph at that position with sign +1, or (None, 1) when the index is out of range, negative indices counting from the end |
| UndirectedGraphBases.UndirectedGraphComplexBasis.Graphs | gcaops/graph/undirected_graph_basis.py:95-99 | the listed graphs of that grading |
| UndirectedGraphBases.UndirectedGraphComplexBasis.Cardinality | gcaops/graph/undirected_graph_basis.py:101-105 | the number of listed graphs of that grading |
| UndirectedGraphBases.ComplexRoundTrip | gcaops/graph/undirected_graph_basis.py:46-70 | a graph whose canonical form is listed maps to a key that maps back to that canonical form |
| UndirectedGraphBases.ComplexKeyRoundTrip | gcaops/graph/undirected_graph_basis.py:46-70 | when the lists have no repeats, a valid key names the graph at that position, and that graph maps back to the same key |
| UndirectedGraphBases.UndirectedGraphOperadBasis.GraphToKey | gcaops/graph/undirected_graph_basis.py:129-135 | the key is (v, e, index) followed by the labelling that undoes canonicalisation |
| UndirectedGraphBases.UndirectedGraphOperadBasis.KeyToGraph | gcaops/graph/undirected_graph_basis.py:149-157 | the listed graph is relabelled by the key's tail, its edges sorted in place with the sign of that sort, or (None, 1) when the index is out of range |
| UndirectedGraphBases.OperadRoundTrip | gcaops/graph/undirected_graph_basis.py:129-157 | an operad key is the complex key followed by the undo labelling, and its first three entries name the canonical form |
| UndirectedGraphBases.PyIndex | gcaops/graph/undirected_graph_basis.py:68 | list indexing with Python's negative indices and IndexError |
| UndirectedGraphBases.PyFind | gcaops/graph/undirected_graph_basis.py:49 | `list.index`: the first position of the value, or ValueError |
| FormalityGraphBases.FormalityGraphComplexBasis.constructor | gcaops/graph/formality_graph_basis.py:23-30 | the basis keeps its options and starts with an empty cache |
| FormalityGraphBases.FormalityGraphComplexBasis.GraphToKey | gcaops/graph/formality_graph_basis.py:44-50 | the key is (ground, aerial, edges, index of the canonical form) with the sign, or (None, 1) |
| FormalityGraphBases.FormalityGraphComplexBasis.KeyToGraph | gcaops/graph/formality_graph_basis.py:64-68 | the listed graph with sign +1, or (None, 1) when the index is out of range |
| FormalityGraphBases.FormalityGraphComplexBasis.Graphs | gcaops/graph/formality_graph_basis.py:93-97 | the listed graphs of that grading |
| FormalityGraphBases.FormalityGraphComplexBasis.Cardinality | gcaops/graph/formality_graph_basis.py:99-103 | their number |
| FormalityGraphBases.FormalityGraphOperadBasis.constructor | gcaops/graph/formality_graph_basis.py:149-156 | the operad basis keeps its options and starts with an empty cache filled from the formality cache |
| FormalityGraphBases.ComplexRoundTrip | gcaops/graph/formality_graph_basis.py:44-68 | a graph whose canonical form is listed maps to a key that maps back to that canonical form |
| FormalityGraphBases.ComplexKeyRoundTrip | gcaops/graph/formality_graph_basis.py:44-68 | when the lists have no repeats, a valid key names the graph at that position and that graph maps back to the same key; an index past the end gives (None, 1) |
| FormalityGraphBases.LazyRoundTrip | gcaops/graph/formality_graph_basis.py:121-143 | a graph with an odd automorphism has no key; otherwise its key, the grading and the canonical edges, maps back to the canonical form with sign +1 |
| FormalityGraphBases.LazyKeyRoundTrip | gcaops/graph/formality_graph_basis.py:139-143 | a key of a canonical graph without odd automorphism names that graph, maps back to itself, and its edge-count entry is ignored |
| FormalityGraphBases.FormalityGraphOperadBasis.GraphToKey | gcaops/graph/formality_graph_basis.py:170-176 | the key is the grading and index followed by the undo labelling |
| FormalityGraphBases.FormalityGraph.CanonicalizeEdges | gcaops/graph/formality_graph_basis.py:195 | the edges end sorted and are a permutation of the old ones; the sign is ±1 and, for distinct edges, the parity sign of the sort |
| FormalityGraphBases.FormalityGraphOperadBasis.KeyToGraph | gcaops/graph/formality_graph_basis.py:190-198 | the listed graph is relabelled by the key's tail, its edges sorted in place, with the sign of that sort |
| FormalityGraphBases.OperadRoundTrip | gcaops/graph/formality_graph_basis.py:170-198 | an operad key produced from a graph names its listed canonical form and carries the undo labelling |
| FormalityGraphBases.QuantizationGraphBasis.GraphToKey | gcaops/graph/formality_graph_basis.py:240-246 | the key is (ground, aerial, index of the canonical form) with its sign, or (None, 1) when it is not listed |
| FormalityGraphBases.QuantizationGraphBasis.KeyToGraph | gcaops/graph/formality_graph_basis.py:260-264 | the listed graph with sign +1, or (None, 1) |
| FormalityGraphBases.QuantizationGraphBasis.Graphs | gcaops/graph/formality_graph_basis.py:293-297 | the listed Kontsevich or Leibniz graphs with that many aerial vertices |
| FormalityGraphBases.QuantizationGraphBasis.Cardinality | gcaops/graph/formality_graph_basis.py:299-303 | their number |
| FormalityGraphBases.QuantizationRoundTrip | gcaops/graph/formality_graph_basis.py:240-264 | a listed graph's key maps back to its canonical form |
| FormalityGraphBases.QuantizationKeyRoundTrip | gcaops/graph/formality_graph_basis.py:240-264 | when the lists have no repeats and hold only graphs of their bi-grading, a valid key names the graph at that position and that graph maps back to the same key; an index past the end gives (None, 1) |
| FormalityGraphBases.QuantizationGraphBasis.Kontsevich | gcaops/graph/formality_graph_basis.py:403-412 | a Kontsevich basis keeps its options, with no odd automorphism, and lists the Kontsevich graphs of each bi-grading |
| FormalityGraphBases.QuantizationGraphBasis.Leibniz | gcaops/graph/formality_graph_basis.py:466-475 | a Leibniz basis keeps its options, with no odd automorphism, and lists the Leibniz graphs of each bi-grading |
| FormalityGraphBases.KontsevichDegrees | gcaops/graph/formality_graph_basis.py:392-395 | the Kontsevich query asks for 2·av edges and out-degree at most 2 with av vertices of out-degree 2, which the wedge degrees 0 on the ground and 2 in the air meet exactly |
| FormalityGraphBases.LeibnizDegrees | gcaops/graph/formality_graph_basis.py:454-458 | the Leibniz query asks for sorted out-degrees 0 on the ground, 2 on all aerial vertices but one with 3, whose sum is the edge count and whose maximum 3 occurs once |
| FormalityGraphBases.QuantizationKeysDistinct | gcaops/graph/formality_graph_basis.py:392-458 | different bi-gradings give different cache keys, and a Kontsevich key is never a Leibniz key |
| FormalityGraphBases.FlipSignIsPower | gcaops/graph/formality_graph_basis.py:425 | `flip_sign` is (-1)^av, so -1 exactly for odd av |
| FormalityGraphBases.CyclicPermutation | gcaops/graph/formality_graph_basis.py:312 | `cyclic` is a permutation that rotates the ground vertices and fixes the aerial ones |
| FormalityGraphBases.CyclicSign | gcaops/graph/formality_graph_basis.py:333 | the sign applied to the relabelled graph is the sign of `cyclic` |
| FormalityGraphBases.CyclicInversions | gcaops/graph/formality_graph_basis.py:312 | `cyclic` has exactly gv - 1 inversions |
| FormalityGraphBases.RedirectCopy | gcaops/graph/formality_graph_basis.py:320-322 | the copy redirects exactly the chosen edges |
| FormalityGraphBases.GoodIndices | gcaops/graph/formality_graph_basis.py:317 | the good indices are, in increasing order, exactly the edges whose target is not the redirect target |
| FormalityGraphBases.RedirectSubsetsOfEdges | gcaops/graph/formality_graph_basis.py:316-323 | the loops yield the redirections of every combination of good indices, by size and in combinations order |
| FormalityGraphBases.RedirectSubsetsSound | gcaops/graph/formality_graph_basis.py:316-323 | every yielded edge list keeps each source and only retargets edges that did not already point at the target |
| FormalityGraphBases.RedirectSubsetsComplete | gcaops/graph/formality_graph_basis.py:316-323 | every increasing choice of good indices is yielded, and it changes exactly those edges |
| GraphVectors.GraphVector.Copy | gcaops/graph/graph_vector_dict.py:58-62 | a fresh vector with the same parent, keys in the same order and the same coefficients |
| GraphVectors.GraphVector.Iter | gcaops/graph/graph_vector_dict.py:64-74 | iteration yields, in dictionary order and skipping zeros, each coefficient times its key-to-graph sign with the graph, one per support element |
| GraphVectors.SignedTerms | gcaops/graph/graph_vector_dict.py:68-74 | the loop over the keys yields exactly the signed terms of the keys with a non-zero coefficient, in key order |
| GraphVectors.GraphVector.Len | gcaops/graph/graph_vector_dict.py:76-84 | len is the size of the support, and zero exactly when every coefficient is zero |
| GraphVectors.CountNonZero | gcaops/graph/graph_vector_dict.py:80-84 | the count is the number of keys with a non-zero coefficient |
| GraphVectors.NonZeroKeysEmpty | gcaops/graph/graph_vector_dict.py:80-84 | no key is counted exactly when every coefficient is zero |
| GraphVectors.SupportSize | gcaops/graph/graph_vector_dict.py:80-84 | the nonzero keys in dictionary order are as many as the support |
| GraphVectors.GraphVector.Neg | gcaops/graph/graph_vector_dict.py:88-92 | every coefficient is negated, the keys and their order are kept |
| GraphVectors.GraphVector.Combine | gcaops/graph/graph_vector_dict.py:94-122 | coefficientwise sum or difference; the left keys first, then the right keys not already present, in order |
| GraphVectors.CombineDicts | gcaops/graph/graph_vector_dict.py:97-100 | on the dictionaries: the left keys, then the other's keys not yet present in order; every coefficient the sum (or difference); a key stored exactly when stored in either |
| GraphVectors.CombineLoop | gcaops/graph/graph_vector_dict.py:98-99 | `v[k] += c` over the other's keys appends exactly the keys not yet present, in order, and leaves the step-by-step combination of the coefficients |
| GraphVectors.CombinedSeen | gcaops/graph/graph_vector_dict.py:98-99 | combining over distinct keys changes each key seen by the other's coefficient and keeps every other key as it was |
| GraphVectors.GraphVector.Add | gcaops/graph/graph_vector_dict.py:94-104 | coefficientwise sum |
| GraphVectors.GraphVector.Sub | gcaops/graph/graph_vector_dict.py:112-122 | coefficientwise difference |
| GraphVectors.GraphVector.Scale | gcaops/graph/graph_vector_dict.py:130-140 | every coefficient is multiplied by the scalar, the keys and their order are kept |
| GraphVectors.GraphVector.Eq | gcaops/graph/graph_vector_dict.py:148-156 | equal exactly when every key has the same coefficient in both |
| GraphVectors.GraphVector.Gradings | gcaops/graph/graph_vector_dict.py:158-163 | a grading is listed exactly when some stored key, even with coefficient zero, has it |
| GraphVectors.GraphVector.HomogeneousPart | gcaops/graph/graph_vector_dict.py:165-174 | the part keeps, in order, exactly the stored keys of that grading with their coefficients |
| GraphVectors.HomogeneousEntries | gcaops/graph/graph_vector_dict.py:170-174 | the loop keeps, in order, exactly the keys of that grading, each with its coefficient |
| GraphVectors.PartsPartition | gcaops/graph/graph_vector_dict.py:165-174 | each stored key is in the part of its own grading with its coefficient and in no other part |
| GraphVectors.HomogeneousDistinct | gcaops/graph/graph_vector_dict.py:165-174 | the keys of a homogeneous part are distinct |
| GraphVectors.GraphVector.MapCoefficients | gcaops/graph/graph_vector_dict.py:176-188 | each key maps to f of its coefficient, keys whose result is zero are dropped, the kept keys keep their order, and the parent is the new one when given |
| GraphVectors.GraphVector.InsertionTerms | gcaops/graph/graph_vector_dict.py:190-213 | corrected insertion: each user and victim term, with its key-to-graph sign applied, gives every inserted graph the product of the two signed coefficients |
| GraphVectors.GraphVector.Insertion | gcaops/graph/graph_vector_dict.py:190-213 | the coefficients of the insertion vector are the sums of those corrected terms, and its keys come in the order of their first term |
| GraphVectors.GraphVector.InsertionTermsAsWritten | gcaops/graph/graph_vector_dict.py:196-212 | as written, the terms follow the source's sign handling, given by an independent recursive definition |
| GraphVectors.InsertionSignCounterexample | gcaops/graph/graph_vector_dict.py:204-212 | one user of sign -1 inserted into two victims of sign +1 gives +g1 - g2 as written and -g1 - g2 when corrected |
| GraphVectors.GraphModule.Zero | gcaops/graph/graph_vector_dict.py:253-257 | the zero vector stores no keys |
| GraphVectors.GraphModule.FromGraph | gcaops/graph/graph_vector_dict.py:263-268 | a graph gives its key with the graph-to-key sign, or the zero vector when it has no key |
| GraphVectors.GraphModule.FromTerms | gcaops/graph/graph_vector_dict.py:269-277 | a list of terms gives, at each key, the sum of its terms' signed coefficients; keys met are stored even when they cancel, in the order of their first term |
| GraphVectors.CancellingTerms | gcaops/graph/graph_vector_dict.py:269-277 | a term and its negative cancel to zero, but the key is still stored |
| GraphVectors.SingleTerm | gcaops/graph/graph_vector_dict.py:269-277 | one term gives the graph-to-key sign at its key and nothing elsewhere |

## Left out

- `gcaops/algebra/differential_polynomial_solver.py` and `gcaops/graph/graph_complex.py` are not part of this model.
- The following tools and helpers are not part of this model; they enter only as function parameters:
  - `nauty_generate_formality`'s calls to `geng` and `directg`, and the parsing of their output;
  - Sage's canonical labelling and automorphism groups;
  - `relabeled`;
  - `_insertion_graphs`;
  - `aerial_product`;
  - `has_eye_on_ground`.
- Persistence is not modelled, because it is file-system I/O:
  - the `GCAOPS_DATA_DIR` lookup;
  - SQLite file views;
  - `commit`.
- The following are left out because they need Sage sparse matrices. Only the helpers they loop over are modelled (cyclic permutation and sign, edge redirection, `(-1)^k`):
  - `cyclic_weight_relations`;
  - `eye_on_ground_weight_relations`;
  - `flipping_weight_relations`.
- Coefficient calculus over symbolic rings is not modelled, because coefficients are integers here:
  - derivatives;
  - `__truediv__`;
  - `subs`;
  - `coefficient`;
  - `simplify`.
- `__repr__`, `_latex_`, `graph_properties` and similar printing helpers are not modelled, because they do not compute with graphs.
- PolyDifferentialOperators: the operators are modelled as one flat map from monomials to coefficients. The per-arity outer dictionary, and the empty entry that `__getitem__` creates in it, are not modelled, because only `arity()` can observe them.
- PolyDifferentialOperators.SetItem: takes a tuple of multi-indices. The source also stores a value under a bare multi-index (a tuple of ints) or under a non-tuple wrapped into a 1-tuple. Such a key names no monomial, and the model's map from monomials cannot hold it, so reading it back after such an assignment is not modelled.
- PolyDifferentialOperators.GetAfterSet: does not say that a bare multi-index reads like its 1-tuple. The source looks a bare multi-index up as a tuple of ints, which it does not wrap.
- PolyDifferentialOperators: `_richcmp_` is not modelled, because it compares symbolic coefficients.
- PolyDifferentialOperators: `insertion`, apart from its multiplicity, is not modelled, because it composes symbolic derivatives.
- PolyDifferentialOperators: `__mul__`, `bracket` and `__pow__` are not modelled, because they are built on insertion.
- FormalityGraphSage.Generate: when the generator raises, the model returns the error alone. The graphs it yielded before that point are not modelled: the generator is lazy, and a caller that is iterating sees them before the error.
- Graph filters are modelled as the oracle `keep` passed to generation. These are `formality_graph_is_prime`, the positive differential order test and similar.
- SuperfunctionAlgebras: `__pos__` is not modelled, because it returns the operand.
- The reflected operators `__radd__`, `__rsub__` and `__rmul__` are not modelled, because they forward to the ones modelled.
- GraphVectors: the `other == 0` branches of `__add__`/`__sub__` are not modelled.
- The `NotImplemented` returns are not modelled.
- GraphVectors.GraphModule: calling a module on a `GraphVector` or on `0` is not modelled, because it goes through the term-list path.
- GraphVectors.GraphVector.Insertion: requires key-to-graph to return a graph for every key with a nonzero coefficient. In the source, a missing graph would raise AttributeError.
- `selection_sort` in `gcaops/util/permutation.py` is not part of this model. `Parity.SelectionSort` follows the copy of the same algorithm at `gcaops/algebra/superfunction_algebra.py:274-280`.

## Findings

| source | as written | input that shows it | evidently intended | confidence | as-written member | corrected member |
|---|---|---|---|---|---|---|
| gcaops/algebra/superfunction_algebra.py:171 | `__eq__` tests a whole coefficient list against 0, which never holds, so the first degree visited answers False | `xi_0 == xi_0` with two odd coordinates answers False | equal exactly when every coefficient of the difference is zero | high (not executed) | SuperfunctionAlgebras.EqAsWrittenRejectsEqualOperands | SuperfunctionAlgebras.Eq |
| gcaops/graph/graph_vector_dict.py:204-212 | the user's coefficient is multiplied by the user's key-to-graph sign inside the victim loop, so it alternates across victims; the victim's sign is never applied | a user of coefficient 1 and sign -1 inserted into two victims of coefficient 1 and sign +1 gives +g1 - g2 | every term carries user coefficient × user sign × victim coefficient × victim sign, here -g1 - g2 | medium (not executed) | GraphVectors.InsertionSignCounterexample | GraphVectors.GraphVector.InsertionTerms |
