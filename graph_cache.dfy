/**
 * The graph caches of gcaops/graph/graph_cache.py, on the in-memory path.
 *
 * One dictionary `cache`, declared on the common base class and never
 * redeclared, is shared by the undirected, directed and formality graph
 * caches. A query is looked up under its grading followed by its option
 * values; on a miss the graphs are generated, stored and returned, and on a
 * hit the stored list is returned. The generators themselves (nauty and Sage)
 * are parameters. The directed cache also records, for its first pass, which
 * undirected graph each directed graph is an orientation of.
 */
module GraphCaches {
  import opened Wrappers
  import opened Parity
  import opened Strings
  import opened FormalityGraphSage

  // ---------------------------------------------------------------------------
  // File names
  // ---------------------------------------------------------------------------

  /**
   * The arguments of `options_to_filename`. The callers pass None as well as
   * True and False for `connected` and `biconnected`.
   */
  datatype FilenameOptions = FilenameOptions(
    vertices: int, edges: int, directed: bool, connected: Option<bool>, biconnected: Option<bool>,
    minDegree: int, loops: Option<bool>, hasOddAutomorphism: Option<bool>)

  /** Python truthiness of an optional flag: None and False are both false. */
  predicate Truthy(b: Option<bool>)
  {
    b == Some(true)
  }

  /** The options with `connected` and `biconnected` reduced to the truth value the name records. */
  function Normalized(o: FilenameOptions): FilenameOptions
  {
    o.(connected := Some(Truthy(o.connected)), biconnected := Some(Truthy(o.biconnected)))
  }

  /** The piece of an optional flag: absent for None, otherwise the word for its value. */
  function Choice(o: Option<bool>, yes: string, no: string): seq<string>
  {
    match o
    case None => []
    case Some(b) => if b then [yes] else [no]
  }

  /** A word present only when its flag is set. */
  function Flag(b: bool, word: string): seq<string>
  {
    if b then [word] else []
  }

  /** A letter followed by a number, present only when the value is not None. */
  function TaggedPiece(tag: char, v: Option<int>): seq<string>
  {
    if v.Some? then [[tag] + IntToString(v.value)] else []
  }

  /** `min_degree` appears in the name only when it is not 0. */
  function MinDegreePiece(d: int): Option<int>
  {
    if d != 0 then Some(d) else None
  }

  /** The file name without `.db`, cut at its underscores: vertices and edges, then the optional pieces. */
  function FilenameTokens(o: FilenameOptions): seq<string>
  {
    [if o.directed then "d" else "u", IntToString(o.vertices), IntToString(o.edges)] + FromConnected(o)
  }

  function FromConnected(o: FilenameOptions): seq<string>
  {
    Flag(Truthy(o.connected), "c") + FromBiconnected(o)
  }

  function FromBiconnected(o: FilenameOptions): seq<string>
  {
    Flag(Truthy(o.biconnected), "bc") + FromMinDegree(o)
  }

  function FromMinDegree(o: FilenameOptions): seq<string>
  {
    TaggedPiece('m', MinDegreePiece(o.minDegree)) + FromLoops(o)
  }

  function FromLoops(o: FilenameOptions): seq<string>
  {
    Choice(o.loops, "loops", "noloops") + Choice(o.hasOddAutomorphism, "odd", "even")
  }

  /** The first three pieces joined: a name without optional parts. */
  lemma JoinThree(a: string, b: string, c: string, sep: char)
    ensures Join([a, b, c], sep) == a + [sep] + b + [sep] + c
  {
    assert [a, b, c][1..] == [b, c];
    assert [b, c][1..] == [c];
    assert Join([b, c], sep) == b + [sep] + c;
    assert a + [sep] + (b + [sep] + c) == a + [sep] + b + [sep] + c;
  }

  /** `options_to_filename`: the name is grown piece by piece, each optional piece only when its option is set. */
  method OptionsToFilename(o: FilenameOptions) returns (filename: string)
    ensures filename == Join(FilenameTokens(o), '_') + ".db"
  {
    ghost var full := FilenameTokens(o);
    ghost var tokens := [if o.directed then "d" else "u", IntToString(o.vertices), IntToString(o.edges)];
    filename := (if o.directed then "d" else "u") + "_" + IntToString(o.vertices) + "_" + IntToString(o.edges);
    JoinThree(if o.directed then "d" else "u", IntToString(o.vertices), IntToString(o.edges), '_');
    filename, tokens := AppendFlag(filename, tokens, Truthy(o.connected), "c", FromBiconnected(o), full);
    filename, tokens := AppendFlag(filename, tokens, Truthy(o.biconnected), "bc", FromMinDegree(o), full);
    filename, tokens := AppendTagged(filename, tokens, 'm', MinDegreePiece(o.minDegree), FromLoops(o), full);
    filename, tokens := AppendChoice(filename, tokens, o.loops, "loops", "noloops", Choice(o.hasOddAutomorphism, "odd", "even"), full);
    assert Choice(o.hasOddAutomorphism, "odd", "even") + [] == Choice(o.hasOddAutomorphism, "odd", "even");
    filename, tokens := AppendChoice(filename, tokens, o.hasOddAutomorphism, "odd", "even", [], full);
    assert tokens + [] == tokens;
    filename := filename + ".db";
  }

  /** `if flag: filename += '_' + word`. */
  method AppendFlag(filename: string, ghost tokens: seq<string>, flag: bool, word: string,
                    ghost rest: seq<string>, ghost full: seq<string>)
    returns (filename': string, ghost tokens': seq<string>)
    requires |tokens| > 0 && filename == Join(tokens, '_') && tokens + (Flag(flag, word) + rest) == full
    ensures |tokens'| > 0 && filename' == Join(tokens', '_') && tokens' + rest == full
  {
    if flag {
      Advance(tokens, word, rest, full);
      filename', tokens' := Extend(filename, tokens, word);
    } else {
      Skip(tokens, rest, full);
      filename', tokens' := filename, tokens;
    }
  }

  /** `if v is not None: filename += '_' + yes if v else '_' + no`. */
  method AppendChoice(filename: string, ghost tokens: seq<string>, v: Option<bool>, yes: string, no: string,
                      ghost rest: seq<string>, ghost full: seq<string>)
    returns (filename': string, ghost tokens': seq<string>)
    requires |tokens| > 0 && filename == Join(tokens, '_') && tokens + (Choice(v, yes, no) + rest) == full
    ensures |tokens'| > 0 && filename' == Join(tokens', '_') && tokens' + rest == full
  {
    if v.Some? {
      var piece := if v.value then yes else no;
      Advance(tokens, piece, rest, full);
      filename', tokens' := Extend(filename, tokens, piece);
    } else {
      Skip(tokens, rest, full);
      filename', tokens' := filename, tokens;
    }
  }

  /** `if v is not None: filename += '_{tag}{v}'`. */
  method AppendTagged(filename: string, ghost tokens: seq<string>, tag: char, v: Option<int>,
                      ghost rest: seq<string>, ghost full: seq<string>)
    returns (filename': string, ghost tokens': seq<string>)
    requires |tokens| > 0 && filename == Join(tokens, '_') && tokens + (TaggedPiece(tag, v) + rest) == full
    ensures |tokens'| > 0 && filename' == Join(tokens', '_') && tokens' + rest == full
  {
    if v.Some? {
      var piece := [tag] + IntToString(v.value);
      Advance(tokens, piece, rest, full);
      filename', tokens' := Extend(filename, tokens, piece);
    } else {
      Skip(tokens, rest, full);
      filename', tokens' := filename, tokens;
    }
  }

  /** An absent piece: what is still to come is unchanged. */
  lemma Skip(tokens: seq<string>, rest: seq<string>, full: seq<string>)
    requires tokens + ([] + rest) == full
    ensures tokens + rest == full
  {
    assert [] + rest == rest;
  }

  /** Moving the next piece from what is still to come to what has been written. */
  lemma Advance(tokens: seq<string>, piece: string, rest: seq<string>, full: seq<string>)
    requires tokens + ([piece] + rest) == full
    ensures (tokens + [piece]) + rest == full
  {
    assert tokens + ([piece] + rest) == (tokens + [piece]) + rest;
  }

  /** `filename += '_' + piece`, with the pieces the name is made of. */
  method Extend(filename: string, ghost tokens: seq<string>, piece: string) returns (filename': string, ghost tokens': seq<string>)
    requires |tokens| > 0 && filename == Join(tokens, '_')
    ensures tokens' == tokens + [piece] && filename' == Join(tokens', '_')
  {
    JoinSnoc(tokens, piece, '_');
    filename' := filename + "_" + piece;
    tokens' := tokens + [piece];
  }

  /** Whether the word heads `ts`. */
  function FlagOf(ts: seq<string>, word: string): bool
  {
    |ts| > 0 && ts[0] == word
  }

  /** The optional flag whose word, if any, heads `ts`. */
  function ChoiceOf(ts: seq<string>, yes: string, no: string): Option<bool>
  {
    if |ts| > 0 && ts[0] == yes then Some(true)
    else if |ts| > 0 && ts[0] == no then Some(false)
    else None
  }

  /** The integer after the letter `tag` when the first piece is that letter followed by a number. */
  function Tagged(ts: seq<string>, tag: char): Option<int>
  {
    if |ts| > 0 && |ts[0]| > 0 && ts[0][0] == tag then Some(ParseInt(ts[0][1..])) else None
  }

  /** `ts` without its first piece when a flag or an option was read from it. */
  function Drop(ts: seq<string>, read: bool): seq<string>
  {
    if read && |ts| > 0 then ts[1..] else ts
  }

  /** Reads the options back from the pieces of a file name made by `options_to_filename`. */
  function DecodeTokens(ts: seq<string>): Option<FilenameOptions>
  {
    if |ts| < 3 || (ts[0] != "u" && ts[0] != "d") then None
    else DecodeOptional(ts[3..], ts[0] == "d", ParseInt(ts[1]), ParseInt(ts[2]))
  }

  /** Reads the optional pieces after the grading, in the order they are written. */
  function DecodeOptional(r0: seq<string>, directed: bool, vertices: int, edges: int): Option<FilenameOptions>
  {
    var connected := FlagOf(r0, "c");
    var r1 := Drop(r0, connected);
    var biconnected := FlagOf(r1, "bc");
    var r2 := Drop(r1, biconnected);
    var minDegree := Tagged(r2, 'm');
    var r3 := Drop(r2, minDegree.Some?);
    var loops := ChoiceOf(r3, "loops", "noloops");
    var r4 := Drop(r3, loops.Some?);
    var odd := ChoiceOf(r4, "odd", "even");
    var r5 := Drop(r4, odd.Some?);
    if r5 != [] then None
    else Some(FilenameOptions(vertices, edges, directed, Some(connected), Some(biconnected),
                              if minDegree.Some? then minDegree.value else 0, loops, odd))
  }

  /** Reads the options back from a file name made by `options_to_filename`. */
  function DecodeFilename(name: string): Option<FilenameOptions>
  {
    if |name| < 3 || name[|name| - 3..] != ".db" then None
    else DecodeTokens(Split(name[..|name| - 3], '_'))
  }

  /** The first piece of a list of pieces, or the empty string when there is none. */
  function Head(ts: seq<string>): string
  {
    if |ts| > 0 then ts[0] else ""
  }

  /** Reading a flag in front of pieces that do not start with its word. */
  lemma FlagStep(b: bool, word: string, rest: seq<string>)
    requires Head(rest) != word
    ensures FlagOf(Flag(b, word) + rest, word) == b
    ensures Drop(Flag(b, word) + rest, b) == rest
  {
    if !b {
      assert Flag(b, word) + rest == rest;
    }
  }

  /** Reading an optional flag in front of pieces that start with neither of its words. */
  lemma ChoiceStep(o: Option<bool>, yes: string, no: string, rest: seq<string>)
    requires yes != no && Head(rest) != yes && Head(rest) != no
    ensures ChoiceOf(Choice(o, yes, no) + rest, yes, no) == o
    ensures Drop(Choice(o, yes, no) + rest, o.Some?) == rest
  {
    if o.None? {
      assert Choice(o, yes, no) + rest == rest;
    }
  }

  /** Reading a tagged number in front of pieces that do not start with its letter. */
  lemma TaggedStep(tag: char, v: Option<int>, rest: seq<string>)
    requires tag != '-' && !('0' <= tag <= '9')
    requires |Head(rest)| == 0 || Head(rest)[0] != tag
    ensures Tagged(TaggedPiece(tag, v) + rest, tag) == v
    ensures Drop(TaggedPiece(tag, v) + rest, v.Some?) == rest
  {
    if v.Some? {
      var piece := [tag] + IntToString(v.value);
      assert (TaggedPiece(tag, v) + rest)[0] == piece;
      assert piece[1..] == IntToString(v.value);
      ParseIntToString(v.value);
    } else {
      assert TaggedPiece(tag, v) + rest == rest;
    }
  }

  /** The first piece after a tagged number: the tagged piece, or what follows. */
  lemma TaggedHead(tag: char, v: Option<int>, rest: seq<string>)
    ensures v.Some? ==> |Head(TaggedPiece(tag, v) + rest)| > 0 && Head(TaggedPiece(tag, v) + rest)[0] == tag
    ensures v.None? ==> Head(TaggedPiece(tag, v) + rest) == Head(rest)
  {
    if v.None? {
      assert TaggedPiece(tag, v) + rest == rest;
    }
  }

  /** No piece of a file name contains the underscore that separates them. */
  lemma TaggedPieceNoUnderscore(tag: char, v: Option<int>)
    requires tag != '_'
    ensures forall k :: 0 <= k < |TaggedPiece(tag, v)| ==> '_' !in TaggedPiece(tag, v)[k]
  {
  }

  lemma FromLoopsRoundTrip(o: FilenameOptions)
    ensures Head(FromLoops(o)) in {"", "loops", "noloops", "odd", "even"}
    ensures ChoiceOf(FromLoops(o), "loops", "noloops") == o.loops
    ensures ChoiceOf(Drop(FromLoops(o), o.loops.Some?), "odd", "even") == o.hasOddAutomorphism
    ensures Drop(Drop(FromLoops(o), o.loops.Some?), o.hasOddAutomorphism.Some?) == []
  {
    var p := Choice(o.hasOddAutomorphism, "odd", "even");
    ChoiceStep(o.hasOddAutomorphism, "odd", "even", []);
    assert p + [] == p;
    ChoiceStep(o.loops, "loops", "noloops", p);
  }

  lemma FromMinDegreeRoundTrip(o: FilenameOptions)
    ensures Head(FromMinDegree(o)) != "bc" && Head(FromMinDegree(o)) != "c"
    ensures Tagged(FromMinDegree(o), 'm') == MinDegreePiece(o.minDegree)
    ensures Drop(FromMinDegree(o), MinDegreePiece(o.minDegree).Some?) == FromLoops(o)
  {
    FromLoopsRoundTrip(o);
    TaggedStep('m', MinDegreePiece(o.minDegree), FromLoops(o));
    TaggedHead('m', MinDegreePiece(o.minDegree), FromLoops(o));
  }

  lemma FromBiconnectedRoundTrip(o: FilenameOptions)
    ensures Head(FromBiconnected(o)) != "c"
    ensures FlagOf(FromBiconnected(o), "bc") == Truthy(o.biconnected)
    ensures Drop(FromBiconnected(o), Truthy(o.biconnected)) == FromMinDegree(o)
  {
    FromMinDegreeRoundTrip(o);
    FlagStep(Truthy(o.biconnected), "bc", FromMinDegree(o));
    if !Truthy(o.biconnected) {
      assert FromBiconnected(o) == FromMinDegree(o);
    }
  }

  lemma FromConnectedRoundTrip(o: FilenameOptions)
    ensures FlagOf(FromConnected(o), "c") == Truthy(o.connected)
    ensures Drop(FromConnected(o), Truthy(o.connected)) == FromBiconnected(o)
  {
    FromBiconnectedRoundTrip(o);
    FlagStep(Truthy(o.connected), "c", FromBiconnected(o));
  }

  /** Reading the optional pieces gives back the options they were written from. */
  lemma OptionalRoundTrip(o: FilenameOptions)
    ensures DecodeOptional(FromConnected(o), o.directed, o.vertices, o.edges) == Some(Normalized(o))
  {
    FromConnectedRoundTrip(o);
    FromBiconnectedRoundTrip(o);
    FromMinDegreeRoundTrip(o);
    FromLoopsRoundTrip(o);
  }

  lemma FilenameTokensNoUnderscore(o: FilenameOptions)
    ensures forall k :: 0 <= k < |FilenameTokens(o)| ==> '_' !in FilenameTokens(o)[k]
  {
    ChoiceNoUnderscore(o.loops, "loops", "noloops");
    ChoiceNoUnderscore(o.hasOddAutomorphism, "odd", "even");
    ConcatNoUnderscore(Choice(o.loops, "loops", "noloops"), Choice(o.hasOddAutomorphism, "odd", "even"));
    TaggedPieceNoUnderscore('m', MinDegreePiece(o.minDegree));
    ConcatNoUnderscore(TaggedPiece('m', MinDegreePiece(o.minDegree)), FromLoops(o));
    ConcatNoUnderscore(Flag(Truthy(o.biconnected), "bc"), FromMinDegree(o));
    ConcatNoUnderscore(Flag(Truthy(o.connected), "c"), FromBiconnected(o));
    ConcatNoUnderscore([if o.directed then "d" else "u", IntToString(o.vertices), IntToString(o.edges)], FromConnected(o));
  }

  /**
   * The file name determines every option up to the truth value of `connected`
   * and `biconnected`: reading it back gives the options it was made from, with
   * None read as False.
   */
  lemma FilenameRoundTrip(o: FilenameOptions)
    ensures DecodeFilename(Join(FilenameTokens(o), '_') + ".db") == Some(Normalized(o))
  {
    FilenameTokensNoUnderscore(o);
    DbNameTokens(FilenameTokens(o));
    TokensRoundTrip(o);
  }

  /** Reading the pieces back from the file name they were joined into. */
  lemma DbNameTokens(ts: seq<string>)
    requires |ts| > 0 && forall k :: 0 <= k < |ts| ==> '_' !in ts[k]
    ensures var name := Join(ts, '_') + ".db";
      |name| >= 3 && name[|name| - 3..] == ".db" && Split(name[..|name| - 3], '_') == ts
  {
    var name := Join(ts, '_') + ".db";
    assert name[..|name| - 3] == Join(ts, '_');
    SplitJoin(ts, '_');
  }

  lemma TokensRoundTrip(o: FilenameOptions)
    ensures DecodeTokens(FilenameTokens(o)) == Some(Normalized(o))
  {
    var ts := FilenameTokens(o);
    assert ts[3..] == FromConnected(o);
    ParseIntToString(o.vertices);
    ParseIntToString(o.edges);
    OptionalRoundTrip(o);
  }

  /**
   * Two option sets share a file exactly when they agree up to the truth value
   * of `connected` and `biconnected`, so a None and a False flag share one.
   */
  lemma FilenameInjective(o1: FilenameOptions, o2: FilenameOptions)
    ensures (Join(FilenameTokens(o1), '_') + ".db" == Join(FilenameTokens(o2), '_') + ".db")
        <==> Normalized(o1) == Normalized(o2)
  {
    FilenameRoundTrip(o1);
    FilenameRoundTrip(o2);
    if Normalized(o1) == Normalized(o2) {
      NormalizedTokens(o1);
      NormalizedTokens(o2);
    }
  }

  /** The name depends on `connected` and `biconnected` only through their truth values. */
  lemma NormalizedTokens(o: FilenameOptions)
    ensures FilenameTokens(Normalized(o)) == FilenameTokens(o)
  {
    var n := Normalized(o);
    assert FromBiconnected(n) == FromBiconnected(o);
  }

  /**
   * The options of a formality graph query, in the order of the cache key:
   * connected, maximal out-degree, number of vertices of maximal out-degree,
   * sorted out-degrees, maximal aerial in-degree, loops, primality, odd
   * automorphism, positive differential order, modulo ground permutations.
   */
  datatype FormalityOptions = FormalityOptions(
    connected: Option<bool>, maxOutDegree: Option<int>, numVertsOfMaxOutDegree: Option<int>,
    sortedOutDegrees: Option<seq<int>>, maxAerialInDegree: Option<int>, loops: Option<bool>,
    prime: Option<bool>, hasOddAutomorphism: Option<bool>, positiveDifferentialOrder: Option<bool>,
    modGroundPermutations: bool)

  /** The decimal forms of the numbers in `ds`. */
  function NumberPieces(ds: seq<int>): (r: seq<string>)
    ensures |r| == |ds|
    ensures forall k :: 0 <= k < |r| ==> r[k] == IntToString(ds[k])
  {
    seq(|ds|, k requires 0 <= k < |ds| => IntToString(ds[k]))
  }

  /** `'_'.join(str(d) for d in ds)` cut at its underscores; the empty list joins to one empty piece. */
  function IntTokens(ds: seq<int>): (r: seq<string>)
    ensures |r| > 0
    ensures forall k :: 0 <= k < |r| ==> '_' !in r[k]
  {
    if |ds| == 0 then [""] else NumberPieces(ds)
  }

  /** `_sod_` and the degrees, present only when sorted out-degrees are given. */
  function DegreesPiece(sod: Option<seq<int>>): seq<string>
  {
    if sod.Some? then ["sod"] + IntTokens(sod.value) else []
  }

  /** The pieces that may follow the sorted out-degrees, and their suffixes. */
  function AfterDegrees(o: FormalityOptions): seq<string>
  {
    Choice(o.loops, "loops", "noloops") + AfterLoops(o)
  }

  function AfterLoops(o: FormalityOptions): seq<string>
  {
    Choice(o.prime, "prime", "composite") + AfterPrime(o)
  }

  function AfterPrime(o: FormalityOptions): seq<string>
  {
    Choice(o.hasOddAutomorphism, "odd", "even") + AfterOdd(o)
  }

  function AfterOdd(o: FormalityOptions): seq<string>
  {
    Choice(o.positiveDifferentialOrder, "pdo", "npdo") + Flag(o.modGroundPermutations, "modground")
  }

  /** The pieces of the name `formality_options_to_filename` gives, in its order (which is not the key order). */
  function FormalityFilenameTokens(gv: int, av: int, e: int, o: FormalityOptions): seq<string>
  {
    ["f", IntToString(gv), IntToString(av), IntToString(e)] + FromConnectivity(o)
  }

  function FromConnectivity(o: FormalityOptions): seq<string>
  {
    Choice(o.connected, "c", "nc") + FromMaxOutDegree(o)
  }

  function FromMaxOutDegree(o: FormalityOptions): seq<string>
  {
    TaggedPiece('D', o.maxOutDegree) + FromNumVerts(o)
  }

  function FromNumVerts(o: FormalityOptions): seq<string>
  {
    TaggedPiece('M', o.numVertsOfMaxOutDegree) + FromMaxAerialInDegree(o)
  }

  function FromMaxAerialInDegree(o: FormalityOptions): seq<string>
  {
    TaggedPiece('U', o.maxAerialInDegree) + FromDegrees(o)
  }

  function FromDegrees(o: FormalityOptions): seq<string>
  {
    DegreesPiece(o.sortedOutDegrees) + AfterDegrees(o)
  }

  /** One more number joined: its decimal form follows an underscore. */
  lemma JoinDegreesSnoc(ds: seq<int>, k: nat)
    requires 1 <= k < |ds|
    ensures Join(IntTokens(ds[..k + 1]), '_') == Join(IntTokens(ds[..k]), '_') + "_" + IntToString(ds[k])
  {
    assert NumberPieces(ds[..k + 1]) == NumberPieces(ds[..k]) + [IntToString(ds[k])];
    JoinSnoc(NumberPieces(ds[..k]), IntToString(ds[k]), '_');
  }

  /** `'_'.join([str(d) for d in ds])`, one number after the other. */
  method JoinDegrees(ds: seq<int>) returns (s: string)
    ensures s == Join(IntTokens(ds), '_')
  {
    s := "";
    if |ds| == 0 {
      return;
    }
    s := IntToString(ds[0]);
    assert NumberPieces(ds[..1]) == [IntToString(ds[0])];
    var k := 1;
    while k < |ds|
      invariant 1 <= k <= |ds|
      invariant s == Join(IntTokens(ds[..k]), '_')
    {
      JoinDegreesSnoc(ds, k);
      s := s + "_" + IntToString(ds[k]);
      k := k + 1;
    }
    assert ds[..k] == ds;
  }

  lemma {:induction false} JoinAppend(ts: seq<string>, us: seq<string>, sep: char)
    requires |ts| > 0 && |us| > 0
    ensures Join(ts + us, sep) == Join(ts, sep) + [sep] + Join(us, sep)
  {
    if |ts| == 1 {
      assert (ts + us)[1..] == us;
    } else {
      assert (ts + us)[1..] == ts[1..] + us;
      JoinAppend(ts[1..], us, sep);
    }
  }

  /** The first four pieces joined. */
  lemma JoinFour(a: string, b: string, c: string, d: string, sep: char)
    ensures Join([a, b, c, d], sep) == a + [sep] + b + [sep] + c + [sep] + d
  {
    assert [a, b, c, d][1..] == [b, c, d];
    JoinThree(b, c, d, sep);
    assert a + [sep] + (b + [sep] + c + [sep] + d) == a + [sep] + b + [sep] + c + [sep] + d;
  }

  /** `formality_options_to_filename`, grown piece by piece like `OptionsToFilename`. */
  method FormalityOptionsToFilename(gv: int, av: int, e: int, o: FormalityOptions) returns (filename: string)
    ensures filename == Join(FormalityFilenameTokens(gv, av, e, o), '_') + ".db"
  {
    ghost var full := FormalityFilenameTokens(gv, av, e, o);
    ghost var tokens;
    filename, tokens := FormalityGrading(gv, av, e);
    filename, tokens := AppendChoice(filename, tokens, o.connected, "c", "nc", FromMaxOutDegree(o), full);
    filename, tokens := AppendTagged(filename, tokens, 'D', o.maxOutDegree, FromNumVerts(o), full);
    filename, tokens := AppendTagged(filename, tokens, 'M', o.numVertsOfMaxOutDegree, FromMaxAerialInDegree(o), full);
    filename, tokens := AppendTagged(filename, tokens, 'U', o.maxAerialInDegree, FromDegrees(o), full);
    filename, tokens := AppendDegrees(filename, tokens, o.sortedOutDegrees, AfterDegrees(o), full);
    filename := AppendAfterDegrees(filename, tokens, o, full);
    filename := filename + ".db";
  }

  /** `f_{gv}_{av}_{e}`: the first four pieces of a formality graph file name. */
  method FormalityGrading(gv: int, av: int, e: int) returns (filename: string, ghost tokens: seq<string>)
    ensures tokens == ["f", IntToString(gv), IntToString(av), IntToString(e)]
    ensures filename == Join(tokens, '_')
  {
    tokens := ["f", IntToString(gv), IntToString(av), IntToString(e)];
    var g, a, n := IntToString(gv), IntToString(av), IntToString(e);
    filename := "f_" + g + "_" + a + "_" + n;
    JoinFour("f", g, a, n, '_');
    assert "f_" == "f" + ['_'];
  }

  /** The optional flags after the sorted out-degrees, which complete the name. */
  method AppendAfterDegrees(filename: string, ghost tokens: seq<string>, o: FormalityOptions, ghost full: seq<string>)
    returns (filename': string)
    requires |tokens| > 0 && filename == Join(tokens, '_') && tokens + AfterDegrees(o) == full
    ensures filename' == Join(full, '_')
  {
    ghost var t := tokens;
    filename', t := AppendChoice(filename, t, o.loops, "loops", "noloops", AfterLoops(o), full);
    filename', t := AppendChoice(filename', t, o.prime, "prime", "composite", AfterPrime(o), full);
    filename', t := AppendChoice(filename', t, o.hasOddAutomorphism, "odd", "even", AfterOdd(o), full);
    filename', t := AppendChoice(filename', t, o.positiveDifferentialOrder, "pdo", "npdo",
                                 Flag(o.modGroundPermutations, "modground"), full);
    assert Flag(o.modGroundPermutations, "modground") + [] == Flag(o.modGroundPermutations, "modground");
    filename', t := AppendFlag(filename', t, o.modGroundPermutations, "modground", [], full);
    assert t + [] == t;
  }

  /** `if sod is not None: filename += '_sod_' + '_'.join(str(d) for d in sod)`. */
  method AppendDegrees(filename: string, ghost tokens: seq<string>, sod: Option<seq<int>>,
                       ghost rest: seq<string>, ghost full: seq<string>)
    returns (filename': string, ghost tokens': seq<string>)
    requires |tokens| > 0 && filename == Join(tokens, '_') && tokens + (DegreesPiece(sod) + rest) == full
    ensures |tokens'| > 0 && filename' == Join(tokens', '_') && tokens' + rest == full
  {
    if sod.Some? {
      var degrees := JoinDegrees(sod.value);
      assert DegreesPiece(sod) + rest == ["sod"] + (IntTokens(sod.value) + rest);
      Advance(tokens, "sod", IntTokens(sod.value) + rest, full);
      filename', tokens' := Extend(filename, tokens, "sod");
      AdvanceAll(tokens', IntTokens(sod.value), rest, full);
      filename', tokens' := ExtendAll(filename', tokens', IntTokens(sod.value), degrees);
    } else {
      Skip(tokens, rest, full);
      filename', tokens' := filename, tokens;
    }
  }

  lemma AdvanceAll(tokens: seq<string>, pieces: seq<string>, rest: seq<string>, full: seq<string>)
    requires tokens + (pieces + rest) == full
    ensures (tokens + pieces) + rest == full
  {
    assert tokens + (pieces + rest) == (tokens + pieces) + rest;
  }

  /** `filename += '_' + joined` where `joined` is the pieces joined by underscores. */
  method ExtendAll(filename: string, ghost tokens: seq<string>, ghost pieces: seq<string>, joined: string)
    returns (filename': string, ghost tokens': seq<string>)
    requires |tokens| > 0 && |pieces| > 0 && filename == Join(tokens, '_') && joined == Join(pieces, '_')
    ensures tokens' == tokens + pieces && filename' == Join(tokens', '_')
  {
    JoinAppend(tokens, pieces, '_');
    filename' := filename + "_" + joined;
    tokens' := tokens + pieces;
  }

  /** A piece that reads as a number: a digit or a minus sign first. */
  predicate IsNumberPiece(t: string)
  {
    |t| > 0 && (t[0] == '-' || '0' <= t[0] <= '9')
  }

  /** The numbers that head `ts`, and what follows them. */
  function TakeNumbers(ts: seq<string>): (seq<int>, seq<string>)
  {
    if |ts| > 0 && IsNumberPiece(ts[0]) then
      var (ds, rest) := TakeNumbers(ts[1..]);
      ([ParseInt(ts[0])] + ds, rest)
    else ([], ts)
  }

  /** The sorted out-degrees after a `sod` piece: one empty piece stands for the empty list. */
  function Degrees(ts: seq<string>): (Option<seq<int>>, seq<string>)
  {
    if |ts| > 0 && ts[0] == "sod" then
      if |ts| > 1 && ts[1] == "" then (Some([]), ts[2..])
      else
        var (ds, rest) := TakeNumbers(ts[1..]);
        (Some(ds), rest)
    else (None, ts)
  }

  /** Reads the grading and the options back from the pieces of a formality graph file name. */
  function DecodeFormalityTokens(ts: seq<string>): Option<(int, int, int, FormalityOptions)>
  {
    if |ts| < 4 || ts[0] != "f" then None
    else
      match DecodeConnectivity(ts[4..])
      case None => None
      case Some(o) => Some((ParseInt(ts[1]), ParseInt(ts[2]), ParseInt(ts[3]), o))
  }

  /** Reads the options from the pieces after the grading, in the order they are written. */
  function DecodeConnectivity(r0: seq<string>): Option<FormalityOptions>
  {
    var connected := ChoiceOf(r0, "c", "nc");
    var r1 := Drop(r0, connected.Some?);
    var maxOut := Tagged(r1, 'D');
    var r2 := Drop(r1, maxOut.Some?);
    var numMax := Tagged(r2, 'M');
    var r3 := Drop(r2, numMax.Some?);
    var maxIn := Tagged(r3, 'U');
    var r4 := Drop(r3, maxIn.Some?);
    var (sod, r5) := Degrees(r4);
    match DecodeAfterDegrees(r5)
    case None => None
    case Some((loops, prime, odd, pdo, modGround)) =>
      Some(FormalityOptions(connected, maxOut, numMax, sod, maxIn, loops, prime, odd, pdo, modGround))
  }

  /** Reads the flags that follow the sorted out-degrees; nothing may follow them. */
  function DecodeAfterDegrees(r5: seq<string>): Option<(Option<bool>, Option<bool>, Option<bool>, Option<bool>, bool)>
  {
    var loops := ChoiceOf(r5, "loops", "noloops");
    var r6 := Drop(r5, loops.Some?);
    var prime := ChoiceOf(r6, "prime", "composite");
    var r7 := Drop(r6, prime.Some?);
    var odd := ChoiceOf(r7, "odd", "even");
    var r8 := Drop(r7, odd.Some?);
    var pdo := ChoiceOf(r8, "pdo", "npdo");
    var r9 := Drop(r8, pdo.Some?);
    var modGround := FlagOf(r9, "modground");
    var r10 := Drop(r9, modGround);
    if r10 != [] then None else Some((loops, prime, odd, pdo, modGround))
  }

  /** Reads the grading and the options back from a formality graph file name. */
  function DecodeFormalityFilename(name: string): Option<(int, int, int, FormalityOptions)>
  {
    if |name| < 3 || name[|name| - 3..] != ".db" then None
    else DecodeFormalityTokens(Split(name[..|name| - 3], '_'))
  }

  lemma {:induction false} TakeNumbersOf(ds: seq<int>, rest: seq<string>)
    requires |rest| > 0 ==> !IsNumberPiece(rest[0])
    ensures TakeNumbers(NumberPieces(ds) + rest) == (ds, rest)
  {
    if |ds| == 0 {
      assert NumberPieces(ds) + rest == rest;
    } else {
      assert (NumberPieces(ds) + rest)[1..] == NumberPieces(ds[1..]) + rest;
      TakeNumbersOf(ds[1..], rest);
      ParseIntToString(ds[0]);
      assert [ds[0]] + ds[1..] == ds;
    }
  }

  lemma {:induction false} DegreesStep(sod: Option<seq<int>>, rest: seq<string>)
    requires |rest| > 0 ==> rest[0] != "sod" && !IsNumberPiece(rest[0]) && rest[0] != ""
    ensures Degrees(DegreesPiece(sod) + rest) == (sod, rest)
  {
    if sod.None? {
      assert DegreesPiece(sod) + rest == rest;
    } else if |sod.value| == 0 {
      DegreesOfEmpty(rest);
    } else {
      DegreesOfNumbers(sod.value, rest);
    }
  }

  lemma DegreesOfEmpty(rest: seq<string>)
    ensures Degrees(["sod", ""] + rest) == (Some([]), rest)
  {
    var ts := ["sod", ""] + rest;
    assert ts[0] == "sod" && ts[1] == "";
    assert ts[2..] == rest;
  }

  lemma {:induction false} DegreesOfNumbers(ds: seq<int>, rest: seq<string>)
    requires |ds| > 0
    requires |rest| > 0 ==> !IsNumberPiece(rest[0])
    ensures Degrees(["sod"] + NumberPieces(ds) + rest) == (Some(ds), rest)
  {
    var pieces := NumberPieces(ds) + rest;
    var ts := ["sod"] + NumberPieces(ds) + rest;
    assert ts == ["sod"] + pieces;
    assert pieces[0] == IntToString(ds[0]);
    assert ts[0] == "sod" && ts[1..] == pieces && ts[1] == pieces[0];
    TakeNumbersOf(ds, rest);
  }

  lemma AfterOddRoundTrip(o: FormalityOptions)
    ensures Head(AfterOdd(o)) in {"", "pdo", "npdo", "modground"}
    ensures ChoiceOf(AfterOdd(o), "pdo", "npdo") == o.positiveDifferentialOrder
    ensures FlagOf(Drop(AfterOdd(o), o.positiveDifferentialOrder.Some?), "modground") == o.modGroundPermutations
    ensures Drop(Drop(AfterOdd(o), o.positiveDifferentialOrder.Some?), o.modGroundPermutations) == []
  {
    var p := Flag(o.modGroundPermutations, "modground");
    FlagStep(o.modGroundPermutations, "modground", []);
    assert p + [] == p;
    ChoiceStep(o.positiveDifferentialOrder, "pdo", "npdo", p);
  }

  lemma AfterPrimeRoundTrip(o: FormalityOptions)
    ensures Head(AfterPrime(o)) in {"", "pdo", "npdo", "modground", "odd", "even"}
    ensures ChoiceOf(AfterPrime(o), "odd", "even") == o.hasOddAutomorphism
    ensures Drop(AfterPrime(o), o.hasOddAutomorphism.Some?) == AfterOdd(o)
  {
    AfterOddRoundTrip(o);
    ChoiceStep(o.hasOddAutomorphism, "odd", "even", AfterOdd(o));
  }

  lemma AfterLoopsRoundTrip(o: FormalityOptions)
    ensures Head(AfterLoops(o)) in {"", "pdo", "npdo", "modground", "odd", "even", "prime", "composite"}
    ensures ChoiceOf(AfterLoops(o), "prime", "composite") == o.prime
    ensures Drop(AfterLoops(o), o.prime.Some?) == AfterPrime(o)
  {
    AfterPrimeRoundTrip(o);
    ChoiceStep(o.prime, "prime", "composite", AfterPrime(o));
  }

  lemma AfterDegreesHead(o: FormalityOptions)
    ensures Head(AfterDegrees(o)) in {"", "pdo", "npdo", "modground", "odd", "even", "prime", "composite", "loops", "noloops"}
    ensures ChoiceOf(AfterDegrees(o), "loops", "noloops") == o.loops
    ensures Drop(AfterDegrees(o), o.loops.Some?) == AfterLoops(o)
  {
    AfterLoopsRoundTrip(o);
    ChoiceStep(o.loops, "loops", "noloops", AfterLoops(o));
  }

  /** Reading the pieces after the sorted out-degrees gives back their options. */
  lemma AfterDegreesRoundTrip(o: FormalityOptions)
    ensures DecodeAfterDegrees(AfterDegrees(o))
            == Some((o.loops, o.prime, o.hasOddAutomorphism, o.positiveDifferentialOrder, o.modGroundPermutations))
  {
    AfterDegreesHead(o);
    AfterLoopsRoundTrip(o);
    AfterPrimeRoundTrip(o);
    AfterOddRoundTrip(o);
  }

  lemma FromDegreesRoundTrip(o: FormalityOptions)
    ensures Head(FromDegrees(o)) != "c" && Head(FromDegrees(o)) != "nc"
    ensures |Head(FromDegrees(o))| == 0 || Head(FromDegrees(o))[0] !in {'D', 'M', 'U'}
    ensures Degrees(FromDegrees(o)) == (o.sortedOutDegrees, AfterDegrees(o))
  {
    AfterDegreesHead(o);
    var h := Head(AfterDegrees(o));
    assert |AfterDegrees(o)| > 0 ==> AfterDegrees(o)[0] == h;
    DegreesStep(o.sortedOutDegrees, AfterDegrees(o));
    if o.sortedOutDegrees.None? {
      assert FromDegrees(o) == AfterDegrees(o);
    }
  }

  lemma FromMaxAerialInDegreeRoundTrip(o: FormalityOptions)
    ensures Head(FromMaxAerialInDegree(o)) != "c" && Head(FromMaxAerialInDegree(o)) != "nc"
    ensures |Head(FromMaxAerialInDegree(o))| == 0 || Head(FromMaxAerialInDegree(o))[0] !in {'D', 'M'}
    ensures Tagged(FromMaxAerialInDegree(o), 'U') == o.maxAerialInDegree
    ensures Drop(FromMaxAerialInDegree(o), o.maxAerialInDegree.Some?) == FromDegrees(o)
  {
    FromDegreesRoundTrip(o);
    TaggedStep('U', o.maxAerialInDegree, FromDegrees(o));
    TaggedHead('U', o.maxAerialInDegree, FromDegrees(o));
  }

  lemma FromNumVertsRoundTrip(o: FormalityOptions)
    ensures Head(FromNumVerts(o)) != "c" && Head(FromNumVerts(o)) != "nc"
    ensures |Head(FromNumVerts(o))| == 0 || Head(FromNumVerts(o))[0] != 'D'
    ensures Tagged(FromNumVerts(o), 'M') == o.numVertsOfMaxOutDegree
    ensures Drop(FromNumVerts(o), o.numVertsOfMaxOutDegree.Some?) == FromMaxAerialInDegree(o)
  {
    FromMaxAerialInDegreeRoundTrip(o);
    TaggedStep('M', o.numVertsOfMaxOutDegree, FromMaxAerialInDegree(o));
    TaggedHead('M', o.numVertsOfMaxOutDegree, FromMaxAerialInDegree(o));
  }

  lemma FromMaxOutDegreeRoundTrip(o: FormalityOptions)
    ensures Head(FromMaxOutDegree(o)) != "c" && Head(FromMaxOutDegree(o)) != "nc"
    ensures Tagged(FromMaxOutDegree(o), 'D') == o.maxOutDegree
    ensures Drop(FromMaxOutDegree(o), o.maxOutDegree.Some?) == FromNumVerts(o)
  {
    FromNumVertsRoundTrip(o);
    TaggedStep('D', o.maxOutDegree, FromNumVerts(o));
    TaggedHead('D', o.maxOutDegree, FromNumVerts(o));
  }

  /** Reading the pieces after the grading gives back the options. */
  lemma ConnectivityRoundTrip(o: FormalityOptions)
    ensures DecodeConnectivity(FromConnectivity(o)) == Some(o)
  {
    FromMaxOutDegreeRoundTrip(o);
    ChoiceStep(o.connected, "c", "nc", FromMaxOutDegree(o));
    FromNumVertsRoundTrip(o);
    FromMaxAerialInDegreeRoundTrip(o);
    FromDegreesRoundTrip(o);
    AfterDegreesRoundTrip(o);
  }

  /** The words of a file name are all free of underscores. */
  lemma ChoiceNoUnderscore(o: Option<bool>, yes: string, no: string)
    requires '_' !in yes && '_' !in no
    ensures forall k :: 0 <= k < |Choice(o, yes, no)| ==> '_' !in Choice(o, yes, no)[k]
  {
  }

  lemma {:induction false} ConcatNoUnderscore(a: seq<string>, b: seq<string>)
    requires forall k :: 0 <= k < |a| ==> '_' !in a[k]
    requires forall k :: 0 <= k < |b| ==> '_' !in b[k]
    ensures forall k :: 0 <= k < |a + b| ==> '_' !in (a + b)[k]
  {
    forall k | 0 <= k < |a + b| ensures '_' !in (a + b)[k] {
      if k < |a| {
        assert (a + b)[k] == a[k];
      } else {
        assert (a + b)[k] == b[k - |a|];
      }
    }
  }

  lemma AfterDegreesNoUnderscore(o: FormalityOptions)
    ensures forall k :: 0 <= k < |AfterDegrees(o)| ==> '_' !in AfterDegrees(o)[k]
  {
    ChoiceNoUnderscore(o.positiveDifferentialOrder, "pdo", "npdo");
    ConcatNoUnderscore(Choice(o.positiveDifferentialOrder, "pdo", "npdo"), Flag(o.modGroundPermutations, "modground"));
    ChoiceNoUnderscore(o.hasOddAutomorphism, "odd", "even");
    ConcatNoUnderscore(Choice(o.hasOddAutomorphism, "odd", "even"), AfterOdd(o));
    ChoiceNoUnderscore(o.prime, "prime", "composite");
    ConcatNoUnderscore(Choice(o.prime, "prime", "composite"), AfterPrime(o));
    ChoiceNoUnderscore(o.loops, "loops", "noloops");
    ConcatNoUnderscore(Choice(o.loops, "loops", "noloops"), AfterLoops(o));
  }

  lemma FormalityTokensNoUnderscore(gv: int, av: int, e: int, o: FormalityOptions)
    ensures forall k :: 0 <= k < |FormalityFilenameTokens(gv, av, e, o)| ==> '_' !in FormalityFilenameTokens(gv, av, e, o)[k]
  {
    AfterDegreesNoUnderscore(o);
    ConcatNoUnderscore(DegreesPiece(o.sortedOutDegrees), AfterDegrees(o));
    TaggedPieceNoUnderscore('U', o.maxAerialInDegree);
    ConcatNoUnderscore(TaggedPiece('U', o.maxAerialInDegree), FromDegrees(o));
    TaggedPieceNoUnderscore('M', o.numVertsOfMaxOutDegree);
    ConcatNoUnderscore(TaggedPiece('M', o.numVertsOfMaxOutDegree), FromMaxAerialInDegree(o));
    TaggedPieceNoUnderscore('D', o.maxOutDegree);
    ConcatNoUnderscore(TaggedPiece('D', o.maxOutDegree), FromNumVerts(o));
    ChoiceNoUnderscore(o.connected, "c", "nc");
    ConcatNoUnderscore(Choice(o.connected, "c", "nc"), FromMaxOutDegree(o));
    ConcatNoUnderscore(["f", IntToString(gv), IntToString(av), IntToString(e)], FromConnectivity(o));
  }

  /** A formality graph file name determines the grading and every option. */
  lemma FormalityFilenameRoundTrip(gv: int, av: int, e: int, o: FormalityOptions)
    ensures DecodeFormalityFilename(Join(FormalityFilenameTokens(gv, av, e, o), '_') + ".db") == Some((gv, av, e, o))
  {
    FormalityTokensNoUnderscore(gv, av, e, o);
    DbNameTokens(FormalityFilenameTokens(gv, av, e, o));
    FormalityTokensRoundTrip(gv, av, e, o);
  }

  lemma FormalityTokensRoundTrip(gv: int, av: int, e: int, o: FormalityOptions)
    ensures DecodeFormalityTokens(FormalityFilenameTokens(gv, av, e, o)) == Some((gv, av, e, o))
  {
    var ts := FormalityFilenameTokens(gv, av, e, o);
    assert ts[4..] == FromConnectivity(o);
    ConnectivityRoundTrip(o);
    ParseIntToString(gv);
    ParseIntToString(av);
    ParseIntToString(e);
  }

  lemma FormalityFilenameInjective(gv1: int, av1: int, e1: int, o1: FormalityOptions, gv2: int, av2: int, e2: int, o2: FormalityOptions)
    ensures Join(FormalityFilenameTokens(gv1, av1, e1, o1), '_') + ".db" == Join(FormalityFilenameTokens(gv2, av2, e2, o2), '_') + ".db"
            ==> gv1 == gv2 && av1 == av2 && e1 == e2 && o1 == o2
  {
    FormalityFilenameRoundTrip(gv1, av1, e1, o1);
    FormalityFilenameRoundTrip(gv2, av2, e2, o2);
  }

  // ---------------------------------------------------------------------------
  // Cache keys
  // ---------------------------------------------------------------------------

  /** One entry of a cache key tuple: an integer, a boolean, None, or a tuple of integers. */
  datatype KeyPart = IntPart(i: int) | BoolPart(b: bool) | NonePart | IntsPart(ints: seq<int>)

  /** The grading followed by the option values, in the order of the cache's `cache_keys`. */
  type CacheKey = seq<KeyPart>

  function OptionalBool(v: Option<bool>): KeyPart
  {
    if v.Some? then BoolPart(v.value) else NonePart
  }

  function OptionalInt(v: Option<int>): KeyPart
  {
    if v.Some? then IntPart(v.value) else NonePart
  }

  function OptionalInts(v: Option<seq<int>>): KeyPart
  {
    if v.Some? then IntsPart(v.value) else NonePart
  }

  /** The value an optional key part stands for, when it has the right kind. */
  function BoolOf(p: KeyPart): Option<Option<bool>>
  {
    match p
    case BoolPart(b) => Some(Some(b))
    case NonePart => Some(None)
    case _ => None
  }

  function IntOf(p: KeyPart): Option<Option<int>>
  {
    match p
    case IntPart(i) => Some(Some(i))
    case NonePart => Some(None)
    case _ => None
  }

  function IntsOf(p: KeyPart): Option<Option<seq<int>>>
  {
    match p
    case IntsPart(ds) => Some(Some(ds))
    case NonePart => Some(None)
    case _ => None
  }

  /** The options of `UndirectedGraphCache.graphs`, in its `cache_keys` order. */
  datatype UndirectedOptions = UndirectedOptions(
    connected: Option<bool>, biconnected: Option<bool>, minDegree: int, hasOddAutomorphism: Option<bool>)

  /**
   * The database file of an undirected query, as `UndirectedGraphCache.graphs`
   * names it: `options_to_filename` with `directed` False and no `loops`.
   */
  function UndirectedFilename(v: int, e: int, o: UndirectedOptions): string
  {
    Join(FilenameTokens(FilenameOptions(v, e, false, o.connected, o.biconnected, o.minDegree, None, o.hasOddAutomorphism)), '_') + ".db"
  }

  /** The options of `DirectedGraphCache.graphs`, in its `cache_keys` order. */
  datatype DirectedOptions = DirectedOptions(
    connected: Option<bool>, biconnected: Option<bool>, minDegree: int, loops: Option<bool>, hasOddAutomorphism: Option<bool>)

  function UndirectedKey(v: int, e: int, o: UndirectedOptions): CacheKey
  {
    [IntPart(v), IntPart(e), OptionalBool(o.connected), OptionalBool(o.biconnected), IntPart(o.minDegree),
     OptionalBool(o.hasOddAutomorphism)]
  }

  function DirectedKey(v: int, e: int, o: DirectedOptions): CacheKey
  {
    [IntPart(v), IntPart(e), OptionalBool(o.connected), OptionalBool(o.biconnected), IntPart(o.minDegree),
     OptionalBool(o.loops), OptionalBool(o.hasOddAutomorphism)]
  }

  function FormalityKey(gv: int, av: int, e: int, o: FormalityOptions): CacheKey
  {
    [IntPart(gv), IntPart(av), IntPart(e), OptionalBool(o.connected), OptionalInt(o.maxOutDegree),
     OptionalInt(o.numVertsOfMaxOutDegree), OptionalInts(o.sortedOutDegrees), OptionalInt(o.maxAerialInDegree),
     OptionalBool(o.loops), OptionalBool(o.prime), OptionalBool(o.hasOddAutomorphism),
     OptionalBool(o.positiveDifferentialOrder), BoolPart(o.modGroundPermutations)]
  }

  /** The query an undirected cache key was made from, if it is one. */
  function UndirectedKeyOf(k: CacheKey): Option<(int, int, UndirectedOptions)>
  {
    if |k| == 6 && k[0].IntPart? && k[1].IntPart? && BoolOf(k[2]).Some? && BoolOf(k[3]).Some? && k[4].IntPart?
       && BoolOf(k[5]).Some?
    then Some((k[0].i, k[1].i, UndirectedOptions(BoolOf(k[2]).value, BoolOf(k[3]).value, k[4].i, BoolOf(k[5]).value)))
    else None
  }

  /** The query a directed cache key was made from, if it is one; the number of edges is natural. */
  function DirectedKeyOf(k: CacheKey): Option<(int, int, DirectedOptions)>
  {
    if |k| == 7 && k[0].IntPart? && k[1].IntPart? && BoolOf(k[2]).Some? && BoolOf(k[3]).Some?
       && k[4].IntPart? && BoolOf(k[5]).Some? && BoolOf(k[6]).Some?
    then Some((k[0].i, k[1].i, DirectedOptions(BoolOf(k[2]).value, BoolOf(k[3]).value, k[4].i, BoolOf(k[5]).value, BoolOf(k[6]).value)))
    else None
  }

  /** The query a formality cache key was made from, if it is one. */
  function FormalityKeyOf(k: CacheKey): Option<(int, int, int, FormalityOptions)>
  {
    if |k| == 13 && k[0].IntPart? && k[1].IntPart? && k[2].IntPart? && BoolOf(k[3]).Some?
       && IntOf(k[4]).Some? && IntOf(k[5]).Some? && IntsOf(k[6]).Some? && IntOf(k[7]).Some?
       && BoolOf(k[8]).Some? && BoolOf(k[9]).Some? && BoolOf(k[10]).Some? && BoolOf(k[11]).Some?
       && k[12].BoolPart?
    then Some((k[0].i, k[1].i, k[2].i,
               FormalityOptions(BoolOf(k[3]).value, IntOf(k[4]).value, IntOf(k[5]).value, IntsOf(k[6]).value,
                                IntOf(k[7]).value, BoolOf(k[8]).value, BoolOf(k[9]).value, BoolOf(k[10]).value,
                                BoolOf(k[11]).value, k[12].b)))
    else None
  }

  /** An undirected cache key determines its query, and is no other cache's key. */
  lemma UndirectedKeyRoundTrip(v: int, e: int, o: UndirectedOptions)
    ensures UndirectedKeyOf(UndirectedKey(v, e, o)) == Some((v, e, o))
    ensures DirectedKeyOf(UndirectedKey(v, e, o)).None? && FormalityKeyOf(UndirectedKey(v, e, o)).None?
  {
  }

  /** A directed cache key determines its query, and is no other cache's key. */
  lemma DirectedKeyRoundTrip(v: int, e: int, o: DirectedOptions)
    ensures DirectedKeyOf(DirectedKey(v, e, o)) == Some((v, e, o))
    ensures UndirectedKeyOf(DirectedKey(v, e, o)).None? && FormalityKeyOf(DirectedKey(v, e, o)).None?
  {
  }

  /** A formality cache key determines its query, and is no other cache's key. */
  lemma FormalityKeyRoundTrip(gv: int, av: int, e: int, o: FormalityOptions)
    ensures FormalityKeyOf(FormalityKey(gv, av, e, o)) == Some((gv, av, e, o))
    ensures UndirectedKeyOf(FormalityKey(gv, av, e, o)).None? && DirectedKeyOf(FormalityKey(gv, av, e, o)).None?
  {
  }

  // ---------------------------------------------------------------------------
  // What the caches hold
  // ---------------------------------------------------------------------------

  /**
   * The graph generators the caches call on a miss: nauty's undirected graphs for
   * a grading and options, the orientations `directed_graph_generate_from_undirected`
   * gives of one undirected graph, `undirected_to_directed_graph_coefficient`, and
   * `formality_graph_generate`.
   */
  datatype Generators<!U, !D, F> = Generators(
    undirected: (int, int, UndirectedOptions) -> seq<U>,
    orient: (U, int, Option<bool>, Option<bool>) -> seq<D>,
    coefficient: (U, D) -> int,
    formality: (int, int, int, FormalityOptions) -> seq<F>)

  /** The list the shared dictionary holds under a key, of whichever cache stored it. */
  datatype View<U, D, F> = UndirectedList(undirected: seq<U>) | DirectedList(directed: seq<D>) | FormalityList(formality: seq<F>)

  /** `has_odd_automorphism` left open: the undirected graphs underlying directed ones. */
  function Underlying(o: DirectedOptions): UndirectedOptions
  {
    UndirectedOptions(o.connected, o.biconnected, o.minDegree, None)
  }

  /** The undirected options with the directed query's `has_odd_automorphism`. */
  function UndirectedOf(o: DirectedOptions): UndirectedOptions
  {
    UndirectedOptions(o.connected, o.biconnected, o.minDegree, o.hasOddAutomorphism)
  }

  /** The orientations of each graph of `gs`, one graph after the other. */
  function Orientations<U, D, F>(gens: Generators<U, D, F>, gs: seq<U>, e: int, o: DirectedOptions): seq<D>
  {
    if |gs| == 0 then []
    else Orientations(gens, gs[..|gs| - 1], e, o) + gens.orient(gs[|gs| - 1], e, o.loops, o.hasOddAutomorphism)
  }

  /** The pass for loop order j: orientations of the underlying graphs with e - j edges. */
  function Pass<U, D, F>(gens: Generators<U, D, F>, v: int, e: int, o: DirectedOptions, j: nat): seq<D>
  {
    Orientations(gens, gens.undirected(v, e - j, Underlying(o)), e, o)
  }

  /** The passes for loop orders 0, ..., m - 1, in that order. */
  function DirectedUpTo<U, D, F>(gens: Generators<U, D, F>, v: int, e: int, o: DirectedOptions, m: nat): seq<D>
  {
    if m == 0 then [] else DirectedUpTo(gens, v, e, o, m - 1) + Pass(gens, v, e, o, m - 1)
  }

  /**
   * The number of passes, `range(max_loop_order + 1)`: `max_loop_order` is
   * `num_edges // 2` unless `loops` is False, then 0. A negative edge count
   * leaves no pass when loops are allowed.
   */
  function LoopOrders(e: int, loops: Option<bool>): (r: nat)
    ensures e >= 0 ==> r == MaxLoopOrder(e, loops) + 1
    ensures r == 0 <==> e < 0 && loops != Some(false)
  {
    var maxLoopOrder := if loops.None? || loops.value then e / 2 else 0;
    if maxLoopOrder + 1 < 0 then 0 else maxLoopOrder + 1
  }

  /** The directed graphs of a query: every loop order from 0 to the largest one. */
  function DirectedGraphs<U, D, F>(gens: Generators<U, D, F>, v: int, e: int, o: DirectedOptions): seq<D>
  {
    DirectedUpTo(gens, v, e, o, LoopOrders(e, o.loops))
  }

  /** An orientation-data row: undirected index, directed index, coefficient. */
  datatype OrientationRow = OrientationRow(undirectedIndex: nat, directedIndex: nat, coefficient: int)

  /** The rows for the orientations `hs` of one undirected graph, numbered from `start`. */
  function RowsOf<U, D, F>(gens: Generators<U, D, F>, g: U, gIdx: nat, start: nat, hs: seq<D>): (r: seq<OrientationRow>)
    ensures |r| == |hs|
  {
    if |hs| == 0 then []
    else RowsOf(gens, g, gIdx, start, hs[..|hs| - 1])
         + [OrientationRow(gIdx, start + |hs| - 1, gens.coefficient(g, hs[|hs| - 1]))]
  }

  /** The rows of one undirected graph: none unless it is in `full`, whose position it then names. */
  function GraphRows<U(==), D, F>(gens: Generators<U, D, F>, g: U, full: seq<U>, start: nat, e: int, o: DirectedOptions): seq<OrientationRow>
  {
    var i := IndexOf(full, g);
    if i < |full| then RowsOf(gens, g, i, start, gens.orient(g, e, o.loops, o.hasOddAutomorphism)) else []
  }

  /** The rows of the loopless pass over `gs`, numbered by position among the orientations. */
  function Rows<U(==), D, F>(gens: Generators<U, D, F>, gs: seq<U>, full: seq<U>, e: int, o: DirectedOptions): seq<OrientationRow>
  {
    if |gs| == 0 then []
    else
      var prev := gs[..|gs| - 1];
      Rows(gens, prev, full, e, o) + GraphRows(gens, gs[|gs| - 1], full, |Orientations(gens, prev, e, o)|, e, o)
  }

  /** One more undirected graph: its orientations and rows come after those of the graphs before it. */
  lemma PassStep<U, D, F>(gens: Generators<U, D, F>, gs: seq<U>, i: nat, full: seq<U>, e: int, o: DirectedOptions)
    requires i < |gs|
    ensures Orientations(gens, gs[..i + 1], e, o) == Orientations(gens, gs[..i], e, o) + gens.orient(gs[i], e, o.loops, o.hasOddAutomorphism)
    ensures Rows(gens, gs[..i + 1], full, e, o) == Rows(gens, gs[..i], full, e, o) + GraphRows(gens, gs[i], full, |Orientations(gens, gs[..i], e, o)|, e, o)
  {
    assert gs[..i + 1][..i] == gs[..i];
  }

  /** The rows the loopless pass records. */
  function LooplessRows<U(==), D, F>(gens: Generators<U, D, F>, v: int, e: int, o: DirectedOptions): seq<OrientationRow>
  {
    Rows(gens, gens.undirected(v, e, Underlying(o)), gens.undirected(v, e, UndirectedOf(o)), e, o)
  }

  /** The orientation data a directed query records: none when there is no pass at all. */
  function OrientationData<U(==), D, F>(gens: Generators<U, D, F>, v: int, e: int, o: DirectedOptions): seq<OrientationRow>
  {
    if LoopOrders(e, o.loops) == 0 then [] else LooplessRows(gens, v, e, o)
  }

  /** The k-th row of one graph names the k-th orientation after `start`, with its coefficient. */
  lemma {:induction false} RowsOfAt<U, D, F>(gens: Generators<U, D, F>, g: U, gIdx: nat, start: nat, hs: seq<D>)
    ensures forall k :: 0 <= k < |hs| ==> RowsOf(gens, g, gIdx, start, hs)[k] == OrientationRow(gIdx, start + k, gens.coefficient(g, hs[k]))
  {
    if |hs| > 0 {
      RowsOfAt(gens, g, gIdx, start, hs[..|hs| - 1]);
    }
  }

  /** Every row of a pass points at an orientation, of the undirected graph it names, with its coefficient. */
  lemma {:induction false} RowsSound<U, D, F>(gens: Generators<U, D, F>, gs: seq<U>, full: seq<U>, e: int, o: DirectedOptions)
    ensures forall r :: r in Rows(gens, gs, full, e, o) ==>
      r.undirectedIndex < |full| && r.directedIndex < |Orientations(gens, gs, e, o)|
      && Orientations(gens, gs, e, o)[r.directedIndex] in gens.orient(full[r.undirectedIndex], e, o.loops, o.hasOddAutomorphism)
      && r.coefficient == gens.coefficient(full[r.undirectedIndex], Orientations(gens, gs, e, o)[r.directedIndex])
  {
    if |gs| > 0 {
      var prev := gs[..|gs| - 1];
      var g := gs[|gs| - 1];
      var before := Orientations(gens, prev, e, o);
      var hs := gens.orient(g, e, o.loops, o.hasOddAutomorphism);
      var all := Orientations(gens, gs, e, o);
      assert all == before + hs;
      RowsSound(gens, prev, full, e, o);
      var i := IndexOf(full, g);
      if i < |full| {
        RowsOfAt(gens, g, i, |before|, hs);
        forall r | r in GraphRows(gens, g, full, |before|, e, o)
          ensures r.undirectedIndex < |full| && r.directedIndex < |all|
          ensures all[r.directedIndex] in gens.orient(full[r.undirectedIndex], e, o.loops, o.hasOddAutomorphism)
          ensures r.coefficient == gens.coefficient(full[r.undirectedIndex], all[r.directedIndex])
        {
          var k :| 0 <= k < |hs| && RowsOf(gens, g, i, |before|, hs)[k] == r;
          assert all[|before| + k] == hs[k];
        }
      }
    }
  }

  /** The loopless pass comes first, so its orientations head every longer run of passes. */
  lemma {:induction false} LooplessFirst<U, D, F>(gens: Generators<U, D, F>, v: int, e: int, o: DirectedOptions, m: nat)
    requires m >= 1
    ensures |Pass(gens, v, e, o, 0)| <= |DirectedUpTo(gens, v, e, o, m)|
    ensures DirectedUpTo(gens, v, e, o, m)[..|Pass(gens, v, e, o, 0)|] == Pass(gens, v, e, o, 0)
  {
    if m == 1 {
      assert DirectedUpTo(gens, v, e, o, 1) == [] + Pass(gens, v, e, o, 0);
    } else {
      LooplessFirst(gens, v, e, o, m - 1);
      var before := DirectedUpTo(gens, v, e, o, m - 1);
      assert DirectedUpTo(gens, v, e, o, m)[..|before|] == before;
    }
  }

  /**
   * Orientation rows are sound: a row (g, h, c) names the undirected graph at
   * position g of the undirected list, the directed graph at position h of the
   * directed list is one of its orientations, and c is their coefficient.
   */
  lemma OrientationSound<U, D, F>(gens: Generators<U, D, F>, v: int, e: int, o: DirectedOptions)
    ensures forall r :: r in OrientationData(gens, v, e, o) ==>
      var full := gens.undirected(v, e, UndirectedOf(o));
      var result := DirectedGraphs(gens, v, e, o);
      r.undirectedIndex < |full| && r.directedIndex < |result|
      && result[r.directedIndex] in gens.orient(full[r.undirectedIndex], e, o.loops, o.hasOddAutomorphism)
      && r.coefficient == gens.coefficient(full[r.undirectedIndex], result[r.directedIndex])
  {
    var full := gens.undirected(v, e, UndirectedOf(o));
    var gs := gens.undirected(v, e, Underlying(o));
    var result := DirectedGraphs(gens, v, e, o);
    if LoopOrders(e, o.loops) != 0 {
      RowsSound(gens, gs, full, e, o);
      LooplessFirst(gens, v, e, o, LoopOrders(e, o.loops));
      var first := Orientations(gens, gs, e, o);
      assert first == Pass(gens, v, e, o, 0);
      forall k | 0 <= k < |first| ensures result[k] == first[k] {
        assert result[..|first|][k] == result[k];
      }
    }
  }

  /** A selected pair comes from a row of the requested undirected graph. */
  lemma {:induction false} CoeffsFromRows(rows: seq<OrientationRow>, gIdx: int)
    ensures forall p :: p in Coeffs(rows, gIdx) ==> gIdx >= 0 && OrientationRow(gIdx as nat, p.0, p.1) in rows
  {
    if |rows| > 0 {
      CoeffsFromRows(rows[..|rows| - 1], gIdx);
      assert forall r :: r in rows[..|rows| - 1] ==> r in rows;
    }
  }

  /**
   * `_undirected_to_directed_coeffs` yields, for the undirected graph at position
   * gIdx, positions of its orientations in the directed list with their coefficients.
   */
  lemma CoeffsSound<U, D, F>(gens: Generators<U, D, F>, v: int, e: int, o: DirectedOptions, gIdx: int)
    ensures forall p :: p in Coeffs(OrientationData(gens, v, e, o), gIdx) ==>
      var full := gens.undirected(v, e, UndirectedOf(o));
      var result := DirectedGraphs(gens, v, e, o);
      0 <= gIdx < |full| && p.0 < |result|
      && result[p.0] in gens.orient(full[gIdx], e, o.loops, o.hasOddAutomorphism)
      && p.1 == gens.coefficient(full[gIdx], result[p.0])
  {
    OrientationSound(gens, v, e, o);
    CoeffsFromRows(OrientationData(gens, v, e, o), gIdx);
  }

  /** What the shared dictionary should hold under a key: the graphs its query generates. */
  function Expected<U, D, F>(gens: Generators<U, D, F>, k: CacheKey): Option<View<U, D, F>>
  {
    match UndirectedKeyOf(k)
    case Some((v, e, o)) => Some(UndirectedList(gens.undirected(v, e, o)))
    case None =>
      match DirectedKeyOf(k)
      case Some((v, e, o)) => Some(DirectedList(DirectedGraphs(gens, v, e, o)))
      case None =>
        match FormalityKeyOf(k)
        case Some((gv, av, e, o)) => Some(FormalityList(gens.formality(gv, av, e, o)))
        case None => None
  }

  /** The dictionary `GraphCache.cache`, shared by the three caches, with the generators they call. */
  class GraphStore<U, D, F> {
    const gens: Generators<U, D, F>
    var cache: map<CacheKey, View<U, D, F>>

    /** Every stored list is what its key's query generates. */
    ghost predicate Valid()
      reads this
    {
      forall k :: k in cache ==> Expected(gens, k) == Some(cache[k])
    }

    constructor(gens: Generators<U, D, F>)
      ensures this.gens == gens && cache == map[] && Valid()
    {
      this.gens := gens;
      cache := map[];
    }
  }

  /** The store only gains entries. */
  ghost predicate Extends<U, D, F>(before: map<CacheKey, View<U, D, F>>, after: map<CacheKey, View<U, D, F>>)
  {
    forall k :: k in before ==> k in after && after[k] == before[k]
  }

  /** `_add_graphs` of the undirected and formality caches: the generated graphs, unless the list is already filled. */
  method AddGraphs<G>(result: seq<G>, generated: seq<G>) returns (r: seq<G>)
    ensures |result| != 0 ==> r == result
    ensures |result| == 0 ==> r == generated
  {
    if |result| != 0 {
      return result;
    }
    r := result;
    var i := 0;
    while i < |generated|
      invariant 0 <= i <= |generated|
      invariant r == generated[..i]
    {
      r := r + [generated[i]];
      i := i + 1;
    }
  }

  class UndirectedGraphCache<U, D, F> {
    const store: GraphStore<U, D, F>

    constructor(store: GraphStore<U, D, F>)
      ensures this.store == store
    {
      this.store := store;
    }

    /**
     * `graphs`: the undirected graphs of a grading and options, generated at most
     * once per key and afterwards read from the shared dictionary.
     */
    method Graphs(v: int, e: int, o: UndirectedOptions) returns (r: seq<U>)
      requires store.Valid()
      modifies store
      ensures store.Valid()
      ensures r == store.gens.undirected(v, e, o)
      ensures store.cache == old(store.cache)[UndirectedKey(v, e, o) := UndirectedList(r)]
      ensures old(UndirectedKey(v, e, o) in store.cache) ==> store.cache == old(store.cache)
    {
      var key := UndirectedKey(v, e, o);
      UndirectedKeyRoundTrip(v, e, o);
      if key in store.cache {
        return store.cache[key].undirected;
      }
      r := AddGraphs([], store.gens.undirected(v, e, o));
      store.cache := store.cache[key := UndirectedList(r)];
    }
  }

  class FormalityGraphCache<U, D, F> {
    const store: GraphStore<U, D, F>

    constructor(store: GraphStore<U, D, F>)
      ensures this.store == store
    {
      this.store := store;
    }

    /** `graphs`: the formality graphs of a grading and options, generated at most once per key. */
    method Graphs(gv: int, av: int, e: int, o: FormalityOptions) returns (r: seq<F>)
      requires store.Valid()
      modifies store
      ensures store.Valid()
      ensures r == store.gens.formality(gv, av, e, o)
      ensures store.cache == old(store.cache)[FormalityKey(gv, av, e, o) := FormalityList(r)]
      ensures old(FormalityKey(gv, av, e, o) in store.cache) ==> store.cache == old(store.cache)
    {
      var key := FormalityKey(gv, av, e, o);
      FormalityKeyRoundTrip(gv, av, e, o);
      if key in store.cache {
        return store.cache[key].formality;
      }
      r := AddGraphs([], store.gens.formality(gv, av, e, o));
      store.cache := store.cache[key := FormalityList(r)];
    }
  }

  /** The orientation data a directed key should hold. */
  function ExpectedOrientation<U(==), D, F>(gens: Generators<U, D, F>, k: CacheKey): Option<seq<OrientationRow>>
  {
    match DirectedKeyOf(k)
    case Some((v, e, o)) => Some(OrientationData(gens, v, e, o))
    case None => None
  }

  /** `for h in hs: result.append(h); if g_idx is not None: orientation_data.append(...); h_idx += 1`. */
  method AppendOrientations<U, D, F>(gens: Generators<U, D, F>, result: seq<D>, rows: seq<OrientationRow>, hIdx: nat,
                                     g: U, gIdx: Option<nat>, hs: seq<D>)
    returns (result': seq<D>, rows': seq<OrientationRow>, hIdx': nat)
    ensures result' == result + hs
    ensures hIdx' == hIdx + |hs|
    ensures rows' == rows + (if gIdx.Some? then RowsOf(gens, g, gIdx.value, hIdx, hs) else [])
  {
    result', rows', hIdx' := result, rows, hIdx;
    var k := 0;
    while k < |hs|
      invariant 0 <= k <= |hs|
      invariant result' == result + hs[..k]
      invariant hIdx' == hIdx + k
      invariant rows' == rows + (if gIdx.Some? then RowsOf(gens, g, gIdx.value, hIdx, hs[..k]) else [])
    {
      result' := result' + [hs[k]];
      if gIdx.Some? {
        assert hs[..k + 1][..k] == hs[..k];
        rows' := rows' + [OrientationRow(gIdx.value, hIdx', gens.coefficient(g, hs[k]))];
      }
      hIdx' := hIdx' + 1;
      k := k + 1;
    }
    assert hs[..|hs|] == hs;
  }

  /** `_undirected_to_directed_coeffs` on the in-memory rows: `(row[1], row[2])` for the rows of one undirected graph. */
  function Coeffs(rows: seq<OrientationRow>, gIdx: int): seq<(nat, int)>
  {
    if |rows| == 0 then []
    else
      var row := rows[|rows| - 1];
      Coeffs(rows[..|rows| - 1], gIdx) + (if row.undirectedIndex == gIdx then [(row.directedIndex, row.coefficient)] else [])
  }

  /** The loop of `_undirected_to_directed_coeffs` over the in-memory rows. */
  method SelectRows(rows: seq<OrientationRow>, gIdx: int) returns (out: seq<(nat, int)>)
    ensures out == Coeffs(rows, gIdx)
  {
    out := [];
    var i := 0;
    while i < |rows|
      invariant 0 <= i <= |rows|
      invariant out == Coeffs(rows[..i], gIdx)
    {
      assert rows[..i + 1][..i] == rows[..i];
      if rows[i].undirectedIndex == gIdx {
        out := out + [(rows[i].directedIndex, rows[i].coefficient)];
      }
      i := i + 1;
    }
    assert rows[..|rows|] == rows;
  }

  class DirectedGraphCache<U(==), D, F> {
    const store: GraphStore<U, D, F>
    const undirected: UndirectedGraphCache<U, D, F>
    /** `_undirected_to_directed`: the orientation rows of each directed key. */
    var orientation: map<CacheKey, seq<OrientationRow>>

    ghost predicate Valid()
      reads this, store
    {
      undirected.store == store && store.Valid()
      && forall k :: k in orientation ==> ExpectedOrientation(store.gens, k) == Some(orientation[k])
    }

    constructor(undirected: UndirectedGraphCache<U, D, F>)
      requires undirected.store.Valid()
      ensures this.undirected == undirected && store == undirected.store && orientation == map[] && Valid()
    {
      this.undirected := undirected;
      store := undirected.store;
      orientation := map[];
    }

    /**
     * `graphs`: the directed graphs of a grading and options. On a miss the
     * orientation rows are recorded under the same key.
     */
    method Graphs(v: int, e: int, o: DirectedOptions) returns (r: seq<D>)
      requires Valid()
      modifies store, this
      ensures Valid()
      ensures r == DirectedGraphs(store.gens, v, e, o)
      ensures DirectedKey(v, e, o) in store.cache && store.cache[DirectedKey(v, e, o)] == DirectedList(r)
      ensures Extends(old(store.cache), store.cache)
      ensures old(DirectedKey(v, e, o) in store.cache) ==> store.cache == old(store.cache) && orientation == old(orientation)
      ensures old(DirectedKey(v, e, o) !in store.cache) ==>
                orientation == old(orientation)[DirectedKey(v, e, o) := OrientationData(store.gens, v, e, o)]
    {
      var key := DirectedKey(v, e, o);
      DirectedKeyRoundTrip(v, e, o);
      if key in store.cache {
        return store.cache[key].directed;
      }
      var rows;
      r, rows := AddGraphs([], [], v, e, o);
      assert rows == OrientationData(store.gens, v, e, o);
      store.cache := store.cache[key := DirectedList(r)];
      orientation := orientation[key := rows];
    }

    /** `_add_graphs`: every loop order in turn, unless the list is already filled. */
    method AddGraphs(result: seq<D>, rows: seq<OrientationRow>, v: int, e: int, o: DirectedOptions)
      returns (result': seq<D>, rows': seq<OrientationRow>)
      requires undirected.store == store && store.Valid()
      modifies store
      ensures store.Valid() && Extends(old(store.cache), store.cache)
      ensures |result| != 0 ==> result' == result && rows' == rows
      ensures |result| == 0 ==> result' == DirectedGraphs(store.gens, v, e, o)
      ensures |result| == 0 ==> rows' == rows + OrientationData(store.gens, v, e, o)
    {
      if |result| != 0 {
        return result, rows;
      }
      var maxLoopOrder := if o.loops.None? || o.loops.value then e / 2 else 0;
      result', rows' := result, rows;
      var j := 0;
      while j <= maxLoopOrder
        invariant 0 <= j <= LoopOrders(e, o.loops)
        invariant store.Valid() && Extends(old(store.cache), store.cache)
        invariant result' == DirectedUpTo(store.gens, v, e, o, j)
        invariant rows' == rows + (if j == 0 then [] else LooplessRows(store.gens, v, e, o))
      {
        var found, recorded := OrientationPass(v, e, o, j);
        result', rows' := result' + found, rows' + recorded;
        j := j + 1;
      }
    }

    /**
     * One loop order: the orientations of every underlying undirected graph, and
     * the rows recorded for them, which there are only in the loopless pass.
     */
    method OrientationPass(v: int, e: int, o: DirectedOptions, j: nat)
      returns (found: seq<D>, recorded: seq<OrientationRow>)
      requires undirected.store == store && store.Valid()
      modifies store
      ensures store.Valid() && Extends(old(store.cache), store.cache)
      ensures found == Pass(store.gens, v, e, o, j)
      ensures j == 0 ==> recorded == LooplessRows(store.gens, v, e, o)
      ensures j != 0 ==> recorded == []
    {
      var gs := undirected.Graphs(v, e - j, Underlying(o));
      found, recorded := OrientAll(gs, v, e, o, j);
    }

    /** The loop of one pass over the undirected graphs gs, in their order. */
    method OrientAll(gs: seq<U>, v: int, e: int, o: DirectedOptions, j: nat)
      returns (found: seq<D>, recorded: seq<OrientationRow>)
      requires undirected.store == store && store.Valid()
      modifies store
      ensures store.Valid() && Extends(old(store.cache), store.cache)
      ensures found == Orientations(store.gens, gs, e, o)
      ensures j == 0 ==> recorded == Rows(store.gens, gs, store.gens.undirected(v, e, UndirectedOf(o)), e, o)
      ensures j != 0 ==> recorded == []
    {
      ghost var full := store.gens.undirected(v, e, UndirectedOf(o));
      found, recorded := [], [];
      var hIdx := 0;
      var i := 0;
      while i < |gs|
        invariant 0 <= i <= |gs|
        invariant store.Valid() && Extends(old(store.cache), store.cache)
        invariant found == Orientations(store.gens, gs[..i], e, o)
        invariant hIdx == |found|
        invariant j == 0 ==> recorded == Rows(store.gens, gs[..i], full, e, o)
        invariant j != 0 ==> recorded == []
      {
        PassStep(store.gens, gs, i, full, e, o);
        found, recorded, hIdx := OrientGraph(found, recorded, hIdx, v, e, o, j, gs[i]);
        i := i + 1;
      }
      assert gs[..|gs|] == gs;
    }

    /** The body of the pass for one undirected graph `g`. */
    method OrientGraph(result: seq<D>, rows: seq<OrientationRow>, hIdx: nat, v: int, e: int, o: DirectedOptions, j: nat, g: U)
      returns (result': seq<D>, rows': seq<OrientationRow>, hIdx': nat)
      requires undirected.store == store && store.Valid()
      modifies store
      ensures store.Valid() && Extends(old(store.cache), store.cache)
      ensures result' == result + store.gens.orient(g, e, o.loops, o.hasOddAutomorphism)
      ensures hIdx' == hIdx + |store.gens.orient(g, e, o.loops, o.hasOddAutomorphism)|
      ensures j == 0 ==> rows' == rows + GraphRows(store.gens, g, store.gens.undirected(v, e, UndirectedOf(o)), hIdx, e, o)
      ensures j != 0 ==> rows' == rows
    {
      var gIdx: Option<nat> := None;
      if j == 0 {
        var fullList := undirected.Graphs(v, e, UndirectedOf(o));
        var k := IndexOf(fullList, g);
        if k < |fullList| {
          gIdx := Some(k);
        }
      }
      var hs := store.gens.orient(g, e, o.loops, o.hasOddAutomorphism);
      result', rows', hIdx' := AppendOrientations(store.gens, result, rows, hIdx, g, gIdx, hs);
    }

    /**
     * `_undirected_to_directed_coeffs`: after making sure the directed graphs are
     * there, the (directed index, coefficient) pairs recorded for one undirected
     * graph. None stands for the KeyError raised when the key was filled into the
     * shared dictionary by another directed cache, so that this one has no rows for it.
     */
    method UndirectedToDirectedCoeffs(v: int, e: int, gIdx: int, o: DirectedOptions) returns (r: Option<seq<(nat, int)>>)
      requires Valid()
      modifies store, this
      ensures Valid()
      ensures r.Some? ==> r.value == Coeffs(OrientationData(store.gens, v, e, o), gIdx)
      ensures old(DirectedKey(v, e, o) in store.cache ==> DirectedKey(v, e, o) in orientation) ==> r.Some?
    {
      var _ := Graphs(v, e, o);
      var key := DirectedKey(v, e, o);
      if key !in orientation {
        return None;
      }
      DirectedKeyRoundTrip(v, e, o);
      var out := SelectRows(orientation[key], gIdx);
      return Some(out);
    }
  }
}
