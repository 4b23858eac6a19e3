/**
 * The Blueprints property-graph facade over the RDF store: the iterators it
 * hands out (FusedIterable, VertexIterable, EdgeIterable), the text of the
 * SPARQL construct query that finds edges, the translation of one RDF
 * statement into a graph atom, and the argument checks of the lookups.
 *
 * RDF values are plain data; the value factory's URIs and its conversions
 * are fields of `Factory`, left uninterpreted. Query evaluation belongs to
 * the store and is not modelled: an iterator is given the statements the
 * query produced.
 */
module BigdataGraph {
  import opened Wrappers

  // ---------------------------------------------------------------------
  // RDF values and the value factory
  // ---------------------------------------------------------------------

  /** An RDF literal: its lexical form, and its datatype URI or language tag when it has one. */
  datatype Literal = Literal(lexical: string, datatypeIri: Option<string>, language: Option<string>)

  /** An RDF term: a URI, a literal or a blank node. */
  datatype Value = Iri(iri: string) | Lit(lit: Literal) | BNode(id: string)

  datatype Statement = Statement(subj: Value, pred: Value, obj: Value)

  /** The Java object `BlueprintsValueFactory.fromLiteral` returns. */
  type LiteralObject(==)

  /**
   * The URIs used for typing and labelling elements, and the factory's
   * conversions between graph ids and RDF terms.
   */
  datatype Factory = Factory(
    typeUri: string,
    vertexUri: string,
    edgeUri: string,
    labelUri: string,
    fromUri: string -> string,
    toVertexUri: string -> string,
    toEdgeUri: string -> string,
    toLiteral: string -> Literal,
    fromLiteral: Literal -> LiteralObject,
    objectText: LiteralObject -> string)

  /** The graph's options (`laxEdges`, `readFromWriteConnection`). */
  datatype Graph = Graph(factory: Factory, laxEdges: bool, readFromWriteConnection: bool)

  /**
   * The exceptions the modelled code raises. `EdgeAlreadyExists` is the
   * `IllegalArgumentException` with message "edge already exists", kept
   * apart from the argument checks' `IllegalArgument`.
   */
  datatype GraphError =
    | IllegalArgument
    | EdgeAlreadyExists
    | DuplicateEdge
    | ClassCast
    | NoSuchElement
    | UnsupportedOperation

  // ---------------------------------------------------------------------
  // FusedIterable
  // ---------------------------------------------------------------------

  function Concat<T>(xs: seq<seq<T>>): seq<T>
  {
    if |xs| == 0 then [] else xs[0] + Concat(xs[1..])
  }

  /**
   * Several iterables read one after the other. Each argument is given by the
   * elements its iterator yields; `i` is the argument whose iterator is
   * current and `cpos` how far that iterator has got.
   */
  class FusedIterable<T> {
    const args: seq<seq<T>>
    var i: nat
    var cpos: nat

    ghost predicate Valid()
      reads this
    {
      i < |args| && cpos <= |args[i]|
    }

    /** What a caller can still obtain: the rest of `curr`, then the later arguments. */
    ghost function Remaining(): seq<T>
      requires Valid()
      reads this
    {
      args[i][cpos..] + Concat(args[i + 1..])
    }

    /** The constructor dereferences `args[0]`, so at least one argument is needed. */
    constructor (args: seq<seq<T>>)
      requires |args| >= 1
      ensures Valid() && this.args == args && i == 0 && cpos == 0
      ensures Remaining() == Concat(args)
    {
      this.args := args;
      i := 0;
      cpos := 0;
      new;
      assert args[0][0..] == args[0];
    }

    /** Moving from an exhausted `curr` to the next argument loses nothing. */
    lemma AdvanceKeepsRemaining()
      requires Valid() && cpos == |args[i]| && i < |args| - 1
      ensures Remaining() == args[i + 1] + Concat(args[i + 2..])
    {
      assert args[i][cpos..] == [];
      assert args[i + 1..][1..] == args[i + 2..];
    }

    method HasNext() returns (b: bool)
      requires Valid()
      modifies this`i, this`cpos
      ensures Valid() && old(i) <= i
      ensures Remaining() == old(Remaining())
      ensures b <==> Remaining() != []
      ensures b ==> cpos < |args[i]|
    {
      if cpos < |args[i]| {
        return true;
      }
      while cpos >= |args[i]| && i < |args| - 1
        invariant Valid() && old(i) <= i && cpos == |args[i]|
        invariant Remaining() == old(Remaining())
        decreases |args| - i
      {
        AdvanceKeepsRemaining();
        i, cpos := i + 1, 0;
        assert args[i][0..] == args[i];
        if cpos < |args[i]| {
          return true;
        }
      }
      assert args[i][cpos..] == [] && args[i + 1..] == [];
      b := false;
    }

    /** `next()` reads `curr` only: without a preceding `hasNext()` it does not advance. */
    method Next() returns (r: Result<T, GraphError>)
      requires Valid()
      modifies this`cpos
      ensures Valid()
      ensures r.Success? <==> old(cpos) < |args[i]|
      ensures r.Success? ==> old(Remaining()) == [r.value] + Remaining()
      ensures r.Failure? ==> r.error == NoSuchElement && cpos == old(cpos)
    {
      if cpos < |args[i]| {
        r := Success(args[i][cpos]);
        cpos := cpos + 1;
        assert args[i][cpos - 1..] == [r.value] + args[i][cpos..];
      } else {
        r := Failure(NoSuchElement);
      }
    }

    /** `next()` preceded by the advance `hasNext()` performs. */
    method NextAdvancing() returns (r: Result<T, GraphError>)
      requires Valid()
      modifies this`i, this`cpos
      ensures Valid() && old(i) <= i
      ensures r.Success? <==> old(Remaining()) != []
      ensures r.Success? ==> old(Remaining()) == [r.value] + Remaining()
      ensures r.Failure? ==> r.error == NoSuchElement && Remaining() == []
    {
      var more := HasNext();
      r := Next();
    }

    method Remove() returns (r: Result<(), GraphError>)
      ensures r == Failure(UnsupportedOperation)
    {
      r := Failure(UnsupportedOperation);
    }

    /** The usual `while (hasNext()) next()` loop. */
    method Drain() returns (out: seq<T>)
      requires Valid()
      modifies this`i, this`cpos
      ensures Valid() && old(i) <= i
      ensures out == old(Remaining()) && Remaining() == []
    {
      out := [];
      var more := HasNext();
      while more
        invariant Valid() && old(i) <= i
        invariant out + Remaining() == old(Remaining())
        invariant more ==> cpos < |args[i]|
        invariant !more ==> Remaining() == []
        decreases |Remaining()|
      {
        var r := Next();
        out := out + [r.value];
        more := HasNext();
      }
    }
  }

  /** Draining a freshly fused iterable yields the arguments' elements in order. */
  method FuseAndDrain<T>(args: seq<seq<T>>) returns (out: seq<T>)
    requires |args| >= 1
    ensures out == Concat(args)
  {
    var it := new FusedIterable(args);
    out := it.Drain();
  }

  /** Empty arguments contribute nothing to the fused sequence. */
  lemma {:induction false} ConcatSkipsEmpty<T>(xs: seq<seq<T>>, k: nat)
    requires k < |xs| && xs[k] == []
    ensures Concat(xs) == Concat(xs[..k] + xs[k + 1..])
  {
    if k == 0 {
      assert xs[..0] + xs[1..] == xs[1..];
    } else {
      ConcatSkipsEmpty(xs[1..], k - 1);
      assert xs[1..][..k - 1] + xs[1..][k..] == (xs[..k] + xs[k + 1..])[1..];
    }
  }

  /**
   * With an empty first argument, `next()` called first fails although
   * `hasNext()` would then report an element; advancing first returns it.
   */
  method FusedNextGap() returns (asWritten: Result<int, GraphError>, more: bool, advancing: Result<int, GraphError>)
    ensures asWritten == Failure(NoSuchElement) && more
    ensures advancing == Success(7)
  {
    var args: seq<seq<int>> := [[], [7]];
    assert args[1..] == [[7]] && args[1..][1..] == [];
    assert Concat(args) == [7];
    var it := new FusedIterable(args);
    asWritten := it.Next();
    more := it.HasNext();
    var it2 := new FusedIterable(args);
    advancing := it2.NextAdvancing();
  }

  // ---------------------------------------------------------------------
  // VertexIterable and EdgeIterable
  // ---------------------------------------------------------------------

  /** Graph elements built from statements (`BigdataVertex`, `BigdataEdge`). */
  datatype Element = Vertex(uri: string) | Edge(stmt: Statement)

  /** Vertices from the subject or object position, or edges. */
  datatype Kind = Vertices(subject: bool) | Edges

  /** What `iterator()` hands back: the iterable itself, or a replay of its cache. */
  datatype IterSource = Self | Replay(items: seq<Element>)

  /**
   * The element built from one statement; `None` when the vertex position
   * does not hold a URI (the cast to `URI` fails).
   */
  function Convert(kind: Kind, st: Statement): (r: Option<Element>)
    ensures kind.Edges? ==> r == Some(Edge(st))
    ensures kind.Vertices? ==>
      var term := if kind.subject then st.subj else st.obj;
      (r.Some? <==> term.Iri?) && (r.Some? ==> r.value == Vertex(term.iri))
  {
    match kind
    case Edges => Some(Edge(st))
    case Vertices(subject) =>
      var term := if subject then st.subj else st.obj;
      if term.Iri? then Some(Vertex(term.iri)) else None
  }

  /** The elements returned for a run of statements, failed casts dropped. */
  function Converted(kind: Kind, ss: seq<Statement>): seq<Element>
  {
    if |ss| == 0 then []
    else
      var init := Converted(kind, ss[..|ss| - 1]);
      match Convert(kind, ss[|ss| - 1])
      case Some(e) => init + [e]
      case None => init
  }

  lemma ConvertedSnoc(kind: Kind, ss: seq<Statement>, a: nat, p: nat)
    requires a <= p < |ss|
    ensures Converted(kind, ss[a..p + 1]) ==
      Converted(kind, ss[a..p]) + (if Convert(kind, ss[p]).Some? then [Convert(kind, ss[p]).value] else [])
  {
    assert ss[a..p + 1][..p - a] == ss[a..p];
  }

  /** Every statement of an edge result gives one edge, in order. */
  lemma {:induction false} EdgesConverted(ss: seq<Statement>)
    ensures |Converted(Edges, ss)| == |ss|
    ensures forall k :: 0 <= k < |ss| ==> Converted(Edges, ss)[k] == Edge(ss[k])
  {
    if |ss| > 0 {
      EdgesConverted(ss[..|ss| - 1]);
    }
  }

  /** When every vertex position holds a URI, one vertex per statement, in order. */
  lemma {:induction false} VerticesConverted(subject: bool, ss: seq<Statement>)
    requires forall k :: 0 <= k < |ss| ==> (if subject then ss[k].subj else ss[k].obj).Iri?
    ensures |Converted(Vertices(subject), ss)| == |ss|
    ensures forall k :: 0 <= k < |ss| ==>
      Converted(Vertices(subject), ss)[k] == Vertex((if subject then ss[k].subj else ss[k].obj).iri)
  {
    if |ss| > 0 {
      VerticesConverted(subject, ss[..|ss| - 1]);
    }
  }

  /**
   * `VertexIterable` (kind `Vertices`) and `EdgeIterable` (kind `Edges`):
   * a statement result read once, with every returned element cached, the
   * result and the connection closed once the last statement is consumed.
   */
  class StatementIterable {
    const stmts: seq<Statement>
    const kind: Kind
    const readFromWriteConnection: bool
    var pos: nat
    var cache: seq<Element>
    var resultClosed: bool
    var cxnClosed: bool

    ghost predicate Valid()
      reads this
    {
      && pos <= |stmts|
      && cache == Converted(kind, stmts[..pos])
      && (resultClosed ==> pos == |stmts|)
      && (cxnClosed <==> resultClosed && !readFromWriteConnection)
    }

    constructor (stmts: seq<Statement>, kind: Kind, readFromWriteConnection: bool)
      ensures Valid()
      ensures this.stmts == stmts && this.kind == kind && this.readFromWriteConnection == readFromWriteConnection
      ensures pos == 0 && cache == [] && !resultClosed && !cxnClosed
    {
      this.stmts := stmts;
      this.kind := kind;
      this.readFromWriteConnection := readFromWriteConnection;
      pos := 0;
      cache := [];
      resultClosed := false;
      cxnClosed := false;
    }

    predicate HasNext()
      reads this
    {
      pos < |stmts|
    }

    /**
     * Takes the next statement, builds its element and caches it; whatever
     * the outcome, once no statement is left the result is closed, and the
     * connection too unless it is the shared write connection.
     */
    method Next() returns (r: Result<Element, GraphError>)
      requires Valid()
      modifies this`pos, this`cache, this`resultClosed, this`cxnClosed
      ensures Valid()
      ensures old(pos) == |stmts| ==> pos == old(pos) && r == Failure(NoSuchElement)
      ensures old(pos) < |stmts| ==> pos == old(pos) + 1 && (r.Success? <==> Convert(kind, stmts[old(pos)]).Some?)
      ensures r.Success? ==> Convert(kind, stmts[old(pos)]) == Some(r.value) && cache == old(cache) + [r.value]
      ensures r.Failure? ==> cache == old(cache)
      ensures old(pos) < |stmts| && r.Failure? ==> r.error == ClassCast
      ensures pos == |stmts| ==> resultClosed && (cxnClosed <==> !readFromWriteConnection)
      ensures pos < |stmts| ==> resultClosed == old(resultClosed) && cxnClosed == old(cxnClosed)
    {
      if pos == |stmts| {
        r := Failure(NoSuchElement);
      } else {
        var st := stmts[pos];
        assert stmts[..pos + 1][..pos] == stmts[..pos];
        pos := pos + 1;
        match Convert(kind, st)
        case Some(e) =>
          cache := cache + [e];
          r := Success(e);
        case None =>
          r := Failure(ClassCast);
      }
      // the `finally` block
      if pos == |stmts| {
        resultClosed := true;
        if !readFromWriteConnection {
          cxnClosed := true;
        }
      }
    }

    method Remove() returns (r: Result<(), GraphError>)
      ensures r == Failure(UnsupportedOperation)
    {
      r := Failure(UnsupportedOperation);
    }

    /** Itself while statements remain, afterwards a replay of what it returned. */
    function Iterator(): (r: IterSource)
      reads this
      ensures r == Self <==> HasNext()
      ensures r.Replay? ==> r.items == cache
    {
      if HasNext() then Self else Replay(cache)
    }

    /**
     * A for-each loop over the iterable: it asks `iterator()` first, so an
     * exhausted iterable replays its cache and changes nothing; otherwise it
     * reads the remaining statements with `hasNext()`/`next()` and stops at
     * the first failed cast, which the loop would propagate.
     */
    method Drain() returns (r: Result<seq<Element>, GraphError>)
      requires Valid()
      modifies this`pos, this`cache, this`resultClosed, this`cxnClosed
      ensures Valid() && old(pos) <= pos
      ensures old(pos) == |stmts| ==> r == Success(old(cache)) && pos == old(pos) && cache == old(cache)
      ensures old(pos) == |stmts| ==> resultClosed == old(resultClosed) && cxnClosed == old(cxnClosed)
      ensures r.Success? && old(pos) < |stmts| ==>
        pos == |stmts| && r.value == Converted(kind, stmts[old(pos)..]) && cache == old(cache) + r.value
      ensures r.Success? && old(pos) < |stmts| ==> |r.value| == |stmts| - old(pos)
      ensures r.Success? && old(pos) < |stmts| ==> resultClosed && (cxnClosed <==> !readFromWriteConnection)
      ensures r.Success? ==> pos == |stmts| && Iterator() == Replay(cache)
      ensures r.Success? ==> forall j :: old(pos) <= j < |stmts| ==> Convert(kind, stmts[j]).Some?
      ensures r.Failure? ==> r.error == ClassCast && old(pos) < pos && Convert(kind, stmts[pos - 1]).None?
      ensures r.Failure? ==> forall j :: old(pos) <= j < pos - 1 ==> Convert(kind, stmts[j]).Some?
      ensures r.Failure? && pos == |stmts| ==> resultClosed && (cxnClosed <==> !readFromWriteConnection)
    {
      var source := Iterator();
      if source.Replay? {
        return Success(source.items);
      }
      ghost var start := pos;
      var out := [];
      while HasNext()
        invariant Valid() && start <= pos
        invariant out == Converted(kind, stmts[start..pos]) && cache == old(cache) + out
        invariant start < pos && pos == |stmts| ==> resultClosed && (cxnClosed <==> !readFromWriteConnection)
        invariant start == pos ==> resultClosed == old(resultClosed) && cxnClosed == old(cxnClosed)
        invariant forall j :: start <= j < pos ==> Convert(kind, stmts[j]).Some?
        invariant |out| == pos - start
        decreases |stmts| - pos
      {
        ConvertedSnoc(kind, stmts, start, pos);
        var e := Next();
        if e.Failure? {
          return Failure(e.error);
        }
        out := out + [e.value];
      }
      assert stmts[start..pos] == stmts[start..];
      r := Success(out);
    }

    /** Closes the result and, unless shared, the connection. */
    method Close()
      requires Valid() && !HasNext()
      modifies this`resultClosed, this`cxnClosed
      ensures Valid() && resultClosed && (cxnClosed <==> !readFromWriteConnection)
    {
      resultClosed := true;
      cxnClosed := !readFromWriteConnection;
    }

    /** A for-each loop that also releases the result when it never called `next()`. */
    method DrainClosing() returns (r: Result<seq<Element>, GraphError>)
      requires Valid()
      modifies this`pos, this`cache, this`resultClosed, this`cxnClosed
      ensures Valid()
      ensures old(pos) == |stmts| ==> r == Success(old(cache)) && cache == old(cache)
      ensures r.Success? && old(pos) < |stmts| ==>
        pos == |stmts| && r.value == Converted(kind, stmts[old(pos)..]) && cache == old(cache) + r.value
      ensures r.Success? && old(pos) < |stmts| ==> |r.value| == |stmts| - old(pos)
      ensures r.Success? ==> pos == |stmts| && Iterator() == Replay(cache)
      ensures r.Success? ==> resultClosed && (cxnClosed <==> !readFromWriteConnection)
      ensures r.Success? ==> forall j :: old(pos) <= j < |stmts| ==> Convert(kind, stmts[j]).Some?
      ensures r.Failure? ==> r.error == ClassCast && old(pos) < pos && Convert(kind, stmts[pos - 1]).None?
      ensures r.Failure? ==> forall j :: old(pos) <= j < pos - 1 ==> Convert(kind, stmts[j]).Some?
      ensures r.Failure? && pos == |stmts| ==> resultClosed && (cxnClosed <==> !readFromWriteConnection)
    {
      r := Drain();
      if r.Success? {
        Close();
      }
    }
  }

  /**
   * A fresh iterable, read to the end, replays exactly the elements it
   * returned, and a second for-each loop over it returns them again.
   */
  method IterateAndReplay(stmts: seq<Statement>, kind: Kind, readFromWriteConnection: bool)
    returns (r: Result<seq<Element>, GraphError>, replay: IterSource, again: Result<seq<Element>, GraphError>)
    ensures r.Success? ==> r.value == Converted(kind, stmts) && replay == Replay(r.value) && again == r
    ensures kind.Edges? ==> r.Success?
  {
    var it := new StatementIterable(stmts, kind, readFromWriteConnection);
    r := it.Drain();
    replay := it.Iterator();
    again := it.Drain();
    assert stmts[0..] == stmts;
  }

  /**
   * A for-each loop over vertices (object end) from a URI, a literal and a
   * URI object: the cast fails on the second statement, the third is never
   * read, and the result stays open.
   */
  method DrainStopsAtFailedCast() returns (r: Result<seq<Element>, GraphError>, consumed: nat, closed: bool)
    ensures r == Failure(ClassCast) && consumed == 2 && !closed
  {
    var good := Statement(Iri("a"), Iri("p"), Iri("b"));
    var bad := Statement(Iri("a"), Iri("p"), Lit(Literal("x", None, None)));
    var it := new StatementIterable([good, bad, good], Vertices(false), false);
    r := it.Drain();
    consumed, closed := it.pos, it.resultClosed;
  }

  /**
   * An empty result is never closed by a for-each loop: `next()`, which
   * holds the closing code, is never called.
   */
  method EmptyResultLeak() returns (resultClosed: bool, cxnClosed: bool, closedWhenFixed: bool)
    ensures !resultClosed && !cxnClosed
    ensures closedWhenFixed
  {
    var it := new StatementIterable([], Vertices(true), false);
    var r := it.Drain();
    resultClosed, cxnClosed := it.resultClosed, it.cxnClosed;
    var it2 := new StatementIterable([], Vertices(true), false);
    r := it2.DrainClosing();
    closedWhenFixed := it2.resultClosed && it2.cxnClosed;
  }

  // ---------------------------------------------------------------------
  // The edge query of getElements
  // ---------------------------------------------------------------------

  function Quote(l: string): string
  {
    "\"" + l + "\""
  }

  /** `"l1", "l2", ..., "ln"`. */
  function QuotedList(ls: seq<string>): string
    requires |ls| > 0
  {
    if |ls| == 1 then Quote(ls[0]) else Quote(ls[0]) + ", " + QuotedList(ls[1..])
  }

  function Header(f: Factory): string
  {
    "construct { ?from ?edge ?to . } where {\n"
    + "  ?edge <" + f.typeUri + "> <" + f.edgeUri + "> .\n"
    + "  ?from ?edge ?to .\n"
  }

  /** The pattern fixing a single label. */
  function LabelPattern(f: Factory, l: string): string
  {
    "  ?edge <" + f.labelUri + "> \"" + l + "\" .\n"
  }

  /** The filter accepting any of several labels. */
  function LabelFilter(f: Factory, ls: seq<string>): string
    requires |ls| > 0
  {
    "  ?edge <" + f.labelUri + "> ?label .\n" + "  filter(?label in (" + QuotedList(ls) + ")) .\n"
  }

  /** No clause for absent labels, a fixed label for one, a filter for several. */
  function LabelClause(f: Factory, labels: Option<seq<string>>): string
  {
    if labels.None? || |labels.value| == 0 then ""
    else if |labels.value| == 1 then LabelPattern(f, labels.value[0])
    else LabelFilter(f, labels.value)
  }

  function Template(f: Factory, labels: Option<seq<string>>): string
  {
    Header(f) + LabelClause(f, labels) + "}"
  }

  /** Java's `String.replace`: every occurrence of `target`, left to right. */
  function ReplaceAll(s: string, target: string, rep: string): string
    requires |target| > 0
    decreases |s|
  {
    if |s| < |target| then s
    else if s[..|target|] == target then rep + ReplaceAll(s[|target|..], target, rep)
    else [s[0]] + ReplaceAll(s[1..], target, rep)
  }

  /** An unbound endpoint keeps its variable, a bound one becomes `<uri>`. */
  function Bind(endpoint: Option<string>, variable: string): string
  {
    if endpoint.Some? then "<" + endpoint.value + ">" else variable
  }

  function QueryText(f: Factory, fromUri: Option<string>, toUri: Option<string>, labels: Option<seq<string>>): string
  {
    ReplaceAll(ReplaceAll(Template(f, labels), "?from", Bind(fromUri, "?from")), "?to", Bind(toUri, "?to"))
  }

  /** The text appended for each label by the loop, separator included. */
  function Appended(ls: seq<string>): string
  {
    if |ls| == 0 then [] else Appended(ls[..|ls| - 1]) + Quote(ls[|ls| - 1]) + ", "
  }

  lemma {:induction false} AppendedIsListAndSeparator(ls: seq<string>)
    requires |ls| > 0
    ensures Appended(ls) == QuotedList(ls) + ", "
  {
    if |ls| > 1 {
      var init := ls[..|ls| - 1];
      AppendedIsListAndSeparator(init);
      QuotedListSnoc(init, ls[|ls| - 1]);
      assert init + [ls[|ls| - 1]] == ls;
    }
  }

  lemma {:induction false} QuotedListSnoc(ls: seq<string>, l: string)
    requires |ls| > 0
    ensures QuotedList(ls + [l]) == QuotedList(ls) + ", " + Quote(l)
  {
    if |ls| == 1 {
      assert (ls + [l])[1..] == [l];
    } else {
      QuotedListSnoc(ls[1..], l);
      assert (ls + [l])[1..] == ls[1..] + [l];
    }
  }

  /** The `for` loop over several labels, then `setLength` dropping the last separator. */
  method AppendLabelList(sb: string, ls: seq<string>) returns (r: string)
    requires |ls| > 1
    ensures r == sb + QuotedList(ls)
  {
    r := sb;
    var k := 0;
    while k < |ls|
      invariant 0 <= k <= |ls|
      invariant r == sb + Appended(ls[..k])
    {
      assert ls[..k + 1][..k] == ls[..k];
      r := r + "\"" + ls[k] + "\", ";
      k := k + 1;
    }
    assert ls[..k] == ls;
    AppendedIsListAndSeparator(ls);
    assert r == (sb + QuotedList(ls)) + ", ";
    r := r[..|r| - 2];
  }

  /** The single-label branch: one pattern fixing the label. */
  method AppendLabelPattern(sb: string, f: Factory, l: string) returns (r: string)
    ensures r == sb + LabelPattern(f, l)
  {
    r := sb + ("  ?edge <" + f.labelUri + "> \"");
    r := r + l;
    r := r + "\" .\n";
  }

  /** The several-labels branch: bind `?label` and filter it against the quoted list. */
  method AppendLabelFilter(sb: string, f: Factory, ls: seq<string>) returns (r: string)
    requires |ls| > 1
    ensures r == sb + LabelFilter(f, ls)
  {
    r := sb + ("  ?edge <" + f.labelUri + "> ?label .\n");
    r := r + "  filter(?label in (";
    r := AppendLabelList(r, ls);
    r := r + ")) .\n";
  }

  /** The label clause appended after the fixed patterns. */
  method AppendLabelClause(sb: string, f: Factory, labels: Option<seq<string>>) returns (r: string)
    ensures r == sb + LabelClause(f, labels)
  {
    r := sb;
    if labels.Some? && |labels.value| > 0 {
      if |labels.value| == 1 {
        r := AppendLabelPattern(r, f, labels.value[0]);
      } else {
        r := AppendLabelFilter(r, f, labels.value);
      }
    }
  }

  /**
   * `getElements` builds the construct query with a `StringBuilder`, then
   * binds the endpoints by textual replacement.
   */
  method GetElementsQuery(f: Factory, fromUri: Option<string>, toUri: Option<string>, labels: Option<seq<string>>)
    returns (q: string)
    ensures q == QueryText(f, fromUri, toUri, labels)
  {
    var sb := "construct { ?from ?edge ?to . } where {\n";
    sb := sb + "  ?edge <" + f.typeUri + "> <" + f.edgeUri + "> .\n";
    sb := sb + "  ?from ?edge ?to .\n";
    sb := AppendLabelClause(sb, f, labels);
    sb := sb + "}";
    q := ReplaceAll(ReplaceAll(sb, "?from", Bind(fromUri, "?from")), "?to", Bind(toUri, "?to"));
  }

  /** Replacing a string by itself changes nothing. */
  lemma {:induction false} ReplaceAllSame(s: string, target: string)
    requires |target| > 0
    ensures ReplaceAll(s, target, target) == s
    decreases |s|
  {
    if |s| >= |target| {
      if s[..|target|] == target {
        ReplaceAllSame(s[|target|..], target);
        assert s == s[..|target|] + s[|target|..];
      } else {
        ReplaceAllSame(s[1..], target);
        assert s == [s[0]] + s[1..];
      }
    }
  }

  /** With neither endpoint bound the query is the template itself. */
  lemma UnboundQueryIsTemplate(f: Factory, labels: Option<seq<string>>)
    ensures QueryText(f, None, None, labels) == Template(f, labels)
  {
    ReplaceAllSame(Template(f, labels), "?from");
    ReplaceAllSame(Template(f, labels), "?to");
  }

  /** Several labels are each quoted, in order, and separated by `", "`. */
  lemma TwoLabelsClause(f: Factory, a: string, b: string)
    ensures LabelClause(f, Some([a, b])) ==
      "  ?edge <" + f.labelUri + "> ?label .\n" + "  filter(?label in (" + Quote(a) + ", " + Quote(b) + ")) .\n"
  {
    assert [a, b][1..] == [b];
    assert QuotedList([a, b]) == Quote(a) + ", " + Quote(b);
  }

  // ---------------------------------------------------------------------
  // toGraphAtom
  // ---------------------------------------------------------------------

  datatype ElementType = VertexType | EdgeType

  /**
   * The seven positional arguments of `BigdataGraphAtom`; Java's `null` is
   * `None`.
   */
  datatype GraphAtom = GraphAtom(
    id: Option<string>,
    elementType: Option<ElementType>,
    fromId: Option<string>,
    toId: Option<string>,
    labelText: Option<string>,
    key: Option<string>,
    val: Option<LiteralObject>)

  /** The shape of an atom, read off which of its fields are set. */
  datatype AtomKind = TypeAtom(t: ElementType) | EdgeAtom | LabelAtom | PropertyAtom

  function KindOfAtom(a: GraphAtom): Option<AtomKind>
  {
    if a.id.Some? && a.elementType.Some? && a.fromId.None? && a.toId.None? && a.labelText.None? && a.key.None? && a.val.None?
    then Some(TypeAtom(a.elementType.value))
    else if a.id.Some? && a.elementType.None? && a.fromId.Some? && a.toId.Some? && a.labelText.None? && a.key.None? && a.val.None?
    then Some(EdgeAtom)
    else if a.id.Some? && a.elementType.None? && a.fromId.None? && a.toId.None? && a.labelText.Some? && a.key.None? && a.val.None?
    then Some(LabelAtom)
    else if a.id.Some? && a.elementType.None? && a.fromId.None? && a.toId.None? && a.labelText.None? && a.key.Some? && a.val.Some?
    then Some(PropertyAtom)
    else None
  }

  /** The shape of a statement as the graph reads it. */
  function KindOfStatement(f: Factory, st: Statement): Option<AtomKind>
  {
    if !st.subj.Iri? || !st.pred.Iri? || st.obj.BNode? then None
    else if st.obj.Iri? && st.pred.iri == f.typeUri && st.obj.iri == f.vertexUri then Some(TypeAtom(VertexType))
    else if st.obj.Iri? && st.pred.iri == f.typeUri && st.obj.iri == f.edgeUri then Some(TypeAtom(EdgeType))
    else if st.obj.Iri? then Some(EdgeAtom)
    else if st.pred.iri == f.labelUri then Some(LabelAtom)
    else Some(PropertyAtom)
  }

  /**
   * One RDF statement as an atom of property-graph data: a vertex or edge
   * type, an edge, an edge label or a property. Subject and predicate must
   * be URIs and a non-URI object must be a literal, or a cast fails.
   */
  function ToGraphAtom(f: Factory, st: Statement): (r: Result<GraphAtom, GraphError>)
    ensures r.Failure? <==> !st.subj.Iri? || !st.pred.Iri? || st.obj.BNode?
    ensures r.Failure? ==> r.error == ClassCast
  {
    if !st.subj.Iri? || !st.pred.Iri? then Failure(ClassCast)
    else
      var sid := f.fromUri(st.subj.iri);
      var pid := f.fromUri(st.pred.iri);
      match st.obj
      case Iri(o) =>
        if st.pred.iri == f.typeUri && (o == f.vertexUri || o == f.edgeUri) then
          if o == f.vertexUri then Success(GraphAtom(Some(sid), Some(VertexType), None, None, None, None, None))
          else Success(GraphAtom(Some(sid), Some(EdgeType), None, None, None, None, None))
        else Success(GraphAtom(Some(pid), None, Some(sid), Some(f.fromUri(o)), None, None, None))
      case Lit(l) =>
        if st.pred.iri == f.labelUri then
          Success(GraphAtom(Some(sid), None, None, None, Some(f.objectText(f.fromLiteral(l))), None, None))
        else Success(GraphAtom(Some(sid), None, None, None, None, Some(pid), Some(f.fromLiteral(l))))
      case BNode(_) => Failure(ClassCast)
  }

  /** The atom's shape is exactly the statement's, and a cast fails exactly when the statement has none. */
  lemma ToGraphAtomClassifies(f: Factory, st: Statement)
    ensures ToGraphAtom(f, st).Failure? <==> KindOfStatement(f, st).None?
    ensures ToGraphAtom(f, st).Success? ==> KindOfAtom(ToGraphAtom(f, st).value) == KindOfStatement(f, st)
  {
  }

  /** Which ids an atom carries, per shape. */
  lemma ToGraphAtomIds(f: Factory, st: Statement)
    requires ToGraphAtom(f, st).Success?
    ensures var a := ToGraphAtom(f, st).value;
      && (KindOfStatement(f, st) == Some(EdgeAtom) ==>
            a.id == Some(f.fromUri(st.pred.iri)) && a.fromId == Some(f.fromUri(st.subj.iri)) && a.toId == Some(f.fromUri(st.obj.iri)))
      && (KindOfStatement(f, st) != Some(EdgeAtom) ==> a.id == Some(f.fromUri(st.subj.iri)))
      && (KindOfStatement(f, st) == Some(PropertyAtom) ==>
            a.key == Some(f.fromUri(st.pred.iri)) && a.val == Some(f.fromLiteral(st.obj.lit)))
  {
  }

  // ---------------------------------------------------------------------
  // Argument checks of the lookups
  // ---------------------------------------------------------------------

  /** The query `getVertices` evaluates, and whether vertices come from subjects. */
  datatype VertexQuery = VertexQuery(text: string, subject: bool)

  /**
   * `getVertices(from, to, labels)`: exactly one endpoint must be bound; the
   * vertices are read from the unbound end.
   */
  function GetVertices(g: Graph, fromUri: Option<string>, toUri: Option<string>, labels: Option<seq<string>>)
    : (r: Result<VertexQuery, GraphError>)
    ensures r.Success? <==> fromUri.None? != toUri.None?
    ensures r.Failure? ==> r.error == IllegalArgument
    ensures r.Success? ==> r.value.text == QueryText(g.factory, fromUri, toUri, labels)
    ensures r.Success? ==> (r.value.subject <==> fromUri.None?) && (r.value.subject <==> toUri.Some?)
  {
    if fromUri.Some? && toUri.Some? then Failure(IllegalArgument)
    else if fromUri.None? && toUri.None? then Failure(IllegalArgument)
    else Success(VertexQuery(QueryText(g.factory, fromUri, toUri, labels), fromUri.None?))
  }

  /** The statements of the store whose predicate is `p`, in store order. */
  function Matching(store: seq<Statement>, p: Value): seq<Statement>
  {
    if |store| == 0 then []
    else (if store[0].pred == p then [store[0]] else []) + Matching(store[1..], p)
  }

  /** A statement is matched exactly when it is in the store and has predicate `p`. */
  lemma {:induction false} MatchingMembers(store: seq<Statement>, p: Value)
    ensures forall st :: st in Matching(store, p) <==> st in store && st.pred == p
  {
    if |store| > 0 {
      MatchingMembers(store[1..], p);
      assert store == [store[0]] + store[1..];
    }
  }

  lemma {:induction false} MatchingAppend(a: seq<Statement>, b: seq<Statement>, p: Value)
    ensures Matching(a + b, p) == Matching(a, p) + Matching(b, p)
  {
    if |a| > 0 {
      MatchingAppend(a[1..], b, p);
      assert (a + b)[1..] == a[1..] + b;
    } else {
      assert a + b == b;
    }
  }

  /**
   * `getEdge(key)`: the statement whose predicate is the edge's URI; none
   * gives `null`, more than one a "duplicate edge" error.
   */
  function GetEdge(g: Graph, store: seq<Statement>, key: Option<string>): (r: Result<Option<Element>, GraphError>)
    ensures key.None? ==> r == Failure(IllegalArgument)
    ensures key.Some? ==>
      var m := Matching(store, Iri(g.factory.toEdgeUri(key.value)));
      && (r == Success(None) <==> |m| == 0)
      && (r == Failure(DuplicateEdge) <==> |m| >= 2)
      && (r.Success? && r.value.Some? ==> |m| == 1 && r.value.value == Edge(m[0]))
  {
    if key.None? then Failure(IllegalArgument)
    else
      var m := Matching(store, Iri(g.factory.toEdgeUri(key.value)));
      if |m| == 0 then Success(None)
      else if |m| >= 2 then Failure(DuplicateEdge)
      else Success(Some(Edge(m[0])))
  }

  /** `getVertex(key)`: the vertex exists when it is typed as a vertex. */
  function GetVertex(g: Graph, store: seq<Statement>, key: Option<string>): (r: Result<Option<Element>, GraphError>)
    ensures r.Failure? <==> key.None?
    ensures r.Failure? ==> r.error == IllegalArgument
    ensures r.Success? ==>
      var uri := g.factory.toVertexUri(key.value);
      (r.value.Some? <==> Statement(Iri(uri), Iri(g.factory.typeUri), Iri(g.factory.vertexUri)) in store)
      && (r.value.Some? ==> r.value.value == Vertex(uri))
  {
    if key.None? then Failure(IllegalArgument)
    else
      var uri := g.factory.toVertexUri(key.value);
      if Statement(Iri(uri), Iri(g.factory.typeUri), Iri(g.factory.vertexUri)) in store then Success(Some(Vertex(uri)))
      else Success(None)
  }

  /** The statements `addEdge` writes and the edge it returns. */
  datatype EdgeWrite = EdgeWrite(added: seq<Statement>, edge: Statement)

  /**
   * `addEdge(key, from, to, label)`, with vertices given by their ids and
   * `uuid` standing for the random id of an edge added without a key.
   */
  function AddEdge(g: Graph, store: seq<Statement>, key: Option<string>, fromId: string, toId: string,
                   edgeLabel: Option<string>, uuid: string): (r: Result<EdgeWrite, GraphError>)
    ensures edgeLabel.None? && !g.laxEdges ==> r == Failure(IllegalArgument)
    ensures r.Failure? ==> !g.laxEdges
    ensures r == Failure(DuplicateEdge) ==> key.Some? && GetEdge(g, store, key) == Failure(DuplicateEdge)
    ensures r == Failure(EdgeAlreadyExists) ==> key.Some? && GetEdge(g, store, key).Success? && GetEdge(g, store, key).value.Some?
  {
    var f := g.factory;
    var fromV := Iri(f.toVertexUri(fromId));
    var toV := Iri(f.toVertexUri(toId));
    if edgeLabel.None? && !g.laxEdges then Failure(IllegalArgument)
    else if key.Some? && !g.laxEdges && GetEdge(g, store, key).Failure? then Failure(GetEdge(g, store, key).error)
    else if key.Some? && !g.laxEdges && GetEdge(g, store, key).value.Some?
            && !(GetEdge(g, store, key).value.value.stmt.subj == fromV && GetEdge(g, store, key).value.value.stmt.obj == toV)
    then Failure(EdgeAlreadyExists)
    else
      var edgeUri := Iri(f.toEdgeUri(if key.Some? then key.value else uuid));
      var st := Statement(fromV, edgeUri, toV);
      var added := if edgeLabel.Some?
        then [st, Statement(edgeUri, Iri(f.typeUri), Iri(f.edgeUri)), Statement(edgeUri, Iri(f.labelUri), Lit(f.toLiteral(edgeLabel.value)))]
        else [st];
      Success(EdgeWrite(added, st))
  }

  /** What a successful `addEdge` writes: the edge, then its type and label when labelled. */
  lemma AddEdgeWrites(g: Graph, store: seq<Statement>, key: Option<string>, fromId: string, toId: string,
                      edgeLabel: Option<string>, uuid: string)
    requires AddEdge(g, store, key, fromId, toId, edgeLabel, uuid).Success?
    ensures var w := AddEdge(g, store, key, fromId, toId, edgeLabel, uuid).value;
      var edgeUri := Iri(g.factory.toEdgeUri(if key.Some? then key.value else uuid));
      && w.edge == Statement(Iri(g.factory.toVertexUri(fromId)), edgeUri, Iri(g.factory.toVertexUri(toId)))
      && w.added[0] == w.edge
      && |w.added| == (if edgeLabel.Some? then 3 else 1)
      && (edgeLabel.Some? ==> w.added[1] == Statement(edgeUri, Iri(g.factory.typeUri), Iri(g.factory.edgeUri)))
      && (edgeLabel.Some? ==> w.added[2] == Statement(edgeUri, Iri(g.factory.labelUri), Lit(g.factory.toLiteral(edgeLabel.value))))
  {
  }

  /**
   * After adding a keyed edge to a store that had none, `getEdge` finds
   * exactly that edge, and adding it again with the same endpoints is
   * accepted while other endpoints are refused.
   */
  lemma {:induction false} AddThenGetEdge(g: Graph, store: seq<Statement>, key: string, fromId: string, toId: string,
                                          edgeLabel: string, uuid: string, otherTo: string)
    requires !g.laxEdges
    requires g.factory.toEdgeUri(key) != g.factory.typeUri && g.factory.toEdgeUri(key) != g.factory.labelUri
    requires GetEdge(g, store, Some(key)) == Success(None)
    requires g.factory.toVertexUri(otherTo) != g.factory.toVertexUri(toId)
    ensures var w := AddEdge(g, store, Some(key), fromId, toId, Some(edgeLabel), uuid);
      && w.Success?
      && GetEdge(g, store + w.value.added, Some(key)) == Success(Some(Edge(w.value.edge)))
      && AddEdge(g, store + w.value.added, Some(key), fromId, toId, Some(edgeLabel), uuid).Success?
      && AddEdge(g, store + w.value.added, Some(key), fromId, otherTo, Some(edgeLabel), uuid) == Failure(EdgeAlreadyExists)
  {
    var w := AddEdge(g, store, Some(key), fromId, toId, Some(edgeLabel), uuid);
    var p := Iri(g.factory.toEdgeUri(key));
    MatchingAppend(store, w.value.added, p);
    var added := w.value.added;
    assert Matching(added, p) == [w.value.edge] by {
      assert added[1..][1..][1..] == [];
      assert Matching(added[1..][1..], p) == [];
      assert Matching(added[1..], p) == [];
    }
  }
}
