/**
 * Conditional routing of binding-set chunks (ConditionalRoutingOp and its
 * ConditionalRouteTask).
 *
 * Binding sets are values of a type parameter `B`: the operator clones each one
 * before routing it, so on values a clone is the binding set itself and the
 * input is never mutated. The constraint is a pure predicate `B -> bool`.
 * The source is a cursor over a sequence of chunks; a sink records the chunks
 * added to it, how many of them a flush has made visible, and whether it is
 * closed.
 */
module ConditionalRouting {
  import opened Wrappers

  // ---------------------------------------------------------------------------
  // Specification functions
  // ---------------------------------------------------------------------------

  /** The solutions of `s` whose condition value is `pass`, in input order. */
  function Select<B>(accept: B -> bool, s: seq<B>, pass: bool): (r: seq<B>)
    ensures |r| <= |s|
  {
    if s == [] then []
    else Select(accept, s[..|s| - 1], pass) + (if accept(s[|s| - 1]) == pass then [s[|s| - 1]] else [])
  }

  /** All solutions of a sequence of chunks, in order. */
  function Flatten<B>(chunks: seq<seq<B>>): seq<B>
  {
    if chunks == [] then [] else Flatten(chunks[..|chunks| - 1]) + chunks[|chunks| - 1]
  }

  /** The batch one chunk contributes to a sink: nothing when no solution goes there. */
  function Emit<B>(batch: seq<B>): seq<seq<B>>
  {
    if batch == [] then [] else [batch]
  }

  /**
   * The chunks routed to the default sink (`pass`) or the alternate sink
   * (`!pass`) while the task consumes `chunks`, one batch per input chunk that
   * routes at least one solution to that side.
   */
  function Batches<B>(accept: B -> bool, chunks: seq<seq<B>>, pass: bool): (r: seq<seq<B>>)
    ensures |r| <= |chunks|
  {
    if chunks == [] then []
    else Batches(accept, chunks[..|chunks| - 1], pass) + Emit(Select(accept, chunks[|chunks| - 1], pass))
  }

  /** Whether the interrupt check at index `i` of chunk `k` sees an interrupt: the check runs only when `i % 20 == 0`. */
  predicate Polled(interrupt: (nat, nat) -> bool, k: nat, i: nat)
  {
    i % 20 == 0 && interrupt(k, i)
  }

  /** No interrupt check of chunk `k`, over its first `n` indices, sees an interrupt. */
  predicate Uninterrupted(interrupt: (nat, nat) -> bool, k: nat, n: nat)
  {
    forall i :: 0 <= i < n ==> !Polled(interrupt, k, i)
  }

  /** No interrupt check of the chunks `chunks[lo..hi]`, numbered by their position in `chunks`, sees an interrupt. */
  predicate NoneInterrupted<B>(interrupt: (nat, nat) -> bool, chunks: seq<seq<B>>, lo: nat, hi: nat)
    requires lo <= hi <= |chunks|
    decreases hi
  {
    lo == hi || (NoneInterrupted(interrupt, chunks, lo, hi - 1) && Uninterrupted(interrupt, hi - 1, |chunks[hi - 1]|))
  }

  /** `r` is `s` with some elements left out and the rest in their original order. */
  ghost predicate IsSubsequence<B>(r: seq<B>, s: seq<B>)
    decreases |s|
  {
    if r == [] then true
    else if s == [] then false
    else if r[|r| - 1] == s[|s| - 1] then IsSubsequence(r[..|r| - 1], s[..|s| - 1])
    else IsSubsequence(r, s[..|s| - 1])
  }

  // ---------------------------------------------------------------------------
  // Properties of the routing specification
  // ---------------------------------------------------------------------------

  /** Routing a concatenation routes each part separately. */
  lemma {:induction false} SelectAppend<B>(accept: B -> bool, a: seq<B>, b: seq<B>, pass: bool)
    ensures Select(accept, a + b, pass) == Select(accept, a, pass) + Select(accept, b, pass)
    decreases |b|
  {
    if b == [] {
      assert a + b == a;
    } else {
      var b' := b[..|b| - 1];
      assert (a + b)[..|a + b| - 1] == a + b';
      assert (a + b)[|a + b| - 1] == b[|b| - 1];
      SelectAppend(accept, a, b', pass);
    }
  }

  /**
   * Every solution goes to exactly one side: the two sides together are the
   * chunk, counted with multiplicity.
   */
  lemma {:induction false} SelectPartition<B>(accept: B -> bool, s: seq<B>)
    ensures multiset(Select(accept, s, true)) + multiset(Select(accept, s, false)) == multiset(s)
  {
    if s != [] {
      var s', x := s[..|s| - 1], s[|s| - 1];
      SelectPartition(accept, s');
      assert s == s' + [x];
    }
  }

  /** The two sides of a chunk together are as long as the chunk. */
  lemma SelectSizes<B>(accept: B -> bool, s: seq<B>)
    ensures |Select(accept, s, true)| + |Select(accept, s, false)| == |s|
  {
    SelectPartition(accept, s);
    assert |multiset(Select(accept, s, true)) + multiset(Select(accept, s, false))| == |multiset(s)|;
  }

  /** Each side keeps the input order of the solutions routed to it. */
  lemma {:induction false} SelectIsSubsequence<B>(accept: B -> bool, s: seq<B>, pass: bool)
    ensures IsSubsequence(Select(accept, s, pass), s)
    decreases |s|
  {
    if s != [] {
      var s' := s[..|s| - 1];
      SelectIsSubsequence(accept, s', pass);
      var r := Select(accept, s, pass);
      if accept(s[|s| - 1]) == pass {
        assert r[..|r| - 1] == Select(accept, s', pass);
      } else {
        assert r == Select(accept, s', pass);
        SubsequenceOfPrefix(r, s);
      }
    }
  }

  /** A subsequence of a prefix of `s` is a subsequence of `s`. */
  lemma {:induction false} SubsequenceOfPrefix<B>(r: seq<B>, s: seq<B>)
    requires s != [] && IsSubsequence(r, s[..|s| - 1])
    ensures IsSubsequence(r, s)
    decreases |s|, 0
  {
    if r != [] && r[|r| - 1] == s[|s| - 1] {
      var s' := s[..|s| - 1];
      SubsequenceDropLast(r, s');
    }
  }

  /** Dropping the last element of a subsequence keeps it a subsequence. */
  lemma {:induction false} SubsequenceDropLast<B>(r: seq<B>, s: seq<B>)
    requires r != [] && IsSubsequence(r, s)
    ensures IsSubsequence(r[..|r| - 1], s)
    decreases |s|, 1
  {
    var s' := s[..|s| - 1];
    if r[|r| - 1] == s[|s| - 1] {
      SubsequenceOfPrefix(r[..|r| - 1], s);
    } else {
      SubsequenceDropLast(r, s');
      SubsequenceOfPrefix(r[..|r| - 1], s);
    }
  }

  /** Routing one more solution of a chunk extends the side it goes to by that solution. */
  lemma SelectStep<B>(accept: B -> bool, s: seq<B>, i: nat)
    requires i < |s|
    ensures Select(accept, s[..i + 1], true) == Select(accept, s[..i], true) + (if accept(s[i]) then [s[i]] else [])
    ensures Select(accept, s[..i + 1], false) == Select(accept, s[..i], false) + (if !accept(s[i]) then [s[i]] else [])
  {
    assert s[..i + 1][..i] == s[..i];
  }

  /** An index whose check sees no interrupt extends the run of clean indices. */
  lemma UninterruptedStep(interrupt: (nat, nat) -> bool, k: nat, i: nat)
    requires Uninterrupted(interrupt, k, i) && !Polled(interrupt, k, i)
    ensures Uninterrupted(interrupt, k, i + 1)
  {
  }

  /**
   * Across the whole source, the solutions a sink receives are exactly the
   * flattened source filtered by the condition, in source order.
   */
  lemma {:induction false} BatchesFlatten<B>(accept: B -> bool, chunks: seq<seq<B>>, pass: bool)
    ensures Flatten(Batches(accept, chunks, pass)) == Select(accept, Flatten(chunks), pass)
  {
    if chunks != [] {
      var init, last := chunks[..|chunks| - 1], chunks[|chunks| - 1];
      BatchesFlatten(accept, init, pass);
      SelectAppend(accept, Flatten(init), last, pass);
      FlattenAppend(Batches(accept, init, pass), Emit(Select(accept, last, pass)));
      FlattenEmit(Select(accept, last, pass));
    }
  }

  /** A chunk's batch, flattened, is the chunk's routed solutions. */
  lemma FlattenEmit<B>(batch: seq<B>)
    ensures Flatten(Emit(batch)) == batch
  {
    if batch != [] {
      assert [batch][..0] == [];
    }
  }

  /** Flatten distributes over concatenation. */
  lemma {:induction false} FlattenAppend<B>(a: seq<seq<B>>, b: seq<seq<B>>)
    ensures Flatten(a + b) == Flatten(a) + Flatten(b)
    decreases |b|
  {
    if b == [] {
      assert a + b == a;
    } else {
      var ab, b' := a + b, b[..|b| - 1];
      assert ab[..|ab| - 1] == a + b';
      assert ab[|ab| - 1] == b[|b| - 1];
      FlattenAppend(a, b');
    }
  }

  /**
   * With an alternate sink, the two sinks together receive every solution of
   * the source exactly once.
   */
  lemma BatchesPartition<B>(accept: B -> bool, chunks: seq<seq<B>>)
    ensures multiset(Flatten(Batches(accept, chunks, true))) + multiset(Flatten(Batches(accept, chunks, false)))
         == multiset(Flatten(chunks))
  {
    BatchesFlatten(accept, chunks, true);
    BatchesFlatten(accept, chunks, false);
    SelectPartition(accept, Flatten(chunks));
  }

  /** The routing example of five solutions through a "greater than 2" condition. */
  lemma GreaterThanTwoExample()
    ensures Select((x: int) => x > 2, [1, 2, 3, 4, 5], true) == [3, 4, 5]
    ensures Select((x: int) => x > 2, [1, 2, 3, 4, 5], false) == [1, 2]
  {
    var gt2 := (x: int) => x > 2;
    assert [1, 2, 3, 4, 5][..4] == [1, 2, 3, 4];
    assert [1, 2, 3, 4][..3] == [1, 2, 3];
    assert [1, 2, 3][..2] == [1, 2];
    assert [1, 2][..1] == [1];
    assert [1][..0] == [];
  }

  // ---------------------------------------------------------------------------
  // Runtime objects: statistics, source, sinks
  // ---------------------------------------------------------------------------

  /** The operator's statistics counters (BOpStats). */
  class Stats {
    var chunksIn: nat
    var unitsIn: nat
    var chunksOut: nat
    var unitsOut: nat

    constructor ()
      ensures chunksIn == unitsIn == chunksOut == unitsOut == 0
    {
      chunksIn, unitsIn, chunksOut, unitsOut := 0, 0, 0, 0;
    }
  }

  /** The source: a closable iterator over chunks of binding sets. */
  class ChunkSource<B> {
    const chunks: seq<seq<B>>
    var pos: nat
    var closed: bool

    /** The cursor never runs past the end. */
    predicate Valid()
      reads this
    {
      pos <= |chunks|
    }

    constructor (chunks: seq<seq<B>>)
      ensures Valid() && this.chunks == chunks && pos == 0 && !closed
    {
      this.chunks := chunks;
      pos := 0;
      closed := false;
    }

    predicate HasNext()
      reads this
    {
      pos < |chunks|
    }

    method Next() returns (chunk: seq<B>)
      requires Valid() && HasNext()
      modifies this`pos
      ensures Valid() && chunk == chunks[old(pos)] && pos == old(pos) + 1
    {
      chunk := chunks[pos];
      pos := pos + 1;
    }

    method Close()
      modifies this`closed
      ensures closed
    {
      closed := true;
    }
  }

  /**
   * A sink: the chunks added to it, how many of them a flush has made visible
   * to the consumer, and whether it is closed.
   */
  class ChunkSink<B> {
    var added: seq<seq<B>>
    var visible: nat
    var closed: bool

    constructor ()
      ensures added == [] && visible == 0 && !closed
    {
      added, visible, closed := [], 0, false;
    }

    method Add(chunk: seq<B>)
      requires !closed
      modifies this`added
      ensures added == old(added) + [chunk]
    {
      added := added + [chunk];
    }

    method Flush()
      modifies this`visible
      ensures visible == |added|
    {
      visible := |added|;
    }

    method Close()
      modifies this`closed
      ensures closed
    {
      closed := true;
    }
  }

  // ---------------------------------------------------------------------------
  // The operator and its task
  // ---------------------------------------------------------------------------

  /** The annotation under which the operator holds its condition. */
  const CONDITION: string := "com.bigdata.bop.bset.ConditionalRoutingOp.condition"

  /** An annotation value: a constraint, `null`, or an object of some other class. */
  datatype Annotation<!B> = Constraint(accept: B -> bool) | NullValue | OtherValue

  /** The operator: its annotations, by name. */
  datatype RoutingOp<!B> = RoutingOp(annotations: map<string, Annotation<B>>)

  /**
   * `getCondition()`: the `CONDITION` annotation cast to a constraint;
   * `None` when it is absent or `null`, a failed cast for any other value.
   */
  function GetCondition<B>(op: RoutingOp<B>): (r: Result<Option<B -> bool>, ConfigError>)
    ensures r.Failure? <==> CONDITION in op.annotations && op.annotations[CONDITION].OtherValue?
    ensures r.Failure? ==> r.error == ClassCast
    ensures r == Success(None) <==> CONDITION !in op.annotations || op.annotations[CONDITION].NullValue?
    ensures r.Success? && r.value.Some? ==> op.annotations[CONDITION] == Constraint(r.value.value)
  {
    if CONDITION !in op.annotations then Success(None)
    else match op.annotations[CONDITION]
      case Constraint(accept) => Success(Some(accept))
      case NullValue => Success(None)
      case OtherValue => Failure(ClassCast)
  }

  /** The evaluation context: shared statistics, the source and the sinks (the alternate one may be null). */
  datatype Context<!B> = Context(stats: Stats, source: ChunkSource<B>, sink: ChunkSink<B>, sink2: ChunkSink?<B>)

  datatype ConfigError = IllegalArgument | ClassCast

  /** How `Call` ends: source exhausted, or an interrupt seen at an index of a chunk. */
  datatype Outcome = Completed | Interrupted(chunk: nat, index: nat)

  /** The solutions read while routing `chunks[lo..hi]`, counted chunk by chunk as the loop does. */
  function Read<B>(chunks: seq<seq<B>>, lo: nat, hi: nat): nat
    requires lo <= hi <= |chunks|
    decreases hi
  {
    if hi == lo then 0 else Read(chunks, lo, hi - 1) + |chunks[hi - 1]|
  }

  /** The batches routing `chunks[lo..hi]` adds to the sink for `pass`, chunk by chunk as the loop does. */
  function Sent<B>(accept: B -> bool, chunks: seq<seq<B>>, lo: nat, hi: nat, pass: bool): seq<seq<B>>
    requires lo <= hi <= |chunks|
    decreases hi
  {
    if hi == lo then [] else Sent(accept, chunks, lo, hi - 1, pass) + Emit(Select(accept, chunks[hi - 1], pass))
  }

  /** The loop counts every solution of the chunks it routed. */
  lemma {:induction false} ReadIsFlatten<B>(chunks: seq<seq<B>>, lo: nat, hi: nat)
    requires lo <= hi <= |chunks|
    ensures Read(chunks, lo, hi) == |Flatten(chunks[lo..hi])|
    decreases hi
  {
    var done := chunks[lo..hi];
    if hi > lo {
      assert done[..|done| - 1] == chunks[lo..hi - 1];
      assert done[|done| - 1] == chunks[hi - 1];
      ReadIsFlatten(chunks, lo, hi - 1);
    } else {
      assert done == [];
    }
  }

  /** The batches the loop adds to a sink are the ones `Batches` describes. */
  lemma {:induction false} SentIsBatches<B>(accept: B -> bool, chunks: seq<seq<B>>, lo: nat, hi: nat, pass: bool)
    requires lo <= hi <= |chunks|
    ensures Sent(accept, chunks, lo, hi, pass) == Batches(accept, chunks[lo..hi], pass)
    decreases hi
  {
    var done := chunks[lo..hi];
    if hi > lo {
      assert done[..|done| - 1] == chunks[lo..hi - 1];
      assert done[|done| - 1] == chunks[hi - 1];
      SentIsBatches(accept, chunks, lo, hi - 1, pass);
    } else {
      assert done == [];
    }
  }

  /**
   * Over the chunks routed so far, a sink has received exactly their
   * solutions that go its way, in source order.
   */
  lemma SentFlatten<B>(accept: B -> bool, chunks: seq<seq<B>>, lo: nat, hi: nat, pass: bool)
    requires lo <= hi <= |chunks|
    ensures Flatten(Sent(accept, chunks, lo, hi, pass)) == Select(accept, Flatten(chunks[lo..hi]), pass)
  {
    SentIsBatches(accept, chunks, lo, hi, pass);
    BatchesFlatten(accept, chunks[lo..hi], pass);
  }

  /** Over the chunks routed so far, the two sinks together have received each of their solutions exactly once. */
  lemma SentPartition<B>(accept: B -> bool, chunks: seq<seq<B>>, lo: nat, hi: nat)
    requires lo <= hi <= |chunks|
    ensures multiset(Flatten(Sent(accept, chunks, lo, hi, true))) + multiset(Flatten(Sent(accept, chunks, lo, hi, false)))
         == multiset(Flatten(chunks[lo..hi]))
  {
    SentIsBatches(accept, chunks, lo, hi, true);
    SentIsBatches(accept, chunks, lo, hi, false);
    BatchesPartition(accept, chunks[lo..hi]);
  }

  /**
   * What the routing loop has done after routing `chunks[start..pos]` to
   * completion: `units` solutions read, `emitted` batches added to the
   * default sink and `emitted2` to the alternate one, and no interrupt seen.
   */
  ghost predicate Progress<B>(accept: B -> bool, interrupt: (nat, nat) -> bool, chunks: seq<seq<B>>, start: nat, pos: nat,
                              units: nat, emitted: seq<seq<B>>, emitted2: seq<seq<B>>)
  {
    && start <= pos <= |chunks|
    && units == Read(chunks, start, pos)
    && NoneInterrupted(interrupt, chunks, start, pos)
    && emitted == Sent(accept, chunks, start, pos, true)
    && emitted2 == Sent(accept, chunks, start, pos, false)
  }

  /**
   * The task checks its configuration when it is built: a missing or `null`
   * condition is refused, a condition of another class fails its cast, and
   * the two sinks must differ.
   */
  function CheckConfig<B>(op: RoutingOp<B>, context: Context<B>): (r: Result<B -> bool, ConfigError>)
    ensures r.Success? <==> CONDITION in op.annotations && op.annotations[CONDITION].Constraint? && context.sink != context.sink2
    ensures r.Success? ==> r.value == op.annotations[CONDITION].accept
    ensures r == Failure(ClassCast) <==> CONDITION in op.annotations && op.annotations[CONDITION].OtherValue?
  {
    match GetCondition(op)
    case Failure(e) => Failure(e)
    case Success(None) => Failure(IllegalArgument)
    case Success(Some(condition)) => if context.sink == context.sink2 then Failure(IllegalArgument) else Success(condition)
  }

  /**
   * The loop body for one solution: `def[ndef++] = x` when it passes,
   * `alt[nalt++] = x` when it fails and there is an alternate batch.
   */
  method RouteOne<B>(accept: B -> bool, hasAlt: bool, x: B, defArr: array<B>, altArr: array<B>, ndef: nat, nalt: nat)
    returns (ndef': nat, nalt': nat)
    requires defArr != altArr && ndef < defArr.Length && nalt <= altArr.Length && (hasAlt ==> nalt < altArr.Length)
    modifies defArr, altArr
    ensures ndef' == ndef + (if accept(x) then 1 else 0)
    ensures nalt' == nalt + (if !accept(x) && hasAlt then 1 else 0)
    ensures defArr[..ndef'] == old(defArr[..ndef]) + (if accept(x) then [x] else [])
    ensures altArr[..nalt'] == old(altArr[..nalt]) + (if !accept(x) && hasAlt then [x] else [])
  {
    ndef', nalt' := ndef, nalt;
    if accept(x) {
      defArr[ndef] := x;
      assert defArr[..ndef + 1] == old(defArr[..ndef]) + [x];
      ndef' := ndef + 1;
    } else if hasAlt {
      altArr[nalt] := x;
      assert altArr[..nalt + 1] == old(altArr[..nalt]) + [x];
      nalt' := nalt + 1;
    }
  }

  /**
   * Routes one chunk: clones each solution and puts it in the default batch
   * when it passes, in the alternate batch when it fails and there is an
   * alternate sink, and drops it otherwise. Every 20th index polls for an
   * interrupt; `stoppedAt` is the index where one was seen. The batches are
   * trimmed to the number of solutions routed.
   */
  method RouteChunk<B>(accept: B -> bool, hasAlt: bool, chunk: seq<B>, k: nat, interrupt: (nat, nat) -> bool)
    returns (def: seq<B>, alt: seq<B>, stoppedAt: Option<nat>)
    ensures stoppedAt.None? <==> Uninterrupted(interrupt, k, |chunk|)
    ensures stoppedAt.Some? ==>
      stoppedAt.value < |chunk| && Polled(interrupt, k, stoppedAt.value) && Uninterrupted(interrupt, k, stoppedAt.value)
    ensures stoppedAt.None? ==> def == Select(accept, chunk, true)
    ensures stoppedAt.None? ==> alt == if hasAlt then Select(accept, chunk, false) else []
  {
    var defArr := new B[|chunk|](i requires 0 <= i < |chunk| => chunk[i]);
    var altArr := new B[if hasAlt then |chunk| else 0](i requires 0 <= i < |chunk| => chunk[i]);
    var ndef, nalt := 0, 0;
    for i := 0 to |chunk|
      invariant ndef <= i && nalt <= i
      invariant defArr[..ndef] == Select(accept, chunk[..i], true)
      invariant hasAlt ==> altArr[..nalt] == Select(accept, chunk[..i], false)
      invariant !hasAlt ==> nalt == 0
      invariant Uninterrupted(interrupt, k, i)
    {
      if i % 20 == 0 && interrupt(k, i) {
        assert Polled(interrupt, k, i);
        return [], [], Some(i);
      }
      UninterruptedStep(interrupt, k, i);
      var bset := chunk[i];
      SelectStep(accept, chunk, i);
      ndef, nalt := RouteOne(accept, hasAlt, bset, defArr, altArr, ndef, nalt);
    }
    assert chunk[..|chunk|] == chunk;
    def := if ndef == defArr.Length then defArr[..] else defArr[..ndef];
    alt := if nalt == altArr.Length then altArr[..] else altArr[..nalt];
    stoppedAt := None;
  }

  /** The task that copies the source to the default or the alternate sink. */
  class RouteTask<B> {
    const stats: Stats
    const accept: B -> bool
    const source: ChunkSource<B>
    const sink: ChunkSink<B>
    const sink2: ChunkSink?<B>

    constructor (accept: B -> bool, context: Context<B>)
      requires context.sink != context.sink2
      ensures this.accept == accept && stats == context.stats && source == context.source
      ensures sink == context.sink && sink2 == context.sink2
    {
      this.stats := context.stats;
      this.accept := accept;
      this.source := context.source;
      this.sink := context.sink;
      this.sink2 := context.sink2;
    }

    /** Builds the task, or reports the configuration error the Java constructor throws. */
    static method New(op: RoutingOp<B>, context: Context<B>) returns (r: Result<RouteTask<B>, ConfigError>)
      ensures r.Success? <==> CONDITION in op.annotations && op.annotations[CONDITION].Constraint? && context.sink != context.sink2
      ensures r == Failure(ClassCast) <==> CONDITION in op.annotations && op.annotations[CONDITION].OtherValue?
      ensures r.Success? ==> fresh(r.value) && r.value.accept == op.annotations[CONDITION].accept
      ensures r.Success? ==> r.value.stats == context.stats && r.value.source == context.source
      ensures r.Success? ==> r.value.sink == context.sink && r.value.sink2 == context.sink2 && r.value.Distinct()
    {
      var checked := CheckConfig(op, context);
      match checked
      case Failure(e) =>
        r := Failure(e);
      case Success(condition) =>
        var task := new RouteTask(condition, context);
        r := Success(task);
    }

    /** The two sinks are different objects. */
    predicate Distinct()
    {
      sink != sink2
    }

    /**
     * One pass of the loop body: take the next chunk, number `k`, from the
     * source, count it in, route it, and add each non-empty batch to its
     * sink. Nothing is added when an interrupt is seen.
     */
    method RouteNext(interrupt: (nat, nat) -> bool) returns (k: nat, stoppedAt: Option<nat>)
      requires Distinct() && source.Valid() && source.HasNext() && !sink.closed && (sink2 != null ==> !sink2.closed)
      modifies source`pos, sink`added, stats`chunksIn, stats`unitsIn, sink2
      ensures k == old(source.pos) && source.pos == k + 1 && source.Valid()
      ensures sink2 != null ==> sink2.visible == old(sink2.visible) && sink2.closed == old(sink2.closed)
      ensures stats.chunksIn == old(stats.chunksIn) + 1 && stats.unitsIn == old(stats.unitsIn) + |source.chunks[k]|
      ensures stoppedAt.None? <==> Uninterrupted(interrupt, k, |source.chunks[k]|)
      ensures stoppedAt.Some? ==>
        && stoppedAt.value < |source.chunks[k]|
        && Polled(interrupt, k, stoppedAt.value) && Uninterrupted(interrupt, k, stoppedAt.value)
      ensures stoppedAt.Some? ==> sink.added == old(sink.added) && (sink2 != null ==> sink2.added == old(sink2.added))
      ensures stoppedAt.None? ==> sink.added == old(sink.added) + Emit(Select(accept, source.chunks[k], true))
      ensures stoppedAt.None? && sink2 != null ==> sink2.added == old(sink2.added) + Emit(Select(accept, source.chunks[k], false))
    {
      k := source.pos;
      var chunk := source.Next();
      stats.chunksIn := stats.chunksIn + 1;
      stats.unitsIn := stats.unitsIn + |chunk|;
      var def, alt;
      def, alt, stoppedAt := RouteChunk(accept, sink2 != null, chunk, k, interrupt);
      if stoppedAt.Some? {
        return;
      }
      if |def| > 0 {
        sink.Add(def);
      }
      if |alt| > 0 && sink2 != null {
        sink2.Add(alt);
      }
    }

    /**
     * The loop of `call()`'s `try` block: while the source has a chunk,
     * route it; an interrupt ends the loop.
     */
    method RouteAll(interrupt: (nat, nat) -> bool)
      returns (outcome: Outcome, ghost routed: nat, ghost units: nat, ghost emitted: seq<seq<B>>, ghost emitted2: seq<seq<B>>)
      requires Distinct() && source.Valid() && !sink.closed && (sink2 != null ==> !sink2.closed)
      modifies source`pos, sink`added, stats`chunksIn, stats`unitsIn, sink2
      ensures sink2 != null ==> sink2.closed == old(sink2.closed) && sink2.visible == old(sink2.visible)
      ensures source.Valid() && old(source.pos) <= source.pos
      ensures stats.chunksIn == old(stats.chunksIn) + (source.pos - old(source.pos))
      ensures sink.added == old(sink.added) + emitted
      ensures sink2 != null ==> sink2.added == old(sink2.added) + emitted2
      ensures Progress(accept, interrupt, source.chunks, old(source.pos), routed, units, emitted, emitted2)
      ensures outcome.Completed? ==>
        && source.pos == |source.chunks| && routed == source.pos
        && stats.unitsIn == old(stats.unitsIn) + units
      ensures outcome.Interrupted? ==>
        && old(source.pos) < source.pos && outcome.chunk == source.pos - 1 && routed == outcome.chunk
        && outcome.index < |source.chunks[outcome.chunk]|
        && Polled(interrupt, outcome.chunk, outcome.index)
        && Uninterrupted(interrupt, outcome.chunk, outcome.index)
        && stats.unitsIn == old(stats.unitsIn) + units + |source.chunks[outcome.chunk]|
    {
      ghost var start := source.pos;
      units, emitted, emitted2 := 0, [], [];
      outcome := Completed;
      routed := start;
      while source.HasNext()
        invariant source.Valid() && start <= source.pos
        invariant sink2 != null ==> sink2.closed == old(sink2.closed) && sink2.visible == old(sink2.visible)
        invariant stats.chunksIn == old(stats.chunksIn) + (source.pos - start) && stats.unitsIn == old(stats.unitsIn) + units
        invariant sink.added == old(sink.added) + emitted
        invariant sink2 != null ==> sink2.added == old(sink2.added) + emitted2
        invariant routed == source.pos
        invariant Progress(accept, interrupt, source.chunks, start, routed, units, emitted, emitted2)
        decreases |source.chunks| - source.pos
      {
        var k, stoppedAt := RouteNext(interrupt);
        if stoppedAt.Some? {
          outcome := Interrupted(k, stoppedAt.value);
          return;
        }
        routed, units, emitted, emitted2 := routed + 1, units + |source.chunks[routed]|,
          emitted + Emit(Select(accept, source.chunks[routed], true)), emitted2 + Emit(Select(accept, source.chunks[routed], false));
      }
    }

    /**
     * The `try` block of `call()`: route every chunk, then, once the source
     * is exhausted, flush the default sink and then the alternate one. An
     * interrupt ends the loop without flushing.
     */
    method Drain(interrupt: (nat, nat) -> bool) returns (outcome: Outcome)
      requires Distinct() && source.Valid() && !sink.closed && (sink2 != null ==> !sink2.closed)
      modifies source, sink, sink2, stats
      ensures source.closed == old(source.closed)
      ensures sink.closed == old(sink.closed) && (sink2 != null ==> sink2.closed == old(sink2.closed))
      ensures source.Valid() && old(source.pos) <= source.pos
      ensures stats.chunksIn == old(stats.chunksIn) + (source.pos - old(source.pos))
      ensures stats.unitsIn == old(stats.unitsIn) + Read(source.chunks, old(source.pos), source.pos)
      ensures stats.chunksOut == old(stats.chunksOut) && stats.unitsOut == old(stats.unitsOut)
      ensures outcome.Completed? ==> source.pos == |source.chunks|
      ensures outcome.Completed? ==> sink.visible == |sink.added| && (sink2 != null ==> sink2.visible == |sink2.added|)
      ensures outcome.Completed? ==>
        NoneInterrupted(interrupt, source.chunks, old(source.pos), source.pos)
      ensures outcome.Interrupted? ==>
        && old(source.pos) < source.pos && outcome.chunk == source.pos - 1
        && outcome.index < |source.chunks[outcome.chunk]|
        && Polled(interrupt, outcome.chunk, outcome.index)
        && Uninterrupted(interrupt, outcome.chunk, outcome.index)
        && sink.visible == old(sink.visible) && (sink2 != null ==> sink2.visible == old(sink2.visible))
      ensures outcome.Interrupted? ==>
        NoneInterrupted(interrupt, source.chunks, old(source.pos), outcome.chunk)
      ensures sink.added == old(sink.added) + Sent(accept, source.chunks, old(source.pos), if outcome.Completed? then source.pos else outcome.chunk, true)
      ensures sink2 != null ==> sink2.added == old(sink2.added) + Sent(accept, source.chunks, old(source.pos), if outcome.Completed? then source.pos else outcome.chunk, false)
    {
      ghost var routed, units, emitted, emitted2;
      outcome, routed, units, emitted, emitted2 := RouteAll(interrupt);
      if outcome.Completed? {
        sink.Flush();
        if sink2 != null {
          sink2.Flush();
        }
      }
    }

    /**
     * `call()`: the `try` block, then, on every exit, close the source, the
     * default sink and the alternate sink if there is one.
     */
    method Call(interrupt: (nat, nat) -> bool) returns (outcome: Outcome)
      requires Distinct() && source.Valid() && !sink.closed && (sink2 != null ==> !sink2.closed)
      modifies source, sink, sink2, stats
      ensures source.closed && sink.closed && (sink2 != null ==> sink2.closed)
      ensures source.Valid() && old(source.pos) <= source.pos
      ensures stats.chunksIn == old(stats.chunksIn) + (source.pos - old(source.pos))
      ensures stats.unitsIn == old(stats.unitsIn) + Read(source.chunks, old(source.pos), source.pos)
      ensures stats.chunksOut == old(stats.chunksOut) && stats.unitsOut == old(stats.unitsOut)
      ensures outcome.Completed? ==> source.pos == |source.chunks|
      ensures outcome.Completed? ==> sink.visible == |sink.added| && (sink2 != null ==> sink2.visible == |sink2.added|)
      ensures outcome.Completed? ==>
        NoneInterrupted(interrupt, source.chunks, old(source.pos), source.pos)
      ensures outcome.Interrupted? ==>
        && old(source.pos) < source.pos && outcome.chunk == source.pos - 1
        && outcome.index < |source.chunks[outcome.chunk]|
        && Polled(interrupt, outcome.chunk, outcome.index)
        && Uninterrupted(interrupt, outcome.chunk, outcome.index)
        && sink.visible == old(sink.visible) && (sink2 != null ==> sink2.visible == old(sink2.visible))
      ensures outcome.Interrupted? ==>
        NoneInterrupted(interrupt, source.chunks, old(source.pos), outcome.chunk)
      ensures sink.added == old(sink.added) + Sent(accept, source.chunks, old(source.pos), if outcome.Completed? then source.pos else outcome.chunk, true)
      ensures sink2 != null ==> sink2.added == old(sink2.added) + Sent(accept, source.chunks, old(source.pos), if outcome.Completed? then source.pos else outcome.chunk, false)
    {
      outcome := Drain(interrupt);
      // finally
      source.Close();
      sink.Close();
      if sink2 != null {
        sink2.Close();
      }
    }
  }
}
