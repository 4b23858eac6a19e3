# Blazegraph: conditional routing, the SPO triple and the Blueprints graph iterators

This project models three pieces of the Blazegraph RDF database in Dafny and proves properties of them.

- **`routing.dfy`, module `ConditionalRouting`: the conditional routing operator's task.**
  - `ConditionalRoutingOp.ConditionalRouteTask` reads chunks of solutions (binding sets) from its source.
  - It tests every solution against the operator's condition.
  - It adds the passing solutions to the default sink and the failing ones to the alternate sink. When there is no alternate sink, the failing ones are dropped.
  - The model has a source, two sinks and the operator statistics. They are classes whose fields the task updates.
  - The chunk loop fills arrays, as the Java code does.
  - The task is proved against the specification functions `Select`, `Flatten` and `Batches`.
  - The loop's counts and batches are stated chunk by chunk, by `Read` and `Sent` over a range of chunks. Lemmas show that these equal the whole-source specification.
- **`spo.dfy`, module `Spo`: the `SPO` statement type.** It covers:
  - the order on the three term identifiers, and `equals`;
  - decoding a statement from an index key written in the SPO, POS or OSP key order;
  - the statement-type predicates and `isFullyBound`;
  - `toString()`;
  - `hashCode()`, both as written (it always returns 0) and corrected. The corrected method follows `Arrays.hashCode(long[])` with Java's 32-bit `int` wrap-around written out.
- **`graph.dfy`, module `BigdataGraph`: the Blueprints facade.** It covers:
  - `FusedIterable`, which reads several iterables one after the other;
  - `VertexIterable` and `EdgeIterable`, modelled as one class `StatementIterable` with a `Kind`. It streams statements, caches what it returned, closes the result on exhaustion and then replays the cache;
  - the text of the construct query that `getElements` builds;
  - the statement-to-atom translation of `toGraphAtom`;
  - the argument checks of `getVertices`, `addEdge`, `getEdge` and `getVertex`.

`wrappers.dfy` declares the `Option` and `Result` types. The models use them for Java's `null` and for exceptions.

## Model

| member | source | states |
|---|---|---|
| ConditionalRouting.GetCondition | bigdata/src/java/com/bigdata/bop/bset/ConditionalRoutingOp.java:118-122 | the condition is absent (`null`) exactly when the `CONDITION` annotation is missing or `null`; the cast fails exactly when it holds some other class; otherwise it is that constraint |
| ConditionalRouting.CheckConfig | bigdata/src/java/com/bigdata/bop/bset/ConditionalRoutingOp.java:152-167 | configuration succeeds exactly when the annotation is a constraint and the default and alternate sinks are different objects, and yields that constraint; a non-constraint annotation is a ClassCast, the other failures IllegalArgument |
| ConditionalRouting.RouteTask.New | bigdata/src/java/com/bigdata/bop/bset/ConditionalRoutingOp.java:147-169 | the task is built exactly when the configuration is valid, with the context's statistics, source and sinks and the annotation's constraint; otherwise the configuration's error |
| ConditionalRouting.RouteOne | bigdata/src/java/com/bigdata/bop/bset/ConditionalRoutingOp.java:199-209 | one solution goes to the end of the default array when it passes, else to the end of the alternate array when there is one, else nowhere; each counter grows by exactly the solutions its array got |
| ConditionalRouting.RouteChunk | bigdata/src/java/com/bigdata/bop/bset/ConditionalRoutingOp.java:181-211 | without an interrupt, the default batch is exactly the passing solutions in input order and the alternate batch exactly the failing ones, or empty without an alternate sink; an interrupt stops it at a polled index (a multiple of 20) before which none was seen |
| ConditionalRouting.RouteTask.RouteNext | bigdata/src/java/com/bigdata/bop/bset/ConditionalRoutingOp.java:174-231 | one loop pass: the next chunk is taken, `chunksIn` grows by 1 and `unitsIn` by the chunk length, the out-counters do not change; without an interrupt each sink gets its batch (only if non-empty), and with one nothing is added |
| ConditionalRouting.RouteTask.RouteAll | bigdata/src/java/com/bigdata/bop/bset/ConditionalRoutingOp.java:174-231 | the loop keeps the invariant that each sink received exactly the non-empty batches (`Sent`) of the chunks routed so far, that `unitsIn` grew by exactly the solutions of those chunks (`Read`), and that no interrupt was seen in them |
| ConditionalRouting.RouteTask.Drain | bigdata/src/java/com/bigdata/bop/bset/ConditionalRoutingOp.java:173-237 | the whole `try` block: the default sink receives the non-empty passing batches (`Sent`) of every chunk routed to completion, the alternate sink the failing ones; `unitsIn` grows by the solutions read (`Read`); on exhaustion both sinks are flushed and no interrupt was seen; an interrupt, seen at a polled index of the last chunk taken, ends it with nothing more added or flushed |
| ConditionalRouting.RouteTask.Call | bigdata/src/java/com/bigdata/bop/bset/ConditionalRoutingOp.java:171-247 | on every exit, normal or interrupted, the source, the sink and the alternate sink (if any) are closed, on top of all that `Drain` states |
| ConditionalRouting.SelectPartition | bigdata/src/java/com/bigdata/bop/bset/ConditionalRoutingOp.java:199-209 | the passing and failing solutions of a chunk together are a permutation of the chunk |
| ConditionalRouting.SelectSizes | bigdata/src/java/com/bigdata/bop/bset/ConditionalRoutingOp.java:185-209 | with an alternate sink, `ndef + nalt` ends equal to the chunk length |
| ConditionalRouting.SelectIsSubsequence | bigdata/src/java/com/bigdata/bop/bset/ConditionalRoutingOp.java:187-211 | each batch is a subsequence of its chunk: routing keeps input order |
| ConditionalRouting.SelectAppend | bigdata/src/java/com/bigdata/bop/bset/ConditionalRoutingOp.java:187-211 | filtering distributes over concatenation of inputs |
| ConditionalRouting.BatchesFlatten | bigdata/src/java/com/bigdata/bop/bset/ConditionalRoutingOp.java:174-231 | over the whole source, the concatenated batches added to a sink are the flattened source filtered by the condition (passing, or failing for the alternate sink) |
| ConditionalRouting.BatchesPartition | bigdata/src/java/com/bigdata/bop/bset/ConditionalRoutingOp.java:174-231 | the solutions routed to the two sinks together are a permutation of all the solutions read |
| ConditionalRouting.ReadIsFlatten | bigdata/src/java/com/bigdata/bop/bset/ConditionalRoutingOp.java:174-231 | the solutions counted chunk by chunk over a range of chunks are exactly the solutions of those chunks |
| ConditionalRouting.SentIsBatches | bigdata/src/java/com/bigdata/bop/bset/ConditionalRoutingOp.java:174-231 | the batches added chunk by chunk over a range of chunks are the batches the specification gives for those chunks |
| ConditionalRouting.SentFlatten | bigdata/src/java/com/bigdata/bop/bset/ConditionalRoutingOp.java:174-231 | over the chunks routed so far, a sink has received exactly their solutions that go its way, in source order |
| ConditionalRouting.SentPartition | bigdata/src/java/com/bigdata/bop/bset/ConditionalRoutingOp.java:174-231 | over the chunks routed so far, the two sinks together received a permutation of the solutions read |
| ConditionalRouting.GreaterThanTwoExample | bigdata/src/java/com/bigdata/bop/bset/ConditionalRoutingOp.java:199-209 | with condition x > 2 on 1..5 the default batch is [3,4,5] and the alternate batch [1,2] |
| Spo.Cmp | bigdata-rdf/src/java/com/bigdata/rdf/spo/SPO.java:267-277 | comparison by `<`/`>` rather than subtraction: -1, 0 or 1, negative iff less, zero iff equal |
| Spo.Permute | bigdata-rdf/src/java/com/bigdata/rdf/spo/SPO.java:151-175 | the key-order switch fails exactly for an order other than SPO, POS and OSP |
| Spo.PermuteKeyOf | bigdata-rdf/src/java/com/bigdata/rdf/spo/SPO.java:151-175 | encoding (s,p,o) in a key order and decoding it in the same order gives back (s,p,o) |
| Spo.KeyOfPermute | bigdata-rdf/src/java/com/bigdata/rdf/spo/SPO.java:151-175 | decoding key longs and encoding them again in the same order gives back the key longs |
| Spo.PermuteFullyBound | bigdata-rdf/src/java/com/bigdata/rdf/spo/SPO.java:362-366 | a decoded statement is fully bound exactly when none of the three key longs is `NULL` |
| Spo.SPO.FromKey | bigdata-rdf/src/java/com/bigdata/rdf/spo/SPO.java:113-183 | the key constructor fails with NoSuchElement on an exhausted cursor, without moving it; otherwise it takes the next tuple and decodes longs at offsets 0, 8 and 16 of a key of at least 8*N bytes; it fails with UnsupportedOperation exactly for another key order, then with an index error exactly for a value with no byte; it places the longs by key order and the type decoded from the value's first byte; the hash cache is empty, and the statement is fully bound exactly when no key long is `NULL` |
| Spo.SPO.CompareTo | bigdata-rdf/src/java/com/bigdata/rdf/spo/SPO.java:247-285 | returns -1, 0 or 1, and 0 exactly when s, p and o are all equal |
| Spo.SPO.Equals | bigdata-rdf/src/java/com/bigdata/rdf/spo/SPO.java:293-306 | true exactly when s, p, o and the type are all equal |
| Spo.SPO.IsExplicit | bigdata-rdf/src/java/com/bigdata/rdf/spo/SPO.java:185-192 | true exactly for an `Explicit` statement (with `ExactlyOneType`: exactly one type predicate holds) |
| Spo.SPO.IsInferred | bigdata-rdf/src/java/com/bigdata/rdf/spo/SPO.java:194-201 | true exactly for an `Inferred` statement |
| Spo.SPO.IsAxiom | bigdata-rdf/src/java/com/bigdata/rdf/spo/SPO.java:203-210 | true exactly for an `Axiom` statement |
| Spo.SPO.IsFullyBound | bigdata-rdf/src/java/com/bigdata/rdf/spo/SPO.java:355-366 | true exactly when no identifier of (s, p, o) is `NULL` |
| Spo.CompareIsLex | bigdata-rdf/src/java/com/bigdata/rdf/spo/SPO.java:247-285 | `compareTo` is the lexicographic order on (s,p,o) in both directions |
| Spo.CompareAntisymmetric | bigdata-rdf/src/java/com/bigdata/rdf/spo/SPO.java:247-285 | cmp(a,b) == -cmp(b,a) |
| Spo.CompareTransitive | bigdata-rdf/src/java/com/bigdata/rdf/spo/SPO.java:247-285 | a < b and b < c imply a < c |
| Spo.CompareIgnoresType | bigdata-rdf/src/java/com/bigdata/rdf/spo/SPO.java:241-246 | statements with the same ids compare alike against any third statement, whatever their type |
| Spo.EqualsImpliesCompareZero | bigdata-rdf/src/java/com/bigdata/rdf/spo/SPO.java:293-306 | equal statements compare as 0 |
| Spo.CompareZeroNotEquals | bigdata-rdf/src/java/com/bigdata/rdf/spo/SPO.java:244-245 | same ids with different types compare as 0 but are not equal |
| Spo.ExactlyOneType | bigdata-rdf/src/java/com/bigdata/rdf/spo/SPO.java:188-210 | exactly one of `isExplicit`, `isInferred` and `isAxiom` holds |
| Spo.SPO.ComputeHash | bigdata-rdf/src/java/com/bigdata/rdf/spo/SPO.java:223-233 | the loop over {s,p,o} computes `Arrays.hashCode` of the ids with 32-bit wrap-around |
| Spo.SPO.HashCode | bigdata-rdf/src/java/com/bigdata/rdf/spo/SPO.java:212-239 | the hash is computed once and cached, and always equals `Arrays.hashCode` of the ids |
| Spo.SPO.HashCodeAsWritten | bigdata-rdf/src/java/com/bigdata/rdf/spo/SPO.java:212-239 | as written, the method returns the cached field, which nothing ever assigns |
| Spo.HashCodeAsWrittenIsZero | bigdata-rdf/src/java/com/bigdata/rdf/spo/SPO.java:212-239 | for every statement a constructor builds, whatever its ids and type, `hashCode()` as written returns 0 while the hash it computes and drops is `Arrays.hashCode` of the ids |
| Spo.HashCodeGap | bigdata-rdf/src/java/com/bigdata/rdf/spo/SPO.java:212-239 | for SPO(1,2,3) the method as written returns 0 while the documented value is 30817 |
| Spo.HashConsistentWithEquals | bigdata-rdf/src/java/com/bigdata/rdf/spo/SPO.java:212-239 | equal statements have equal hashes |
| Spo.LongHash | bigdata-rdf/src/java/com/bigdata/rdf/spo/SPO.java:229 | the element hash `(int)(e ^ (e >>> 32))`: the two 32-bit halves of the two's complement exclusive-or'ed and read as an `int` (`SmallLongHash` states its value on small ids) |
| Spo.ArraysHash | bigdata-rdf/src/java/com/bigdata/rdf/spo/SPO.java:223-233 | `Arrays.hashCode(long[])`: 1, then `31 * result + hash(e)` per element with 32-bit wrap-around (`ArraysHash3` unrolls it, `ComputeHash` is the loop) |
| Spo.ArraysHashExample | bigdata-rdf/src/java/com/bigdata/rdf/spo/SPO.java:223-233 | the hash of ids (1,2,3) is 30817 |
| Spo.SmallLongHash | bigdata-rdf/src/java/com/bigdata/rdf/spo/SPO.java:229 | the element hash `(int)(e ^ (e >>> 32))` of a small non-negative id is the id itself |
| Spo.Wrap32Congruent | bigdata-rdf/src/java/com/bigdata/rdf/spo/SPO.java:231 | Java's `int` arithmetic result is congruent to the exact result modulo 2^32 |
| Spo.SPO.ToString | bigdata-rdf/src/java/com/bigdata/rdf/spo/SPO.java:314-318 | the text `<s,p,o : Type>` parses back to the statement's fields |
| Spo.ToStringInjective | bigdata-rdf/src/java/com/bigdata/rdf/spo/SPO.java:314-318 | statements with the same text have the same fields |
| Spo.ParseLongToString | bigdata-rdf/src/java/com/bigdata/rdf/spo/SPO.java:316 | a long printed in decimal parses back to itself |
| BigdataGraph.FusedIterable.constructor | bigdata-blueprints/src/java/com/bigdata/blueprints/BigdataGraph.java:1330-1333 | needs at least one argument; starts at the first argument, with everything still to be read |
| BigdataGraph.FusedIterable.HasNext | bigdata-blueprints/src/java/com/bigdata/blueprints/BigdataGraph.java:1336-1347 | `i` only grows and stays below the argument count; the elements still to be read do not change (nothing is skipped); true exactly when elements remain, and then `curr` has one |
| BigdataGraph.FusedIterable.Next | bigdata-blueprints/src/java/com/bigdata/blueprints/BigdataGraph.java:1350-1352 | returns the next element of `curr` and consumes exactly it; fails with NoSuchElement when `curr` is exhausted, without advancing |
| BigdataGraph.FusedIterable.NextAdvancing | bigdata-blueprints/src/java/com/bigdata/blueprints/BigdataGraph.java:1336-1352 | advancing before reading returns the next element whenever one remains |
| BigdataGraph.FusedIterable.Remove | bigdata-blueprints/src/java/com/bigdata/blueprints/BigdataGraph.java:1355-1357 | always fails with UnsupportedOperation and changes nothing |
| BigdataGraph.FusedIterable.Drain | bigdata-blueprints/src/java/com/bigdata/blueprints/BigdataGraph.java:1336-1352 | a `hasNext`/`next` loop yields exactly the elements that remained, in order |
| BigdataGraph.FuseAndDrain | bigdata-blueprints/src/java/com/bigdata/blueprints/BigdataGraph.java:1311-1314 | draining a fused iterable yields the concatenation of its arguments' elements in argument order |
| BigdataGraph.ConcatSkipsEmpty | bigdata-blueprints/src/java/com/bigdata/blueprints/BigdataGraph.java:1340-1345 | an empty argument contributes nothing |
| BigdataGraph.FusedNextGap | bigdata-blueprints/src/java/com/bigdata/blueprints/BigdataGraph.java:1350-1352 | fusing ([], [7]): `next()` first fails while `hasNext()` then reports an element; advancing first returns 7 |
| BigdataGraph.Convert | bigdata-blueprints/src/java/com/bigdata/blueprints/BigdataGraph.java:1197-1200 | an edge is built from any statement; a vertex from the subject (or object) exactly when it is a URI, otherwise the cast fails |
| BigdataGraph.StatementIterable.Next | bigdata-blueprints/src/java/com/bigdata/blueprints/BigdataGraph.java:1195-1221 | consumes one statement; its element is returned and appended to the cache, or the cast fails and the cache is unchanged; once no statement remains, the result is closed and the connection too unless `readFromWriteConnection` (also `EdgeIterable.next`, lines 1269-1293) |
| BigdataGraph.StatementIterable.Remove | bigdata-blueprints/src/java/com/bigdata/blueprints/BigdataGraph.java:1224-1226 | always fails with UnsupportedOperation and changes nothing |
| BigdataGraph.StatementIterable.Iterator | bigdata-blueprints/src/java/com/bigdata/blueprints/BigdataGraph.java:1229-1231 | the iterable itself exactly while statements remain, otherwise a replay of the cache |
| BigdataGraph.StatementIterable.Drain | bigdata-blueprints/src/java/com/bigdata/blueprints/BigdataGraph.java:1186-1231 | a for-each loop: on an exhausted iterable `iterator()` replays the cache and nothing changes; otherwise a successful loop means every remaining statement converted, and it returns one element per statement, caches them, closes after the last one, and afterwards `iterator()` replays the cache; a failure is the first failed cast, every statement before it converted, and a failure on the last statement still closes the result and, unless shared, the connection |
| BigdataGraph.StatementIterable.DrainClosing | bigdata-blueprints/src/java/com/bigdata/blueprints/BigdataGraph.java:1205-1219 | the same loop with closing on exhaustion also when no `next()` ran: a successful drain always leaves the result closed; failures are the same first failed cast |
| BigdataGraph.IterateAndReplay | bigdata-blueprints/src/java/com/bigdata/blueprints/BigdataGraph.java:1166-1305 | a fresh iterable read to the end returns the elements of all its statements, then `iterator()` replays exactly those and a second for-each loop returns them again; an edge iterable never fails |
| BigdataGraph.DrainStopsAtFailedCast | bigdata-blueprints/src/java/com/bigdata/blueprints/BigdataGraph.java:1195-1221 | reading vertices from the objects (URI, literal, URI), the loop fails with the cast on the second statement, never reads the third, and leaves the result open |
| BigdataGraph.EmptyResultLeak | bigdata-blueprints/src/java/com/bigdata/blueprints/BigdataGraph.java:1205-1219 | iterating an empty vertex result leaves the result and the connection open; the closing drain closes both |
| BigdataGraph.EdgesConverted | bigdata-blueprints/src/java/com/bigdata/blueprints/BigdataGraph.java:1269-1274 | an edge result gives one edge per statement, in order |
| BigdataGraph.VerticesConverted | bigdata-blueprints/src/java/com/bigdata/blueprints/BigdataGraph.java:1197-1201 | when every vertex position holds a URI, a vertex result gives one vertex per statement, from the subject or the object as chosen |
| BigdataGraph.GetElementsQuery | bigdata-blueprints/src/java/com/bigdata/blueprints/BigdataGraph.java:812-834 | the `StringBuilder` code produces exactly the query text: the fixed patterns, the label clause, the closing brace, then `?from`/`?to` replaced |
| BigdataGraph.AppendLabelClause | bigdata-blueprints/src/java/com/bigdata/blueprints/BigdataGraph.java:816-828 | no clause for null or empty labels, the fixed label pattern for one, the label filter for several |
| BigdataGraph.AppendLabelPattern | bigdata-blueprints/src/java/com/bigdata/blueprints/BigdataGraph.java:817-818 | appends exactly the single-label pattern on the label property |
| BigdataGraph.AppendLabelFilter | bigdata-blueprints/src/java/com/bigdata/blueprints/BigdataGraph.java:819-826 | for two or more labels, appends exactly the `?label` pattern and the `filter(?label in (...))` line over the quoted labels |
| BigdataGraph.AppendLabelList | bigdata-blueprints/src/java/com/bigdata/blueprints/BigdataGraph.java:822-825 | appending each quoted label with `", "` and then cutting two characters gives the labels quoted and separated by `", "` |
| BigdataGraph.AppendedIsListAndSeparator | bigdata-blueprints/src/java/com/bigdata/blueprints/BigdataGraph.java:822-825 | the appended text is the separated list plus exactly one trailing `", "` |
| BigdataGraph.TwoLabelsClause | bigdata-blueprints/src/java/com/bigdata/blueprints/BigdataGraph.java:819-826 | two labels give `filter(?label in ("a", "b"))` |
| BigdataGraph.ReplaceAllSame | bigdata-blueprints/src/java/com/bigdata/blueprints/BigdataGraph.java:832-834 | replacing a variable by itself leaves the text unchanged |
| BigdataGraph.UnboundQueryIsTemplate | bigdata-blueprints/src/java/com/bigdata/blueprints/BigdataGraph.java:832-834 | with both endpoints null the query is the unbound template |
| BigdataGraph.ToGraphAtom | bigdata-blueprints/src/java/com/bigdata/blueprints/BigdataGraph.java:1445-1496 | the translation fails exactly for a non-URI subject or predicate or a blank-node object, and then only with ClassCast |
| BigdataGraph.ToGraphAtomClassifies | bigdata-blueprints/src/java/com/bigdata/blueprints/BigdataGraph.java:1445-1496 | the atom's shape (type, edge, label or property) is exactly the statement's shape; the cast fails exactly for a non-URI subject or predicate or a blank-node object |
| BigdataGraph.ToGraphAtomIds | bigdata-blueprints/src/java/com/bigdata/blueprints/BigdataGraph.java:1447-1492 | an edge atom is (predicate id, subject id, object id); the other atoms carry the subject id; a property atom carries the predicate id as key and the literal's value |
| BigdataGraph.GetVertices | bigdata-blueprints/src/java/com/bigdata/blueprints/BigdataGraph.java:885-906 | IllegalArgument unless exactly one endpoint is null; otherwise the edge query and vertices read from the subject exactly when `from` is null |
| BigdataGraph.GetEdge | bigdata-blueprints/src/java/com/bigdata/blueprints/BigdataGraph.java:691-740 | IllegalArgument for a null key; null when no statement has the edge's URI as predicate, that edge when exactly one does, a duplicate-edge error when several do |
| BigdataGraph.MatchingMembers | bigdata-blueprints/src/java/com/bigdata/blueprints/BigdataGraph.java:708-709 | the statements `getStatements(null, edge, null)` yields are exactly the stored statements with that predicate |
| BigdataGraph.GetVertex | bigdata-blueprints/src/java/com/bigdata/blueprints/BigdataGraph.java:978-1015 | IllegalArgument exactly for a null key; a vertex exactly when the store types its URI as a vertex |
| BigdataGraph.AddEdge | bigdata-blueprints/src/java/com/bigdata/blueprints/BigdataGraph.java:600-615 | a null label fails with IllegalArgument unless `laxEdges`; nothing fails in `laxEdges` mode; a duplicate-edge error comes from `getEdge`; "already exists" only when `getEdge` found an edge |
| BigdataGraph.AddEdgeWrites | bigdata-blueprints/src/java/com/bigdata/blueprints/BigdataGraph.java:617-644 | writes (from, edge, to) first; exactly when the edge has a label, then (edge, TYPE, EDGE) and (edge, LABEL, the label's literal) |
| BigdataGraph.AddThenGetEdge | bigdata-blueprints/src/java/com/bigdata/blueprints/BigdataGraph.java:591-652 | after adding a keyed edge, `getEdge` finds exactly it; adding it again with the same endpoints succeeds, with other endpoints fails |

## Left out

- Scheduling in `ConditionalRoutingOp`: the `FutureTask` of `eval` and the blocking and back-pressure of the buffers are not modelled. Thread interruption is an input `interrupt(chunk, index)`, consulted only at indices that are multiples of 20.
- Binding sets are values, so `clone()` is the identity. The input can never be mutated.
- The condition is a total pure function. An exception thrown by `accept` is not modelled.
- ConditionalRouting.RouteTask.Call: requires open sinks. The errors a closed buffer raises are not modelled.
- The copy constructors of `ConditionalRoutingOp` only pass annotations along.
- `KeyBuilder.decodeLong` and `StatementEnum.decode` are parameters of `FromKey`. `ITupleIterator` is a cursor over tuples.
- Spo.SPO.FromKey: a value buffer with no byte is an index error. A reused buffer whose backing array is longer than its data is not modelled. A key shorter than 8*N bytes is excluded by a precondition, as the Java `assert` demands.
- Spo.SPO.CompareTo and Spo.SPO.Equals take an `SPO`. The `NullPointerException` for a null argument and the `ClassCastException` of `compareTo(Object)` for an argument of another class are not modelled.
- `NULL` = 0 and `N` = 3 belong to `IRawTripleStore`, which is not part of this model.
- `SPO.toString(AbstractTripleStore)` depends on the store's term resolution.
- Spo.SPO.ToString: the branch for a null type is omitted, because the model's type is never null. The type prints as its enum name.
- The `override` field is carried, but none of the modelled code reads it. The Java `assert` statements are not modelled.
- These `BigdataGraph` operations are thin wrappers over openrdf connections and are not modelled:
  - `getProperty`, `setProperty` and `removeProperty`;
  - `removeEdge` and `removeVertex`;
  - `select`, `ask`, `update`, `project` and `loadGraphML`.
- Query evaluation, UUID generation and logging are also left out.
- BigdataGraph.GetElementsQuery: labels are strings and never null. A null element of the label array, which Java would print as `null` inside the quotes, is not modelled.
- The value factory's conversions (`fromURI`, `toLiteral`, `fromLiteral` and the others) are uninterpreted functions of `Factory`. A literal carries its lexical form, datatype URI and language tag; `Literal` objects are compared as those three values.
- BigdataGraph.GetEdge: closing the connection in `finally` is not modelled.
- BigdataGraph.GetVertex: closing the connection in `finally` is not modelled, and `hasStatement` is membership in the given store.
- BigdataGraph.GetVertices: the connection is opened before the argument checks. The model does not track it, so the model does not show that it stays open when an argument check fails.
- BigdataGraph.AddEdge:
  - the store is a sequence of statements and the result lists the statements written;
  - vertices are given by their ids;
  - an edge's endpoints equal `from` and `to` when their URIs are equal. `BigdataEdge` and `BigdataVertex` are not part of this model.
- Exceptions raised by `hasNext` of the openrdf results, and failures while closing (only logged in the source), are not modelled.
- BigdataGraph.FusedIterable.constructor: requires at least one argument. `fuse()` with none throws `ArrayIndexOutOfBoundsException` at `args[0]`, which is not modelled.
- The arguments of `FusedIterable` are the element sequences their iterators yield. `iterator()` on an argument starts a fresh pass, and `FusedIterable.iterator()` is the object itself.
- The aggregation operator, `QueryServlet`, `ITimestampService` and the test classes are not modelled.

## Findings

| source | as written | input that shows it | evidently intended | confidence | as-written member | corrected member |
|---|---|---|---|---|---|---|
| bigdata-rdf/src/java/com/bigdata/rdf/spo/SPO.java:212-239 | `hashCode()` computes `result` but never stores it in the cached field, so it always returns 0 | SPO(1, 2, 3, Explicit) | return and cache `Arrays.hashCode` of {s,p,o}: 30817 | high, not executed | Spo.SPO.HashCodeAsWritten, Spo.HashCodeAsWrittenIsZero, Spo.HashCodeGap | Spo.SPO.HashCode |
| bigdata-blueprints/src/java/com/bigdata/blueprints/BigdataGraph.java:1350-1352 | `next()` reads only the current iterator; only `hasNext()` moves past exhausted arguments | fuse of an empty iterable and one holding 7, `next()` called first | `next()` returns 7, as `Iterator.next` must when an element remains | medium, not executed | BigdataGraph.FusedIterable.Next, BigdataGraph.FusedNextGap | BigdataGraph.FusedIterable.NextAdvancing |
| bigdata-blueprints/src/java/com/bigdata/blueprints/BigdataGraph.java:1205-1219 | the result and the connection are closed only inside `next()`, so a result with no statements is never closed | a vertex iterable over an empty result, read by a for-each loop, with `readFromWriteConnection` false | close the result and connection once the iterable is exhausted | medium, not executed | BigdataGraph.StatementIterable.Drain, BigdataGraph.EmptyResultLeak | BigdataGraph.StatementIterable.DrainClosing |
