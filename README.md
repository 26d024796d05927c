# datakernel core, modelled in Dafny

This project models the sequential core of the datakernel libraries and proves properties of that model. It covers three groups.

**Asynchronous streams:**
- the five-valued producer status and its byte order;
- the producer contract: `streamTo` linking, suspend and resume, close and close-with-error, completion callbacks;
- the canned producers: `OfIterator`, `OfValue`, `EndOfStream`, `ClosingWithError`, `Idle` and the concat producer;
- the stateless one-to-one transformer and its example;
- the memory reducer and the simple merge reducer;
- the map, filter, sharder, union and join operators, and the byte chunker.

**Cube:**
- primary keys;
- the aggregation chunker and the aggregation group reducer;
- the int, long and string dimension types.

**Infrastructure:**
- the DNS cache;
- the HTTP client's validation and bookkeeping helpers;
- socket settings;
- the completion callback with a timeout;
- the RPC server's handler table and the rendezvous-hashing request sender.

Pure code becomes datatypes, functions and lemmas. An object whose methods update its fields becomes a `class`. Each of its methods is proved against a specification function on the old state, for example `State() == Cleanup(old(State()), …)`, and the properties are then proved about those functions.

Some things are parameters of the model:
- The clock: a `now` or `nowMillis` argument.
- The consumer's reactions to each item: `react: nat -> Reaction`.
- A hash map's iteration order: any duplicate-free list of its keys.
- The scheduler's interleaving of union inputs.
- Collaborators whose code is not part of this model: iterators, chunk writers, metadata storage, the hash bucket and the connection pool.

The operators known only from their tests are the merge reducer, join, sharder, union, filter, map and byte chunker. Each is a function from input sequences to outputs plus the final status of every source. Four kinds of run are covered:
- a normal run;
- a consumer that closes with an error at output `at`;
- a consumer that ends the stream at output `at`;
- a source that fails after `after` items.

Java's `int` and `long` arithmetic is written out as two's-complement wrap-around where the source relies on it (`Base.WrapInt32`, `Base.WrapInt64`).

## Model

| member | source | states |
|---|---|---|
| StreamStatus.Code | async-streams/src/main/java/io/datakernel/stream/StreamProducer.java:74-78 | the byte code of a status lies in 0..4; READY is exactly 0 and CLOSED_WITH_ERROR exactly 4 |
| StreamStatus.FromCode | async-streams/src/main/java/io/datakernel/stream/StreamProducer.java:74-78 | a byte denotes a status exactly when it lies in 0..4, and that status's code is the byte |
| StreamStatus.CodeRoundTrip | async-streams/src/main/java/io/datakernel/stream/StreamProducer.java:74-78 | decoding a status's code gives the status back, so the five codes are distinct |
| StreamStatus.IsTerminating | async-streams/src/test/java/io/datakernel/stream/examples/ScheduledProducer.java:49-50 | `status >= END_OF_STREAM` holds exactly for END_OF_STREAM, CLOSED and CLOSED_WITH_ERROR |
| StreamStatus.Apply | async-streams/src/main/java/io/datakernel/stream/StreamProducer.java:52-100 | one event of the producer contract: a closed endpoint keeps its status, error and notified callbacks; a terminating status code never decreases; every completion callback registered is kept in order |
| StreamStatus.RunValid | async-streams/src/main/java/io/datakernel/stream/StreamProducer.java:87-100 | every reachable endpoint has an error exactly when it was closed with an error, notifies nobody before closing, and keeps its callbacks in registration order |
| StreamStatus.ClosedIsFinal | async-streams/src/main/java/io/datakernel/stream/StreamProducer.java:64-72 | once closed, the status, the error and the set of notified callbacks never change again |
| StreamStatus.CloseNotifiesRegistered | async-streams/src/main/java/io/datakernel/stream/StreamProducer.java:87-100 | the first close notifies exactly the callbacks registered before it; a close-with-error leaves CLOSED_WITH_ERROR and its exception, a plain close leaves CLOSED and no error |
| StreamStatus.TerminatingIsMonotone | async-streams/src/test/java/io/datakernel/stream/examples/ScheduledProducer.java:49-50 | once terminating, a stream stays terminating and its status code only grows |
| StreamStatus.StreamTo | async-streams/src/main/java/io/datakernel/stream/StreamProducer.java:31-37 | `p.streamTo(c)` links p and c in both directions; every other producer keeps its consumer or loses it, and gains none; consistent links stay consistent, so every endpoint has at most one partner |
| StreamStatus.StreamToDetaches | async-streams/src/main/java/io/datakernel/stream/StreamProducer.java:31-37 | afterwards p's former consumer and c's former producer have no partner left |
| StreamProducers.React | async-streams/src/main/java/io/datakernel/stream/StreamProducers.java:245-252 | a consumer's reaction to a sent item: accepting changes nothing, a closed producer stays closed, end and error close it |
| StreamProducers.EndStatus | async-streams/src/main/java/io/datakernel/stream/StreamProducers.java:253-254 | `sendEndOfStream` leaves a terminating status, and changes nothing in one that already was |
| StreamProducers.ProduceSpec | async-streams/src/main/java/io/datakernel/stream/StreamProducers.java:245-252 | the push loop stops inside the items only when the status is no longer READY; a non-READY producer sends nothing; a READY one with items left sends at least one; a closed one stays closed |
| StreamProducers.ProduceSendsOnlyWhileReady | async-streams/src/main/java/io/datakernel/stream/StreamProducers.java:245-252 | item i+1 is sent only if the consumer accepted item i |
| StreamProducers.ProduceDeliversAll | async-streams/src/main/java/io/datakernel/stream/StreamProducers.java:245-252 | a consumer that accepts everything receives every remaining item, and the producer stays READY |
| StreamProducers.OfIterator.constructor | async-streams/src/main/java/io/datakernel/stream/StreamProducers.java:225-241 | a new producer is READY, at the first item, with nothing delivered; `sendEndOfStream` is as given |
| StreamProducers.OfIterator.DoProduce | async-streams/src/main/java/io/datakernel/stream/StreamProducers.java:245-254 | the loop advances exactly as `ProduceSpec` does; end-of-stream is sent iff the iterator is exhausted and the flag is set; what was delivered is exactly the items taken, in order |
| StreamProducers.OfIterator.OnResumed | async-streams/src/main/java/io/datakernel/stream/StreamProducers.java:262-265 | a resume goes back to READY and continues from the next unsent item: the new deliveries are exactly the items between the old and the new position |
| StreamProducers.OfIterableToList | async-streams/src/test/java/io/datakernel/stream/processor/ProducerOfIteratorTest.java:38-47 | `ofIterable(list)` streamed into a list consumer delivers exactly `list` and ends CLOSED |
| StreamProducers.OfValueDefault | async-streams/src/main/java/io/datakernel/stream/StreamProducers.java:283-285 | `ofValue(value)` sends end-of-stream by default |
| StreamProducers.Start | async-streams/src/main/java/io/datakernel/stream/StreamProducers.java:187-305 | on start, `OfValue` sends exactly its value, the others send nothing; `Idle` stays READY; `EndOfStream` terminates; `ClosingWithError` ends CLOSED_WITH_ERROR with its exception |
| StreamProducers.CannedAsIterator | async-streams/src/main/java/io/datakernel/stream/StreamProducers.java:300-305 | `OfValue`, `EndOfStream` and `Idle` behave exactly as `OfIterator` over one value or none, whatever the consumer does |
| StreamProducers.ClosingWithErrorAsEndpoint | async-streams/src/main/java/io/datakernel/stream/StreamProducers.java:206-209 | `ClosingWithError` ends with the same status and error as a close-with-error of the producer contract |
| StreamProducers.ConcatRun | async-streams/src/main/java/io/datakernel/stream/StreamProducers.java:334-361 | the concat ends with END_OF_STREAM or CLOSED_WITH_ERROR, the latter exactly when some piece fails and then with an error; what it delivers is a prefix of all items, and all of them when it ends normally |
| StreamProducers.ConcatStopsAtFirstFailure | async-streams/src/main/java/io/datakernel/stream/StreamProducers.java:349-357 | nothing after the first failing piece is delivered, and the error is that piece's |
| StreamProducers.ConcatErrorExample | async-streams/src/test/java/io/datakernel/stream/processor/StreamMapTest.java:131-146 | values 1 and 2, then an error, then 3 deliver exactly 1 and 2 and end CLOSED_WITH_ERROR |
| StreamProducers.Concat.DoNext | async-streams/src/main/java/io/datakernel/stream/StreamProducers.java:334-361 | a normal segment delivers its items and moves to the next piece; once iterator end or a failure is reached, the state is exactly the concat's outcome |
| StreamTransformer.Stateless.OnSuspended | async-streams/src/main/java/io/datakernel/stream/AbstractStreamTransformer_1_1_Stateless.java:33-36 | a suspend of the transformer suspends its upstream, and the two stay in step |
| StreamTransformer.Stateless.OnResumed | async-streams/src/main/java/io/datakernel/stream/AbstractStreamTransformer_1_1_Stateless.java:38-41 | a resume of the transformer resumes its upstream |
| StreamTransformer.Stateless.OnEndOfStream | async-streams/src/main/java/io/datakernel/stream/AbstractStreamTransformer_1_1_Stateless.java:43-46 | the upstream's end-of-stream is sent downstream; both sides end up terminating |
| StreamTransformer.ExampleOnData | async-streams/src/test/java/io/datakernel/stream/examples/TransformerExample.java:48-54 | a string gives an output exactly when it is shorter than 10, and then the output is its length |
| StreamTransformer.ExampleIsFilterThenMap | async-streams/src/test/java/io/datakernel/stream/examples/TransformerExample.java:37-54 | the example transformer's output is the lengths of the short strings, in input order |
| StreamTransformer.ExampleRun | async-streams/src/test/java/io/datakernel/stream/examples/TransformerExample.java:59 | "testdata", "testdata1", "testdata1000" give 8 and 9 |
| StreamOperators.MapRun | async-streams/src/test/java/io/datakernel/stream/processor/StreamMapTest.java:34-124 | the output is a prefix of `f` mapped in order: all of it in a normal run, up to the reacting output, or what precedes a source failure; the source ends CLOSED_WITH_ERROR iff an error happened, else CLOSED |
| StreamOperators.MapTestRuns | async-streams/src/test/java/io/datakernel/stream/processor/StreamMapTest.java:34-124 | x+10 over 1,2,3 gives 11,12,13 and CLOSED; an error or end at 12 leaves 11,12 with CLOSED_WITH_ERROR or CLOSED |
| StreamOperators.FilterRun | async-streams/src/test/java/io/datakernel/stream/processor/StreamFilterTest.java:41-174 | the output is a prefix of the in-order subsequence that satisfies the predicate, cut as for the map; a source failure gives the filter of the items before it; the final source status follows the error |
| StreamOperators.FilterPrefix | async-streams/src/test/java/io/datakernel/stream/processor/StreamFilterTest.java:150-155 | filtering a prefix of the input gives a prefix of the filtered input |
| StreamOperators.FilterTestRuns | async-streams/src/test/java/io/datakernel/stream/processor/StreamFilterTest.java:41-56 | odd over 1,2,3 gives 1,3 and CLOSED |
| StreamOperators.FilterTestCutRuns | async-streams/src/test/java/io/datakernel/stream/processor/StreamFilterTest.java:66-174 | an always-true predicate over 1..5, cut at item 3 by a downstream error, a downstream end or a source error, leaves 1,2,3 and the matching status |
| StreamOperators.FilterAllTrue | async-streams/src/test/java/io/datakernel/stream/processor/StreamFilterTest.java:66-71 | the test's predicate `x % 2 != 2` keeps every integer |
| StreamOperators.Shards | async-streams/src/test/java/io/datakernel/stream/processor/StreamSharderTest.java:36-59 | the sharder has one output per shard number |
| StreamOperators.ShardsPartition | async-streams/src/test/java/io/datakernel/stream/processor/StreamSharderTest.java:53-59 | output k is exactly the in-order subsequence of items whose shard is k, and together the outputs hold every item exactly once |
| StreamOperators.Fed | async-streams/src/test/java/io/datakernel/stream/processor/StreamSharderTest.java:85-195 | the items the source delivers: all of them in a normal run, the first `at + 1` when the consumer reacts at output `at`, the first `after` (or all, if fewer) before a source failure |
| StreamOperators.SharderRun | async-streams/src/test/java/io/datakernel/stream/processor/StreamSharderTest.java:36-195 | a run has one output per shard; output k is the in-order subsequence of the delivered items whose shard is k, and the outputs together hold every delivered item once; the source ends CLOSED_WITH_ERROR iff an error happened, else CLOSED |
| StreamOperators.SharderTestRuns | async-streams/src/test/java/io/datakernel/stream/processor/StreamSharderTest.java:53-195 | x%2 over 1..4 gives [2,4] and [1,3] and CLOSED; an error or end at item 3, or a source error after 3 items, leave [2] and [1,3] with the matching status |
| StreamOperators.SumPrefixes | async-streams/src/test/java/io/datakernel/stream/processor/StreamUnionTest.java:92-95 | the items a cut union has passed on are a sub-multiset of all inputs, as many as the inputs delivered |
| StreamOperators.UnionOf | async-streams/src/test/java/io/datakernel/stream/processor/StreamUnionTest.java:44-192 | the output is a sub-multiset of the multiset union of the inputs: all of it when neither a consumer reaction nor a source failure happens, `at + 1` items when the consumer reacts at output `at`, `after` items (or all, if fewer) before a source failure; every input ends CLOSED_WITH_ERROR iff an error actually happened, otherwise CLOSED, even an empty one |
| StreamOperators.SizeIsCount | async-streams/src/test/java/io/datakernel/stream/processor/StreamUnionTest.java:44-74 | the multiset union holds as many items as the inputs together |
| StreamOperators.UnionTestRun | async-streams/src/test/java/io/datakernel/stream/processor/StreamUnionTest.java:44-74 | inputs [], [1], [2,3], [], [4,5], [6], [] give the multiset 1..6, and every input ends CLOSED |
| StreamOperators.UnionTestCutRuns | async-streams/src/test/java/io/datakernel/stream/processor/StreamUnionTest.java:77-161 | inputs [1,2,3], [4,5], [6,7] with the consumer reacting at item 5: four items, and every input CLOSED_WITH_ERROR after an error or CLOSED after an end |
| StreamOperators.UnionTestProducerError | async-streams/src/test/java/io/datakernel/stream/processor/StreamUnionTest.java:163-194 | inputs failing after 1,2 and 7,8,9 with three items delivered: three items, and both inputs CLOSED_WITH_ERROR |
| StreamOperators.FirstMatch | async-streams/src/test/java/io/datakernel/stream/processor/StreamJoinAsUnsortedStreamTest.java:145-148 | a right item with the key, if there is any; nothing only when no right item has that key |
| StreamOperators.JoinSpec | async-streams/src/test/java/io/datakernel/stream/processor/StreamJoinAsUnsortedStreamTest.java:127-168 | the join has exactly one row per left item |
| StreamOperators.MergeJoinMeetsSpec | async-streams/src/test/java/io/datakernel/stream/processor/StreamJoinAsUnsortedStreamTest.java:162-168 | on inputs sorted by key, the sorted merge that advances the left side on equal keys computes the specified left-outer join |
| StreamOperators.JoinSpecPrefix | async-streams/src/test/java/io/datakernel/stream/processor/StreamJoinAsUnsortedStreamTest.java:320-327 | the rows of a left prefix are that prefix of the rows |
| StreamOperators.JoinOf | async-streams/src/test/java/io/datakernel/stream/processor/StreamJoinAsUnsortedStreamTest.java:162-372 | the rows are a prefix of the specified join, cut as the scenario says; both sources end with the same status, CLOSED_WITH_ERROR iff an error happened |
| StreamOperators.JoinTestRun | async-streams/src/test/java/io/datakernel/stream/processor/StreamJoinAsUnsortedStreamTest.java:127-170 | the five masters against details 10 and 20 give the five asserted rows, the one with key 15 without a detail, and both sources end CLOSED |
| StreamReducer.TakeKey | async-streams/src/test/java/io/datakernel/stream/processor/StreamReducerTest.java:265-282 | the longest prefix of an input whose items all have the key |
| StreamReducer.MinHead | async-streams/src/test/java/io/datakernel/stream/processor/StreamReducerTest.java:265-282 | the least head key over the inputs, present exactly when some input has an item left |
| StreamReducer.Groups | async-streams/src/test/java/io/datakernel/stream/processor/StreamReducerTest.java:265-282 | the merge's groups: each is nonempty with a single key, keys strictly ascend, and together they hold exactly the items of the inputs |
| StreamReducer.ReduceGroupsAreKeys | async-streams/src/test/java/io/datakernel/stream/processor/StreamReducerTest.java:446-453 | an item is in the inputs exactly when it is in some group, and only in the group of its own key |
| StreamReducer.FoldFromAppend | async-streams/src/test/java/io/datakernel/stream/processor/StreamReducerTest.java:265-282 | folding two runs of items is folding the first, then the second, into the result |
| StreamReducer.MergeReduce | async-streams/src/test/java/io/datakernel/stream/processor/StreamReducerTest.java:58-97 | the cursor-per-input merge emits exactly `Reduce`: one folded result per key, in ascending key order |
| StreamReducer.FoldGroup | async-streams/src/test/java/io/datakernel/stream/processor/StreamReducerTest.java:265-282 | one key's items are folded input by input, and every cursor moves past them |
| StreamReducer.NewReducerSimple | async-streams/src/main/java/io/datakernel/stream/processor/StreamReducerSimple.java:49-53 | the constructor succeeds iff both arguments are present; a missing reducer fails first, then a missing key function |
| StreamReducer.ReducerSimple.NewInput | async-streams/src/main/java/io/datakernel/stream/processor/StreamReducerSimple.java:58-60 | every new input uses the reducer's own key function and reducer |
| StreamReducer.ReduceOf | async-streams/src/test/java/io/datakernel/stream/processor/StreamReducerTest.java:110-234 | a run's results are a prefix of `Reduce`, all of them in a normal run; a downstream reaction keeps results up to it; every source ends CLOSED_WITH_ERROR after an error, else CLOSED |
| StreamReducer.ReduceEmpty | async-streams/src/test/java/io/datakernel/stream/processor/StreamReducerTest.java:39-56 | one empty input gives no output and ends CLOSED |
| StreamReducer.ReduceUpstreamErrorRun | async-streams/src/test/java/io/datakernel/stream/processor/StreamReducerTest.java:199-234 | a source error before any result gives no output and three CLOSED_WITH_ERROR sources |
| StreamMemoryReducer.NewMemoryReducer | async-streams/src/main/java/io/datakernel/stream/processor/StreamMemoryReducer.java:54-55 | the constructor succeeds iff both arguments are present; a missing key function fails first |
| StreamMemoryReducer.ApplyItemAsWritten | async-streams/src/main/java/io/datakernel/stream/processor/StreamMemoryReducer.java:74-87 | `apply` as written: the map gains the item's key and no other entry changes |
| StreamMemoryReducer.ApplyItem | async-streams/src/main/java/io/datakernel/stream/processor/StreamMemoryReducer.java:74-87 | the corrected `apply`: the map gains the item's key and no other entry changes |
| StreamMemoryReducer.ApplyAllKeys | async-streams/src/main/java/io/datakernel/stream/processor/StreamMemoryReducer.java:73-87 | the map's keys are exactly the distinct keys seen, as written and corrected |
| StreamMemoryReducer.UnseenKey | async-streams/src/main/java/io/datakernel/stream/processor/StreamMemoryReducer.java:76-80 | a key without an entry has had no items |
| StreamMemoryReducer.ApplyAllFolds | async-streams/src/main/java/io/datakernel/stream/processor/StreamMemoryReducer.java:76-86 | corrected: each key's accumulator is the fold of all its items, in input order, into `createAccumulator(key)` |
| StreamMemoryReducer.ApplyAllAsWrittenSkipsFirst | async-streams/src/main/java/io/datakernel/stream/processor/StreamMemoryReducer.java:77-86 | as written: each key's accumulator folds all its items except the first |
| StreamMemoryReducer.CountingReducerLosesFirstItem | async-streams/src/main/java/io/datakernel/stream/processor/StreamMemoryReducer.java:77-80 | with a counting reducer one item of key 5 counts 0 as written and 1 corrected |
| StreamMemoryReducer.Values | async-streams/src/main/java/io/datakernel/stream/processor/StreamMemoryReducer.java:95-97 | the map's values in the order of the iteration |
| StreamMemoryReducer.MemoryReduceResults | async-streams/src/main/java/io/datakernel/stream/processor/StreamMemoryReducer.java:94-113 | corrected (see ## Findings): a whole run gives one result per distinct key, each `produceResult` of the fold of all that key's items, the first included |
| StreamMemoryReducer.MemoryReducer.OnData | async-streams/src/main/java/io/datakernel/stream/processor/StreamMemoryReducer.java:74-87 | corrected (see ## Findings): `apply` groups the item under its key, the keys stay exactly those seen, and nothing else changes |
| StreamMemoryReducer.MemoryReducer.AfterEndOfStream | async-streams/src/main/java/io/datakernel/stream/processor/StreamMemoryReducer.java:95-97 | the iterator covers the map's values in the map's order, from the start |
| StreamMemoryReducer.MemoryReducer.DoProduce | async-streams/src/main/java/io/datakernel/stream/processor/StreamMemoryReducer.java:103-113 | corrected (see ## Findings): emits `produceResult` of each remaining accumulator while READY, stops at once otherwise and resumes from the same position, and sends end-of-stream once exhausted |
| StreamMemoryReducer.PushResults | async-streams/src/main/java/io/datakernel/stream/processor/StreamMemoryReducer.java:104-111 | the loop stops where `ProduceSpec` stops (exhausted, or status not READY) and what it sent is `produceResult` of exactly the accumulators it passed, in order |
| StreamByteChunker.Payload | async-streams/src/test/java/io/datakernel/stream/processor/StreamByteChunkerTest.java:55-56 | a buffer's payload is `remaining()` bytes long |
| StreamByteChunker.TotalSize | async-streams/src/test/java/io/datakernel/stream/processor/StreamByteChunkerTest.java:48-51 | the first loop sums the remaining sizes |
| StreamByteChunker.ByteBufsToByteArray | async-streams/src/test/java/io/datakernel/stream/processor/StreamByteChunkerTest.java:47-60 | the array is every payload, one after the other |
| StreamByteChunker.CopyPayload | async-streams/src/test/java/io/datakernel/stream/processor/StreamByteChunkerTest.java:55-56 | `arraycopy` writes the payload at `pos` and keeps what was written before it |
| StreamByteChunker.Cut | async-streams/src/test/java/io/datakernel/stream/processor/StreamByteChunkerTest.java:89-94 | cutting pending bytes keeps them all in order, every chunk is between min and max and nonempty, and fewer than min stay pending |
| StreamByteChunker.Chunker | async-streams/src/test/java/io/datakernel/stream/processor/StreamByteChunkerTest.java:74-87 | the chunker's output buffers are well formed |
| StreamByteChunker.ChunkFromPreservesBytes | async-streams/src/test/java/io/datakernel/stream/processor/StreamByteChunkerTest.java:85-87 | no byte is lost, added or reordered |
| StreamByteChunker.ChunkFromSizes | async-streams/src/test/java/io/datakernel/stream/processor/StreamByteChunkerTest.java:89-94 | every chunk is nonempty and at most max, and every chunk but the last is at least min |
| StreamByteChunker.ChunkerContract | async-streams/src/test/java/io/datakernel/stream/processor/StreamByteChunkerTest.java:72-94 | the output payloads joined equal the input payloads joined, and every output buffer but the last has between min and max bytes remaining |
| PrimaryKeys.OfListGet | cube/src/main/java/io/datakernel/cube/PrimaryKey.java:36-79 | a key built from a list has its size, is empty iff the list is, and `get(i)` is the list's i-th value |
| PrimaryKeys.Prefix | cube/src/main/java/io/datakernel/cube/PrimaryKey.java:63-67 | `prefix(n)`, for n up to the size, has size n and the original's values at every index below n, so it is the key of the first n values |
| PrimaryKeys.PrefixOfPrefix | cube/src/main/java/io/datakernel/cube/PrimaryKey.java:63-67 | any results meeting `Prefix`'s size-and-values contract for `prefix(n)` and then `prefix(m)` of it make the key of the original's first m values |
| PrimaryKeys.Equals | cube/src/main/java/io/datakernel/cube/PrimaryKey.java:85-94 | on keys of equal size, `equals` holds iff every position holds equal values, that is iff the keys are equal |
| PrimaryKeys.CompareTo | cube/src/main/java/io/datakernel/cube/PrimaryKey.java:104-116 | the loop returns the lexicographic comparison |
| PrimaryKeys.LexCompareZero | cube/src/main/java/io/datakernel/cube/PrimaryKey.java:104-116 | `compareTo` is zero exactly when every position compares zero |
| PrimaryKeys.LexCompareFirstDifference | cube/src/main/java/io/datakernel/cube/PrimaryKey.java:104-116 | `compareTo` is the comparison of the first position that compares non-zero |
| PrimaryKeys.CompareToAgreesWithEquals | cube/src/main/java/io/datakernel/cube/PrimaryKey.java:87-116 | when element comparisons are zero only on equal values, `compareTo` is zero exactly when `equals` holds |
| PrimaryKeys.LexCompareAntisymmetric | cube/src/main/java/io/datakernel/cube/PrimaryKey.java:104-116 | when element comparisons are antisymmetric, a key compares below another exactly when the other compares above it |
| AggregationChunkers.RecordOf | cube/src/main/java/io/datakernel/cube/AggregationChunker.java:92-102 | an empty chunk has no record; any other has one with its id, its first and last item's keys and its count |
| AggregationChunkers.RecordsCount | cube/src/main/java/io/datakernel/cube/AggregationChunker.java:92-102 | the records' counts add up to the number of items written to all chunks |
| AggregationChunkers.Chunker.constructor | cube/src/main/java/io/datakernel/cube/AggregationChunker.java:63-64 | construction starts exactly one chunk, with one pending writer and no records |
| AggregationChunkers.Chunker.StartNewChunk | cube/src/main/java/io/datakernel/cube/AggregationChunker.java:104-113 | takes the id, resets first, last and count, adds one pending chunk and switches to a new, empty writer |
| AggregationChunkers.Chunker.SaveChunk | cube/src/main/java/io/datakernel/cube/AggregationChunker.java:92-102 | appends the record (id, first, last, count) exactly when the count is not 0 |
| AggregationChunkers.Chunker.OnData | cube/src/main/java/io/datakernel/cube/AggregationChunker.java:73-83 | the item goes to the current writer; when the count before it equals `chunkSize` the chunk, then holding `chunkSize + 1` items, is recorded and ended, and a new one starts with one more pending chunk; otherwise the pending count is unchanged, and no writer's completion is recorded |
| AggregationChunkers.Chunker.AddItem | cube/src/main/java/io/datakernel/cube/AggregationChunker.java:74-80 | `first` stays the chunk's first item, `last` becomes the item, the item is forwarded and the count grows by one |
| AggregationChunkers.Chunker.RotateChunk | cube/src/main/java/io/datakernel/cube/AggregationChunker.java:85-90 | saves the full chunk's record, ends its writer and starts a new chunk, so one more chunk is pending; completions are unchanged |
| AggregationChunkers.AddItemCore | cube/src/main/java/io/datakernel/cube/AggregationChunker.java:73-81 | adding an item keeps the chunker invariant: it becomes the chunk's last item, its first if the chunk was empty, and the items forwarded grow by it |
| AggregationChunkers.RotateCore | cube/src/main/java/io/datakernel/cube/AggregationChunker.java:85-102 | rotating a full chunk keeps the chunker invariant: `saveChunk` appends exactly that chunk's record, one more writer is ended and an empty chunk with the new id opens |
| AggregationChunkers.Chunker.OnEndOfStream | cube/src/main/java/io/datakernel/cube/AggregationChunker.java:131-136 | the trailing chunk is saved, so the records are exactly those of the non-empty chunks, in order |
| AggregationChunkers.Chunker.OnChunkComplete | cube/src/main/java/io/datakernel/cube/AggregationChunker.java:115-120 | a writer that has been sent its end of stream completes: the pending count drops by one, and the chunk list goes to the callback exactly when the count reaches zero, that is when every started chunk has completed |
| AggregationChunkers.Chunker.RecordsCountReceived | cube/src/main/java/io/datakernel/cube/AggregationChunker.java:73-136 | after end-of-stream the records count every item received |
| AggregationGroupReducers.GroupItem | cube/src/main/java/io/datakernel/cube/AggregationGroupReducer.java:75-82 | the map gains the item's key and no other entry changes |
| AggregationGroupReducers.GroupAllKeys | cube/src/main/java/io/datakernel/cube/AggregationGroupReducer.java:75-82 | the map's keys are exactly the keys seen since it was cleared |
| AggregationGroupReducers.GroupAllFolds | cube/src/main/java/io/datakernel/cube/AggregationGroupReducer.java:75-82 | each key's accumulator is `createAccumulator` of its first item with the later ones accumulated in order |
| AggregationGroupReducers.Insert | cube/src/main/java/io/datakernel/cube/AggregationGroupReducer.java:115-123 | an insertion step of the sort: one more entry, nothing lost |
| AggregationGroupReducers.InsertSorted | cube/src/main/java/io/datakernel/cube/AggregationGroupReducer.java:115-123 | an insertion into a key-sorted list keeps it key-sorted |
| AggregationGroupReducers.SortByKey | cube/src/main/java/io/datakernel/cube/AggregationGroupReducer.java:115-123 | `Collections.sort` by key: the same entries, ascending by key |
| AggregationGroupReducers.Snapshot | cube/src/main/java/io/datakernel/cube/AggregationGroupReducer.java:112 | the snapshot holds one entry per map key, with that key's accumulator |
| AggregationGroupReducers.Decide | cube/src/main/java/io/datakernel/cube/AggregationGroupReducer.java:90-110 | `doNext` flushes iff the upstream is not closed, nothing is being saved and the map is not empty; delivers the chunks iff at end-of-stream, not saving and empty; suspends iff not closed and saving |
| AggregationGroupReducers.GroupUnseenKey | cube/src/main/java/io/datakernel/cube/AggregationGroupReducer.java:75-82 | a key without an entry has had no items since the map was cleared |
| AggregationGroupReducers.GroupReducer.constructor | cube/src/main/java/io/datakernel/cube/AggregationGroupReducer.java:52-66 | starts with an empty map, nothing saving, a READY upstream and no chunks |
| AggregationGroupReducers.GroupReducer.Group | cube/src/main/java/io/datakernel/cube/AggregationGroupReducer.java:75-82 | the map becomes `GroupItem` of the old map |
| AggregationGroupReducers.GroupReducer.OnData | cube/src/main/java/io/datakernel/cube/AggregationGroupReducer.java:74-87 | the item is grouped; `doNext` runs exactly when a new key brings the map to `chunkSize` entries, appending the chunk list to the delivered results only when `Decide` delivers; otherwise nothing else changes; the chunk records, the written chunks, the metadata saves and the posted count never change |
| AggregationGroupReducers.GroupReducer.DoNext | cube/src/main/java/io/datakernel/cube/AggregationGroupReducer.java:89-123 | the state it leaves is the one `Decide` picks: nothing, a suspend, the chunk list delivered and the upstream closed, or a flush |
| AggregationGroupReducers.GroupReducer.Flush | cube/src/main/java/io/datakernel/cube/AggregationGroupReducer.java:110-123 | sets `saving`, clears the map and holds its entries sorted by key while waiting for a chunk id |
| AggregationGroupReducers.GroupReducer.OnNewChunkId | cube/src/main/java/io/datakernel/cube/AggregationGroupReducer.java:128-178 | the record of the first and last sorted entries and their count is added, the entries go to a writer, and the upstream is resumed |
| AggregationGroupReducers.GroupReducer.OnChunkWritten | cube/src/main/java/io/datakernel/cube/AggregationGroupReducer.java:152-170 | saving ends, the chunk list is saved to the metadata storage and one more `doNext` is posted |
| AggregationGroupReducers.GroupReducer.RunPosted | cube/src/main/java/io/datakernel/cube/AggregationGroupReducer.java:165-170 | the posted `doNext` runs once and leaves the state `Decide` picks; earlier deliveries are kept and the chunk list is appended only when `Decide` delivers; the chunk records, written chunks and metadata saves do not change |
| AggregationGroupReducers.GroupReducer.OnEndOfStream | cube/src/main/java/io/datakernel/cube/AggregationGroupReducer.java:188-192 | the upstream's end is recorded and `doNext` runs on it: earlier deliveries are kept, the chunk list is appended only when `Decide` delivers, and the chunk records, written chunks, metadata saves and posted count do not change |
| DimensionTypes.DecimalRoundTrip | cube/src/main/java/io/datakernel/cube/dimensiontype/DimensionTypeInt.java:33-35 | every integer written in decimal reads back as that integer |
| DimensionTypes.IntToInternal | cube/src/main/java/io/datakernel/cube/dimensiontype/DimensionTypeInt.java:33-35 | `Integer.valueOf` gives only `int` values and rejects the empty string and a lone sign |
| DimensionTypes.IntParseRoundTrip | cube/src/main/java/io/datakernel/cube/dimensiontype/DimensionTypeInt.java:33-35 | every `int` written in decimal parses back to itself |
| DimensionTypes.IntParseRejects | cube/src/main/java/io/datakernel/cube/dimensiontype/DimensionTypeInt.java:33-35 | 2147483648 and "12a" are rejected, and -2147483648 is accepted |
| DimensionTypes.IntIncrement | cube/src/main/java/io/datakernel/cube/dimensiontype/DimensionTypeInt.java:38-41 | `increment` is x+1 below the top of the `int` range and wraps to the least `int` at the top |
| DimensionTypes.IntDifference | cube/src/main/java/io/datakernel/cube/dimensiontype/DimensionTypeInt.java:44-46 | `difference` is a-b when that fits an `int`, and wraps by 2^32 otherwise |
| DimensionTypes.IntIncrementDifference | cube/src/main/java/io/datakernel/cube/dimensiontype/DimensionTypeInt.java:38-46 | the difference of an increment and its argument is 1, even across the wrap |
| DimensionTypes.IntDifferenceOverflows | cube/src/main/java/io/datakernel/cube/dimensiontype/DimensionTypeInt.java:44-46 | from the least to the greatest `int` the difference is 1, and -1 the other way |
| DimensionTypes.CompareNumbers | cube/src/main/java/io/datakernel/cube/dimensiontype/DimensionTypeInt.java:49-51 | `compare` is -1, 0 or 1 with the sign of the order of the values, 0 exactly on equal values |
| DimensionTypes.CompareNumbersAntisymmetric | cube/src/main/java/io/datakernel/cube/dimensiontype/DimensionTypeLong.java:49-51 | swapping the arguments flips the sign |
| DimensionTypes.LongToInternal | cube/src/main/java/io/datakernel/cube/dimensiontype/DimensionTypeLong.java:33-35 | `Long.valueOf` gives only `long` values and rejects the empty string and a lone sign |
| DimensionTypes.LongParseRoundTrip | cube/src/main/java/io/datakernel/cube/dimensiontype/DimensionTypeLong.java:33-35 | every `long` in decimal parses back to itself, and an `int`-sized one parses the same as an `int` |
| DimensionTypes.LongIncrement | cube/src/main/java/io/datakernel/cube/dimensiontype/DimensionTypeLong.java:38-41 | `increment` is x+1 below the top of the `long` range and wraps at the top |
| DimensionTypes.LongDifference | cube/src/main/java/io/datakernel/cube/dimensiontype/DimensionTypeLong.java:44-46 | `difference` is a-b when that fits a `long`, and wraps by 2^64 otherwise |
| DimensionTypes.LongIncrementDifference | cube/src/main/java/io/datakernel/cube/dimensiontype/DimensionTypeLong.java:38-46 | the difference of an increment and its argument is 1, even across the wrap |
| DimensionTypes.LongDifferenceOfInts | cube/src/main/java/io/datakernel/cube/dimensiontype/DimensionTypeLong.java:44-46 | on `int`-sized values the `long` difference is exact, and the `int` one is exact iff the true difference fits an `int` |
| DimensionTypes.StringToInternal | cube/src/main/java/io/datakernel/cube/dimensiontype/DimensionTypeString.java:33-35 | the internal form of a string is the string itself |
| DimensionTypes.CompareStringsZero | cube/src/main/java/io/datakernel/cube/dimensiontype/DimensionTypeString.java:38-40 | `compare` is zero exactly on equal strings |
| DimensionTypes.CompareStringsAntisymmetric | cube/src/main/java/io/datakernel/cube/dimensiontype/DimensionTypeString.java:38-40 | swapping the arguments flips the sign |
| DimensionTypes.PrefixSortsFirst | cube/src/main/java/io/datakernel/cube/dimensiontype/DimensionTypeString.java:38-40 | a proper prefix sorts before the longer string |
| DimensionTypes.CompareStringsTransitive | cube/src/main/java/io/datakernel/cube/dimensiontype/DimensionTypeString.java:38-40 | the string order is transitive |
| DnsCaches.FreshnessAt | http/src/main/java/io/datakernel/dns/DnsCache.java:158-169 | HARD iff now is at least soft plus the whole seconds of the delta; SOFT iff now is between soft and hard; FRESH iff before soft |
| DnsCaches.FreshnessMonotone | http/src/main/java/io/datakernel/dns/DnsCache.java:158-169 | freshness only degrades as time passes |
| DnsCaches.IsRequestedType | http/src/main/java/io/datakernel/dns/DnsCache.java:86-96 | a result matches iff it is an A record asked for IPv4 or an AAAA record asked for IPv6 |
| DnsCaches.TryToResolve | http/src/main/java/io/datakernel/dns/DnsCache.java:106-156 | NOT_RESOLVED, with no callback, iff there is no entry, a success of the wrong type, or a HARD-expired entry; otherwise RESOLVED when FRESH and RESOLVED_NEEDS_REFRESHING when SOFT, with exactly one callback: `onResult` of the addresses or `onException` of the error |
| DnsCaches.AddResult | http/src/main/java/io/datakernel/dns/DnsCache.java:176-183 | a zero TTL changes nothing; otherwise the domain's entry is replaced by a success that is FRESH now, no other entry changes, and the domain is queued at its hard second (AddResultTracked: this keeps every entry findable by cleanup) |
| DnsCaches.AddErrorAsWritten | http/src/main/java/io/datakernel/dns/DnsCache.java:190-195 | as written: the error entry is queued at its SOFT second (ErrorEntryOutlivesCleanup: a cleanup then drops the bucket before the entry is HARD-expired, and the entry stays cached) |
| DnsCaches.AddError | http/src/main/java/io/datakernel/dns/DnsCache.java:190-195 | corrected (see ## Findings): the error entry is queued at its hard second, as `add(result)` does (AddErrorTracked, ErrorEntryRemovedWhenQueuedAtHardSecond) |
| DnsCaches.Cleanup | http/src/main/java/io/datakernel/dns/DnsCache.java:197-219 | nothing unless now is past the last cleanup; then the last cleanup becomes now, the cache only loses entries, and no bucket from the old last cleanup to now remains (CleanupTracked: nothing HARD-expired at its second is left) |
| DnsCaches.Put | http/src/main/java/io/datakernel/dns/DnsCache.java:182 | queuing adds the domain to that second's bucket and removes nothing |
| DnsCaches.DrainedContains | http/src/main/java/io/datakernel/dns/DnsCache.java:206-219 | the cleanup drains every domain of every bucket from the last cleanup to now |
| DnsCaches.Sweep | http/src/main/java/io/datakernel/dns/DnsCache.java:211-216 | exactly the drained entries that are HARD-expired are removed, and the others are untouched |
| DnsCaches.RemoveBuckets | http/src/main/java/io/datakernel/dns/DnsCache.java:210-217 | exactly the buckets from the last cleanup to now are removed |
| DnsCaches.AddResultTracked | http/src/main/java/io/datakernel/dns/DnsCache.java:176-183 | `add(result)` keeps every entry queued in the bucket of its hard second |
| DnsCaches.AddErrorTracked | http/src/main/java/io/datakernel/dns/DnsCache.java:190-195 | the corrected `add(exception)` keeps every entry queued in the bucket of its hard second |
| DnsCaches.CleanupTracked | http/src/main/java/io/datakernel/dns/DnsCache.java:197-219 | with every entry so queued, a cleanup keeps that so and leaves no entry HARD-expired at the cleanup second |
| DnsCaches.ErrorEntryOutlivesCleanup | http/src/main/java/io/datakernel/dns/DnsCache.java:190-195 | as written, an error added at second 0 (1 s error delay, 2 s hard delta) survives cleanups at seconds 1 and 5: it is HARD-expired at 5, still cached and in no bucket |
| DnsCaches.ErrorEntryRemovedWhenQueuedAtHardSecond | http/src/main/java/io/datakernel/dns/DnsCache.java:190-195 | queued at its hard second, the same error is gone after the cleanup at second 5 |
| DnsCaches.DnsCache.constructor | http/src/main/java/io/datakernel/dns/DnsCache.java:79-84 | an empty cache whose last cleanup is the current second |
| DnsCaches.DnsCache.Add | http/src/main/java/io/datakernel/dns/DnsCache.java:176-183 | the state becomes `AddResult` of the old state: nothing for a zero TTL, else the entry with soft expiry now + TTL, queued at its hard second |
| DnsCaches.DnsCache.AddException | http/src/main/java/io/datakernel/dns/DnsCache.java:190-195 | corrected (see ## Findings): the state becomes `AddError` of the old state: the error with soft expiry now + delay, queued at its hard second |
| DnsCaches.DnsCache.PerformCleanup | http/src/main/java/io/datakernel/dns/DnsCache.java:197-204 | the state becomes `Cleanup` of the old state, which acts only when now is past the last cleanup |
| DnsCaches.DnsCache.ClearCache | http/src/main/java/io/datakernel/dns/DnsCache.java:206-219 | the nested loop removes the HARD-expired entries of the drained buckets and exactly those buckets |
| DnsCaches.DnsCache.SweepBucket | http/src/main/java/io/datakernel/dns/DnsCache.java:211-216 | the inner loop removes exactly the bucket's HARD-expired entries |
| DnsCaches.DnsCache.NumberOfCachedDomainNames | http/src/main/java/io/datakernel/dns/DnsCache.java:225-227 | the count is the number of cached domains |
| DnsCaches.DnsCache.NumberOfCachedExceptions | http/src/main/java/io/datakernel/dns/DnsCache.java:229-238 | the count is the number of cached error entries |
| DnsCaches.DnsCache.DomainNamesWhere | http/src/main/java/io/datakernel/dns/DnsCache.java:240-262 | the successfully resolved (or failed) domains, each exactly once |
| DnsCaches.DnsCache.AllCachedDomainNames | http/src/main/java/io/datakernel/dns/DnsCache.java:264-267 | exactly the cached domains |
| HttpClients.IsValidHost | http/src/main/java/io/datakernel/http/HttpClientImpl.java:358-373 | valid iff the address has 4 bytes, is not 0.0.0.x, and with local addresses blocked is not 127.0.0.1 and the host is not "localhost" or "127.0.0.1" |
| HttpClients.BlockingOnlyRejects | http/src/main/java/io/datakernel/http/HttpClientImpl.java:358-373 | blocking local addresses only rejects more, and what it rejects is loopback |
| HttpClients.ClearSignBit | http/src/main/java/io/datakernel/http/HttpClientImpl.java:271 | `i & MAX_INT` is i for non-negative i and i + 2^31 for negative i |
| HttpClients.AddressIndex | http/src/main/java/io/datakernel/http/HttpClientImpl.java:270-272 | the index read is always inside the array |
| HttpClients.AddressIndexAdvances | http/src/main/java/io/datakernel/http/HttpClientImpl.java:270-272 | each call moves the index one place on, cyclically |
| HttpClients.AddressIndexAfterWrap | http/src/main/java/io/datakernel/http/HttpClientImpl.java:270-272 | past the top of the `int` range the counter wraps, and the index starts again from 0 |
| HttpClients.AddPending | http/src/main/java/io/datakernel/http/HttpClientImpl.java:338-345 | the address's count goes up by one, from 0 if absent, and no other count changes |
| HttpClients.RemovePending | http/src/main/java/io/datakernel/http/HttpClientImpl.java:347-356 | the address's count goes down by one, and its entry goes once it reaches 0 |
| HttpClients.PendingStaysPositive | http/src/main/java/io/datakernel/http/HttpClientImpl.java:338-356 | both keep every per-address count positive |
| HttpClients.RemoveUndoesAdd | http/src/main/java/io/datakernel/http/HttpClientImpl.java:338-356 | a remove after an add restores the map |
| HttpClients.BindCheck | http/src/main/java/io/datakernel/http/HttpClientImpl.java:375-385 | blocked iff the timeout is not 0, there is a record, and now is before record + timeout; a record found expired is removed |
| HttpClients.BlockedForTimeout | http/src/main/java/io/datakernel/http/HttpClientImpl.java:313-319 | after a bind failure at t the address is blocked exactly until t + timeout |
| HttpClients.UnblockedStaysUnblocked | http/src/main/java/io/datakernel/http/HttpClientImpl.java:375-385 | once a check finds no block, no later check blocks the address until the next bind failure |
| HttpClients.ExpiredPrefix | http/src/main/java/io/datakernel/http/HttpClientImpl.java:153-164 | the longest prefix of connections idle for at least 30 s |
| HttpClients.ExpiredPrefixIsAllExpired | http/src/main/java/io/datakernel/http/HttpClientImpl.java:147-170 | with the list ordered by activity, the scan closes exactly the connections idle for 30 s or more |
| HttpClients.MoveToLast | http/src/main/java/io/datakernel/http/HttpClientImpl.java:333-336 | the connection ends up last, and no connection is lost or added |
| HttpClients.MoveToLastPermutes | http/src/main/java/io/datakernel/http/HttpClientImpl.java:333-336 | in a list without duplicates, moving a member to the tail is a permutation |
| HttpClients.RemoveCount | http/src/main/java/io/datakernel/http/HttpClientImpl.java:333-336 | in a list without duplicates, removing a member takes out exactly that one entry |
| HttpClients.Remove | http/src/main/java/io/datakernel/http/HttpClientImpl.java:217-229 | exactly the other connections remain, and nothing changes when it is absent |
| HttpClients.RemoveKeepsOrder | http/src/main/java/io/datakernel/http/HttpClientImpl.java:217-229 | removing a connection keeps the list ordered by activity |
| HttpClients.MoveToLastKeepsOrder | http/src/main/java/io/datakernel/http/HttpClientImpl.java:333-336 | moving the most recently active connection to the tail keeps the list ordered by activity |
| HttpClients.FirstRegistered | http/src/main/java/io/datakernel/http/HttpClientImpl.java:178-185 | the position of the first registered connection, with every one before it unregistered |
| HttpClients.PoolsWithout | http/src/main/java/io/datakernel/http/HttpClientImpl.java:174-229 | taking a connection out of its pool keeps every pool list well formed |
| HttpClients.HttpClient.constructor | http/src/main/java/io/datakernel/http/HttpClientImpl.java:72-116 | defaults: local addresses allowed, a one-day bind block, nothing pending, blocked or pooled |
| HttpClients.HttpClient.GetNextInetAddress | http/src/main/java/io/datakernel/http/HttpClientImpl.java:270-272 | returns the address at `AddressIndex` of the old counter, and the counter goes up with `int` wrap-around |
| HttpClients.HttpClient.AddPendingSocketConnect | http/src/main/java/io/datakernel/http/HttpClientImpl.java:338-345 | the total goes up by one and the per-address map becomes `AddPending` |
| HttpClients.HttpClient.RemovePendingSocketConnect | http/src/main/java/io/datakernel/http/HttpClientImpl.java:347-356 | the total goes down by one and the per-address map becomes `RemovePending` |
| HttpClients.HttpClient.IsBindExceptionBlocked | http/src/main/java/io/datakernel/http/HttpClientImpl.java:375-385 | the answer and the new records are `BindCheck` of the old records |
| HttpClients.HttpClient.OnBindException | http/src/main/java/io/datakernel/http/HttpClientImpl.java:313-319 | a bind failure records the address with the current time when the timeout is not 0 |
| HttpClients.HttpClient.CheckExpiredConnections | http/src/main/java/io/datakernel/http/HttpClientImpl.java:147-170 | the loop closes exactly `ExpiredPrefix` and counts it |
| HttpClients.HttpClient.SendRequest | http/src/main/java/io/datakernel/http/HttpClientImpl.java:333-336 | the activity list becomes `MoveToLast` of the old one |
| HttpClients.HttpClient.GetFreeConnection | http/src/main/java/io/datakernel/http/HttpClientImpl.java:174-188 | no pool gives nothing; otherwise entries are popped up to the first registered connection, which is returned unpooled and is of that address |
| HttpClients.SkipUnregistered | http/src/main/java/io/datakernel/http/HttpClientImpl.java:178-186 | popping from the head stops at the first registered connection: what is left starts exactly at `FirstRegistered` |
| HttpClients.HttpClient.AddToIpPool | http/src/main/java/io/datakernel/http/HttpClientImpl.java:195-210 | a connection without an address is not pooled; otherwise it joins the tail of its address's list, created if missing |
| HttpClients.HttpClient.RemoveFromIpPool | http/src/main/java/io/datakernel/http/HttpClientImpl.java:217-229 | an unpooled connection, or a pooled one whose address has no list, changes nothing; otherwise it leaves its list, which is dropped once empty |
| SocketSettingsModel.Default | eventloop/src/main/java/io/datakernel/net/SocketSettings.java:46-56 | the default settings have no option set |
| SocketSettingsModel.WithSendBufferSize | eventloop/src/main/java/io/datakernel/net/SocketSettings.java:58-60 | `sendBufferSize(size)` sets the option unless size is the -1 sentinel and leaves every other option's `has` answer alone (SizeRoundTrip, BuildersTouchOneOption) |
| SocketSettingsModel.WithReceiveBufferSize | eventloop/src/main/java/io/datakernel/net/SocketSettings.java:62-64 | `receiveBufferSize(size)` sets the option unless size is -1 and leaves the others alone (SizeRoundTrip, BuildersTouchOneOption) |
| SocketSettingsModel.WithKeepAlive | eventloop/src/main/java/io/datakernel/net/SocketSettings.java:66-68 | `keepAlive(b)` always sets the flag and leaves the others alone (FlagRoundTrip: it reads back as b) |
| SocketSettingsModel.WithReuseAddress | eventloop/src/main/java/io/datakernel/net/SocketSettings.java:70-72 | `reuseAddress(b)` always sets the flag and leaves the others alone (FlagRoundTrip: it reads back as b) |
| SocketSettingsModel.WithTcpNoDelay | eventloop/src/main/java/io/datakernel/net/SocketSettings.java:74-76 | `tcpNoDelay(b)` always sets the flag and leaves the others alone (FlagRoundTrip: it reads back as b) |
| SocketSettingsModel.HasSendBufferSize | eventloop/src/main/java/io/datakernel/net/SocketSettings.java:96-98 | `hasSendBufferSize`: set exactly when resetting the option to its sentinel would change the settings; the size is not the -1 sentinel; the getter succeeds exactly then (GetSendBufferSize), and SendBufferSentinelCollision shows that `sendBufferSize(-1)` leaves it false |
| SocketSettingsModel.HasReceiveBufferSize | eventloop/src/main/java/io/datakernel/net/SocketSettings.java:105-107 | `hasReceiveBufferSize`: set exactly when resetting the option to its sentinel would change the settings; the size is not -1; the getter succeeds exactly then (GetReceiveBufferSize) |
| SocketSettingsModel.HasKeepAlive | eventloop/src/main/java/io/datakernel/net/SocketSettings.java:114-116 | `hasKeepAlive`: set exactly when resetting the option to its sentinel would change the settings; the flag byte is not -1; false on the defaults (Default), true after the builder (WithKeepAlive) |
| SocketSettingsModel.HasReuseAddress | eventloop/src/main/java/io/datakernel/net/SocketSettings.java:123-125 | `hasReuseAddress`: set exactly when resetting the option to its sentinel would change the settings; the flag byte is not -1; false on the defaults (Default), true after the builder (WithReuseAddress) |
| SocketSettingsModel.HasTcpNoDelay | eventloop/src/main/java/io/datakernel/net/SocketSettings.java:132-134 | `hasTcpNoDelay`: set exactly when resetting the option to its sentinel would change the settings; the flag byte is not -1; false on the defaults (Default), true after the builder (WithTcpNoDelay) |
| SocketSettingsModel.GetSendBufferSize | eventloop/src/main/java/io/datakernel/net/SocketSettings.java:96-103 | succeeds iff the option is set, and then gives the value |
| SocketSettingsModel.GetReceiveBufferSize | eventloop/src/main/java/io/datakernel/net/SocketSettings.java:105-112 | succeeds iff the option is set, and then gives the value |
| SocketSettingsModel.GetKeepAlive | eventloop/src/main/java/io/datakernel/net/SocketSettings.java:114-121 | succeeds iff the flag is set, and then reads any byte but 0 as true |
| SocketSettingsModel.GetReuseAddress | eventloop/src/main/java/io/datakernel/net/SocketSettings.java:123-130 | succeeds iff the flag is set, and then reads any byte but 0 as true |
| SocketSettingsModel.GetTcpNoDelay | eventloop/src/main/java/io/datakernel/net/SocketSettings.java:132-139 | succeeds iff the flag is set, and then reads any byte but 0 as true |
| SocketSettingsModel.DefaultGettersFail | eventloop/src/main/java/io/datakernel/net/SocketSettings.java:35-56 | every getter of the default settings fails its state check |
| SocketSettingsModel.FlagRoundTrip | eventloop/src/main/java/io/datakernel/net/SocketSettings.java:66-139 | a flag set by its builder reads back as the same boolean |
| SocketSettingsModel.SizeRoundTrip | eventloop/src/main/java/io/datakernel/net/SocketSettings.java:58-110 | a buffer size other than -1 reads back as itself |
| SocketSettingsModel.BuildersTouchOneOption | eventloop/src/main/java/io/datakernel/net/SocketSettings.java:58-76 | each builder leaves every other option answering as before |
| SocketSettingsModel.LaterSettingWins | eventloop/src/main/java/io/datakernel/net/SocketSettings.java:58-76 | setting an option twice keeps the later value; setting two options commutes |
| SocketSettingsModel.SendBufferSentinelCollision | eventloop/src/main/java/io/datakernel/net/SocketSettings.java:35-98 | `sendBufferSize(-1)` is indistinguishable from unset |
| CompletionTimeouts.Step | eventloop/src/main/java/io/datakernel/async/CompletionCallbackWithTimeout.java:39-73 | once settled nothing more is forwarded; every event but the callback's cancellation settles; each event forwards at most one notification |
| CompletionTimeouts.SettledStays | eventloop/src/main/java/io/datakernel/async/CompletionCallbackWithTimeout.java:59-73 | once the timer is cancelled or complete, no later event forwards anything |
| CompletionTimeouts.AtMostOneNotification | eventloop/src/main/java/io/datakernel/async/CompletionCallbackWithTimeout.java:50-73 | whatever happens, the wrapped callback receives at most one notification, the one for the first event |
| CompletionTimeouts.CancellationMarks | eventloop/src/main/java/io/datakernel/async/CompletionCallbackWithTimeout.java:42-56 | the timeout marks the wrapper cancelled and delivers a timeout; cancelling the wrapped callback cancels the wrapper and the timer without a notification |
| CompletionTimeouts.CompletionCallbackWithTimeout.constructor | eventloop/src/main/java/io/datakernel/async/CompletionCallbackWithTimeout.java:39-57 | starts with the timer scheduled and nothing cancelled or delivered |
| CompletionTimeouts.CompletionCallbackWithTimeout.OnComplete | eventloop/src/main/java/io/datakernel/async/CompletionCallbackWithTimeout.java:59-65 | the new state is `Step` of the old one on completion |
| CompletionTimeouts.CompletionCallbackWithTimeout.OnException | eventloop/src/main/java/io/datakernel/async/CompletionCallbackWithTimeout.java:67-73 | the new state is `Step` of the old one on the exception |
| CompletionTimeouts.CompletionCallbackWithTimeout.RunTimer | eventloop/src/main/java/io/datakernel/async/CompletionCallbackWithTimeout.java:50-56 | the new state is `Step` of the old one on the timer's run |
| CompletionTimeouts.CompletionCallbackWithTimeout.OnCancel | eventloop/src/main/java/io/datakernel/async/CompletionCallbackWithTimeout.java:42-48 | the new state is `Step` of the old one on cancellation |
| RpcSenders.Counted | rpc/src/main/java/io/datakernel/rpc/client/sender/RequestSenderRendezvousHashing.java:78-83 | no server leaves the counters unchanged; otherwise exactly that server's `long` counter goes up by one |
| RpcSenders.CountedTotal | rpc/src/main/java/io/datakernel/rpc/client/sender/RequestSenderRendezvousHashing.java:82 | away from the `long` limit, every request routed to a server adds exactly one to the total of the counters |
| RpcSenders.RendezvousHashingSender.constructor | rpc/src/main/java/io/datakernel/rpc/client/sender/RequestSenderRendezvousHashing.java:47-53 | one zero counter per configured address |
| RpcSenders.RendezvousHashingSender.GetConnection | rpc/src/main/java/io/datakernel/rpc/client/sender/RequestSenderRendezvousHashing.java:77-84 | the counters become `Counted` of the old ones for the bucket's server; the connection is that server's, or none for -1 |
| RpcSenders.RendezvousHashingSender.SendRequest | rpc/src/main/java/io/datakernel/rpc/client/sender/RequestSenderRendezvousHashing.java:56-75 | the call goes to the chosen connection; the no-connection error comes exactly when there is no server or no connection |
| RpcSenders.RendezvousHashingSender.OnConnectionsUpdated | rpc/src/main/java/io/datakernel/rpc/client/sender/RequestSenderRendezvousHashing.java:87-89 | the bucket is replaced by the one rebuilt from the active addresses |
| RpcSenders.RendezvousHashingSender.ResetStats | rpc/src/main/java/io/datakernel/rpc/client/sender/RequestSenderRendezvousHashing.java:92-97 | every counter is 0 |
| RpcHandlers.Apply | rpc/src/main/java/io/datakernel/rpc/server/RequestHandlers.java:65-80 | a null request or an unregistered class goes to `onException` and runs no handler; a registered class runs exactly its handler with the request |
| RpcHandlers.PutReplaces | rpc/src/main/java/io/datakernel/rpc/server/RequestHandlers.java:41-44 | a second `put` for a class replaces its handler and changes no other class's dispatch |
| RpcHandlers.Builder.Put | rpc/src/main/java/io/datakernel/rpc/server/RequestHandlers.java:41-44 | the class maps to the handler, replacing any earlier one |
| RpcHandlers.Builder.Build | rpc/src/main/java/io/datakernel/rpc/server/RequestHandlers.java:51-53 | the table holds the builder's current mappings |
| RpcHandlers.BuildIsSnapshot | rpc/src/main/java/io/datakernel/rpc/server/RequestHandlers.java:51-53 | a table built before a later `put` keeps dispatching as it did when built |

## Left out

- I/O, threads, the event loop and logging are not modelled. Posted runnables become explicit method calls. Timers are the `RunTimer` event. `applySettings` of the socket settings is socket I/O.
- The clock is not modelled: `currentTimeMillis` and `getCurrentSecond` become a `now` or `nowMillis` parameter.
- Iterators, async iterators, chunk writers, metadata storage, the hash bucket (`HashBucketAddresses`) and the connection pool are collaborators whose code is not part of this model. Each is a sequence, a function parameter or an event the model receives.
- `PrimaryKey.ofObject` reads fields reflectively; an abstract key function stands in for it. `ofArray` shares the caller's array; the model copies values and does not capture that aliasing.
- StreamProducers.Concat.DoNext: the switcher's hand-over between producers is collapsed into one step per piece. The consumer's reactions (suspend, close, close with error), which the Java concat passes on to the current producer, play no part in `ConcatRun`'s outcome.
- The operators known only from tests (map, filter, sharder, union, join, merge reducer, byte chunker) are modelled by the behaviour their tests assert, since their implementation is not part of this model.
- StreamByteChunker.Chunker: the chunker's implementation is not part of this model. It is modelled as a greedy cut: while at least the minimum is pending, emit up to the maximum; emit the remainder at end-of-stream. Only the two properties the test asserts are proved about it.
- StreamOperators.UnionOf: the union's interleaving of inputs is the scheduler's, so only the multiset of outputs is stated. How many items each input has delivered when the run is cut is a scheduler-chosen parameter `got`, required to add up to the count the cut allows. When a consumer error fires, the model ends every input CLOSED_WITH_ERROR. The test asserts this for inputs 0 and 1 only. Its comment at StreamUnionTest.java:116 says input 2 "should be equals to CLOSE", and the assertion for input 2 is commented out, so the model does not follow that comment.
- StreamReducer.MergeReduce: the merge-dedup example [], [7], [3,4,6], [], [2,3,5], [1,3], [1,3], [] is not proved as a concrete run; the general `Reduce` it instantiates is.
- StreamReducer.ReduceOf: keys are integers with their natural order rather than an arbitrary comparator. The number of results before a source failure is a scheduler-chosen parameter.
- AggregationGroupReducers.SortByKey: `Collections.sort` in place on the entry list is modelled on a sequence. Keys here and throughout the group reducer (`GroupItem`, `GroupReducer`) are integers with their natural order. The source keys by any `Comparable` and sorts with its `compareTo`, and the integers stand for such a total order.
- AggregationChunkers.Chunker.OnData: a full chunk holds `chunkSize + 1` items, because rotation happens when the count before the increment equals `chunkSize`. This is modelled as written.
- The error branches that only log are left out: the chunk saver's and chunk writer's `onException`, and the reducers' `onError`.
- DimensionTypes.IntToInternal and DimensionTypes.LongToInternal: only ASCII decimal digits are accepted. `Integer.valueOf` and `Long.valueOf` also accept other Unicode decimal digits.
- StreamTransformer.ExampleOnData: the length is the number of characters of `seq<char>`. Java's `String.length()` counts UTF-16 code units, which differs outside the Basic Multilingual Plane.
- DimensionTypes.CompareStrings: compares code points of `seq<char>`. Java compares UTF-16 code units, which differs outside the Basic Multilingual Plane.
- DnsCaches.DnsCache.Add: message and exception values are generic parameters. Soft expiry seconds and the `long` millisecond arithmetic are unbounded integers; overflow is not modelled. The configured millisecond delays are natural numbers: negative settings are not modelled.
- DnsCaches.DnsCache.Add and DnsCaches.DnsCache.AddException: require that the current second is not before the last cleanup second, so a clock that goes back is not modelled. In the source such an entry can be queued in a bucket below the last cleanup second, and `clearCache` never drains that bucket, so the entry is not removed by cleanup.
- HttpClients.HttpClient.AddPendingSocketConnect: the `int` counters `countPendingSocketConnect` and the per-address counts are unbounded, so their overflow is not modelled.
- HttpClients.BindCheck: `timestamp + timeout` is unbounded, so the `long` overflow is not modelled.
- HttpClients.IsValidHost: `InetAddress` is given by its byte list; a null address is not modelled.
- HttpClients.HttpClient.GetNextInetAddress: requires a nonempty address array. The Java code throws on an empty one.
- HttpClients.HttpClient.CheckExpiredConnections: returns the connections it closes without removing them from the list. `AbstractHttpConnection.close`, which unlinks them, is not part of this model.
- HttpClients.HttpClient.GetFreeConnection: the entries it pops are dropped. What `ExposedLinkedList` and the popped connections' pool nodes do otherwise is not part of this model.
- HttpClients.MoveToLastKeepsOrder: the activity-time stamp in `connection.request` is not part of this model. It is stated as a precondition.
- The RPC sender forwards results and exceptions from the connection to the callback unchanged. This identity pass-through has nothing to state beyond the connection chosen.
- RpcHandlers.Apply: a null callback is not modelled.
- CompletionTimeouts.Step: assumes the event loop's scheduled task runs once and only if it was not cancelled, and is complete after running.
- SocketSettingsModel.WithSendBufferSize: builders take any `int`. The validation is that of the Java constructors, which check nothing.

## Findings

| source | as written | input that shows it | evidently intended | confidence | as-written member | corrected member |
|---|---|---|---|---|---|---|
| async-streams/src/main/java/io/datakernel/stream/processor/StreamMemoryReducer.java:77-80 | a key's first item only creates the accumulator with `createAccumulator(key)`; `accumulate` is never called for that item | a counting reducer (accumulator 0, accumulate adds 1) over the single item 5 yields 0 | every item, the first included, is accumulated, so the count is 1 | not executed | StreamMemoryReducer.CountingReducerLosesFirstItem | StreamMemoryReducer.ApplyAllFolds |
| http/src/main/java/io/datakernel/dns/DnsCache.java:190-195 | an error entry is queued in the cleanup bucket of its soft expiry second, but cleanup removes only HARD-expired entries, and then drops the bucket | error delay 1000 ms, hard delta 2000 ms; error added at second 0; cleanups at seconds 1 and 5 leave the HARD-expired error cached and in no bucket | queue the error at its hard second, as `add(result)` does, so cleanup removes it | not executed | DnsCaches.ErrorEntryOutlivesCleanup | DnsCaches.ErrorEntryRemovedWhenQueuedAtHardSecond |
