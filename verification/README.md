# API tester: verified models of the analysis, capture, scan and security cores

This project models eight parts of the API tester in Dafny 4.11 and proves what each is for.
`dafny verify dfyconfig.toml` checks everything. Each module models one source file or one
component; `Text`, `Counting` and `Domain` hold shared vocabulary (text order, splitting and
trimming, counting, the captured flow).

Code that changes things step by step is written as methods and classes, each proved equal to
a specification function or to a relation on the new state; the theorems are about those
specifications. Protocols between concurrent parties are state machines with one step per
atomic section, and the theorems range over every run.

| part | modules |
| --- | --- |
| ordering captured flows by the tokens they produce and consume | `NoiseFilter`, `DependencyMapper`, `FlowSequencer`, `FlowReport`, `FlowGraph`, `TimelineUses` |
| the scan worker pool | `ScanScheduler`, `ScanSchedulerLimits`, `ScanSchedulerEnds` |
| the capture queue and the batch writer | `CaptureBuffer`, `CaptureBufferLimits`, `CaptureBufferWaits`, `PersistenceWriter` |
| the query language | `HttpQl`, `HttpQlPrinter`, `HttpQlMeaning` |
| paths into JSON bodies | `Json`, `JsonPaths`, `JsonPathSet`, `JsonPathResolver`, `JsonPathSpelling` |
| React Server Component chunks | `JsonText`, `RscChunks`, `RscLenient` |
| the site map | `SiteMap`, `SiteTree`, `SiteRouting`, `SiteShape` |
| the guarded executor, the memo of analyses, the card checksum | `SecurityExecutor`, `SecurityOutcome`, `SecurityProgress`, `ScanCache`, `Luhn` |

## What was found

Where the code falls short of a promise, the exact condition under which it keeps it is proved,
over all inputs or all runs, and a concrete input or run shows the failure.

- `topological_sort` works by fingerprint. It keeps every flow exactly when each shared
  fingerprint sits behind a cycle (`FlowSequencer.NothingLostIff`). Two captures of one request
  with no dependencies lose a flow and report a cycle that is not there
  (`FlowSequencer.DuplicateIsDropped`); `replay` (crates/scanner/src/replay.rs:33-35) calls it
  without removing such duplicates, the flow report does not.
- The noise filter keys flows by method and path without query, the fingerprint is method, path
  and body digest joined with colons. Equal fingerprints mean equal keys exactly when the longer
  method has no question mark beyond the length of the shorter one
  (`NoiseFilter.FingerprintDeterminesKeyIff`), and the survivors of a capture have fingerprints
  of their own exactly when no two of them are confused that way
  (`NoiseFilter.DistinctFingerprintsIff`, with a colliding pair in
  `NoiseFilter.QuestionMarkInMethodCollides`).
- A push is answered `Duplicate` only if another push carries its fingerprint exactly when the
  policy is not `Block` or dedup is off (`CaptureBufferLimits.DuplicatesHaveTwinsIff`). Under
  `Block` with dedup on, whatever the capacity and the limits and by pushes alone, a push into a
  full buffer meets its own fingerprint after its wait and its flow is lost
  (`CaptureBufferLimits.BlockWithDedupLosesFlow`).
- Without resets the buffer accepts no fingerprint twice exactly when the dedup limit is off or
  covers the distinct fingerprints that are pushed, or the configuration accepts nothing at all
  (`CaptureBufferLimits.AcceptsOnceIff`, with a run that accepts one twice in
  `CaptureBufferLimits.AcceptsTwice`).
- The queue stays within its capacity exactly when the capacity is not zero or the policy is not
  `DropOldest` (`CaptureBufferLimits.LengthBoundedIff`).
- With a byte cap, some run accepts a flow above it exactly when the policy is `DropOldest`
  (`CaptureBufferLimits.OversizedAcceptedIff`), whatever the comment at
  crates/capture/src/buffer.rs:70-72 says of the other policies.
- After `recv` has reported the end of the stream a flow can still land, exactly when some push
  is past the closed check and is not refused for its size (`CaptureBufferLimits.LateLandingIff`,
  with a run in `CaptureBuffer.LateLanding`).
- The dedup set of the scanner forgets when it overflows: no plan with these distinct
  fingerprints ever sends one twice exactly when they are no more than the limit
  (`ScanSchedulerLimits.SendsOnceIff`).
- A query that names a text finds every flow that shows exactly this text if and only if the text
  is not a number of at most 63 bits (`HttpQlMeaning.NamedTextIsFoundIff`): digits are read as a
  number, which no text field equals (`HttpQlMeaning.NumberMissesText`), so `req.body:12345`
  finds nothing.
- Paths into JSON are ambiguous for some keys. A path the analyser emits sets its own leaf
  exactly when every key on the way is not empty and holds no dot and no opening bracket
  (`JsonPaths.EmittedPathSetsLeafIff`, for a single field `JsonPaths.KeySetsItselfIff`). The
  workflow resolver also trims every dotted segment: the path of an extracted token resolves to
  it, in every body that holds it there, exactly when moreover no key on the way starts with
  white space and those that end in white space are followed by an array index
  (`JsonPathResolver.TokenResolvesIff`; `JsonPathResolver.SpaceInFrontIsLost` is a token that
  does not resolve).
- A set at a path puts the value there exactly when the path is there, or stops at an object from
  which only keys go on. A set that fails leaves the document as it was exactly when it is refused
  where the path stops, by a value of the wrong kind or at a last index past the end
  (`JsonPathSet.SetOutcome`); otherwise it leaves empty objects or nulls behind, as `a[1].b` does
  in an empty array (`JsonPathSet.FailedSetPads`).
- `unescape_json_string` gives the meaning of a JSON string exactly when it holds no `\/`, `\b`
  or `\f` escape and no surrogate pair (`RscChunks.UnescapeIsMeaningIff`). The extractor calls it
  on strings that the JSON reader has already decoded, so a chunk is the string that was passed
  exactly when no backslash in that string is followed by a quote, a backslash, `n`, `r`, `t` or
  `u` (`RscChunks.ChunksAreStringsIff`, with a string that comes out changed in
  `RscChunks.DecodedTwice`).
- An approval that the confirmation endpoint accepts leads to the request exactly when the wait
  ends by that answer and a slot is left (`SecurityExecutor.ApprovalHonouredIff`); once the wait
  has ended otherwise it is always lost (`SecurityExecutor.LateApprovalIsLost`, with a run in
  `SecurityExecutor.AcceptedApprovalMayBeLost`). Without a confirmation channel destructive tests
  are sent unapproved (`SecurityExecutor.SentIsApprovedIffChannel`).
- The timer of the gate does not run yet while the request for confirmation is being sent: a run
  cannot go on exactly when it is before a full channel whose receiver is still there, and
  cancelling does not release it
  (`SecurityExecutor.StuckIffBlocked`, `SecurityExecutor.BlockedUntilRead`).
- The memo of analyses is transparent exactly when hashes collide only between bodies with
  equal analyses (`ScanCache.TransparentIff`).

## Model

| member | source | states |
|---|---|---|
| NoiseFilter.FilterForAnalysis | crates/analysis/src/noise.rs:99-118 | keeps exactly the first non-noise flow of each method and path without query, in order |
| NoiseFilter.FilterForAnalysisWithCounts | crates/analysis/src/noise.rs:123-150 | lists the same flows, each with the number of non-noise flows it stands for |
| NoiseFilter.Collect | crates/analysis/src/noise.rs:123-150 | the maps and the order vector after the pass: counts, first flows, keys in order of first appearance |
| NoiseFilter.SurvivesIff | crates/analysis/src/noise.rs:99-118 | a flow survives if and only if it is not noise and no earlier non-noise flow has its key |
| NoiseFilter.SurvivorKeys | crates/analysis/src/noise.rs:99-118 | survivors have pairwise distinct keys and cover the key of every non-noise flow |
| NoiseFilter.FingerprintDeterminesKeyIff | crates/domain/src/http_flow.rs:132-139 | two flows with one fingerprint have one key if and only if the longer method has no question mark beyond the length of the shorter |
| NoiseFilter.DistinctFingerprintsIff | crates/analysis/src/noise.rs:99-118 | what the filter hands to the sequencer has pairwise distinct fingerprints if and only if no two survivors are one request line and body cut differently around a question mark |
| NoiseFilter.PlainMethodsSuffice | crates/analysis/src/noise.rs:99-118 | methods without a question mark, as RFC 9110 section 5.6.2 has them, are never confused |
| NoiseFilter.QuestionMarkInMethodCollides | crates/analysis/src/noise.rs:91-118 | a method holding a question mark: two survivors that share a fingerprint |
| NoiseFilter.CountsConserved | crates/analysis/src/noise.rs:123-150 | the counts of the survivors sum to the number of non-noise flows |
| DependencyMapper.BuildTokenPool | crates/analysis/src/dependency_mapper.rs:74-84 | the pool is the concatenation of every flow's tokens, stamped with the flow's fingerprint |
| DependencyMapper.FindUsedTokensWithLocation | crates/analysis/src/dependency_mapper.rs:93-114 | header values in name order, then the body, each scanned for the whole pool |
| DependencyMapper.FoundPlaces | crates/analysis/src/dependency_mapper.rs:93-114 | a token is found at a place if and only if it is in the pool, its value is not empty, and the header so named or the body holds it |
| DependencyMapper.FoundInPlaceOrder | crates/analysis/src/dependency_mapper.rs:93-114 | headers are scanned in their order, the body last |
| DependencyMapper.FoundMembers | crates/analysis/src/dependency_mapper.rs:93-114 | a token is found if and only if it is in the pool and its value, not empty, occurs in a header value or the body |
| DependencyMapper.BuildGraph | crates/analysis/src/dependency_mapper.rs:27-46 | an edge for exactly the pairs where a flow consumes a token another produced; target lists sorted, duplicate-free and not empty |
| DependencyMapper.BuildDependencies | crates/analysis/src/dependency_mapper.rs:49-72 | one entry per token use, and no other, sorted by source, target and location |
| DependencyMapper.DependencyIff | crates/analysis/src/dependency_mapper.rs:49-72 | an entry is listed if and only if a captured flow of its source produced its token and one of its target, a different one, shows the token's value at its place |
| DependencyMapper.ListInOrder | crates/analysis/src/dependency_mapper.rs:65-70 | the list ascends by source, within a source by target, within both by place |
| DependencyMapper.SortDependenciesIsStable | crates/analysis/src/dependency_mapper.rs:65-70 | entries with equal source, target and location keep the order in which they were found |
| DependencyMapper.FoundIsDepends | crates/analysis/src/dependency_mapper.rs:27-46 | finding pool tokens flow by flow is the relation "consumes what the other produces" |
| DependencyMapper.ListAndGraphAgree | crates/analysis/src/dependency_mapper.rs:27-72 | the dependency list links exactly the pairs that are edges of the graph |
| FlowSequencer.TopologicalSort | crates/analysis/src/flow_sequencer.rs:18-91 | a greedy order of fingerprints, each shown as the last flow carrying it, then the unsorted flows in input order |
| FlowSequencer.BuildEdges | crates/analysis/src/flow_sequencer.rs:28-46 | adjacency and in-degrees hold exactly the edges between known, different fingerprints, with multiplicity |
| FlowSequencer.KahnLoop | crates/analysis/src/flow_sequencer.rs:48-75 | the loop ends with a greedy order: always the least ready fingerprint, until none is ready |
| FlowSequencer.Release | crates/analysis/src/flow_sequencer.rs:61-73 | one turn of the loop keeps the queue equal to the sorted set of ready fingerprints |
| FlowSequencer.AppendCyclic | crates/analysis/src/flow_sequencer.rs:77-85 | the flows whose fingerprint was not sorted follow in input order |
| FlowSequencer.LeftoversAreBehindCycles | crates/analysis/src/flow_sequencer.rs:48-85 | for every graph, the nodes Kahn's loop leaves are exactly those reachable from a cycle |
| FlowSequencer.AcyclicIffNoneStuck | crates/analysis/src/flow_sequencer.rs:48-85 | a graph is acyclic if and only if nothing is reachable from a cycle |
| FlowSequencer.GreedyUnique | crates/analysis/src/flow_sequencer.rs:48-75 | every graph has one greedy order |
| FlowSequencer.GreedyIsLeastLinearExtension | crates/analysis/src/flow_sequencer.rs:48-75 | without a cycle the order is a linear extension, and lexicographically the least of all |
| FlowSequencer.NothingLostIff | crates/analysis/src/flow_sequencer.rs:77-90 | the output is a permutation of the input if and only if every shared fingerprint sits behind a cycle |
| FlowSequencer.DuplicateIsDropped | crates/analysis/src/flow_sequencer.rs:23-90 | two flows with one fingerprint and no dependency: one is dropped and a cycle is reported |
| FlowSequencer.CyclesDetectedMeaning | crates/analysis/src/flow_sequencer.rs:77-90 | the count is the number of fingerprints behind cycles plus the number of flows in excess of fingerprints; it is zero if and only if the graph is acyclic and fingerprints are distinct |
| FlowSequencer.InputOrderIrrelevant | crates/analysis/src/flow_sequencer.rs:18-91 | reordering the captured flows changes neither the sorted fingerprints nor the count; the sorted steps stay the same if and only if each of those fingerprints keeps its last flow, in particular when fingerprints are distinct; without a cycle the steps are all that is listed |
| FlowSequencer.SourceBeforeTarget | crates/analysis/src/flow_sequencer.rs:18-91 | with no cycle reported, the source of every edge stands before its target |
| FlowReport.BuildReport | apps/api-tester-server/src/backend.rs:512-548 | filter, graph and sort composed, for every capture: steps show survivors, the dependencies are the sorted list of the survivors, the cycle count is that of their graph, producers come first when no cycle is reported; unless two survivors are confused as above, every survivor is a step once and counts sum to the non-noise flows |
| FlowReport.StepTells | apps/api-tester-server/src/backend.rs:535-548 | a step shows fingerprint, method, status and count of its flow, and the path up to the question mark |
| FlowReport.Conservation | apps/api-tester-server/src/backend.rs:535-548 | the counts over the sorted steps sum to the number of non-noise flows |
| FlowReport.ProducersFirst | apps/api-tester-server/src/backend.rs:522-548 | with no cycle, the step that produces a token precedes the step that consumes it |
| FlowGraph.BuildTimelineGraph | crates/analysis/src/flow_graph.rs:44-130 | one node per flow in time order, parents as found, children backfilled |
| FlowGraph.FindParents | crates/analysis/src/flow_graph.rs:59-92 | the parents of a flow: other producers of the pool tokens it uses in headers and body, each once; else the previous flow |
| FlowGraph.CollectChildren | crates/analysis/src/flow_graph.rs:111-127 | the second pass records a child for exactly the parents the nodes name |
| FlowGraph.SortIsStable | crates/analysis/src/flow_graph.rs:45-46 | flows with equal timestamps keep their order |
| FlowGraph.ParentIff | crates/analysis/src/flow_graph.rs:59-92 | a flow is a parent if and only if it is earlier and produced a token in use, or is the previous flow and nobody produced one |
| FlowGraph.ParentListShape | crates/analysis/src/flow_graph.rs:59-92 | parent lists are duplicate-free, name earlier flows only, and are empty at the first node only |
| FlowGraph.TimelineIsRootedDag | crates/analysis/src/flow_graph.rs:44-130 | for distinct ids: parents occur earlier, only the first node has none, children lists are the exact inverse of parent lists |
| FlowGraph.ChildrenInverse | crates/analysis/src/flow_graph.rs:111-127 | a node lists a child if and only if the child lists it as a parent |
| FlowGraph.ReachedFromRoot | crates/analysis/src/flow_graph.rs:44-130 | every node is reached from the first along children |
| TimelineUses.NodeShows | crates/analysis/src/flow_graph.rs:52-108 | a node shows its flow, with the path up to the question mark; its parents are the sources of the foreign tokens in use, in the order of first use, and its description names the first use; without a use, the flow before and no description |
| TimelineUses.UsesDecide | crates/analysis/src/flow_graph.rs:59-92 | the same for any pool: the uses are those the dependency list is made of |
| FlowGraph.WalksGoForward | crates/analysis/src/flow_graph.rs:44-130 | no walk along children ever returns |
| FlowGraph.RootIsEarliest | crates/analysis/src/flow_graph.rs:45-46 | the first node is the earliest flow and timestamps never decrease |
| ScanScheduler.PoolIsSafe | crates/scanner/src/scheduler.rs:200-249 | in every reachable state of any number of workers: what is sent passed the scope check, slots taken are accounted for, requests_sent never exceeds slots taken, a budget stop means no slot is left |
| ScanScheduler.StopReasonsAreTrue | crates/scanner/src/scheduler.rs:209-236 | a reason that is reported or about to be is true: Cancelled only when cancelled, ScopeViolation only with a claimed mutation out of scope, BudgetExhausted only without a slot left, DurationExceeded only without a slot and past the deadline of a plan that has one |
| ScanScheduler.OverdueIsReported | crates/scanner/src/scheduler.rs:224-235 | once the deadline of a timed plan has passed, no worker reports a merely spent budget any more |
| ScanScheduler.DropsAreRepeats | crates/scanner/src/dedup.rs:32-49 | without dedup nothing is dropped; with it every dropped mutation has a fingerprint that was let through |
| ScanScheduler.EachIndexOnce | crates/scanner/src/scheduler.rs:209-219 | every mutation is claimed at most once, by one worker or one outcome |
| ScanScheduler.CompletedMeansAllHandled | crates/scanner/src/scheduler.rs:200-249 | when all workers ended and the reason is still Completed, every mutation was sent or dropped as a duplicate, exactly once; with dedup off each was sent exactly once |
| ScanScheduler.EachFingerprintSentOnce | crates/scanner/src/dedup.rs:32-49 | with dedup on and no more distinct fingerprints than the limit, a Completed scan sent each exactly once |
| ScanScheduler.NoFingerprintSentTwice | crates/scanner/src/dedup.rs:32-49 | within the limit no fingerprint is sent twice, in any interleaving |
| ScanSchedulerLimits.SendsOnceIff | crates/scanner/src/dedup.rs:32-49 | for a limit and a set of fingerprints: no plan over them ever sends one twice, in any run, if and only if they are no more than the limit |
| ScanSchedulerLimits.SentTwice | crates/scanner/src/dedup.rs:32-49 | for every listing of more fingerprints than the limit, a run that sends the first of them again |
| ScanScheduler.StopIsFinal | crates/scanner/src/scheduler.rs:48-58 | a stop reason once written never changes; the budget never grows, the cursor never goes back |
| ScanScheduler.NobodyIsStuck | crates/scanner/src/scheduler.rs:200-249 | every worker that has not ended can step |
| ScanSchedulerEnds.PoolEnds | crates/scanner/src/scheduler.rs:200-249 | in every run, lost compare-and-swaps included, the workers together take at most nine steps per mutation, two per worker and slot and four per worker; until all have returned, one can step |
| ScanSchedulerEnds.AnyMoment | crates/scanner/src/scheduler.rs:210-226 | every run can go on with the cancellation, and with the deadline when the plan has one |
| ScanScheduler.CancelStopsPool | crates/scanner/src/scheduler.rs:200-213 | once cancelled, the pool sends at most one more request for each worker already past its look at the token |
| ScanScheduler.InvariantStep | crates/scanner/src/scheduler.rs:200-249 | custody of indexes, scope, slots, stop reasons and dedup survive every atomic step |
| ScanScheduler.BudgetTracker.TryTake | crates/scanner/src/budget.rs:20-34 | the compare-and-swap loop, with other workers taking slots in between: success takes one slot, refusal means none is left |
| ScanScheduler.RequestDedup.FirstSeenRequest | crates/scanner/src/dedup.rs:32-49 | without dedup every request is first and the set is untouched; with it, first if and only if the fingerprint is not remembered, which it is afterwards; the set is cleared on overflow |
| CaptureBuffer.FlowBuffer.PushDedup | crates/capture/src/buffer.rs:115-129 | the dedup section of a push: verdict, set, counters |
| CaptureBuffer.FlowBuffer.PushQueue | crates/capture/src/buffer.rs:131-167 | the queue section under each overflow policy: verdict, queue, bytes, counters |
| CaptureBuffer.FlowBuffer.EvictOldest | crates/capture/src/buffer.rs:140-149 | oldest flows leave until the new one fits or none is left |
| CaptureBuffer.FitsIffBoundsHold | crates/capture/src/buffer.rs:174-184 | a flow is told to fit if and only if the queue with it holds no more flows than the capacity and, with a byte cap, no more bytes than the cap |
| CaptureBuffer.FlowBuffer.Receive | crates/capture/src/buffer.rs:186-207 | hands out the oldest flow; reports the end only when closed and empty |
| CaptureBuffer.FlowBuffer.Close | crates/capture/src/buffer.rs:209-212 | sets the flag and changes nothing else |
| CaptureBuffer.FlowBuffer.ResetDedup | crates/capture/src/buffer.rs:93-100 | empties the set when dedup is on and changes nothing else |
| CaptureBuffer.BufferIsSafe | crates/capture/src/buffer.rs:109-207 | in every reachable state with capacity at least one: length within capacity, queued_bytes the sum of the queued sizes, bytes within the cap unless one oversized flow is alone under DropOldest, accepted history is removed flows then queue, accepted is delivered plus evicted plus queued |
| CaptureBuffer.QueueSectionKeeps | crates/capture/src/buffer.rs:131-167 | the queue section keeps all of that |
| CaptureBuffer.EvictKeeps | crates/capture/src/buffer.rs:140-149 | eviction keeps bytes and history exact and ends with room or an empty queue |
| CaptureBuffer.BlockLosesNothingAccepted | crates/capture/src/buffer.rs:153-167 | under Block nothing accepted is ever evicted and nothing is counted as dropped |
| CaptureBuffer.AnswersAreTrue | crates/capture/src/buffer.rs:109-172 | a flow is in the accepted history as often as its pushes were answered Accepted; duplicates counts the Duplicate answers |
| CaptureBuffer.DedupWorks | crates/capture/src/buffer.rs:115-129 | until the set is cleared no fingerprint is accepted twice; the set stays within its limit |
| CaptureBufferLimits.AcceptsOnceIff | crates/capture/src/buffer.rs:93-129 | for every configuration with dedup and set of fingerprints: in all runs without resets whose pushes carry these, none is accepted twice, if and only if the limit is off, or covers them, or the configuration accepts nothing |
| CaptureBufferLimits.AcceptsTwice | crates/capture/src/buffer.rs:115-129 | for every listing of more distinct fingerprints than the limit, a run without resets that accepts the first of them twice |
| CaptureBuffer.WaitedPushIsCalledDuplicate | crates/capture/src/buffer.rs:110-128 | a push that waited under Block is called Duplicate unless the set was cleared since |
| CaptureBuffer.WaitedPushAcceptedOnlyAfterClear | crates/capture/src/buffer.rs:110-170 | conversely, a push that waited is accepted only if the set was cleared meanwhile |
| CaptureBufferWaits.WaitedIsAcceptedOnlyAfterClear | crates/capture/src/buffer.rs:109-170 | in every run: a push that passed the dedup set, then waited, then was accepted, was accepted only because the set had been emptied in between |
| CaptureBufferWaits.WaitedIsLost | crates/capture/src/buffer.rs:109-170 | while the set is not emptied, a push that waited is answered Duplicate, or Overflow after the close |
| CaptureBufferWaits.ForgottenByClearing | crates/capture/src/buffer.rs:93-129 | a fingerprint is forgotten only because the whole set was emptied |
| CaptureBufferLimits.DuplicatesHaveTwinsIff | crates/capture/src/buffer.rs:110-170 | for every configuration: a push is answered Duplicate in some run without another push of its fingerprint if and only if the policy is Block and dedup is on |
| CaptureBufferLimits.BlockWithDedupLosesFlow | crates/capture/src/buffer.rs:110-170 | for every capacity, byte cap and dedup limit under Block with dedup, a run of pushes alone in which a flow without a twin is answered Duplicate and never accepted |
| CaptureBuffer.OversizedNeverAccepted | crates/capture/src/buffer.rs:153-184 | under Block and FailFast no flow larger than the cap is ever accepted |
| CaptureBufferLimits.OversizedAcceptedIff | crates/capture/src/buffer.rs:131-184 | with a byte cap, a flow above it is accepted in some run if and only if the policy is DropOldest |
| CaptureBufferLimits.DropOldestAccepts | crates/capture/src/buffer.rs:138-167 | under DropOldest every flow that gets to the queue is accepted and is then the youngest of queue and history |
| CaptureBufferLimits.LengthBoundedIff | crates/capture/src/buffer.rs:131-184 | the queue never exceeds the capacity, in any run, if and only if the capacity is not zero or the policy is not DropOldest |
| CaptureBuffer.ClosedIsFinal | crates/capture/src/buffer.rs:186-212 | once closed with no push past the check, the accepted history is final and an empty queue stays empty |
| CaptureBufferLimits.LateLandingIff | crates/capture/src/buffer.rs:109-212 | from a reachable closed and empty buffer some continuation accepts a flow if and only if some push is past the closed check and either the policy is DropOldest, or there is no byte cap, or its flow is within it |
| CaptureBuffer.LateLanding | crates/capture/src/buffer.rs:111-113 | a run in which recv has reported the end and a flow lands after it |
| PersistenceWriter.PersistenceWriter.Run | crates/capture/src/writer.rs:46-62 | on success the trace is that of the batches of what was received, on failure that of a prefix of them and one aborted batch, each attempt with the answer the repository gave to it; what is announced is a prefix of what was saved, which is a prefix of what was received; when the repository refuses every save for good, the run of a non-empty input fails and announces nothing |
| PersistenceWriter.RunMeaning | crates/capture/src/writer.rs:46-91 | every trace that a run can leave has these properties |
| PersistenceWriter.PersistenceWriter.Flush | crates/capture/src/writer.rs:64-76 | saves a non-empty batch, then announces each flow, then empties it |
| PersistenceWriter.PersistenceWriter.Accept | crates/capture/src/writer.rs:46-57 | a flow joins the batch, which is flushed when full |
| PersistenceWriter.PersistenceWriter.SaveBatchWithRetry | crates/capture/src/writer.rs:78-91 | asks the repository once per attempt and records its answer; succeeds at the first Saved after at most max_retries transient failures; fails at once on a permanent error |
| PersistenceWriter.PersistenceWriter.PublishAll | crates/capture/src/writer.rs:64-76 | announces the flows in order until one announcement fails; succeeds if and only if the answer to each was yes |
| PersistenceWriter.BatchesMeaning | crates/capture/src/writer.rs:46-62 | batches concatenate to the flows, all but the last are full, none is empty |
| PersistenceWriter.TraceConserves | crates/capture/src/writer.rs:64-91 | in a trace of flushes, what was saved and what was announced are both the batches concatenated |
| PersistenceWriter.SavedIsReceived | crates/capture/src/writer.rs:46-91 | after success, flows saved and flows announced are exactly the flows received, in order |
| HttpQl.SplitTopLevel | crates/query/src/parser.rs:51-66 | splits at separators outside parentheses only |
| HttpQl.WildcardRegex | crates/query/src/parser.rs:225-237 | anchors the pattern, escapes dots, turns `*` and `?` into `.*` and `.` |
| HttpQl.Parse | crates/query/src/parser.rs:71-81 | the trimmed lines that are neither empty nor comments, joined by And; the first error wins |
| HttpQl.ParseLine | crates/query/src/parser.rs:83-105 | alternatives at top-level vertical bars, with the fallback to a single conjunction; terminates on every input |
| HttpQl.ParseAnd | crates/query/src/parser.rs:107-126 | factors at top-level ampersands, with the fallback to a single atom |
| HttpQl.ParseAtom | crates/query/src/parser.rs:128-143 | a parenthesised line, or a field line |
| HttpQlPrinter.ParseInvertsPrint | crates/query/src/parser.rs:51-219 | for every Or/And tree with at least two children per node over plain leaves, parsing its printed form gives it back inside the one-line And |
| HttpQlPrinter.LineReadsBack | crates/query/src/parser.rs:83-143 | a printed tree, parenthesised only where needed, parses as that tree |
| HttpQlPrinter.LeafReadsBack | crates/query/src/parser.rs:145-219 | a printed field condition parses as itself, for every field and operator |
| HttpQlPrinter.SplitJoin | crates/query/src/parser.rs:51-66 | splitting undoes joining, for parts whose separators are all inside parentheses |
| HttpQlMeaning.StatusCompared | crates/query/src/condition.rs:111-157 | for every spacing of the line, operator and number, the query `resp.status` finds a flow if and only if its status compares so with the number; without an operator, if and only if it equals it |
| HttpQlMeaning.StatusIsNoText | crates/query/src/condition.rs:111-157 | compared with anything but a number the status is never equal and always unequal, wildcards included |
| HttpQlMeaning.TextCompared | crates/query/src/condition.rs:90-157 | for every text field, `=` finds exactly the flows that show this text there and `!=` exactly the others, those without a body among them |
| HttpQlMeaning.NumberMissesText | crates/query/src/parser.rs:190-219 | digits after a text field are a number, which equals and orders no text |
| HttpQlMeaning.TextNamed | crates/query/src/parser.rs:168-188 | without an operator: paths that contain the text, and for the other fields equality |
| HttpQlMeaning.NamedTextIsFoundIff | crates/query/src/parser.rs:168-188 | naming a text finds all flows that show it if and only if it is not a number of at most 63 bits |
| HttpQlMeaning.WildcardNamed | crates/query/src/parser.rs:168-173 | a value with wildcards finds the flows whose whole text it describes, dots taken literally and a missing body as the empty text, given an engine that honours the pattern |
| HttpQlMeaning.BrokenPatternFindsNothing | crates/query/src/dsl.rs:43-48 | a pattern that does not compile finds nothing |
| HttpQlMeaning.LineIsRefusedIff | crates/query/src/parser.rs:145-219 | a field line is an error for an unknown name, else for a value that an operator cannot take, else not at all |
| HttpQlMeaning.NoFieldLine | crates/query/src/parser.rs:128-149 | a line without a colon is invalid, one that opens a parenthesis and does not end in one is unbalanced |
| HttpQlMeaning.NothingSaid | crates/query/src/parser.rs:71-81 | a blank line or a comment alone finds every flow |
| HttpQlMeaning.SeparatorInValue | crates/query/src/parser.rs:83-126 | a vertical bar or ampersand behind which no field line can stand belongs to the value |
| HttpQlMeaning.OperatorsCombine | crates/query/src/condition.rs:126-157 | printed conditions joined by vertical bars find what one of them finds, joined by ampersands what all of them find |
| HttpQlMeaning.NegationIsComplement | crates/query/src/condition.rs:126-157 | a condition and its negation part the flows |
| HttpQlMeaning.NegationSwapsAllAndSome | crates/query/src/condition.rs:126-157 | not all is some not, and not some is all not |
| HttpQlMeaning.FullUrlCompared | crates/query/src/condition.rs:90-157 | the full URL, which has no name in the query language, is compared as text |
| HttpQlPrinter.NewlineMeansAnd | crates/query/src/condition.rs:126-157 | two queries joined by a newline mean the conjunction of their meanings; the first error of either is the error |
| JsonPaths.AnalyzeJsonBody | crates/analysis/src/param_analyzer.rs:101-111 | the parameters of a body: none unless it is an object |
| JsonPaths.WalkJson | crates/analysis/src/param_analyzer.rs:152-187 | pushes every scalar under a key, with its textual path, in document order |
| JsonPaths.WalkedIsLeaves | crates/analysis/src/param_analyzer.rs:152-187 | for every value, whatever its keys, the walk emits its leaves in order, each under the text of its position |
| JsonPaths.ParsePathLoop | crates/scanner/src/mutation_engine.rs:189-224 | the character loop of parse_path, for every text |
| JsonPaths.ReadBracket | crates/scanner/src/mutation_engine.rs:204-215 | the inner loop up to the closing bracket, or to the end when there is none |
| JsonPaths.ParseInvertsPath | crates/scanner/src/mutation_engine.rs:189-224 | parsing the text of a path with plain keys gives the path |
| JsonPaths.KeyReadsBackIff | crates/scanner/src/mutation_engine.rs:189-224 | a key read as a path is that key if and only if it is not empty and has no dot and no opening bracket |
| JsonPaths.SetLeaf | crates/scanner/src/mutation_engine.rs:227-277 | setting at a leaf's path changes that leaf only, and setting the old value back restores the document |
| JsonPaths.EmittedPathSetsLeafIff | crates/scanner/src/mutation_engine.rs:189-277 | for every object and leaf: the emitted path, fed to the setter with another scalar, sets that leaf if and only if every key on the way to it is plain |
| JsonPaths.EmittedPathSetsThatLeaf | crates/scanner/src/mutation_engine.rs:227-277 | with plain keys on the way, the analyser finds the same paths afterwards, the new value at this one and the old values elsewhere, and setting the old value back restores the body |
| JsonPaths.SetDetermines | crates/scanner/src/mutation_engine.rs:227-277 | only the path of a scalar does what a set at that scalar does |
| JsonPaths.KeySetsItselfIff | crates/scanner/src/mutation_engine.rs:189-277 | the sole field of an object is set by its own emitted path if and only if its key is plain |
| JsonPathSet.SetOutcome | crates/scanner/src/mutation_engine.rs:227-277 | for every document and path: the value stands at the path afterwards if and only if the path is there or stops at an object from which only keys go on; a failed set leaves the document alone if and only if it is refused where the path stops |
| JsonPathSet.SetFrame | crates/scanner/src/mutation_engine.rs:227-277 | a set leaves every other position alone, and what it makes up away from the path is null |
| JsonPathSet.FailedSetPads | crates/scanner/src/mutation_engine.rs:268-274 | `a[1].b` in an empty array fails and leaves two nulls |
| JsonPathResolver.ExtractBodyTokens | crates/analysis/src/token_extractor.rs:53-63 | the tokens of a parsed body under the key table |
| JsonPathResolver.WalkTokens | crates/analysis/src/token_extractor.rs:85-130 | pushes each token with its `$` path, in document order |
| JsonPathResolver.EmittedIsTokens | crates/analysis/src/token_extractor.rs:85-130 | for every value, the walk emits the token of each leaf with the text of its position |
| JsonPathResolver.TokensAreWhatTheBodyHolds | crates/analysis/src/token_extractor.rs:85-130 | a token is extracted if and only if a string of more than five bytes stands under a key of the table |
| JsonPathSpelling.TokenIff | crates/analysis/src/token_extractor.rs:85-130 | the same on positions: type, value and path text of a token are those of a string of more than five bytes under a key of the table |
| JsonPathSpelling.BytesOfChar | crates/analysis/src/token_extractor.rs:85-130 | a character counts as many bytes as its code needs in UTF-8 (RFC 3629 section 3) |
| JsonPathResolver.SplitIndicesLoop | crates/workflow/src/jsonpath.rs:44-61 | name and indices of a segment, or malformed |
| JsonPathResolver.ApplyTokenLoop | crates/workflow/src/jsonpath.rs:30-40 | follows the optional key, then the indices |
| JsonPathResolver.ResolvePath | crates/workflow/src/jsonpath.rs:9-27 | strips, splits at dots and follows each trimmed segment |
| JsonPathSpelling.SpellingIgnored | crates/workflow/src/jsonpath.rs:9-16 | space around a path, a dollar sign in front, and dots and space behind it change nothing |
| JsonPathSpelling.DollarIsRoot | crates/workflow/src/jsonpath.rs:9-16 | a dollar sign, or nothing, is the whole document |
| JsonPathSpelling.IndexIsRead | crates/workflow/src/jsonpath.rs:44-61 | an index is read with space around it, and resolves to nothing when it is no number |
| JsonPathResolver.ResolveFollows | crates/workflow/src/jsonpath.rs:9-61 | in every document, resolving the text of a readable position finds what stands there, or nothing when nothing does |
| JsonPathResolver.PathResolvesIff | crates/workflow/src/jsonpath.rs:9-61 | for every position: in all documents that hold a text there, the text of the position resolves to it, if and only if every key on the way is not empty, has no dot, opening bracket or leading space, and ends in space only in front of an index |
| JsonPathResolver.TokenResolvesIff | crates/workflow/src/jsonpath.rs:9-61 | the same for tokens: in all bodies that hold the token at a position, its emitted path resolves to its value, if and only if the position is readable |
| JsonPathResolver.UnreadableTokenIsLost | crates/workflow/src/jsonpath.rs:9-61 | for every position that is not readable, a body whose extracted token does not resolve |
| JsonPathResolver.SpaceInFrontIsLost | crates/workflow/src/jsonpath.rs:18-23 | such a body: a token below a key with a leading space |
| JsonPathResolver.ResolvedReadably | crates/workflow/src/jsonpath.rs:9-61 | whatever path text resolves to stands at a readable position |
| JsonPathResolver.TokenResolves | crates/workflow/src/jsonpath.rs:9-61 | every extracted token stands at a position, and resolves to its value when that is readable |
| JsonPathResolver.FitBodyIff | crates/workflow/src/jsonpath.rs:9-61 | all tokens of a value stand at readable positions if and only if every key above a token is readable and, if it ends in space, holds an array |
| JsonPathResolver.AllTokensResolve | crates/workflow/src/jsonpath.rs:9-61 | in such a body every token resolves to its value |
| JsonPathResolver.KeyResolvesIff | crates/workflow/src/jsonpath.rs:9-61 | the sole field of an object resolves by its emitted path if and only if its key is readable and does not end in space |
| RscChunks.BalancedBracketEnd | crates/analysis/src/rsc_chunks.rs:80-113 | the loop over depth and flags is the automaton, from any position |
| RscChunks.ArrayEndIsExact | crates/analysis/src/rsc_chunks.rs:76-113 | for every array written in any way the grammar of RFC 8259 allows, lone surrogate escapes included, followed by anything, the automaton stops exactly at its end |
| RscChunks.PassNode | crates/analysis/src/rsc_chunks.rs:90-111 | the text of every JSON value the grammar allows leaves depth and flags as they were |
| RscChunks.ExtractRscChunks | crates/analysis/src/rsc_chunks.rs:10-37 | the guarded search: the unescaped payload of every call found |
| RscChunks.NextCall | crates/analysis/src/rsc_chunks.rs:17-35 | one turn of the search: where it goes on and which argument it found |
| RscChunks.NoGuardNoNeedle | crates/analysis/src/rsc_chunks.rs:11-13 | the guard at the top changes nothing |
| RscChunks.EveryChunkIsRecovered | crates/analysis/src/rsc_chunks.rs:10-37 | from calls of written arrays, separated by text without the needle, one chunk per call whose second element is a string, in order, for any JSON reader that gives arrays their value; where a lone surrogate leaves an array without one, the chunk is what the reader makes of its text |
| RscLenient.UnclosedCallIsSkipped | crates/analysis/src/rsc_chunks.rs:17-23 | a call whose brackets never close is passed over |
| RscLenient.CutPageKeepsChunks | crates/analysis/src/rsc_chunks.rs:10-37 | a page that breaks off inside the array of its last call gives the chunks of all calls before it |
| RscLenient.WindowDecides | crates/analysis/src/rsc_chunks.rs:55-63 | the up to four characters behind `\u` give the character of their hexadecimal value, a plus sign in front allowed, and else nothing |
| RscChunks.UnescapeLoop | crates/analysis/src/rsc_chunks.rs:40-74 | the character loop with its fast path, truncated and invalid escapes included |
| RscChunks.UnescapeIsMeaningIff | crates/analysis/src/rsc_chunks.rs:40-74 | unescaping gives the meaning under RFC 8259 section 7 if and only if there is no `\/`, `\b`, `\f` and no surrogate pair |
| RscChunks.UnescapeKeepsIff | crates/analysis/src/rsc_chunks.rs:40-74 | unescaping leaves a text alone if and only if no backslash in it is followed by a quote, a backslash, n, r, t or u |
| RscChunks.ChunksAreStringsIff | crates/analysis/src/rsc_chunks.rs:24-31 | the chunks of a page are the strings its calls pass if and only if none of these holds such a backslash |
| SiteMap.CollectSites | apps/api-tester-server/src/serialization.rs:327-365 | the nested maps after all flows are placed |
| SiteMap.InsertIsLocal | apps/api-tester-server/src/serialization.rs:339-350 | inserting a flow changes the endpoint at its address and no other |
| SiteMap.EndpointIff | apps/api-tester-server/src/serialization.rs:327-365 | an endpoint exists at a site and address if and only if some flow goes there, and summarises exactly those flows |
| SiteRouting.QueryIsIgnored | apps/api-tester-server/src/serialization.rs:335 | two flows of one site whose paths differ in the query only go to one endpoint |
| SiteRouting.GoesWhereItSays | apps/api-tester-server/src/serialization.rs:335-349 | a flow whose path is names behind slashes, with or without a query, goes to exactly those names |
| SiteRouting.RootGoesToSlash | apps/api-tester-server/src/serialization.rs:349 | a path of slashes only, or an empty one, goes to the endpoint `/` |
| SiteRouting.ExtraSlashIgnored | apps/api-tester-server/src/serialization.rs:336-339 | doubling a slash in front of the query changes nothing |
| SiteRouting.ListedNamesAreClean | apps/api-tester-server/src/serialization.rs:335-350 | no listed name is empty or holds a slash, except the root's, and none holds a question mark |
| SiteRouting.SiteIsSchemeAndHost | apps/api-tester-server/src/serialization.rs:301-306 | the scheme is what stands in front of `://` in the full URL, https without one |
| SiteRouting.ContentTypeIsCut | apps/api-tester-server/src/serialization.rs:309-316 | parameters and surrounding space of a content type do not matter |
| SiteMap.AggregateSummarises | apps/api-tester-server/src/serialization.rs:351-364 | count, methods, statuses, content types and query flag of the flows; the sample is the first flow with the greatest timestamp |
| SiteMap.EntriesDistinct | apps/api-tester-server/src/serialization.rs:378-432 | no address is listed twice below a directory |
| SiteTree.BuildDirChildren | apps/api-tester-server/src/serialization.rs:378-432 | sub-directories then endpoints, each in name order, recursively; an endpoint's methods, statuses and content types as ascending lists |
| SiteTree.BuildSitemapTree | apps/api-tester-server/src/serialization.rs:327-376 | one site per scheme and host, in map order, with its nodes |
| SiteTree.LeavesAreEntries | apps/api-tester-server/src/serialization.rs:378-432 | the node tree holds one leaf per endpoint, in order, with its full path and aggregates |
| SiteTree.PathReadsBack | apps/api-tester-server/src/serialization.rs:335-350 | reading an endpoint's path gives back the address it was filed under |
| SiteTree.ListingIsExact | apps/api-tester-server/src/serialization.rs:327-432 | each endpoint that some flow goes to is listed exactly once, with the summary of its flows |
| SiteTree.CountsSumToFlows | apps/api-tester-server/src/serialization.rs:351-364 | the counts of all endpoints sum to the number of flows |
| SiteShape.TreeShape | apps/api-tester-server/src/serialization.rs:327-432 | the tree lists each site once, by scheme and host; below each, directories come before endpoints, each by name; a directory has its parent's path and its name, leads somewhere and carries nothing else; an endpoint has the note filed under scheme, host and path |
| SiteShape.LeafTells | apps/api-tester-server/src/serialization.rs:407-430 | an endpoint node tells what is known of the endpoint, its sets as ascending lists |
| SiteShape.LineReads | apps/api-tester-server/src/serialization.rs:439-442 | a line is the path, and in parentheses the count and the methods between slashes |
| SiteShape.HostsInOrder | apps/api-tester-server/src/serialization.rs:447-455 | the flat listing names each host of the tree once, in order |
| SiteTree.FlattenToText | apps/api-tester-server/src/serialization.rs:436-455 | hosts in order, each with the lines of its sites in tree order, written as path, count and methods |
| SiteTree.FlattenSitemapTree | apps/api-tester-server/src/serialization.rs:436-455 | the same for any way of writing a line |
| SiteTree.Walk | apps/api-tester-server/src/serialization.rs:438-446 | the recursive walk appends one line per endpoint node, in order |
| SiteTree.FlatListsEachEndpointOnce | apps/api-tester-server/src/serialization.rs:436-455 | a host's lines are exactly one per endpoint under that host, with the endpoint's own path |
| SecurityExecutor.RunIsSafe | crates/security/src/executor.rs:577-907 | in every interleaving: requests sent are the findings plus the one in flight, at most max_requests; tests passed by were skipped or sent; nothing is pending away from the gate; no test is sent or registered twice |
| SecurityExecutor.EndMeaning | crates/security/src/executor.rs:577-907 | a Completed run has skipped plus sent equal to the number of tests; a budget stop has spent all; a Cancelled run was cancelled; a run that exceeded its duration was overdue and had a limit |
| SecurityOutcome.EveryTestIsAccountedFor | crates/security/src/executor.rs:613-721 | of the tests that are past: one in scope that needs no approval was sent, one out of scope was not, one in scope that needs approval was registered; the skipped are exactly those not on the wire, and each of these was out of scope or gated |
| SecurityOutcome.AskedBeforeWaiting | crates/security/src/executor.rs:645-679 | whenever the run waits, the request and the event of that registration have been sent; between tests every past test has been reported; no channel holds more than its room |
| SecurityExecutor.ApprovalPrecedesSending | crates/security/src/executor.rs:634-721 | with a channel, a destructive test is on the wire only if the endpoint approved that very registration earlier, while the run stood at its gate |
| SecurityExecutor.AnswerStep | apps/api-tester-server/src/security_service.rs:606-634 | an answer comes from the endpoint for the registered test's own id, while pending, and never changes |
| SecurityExecutor.AnsweredAtMostOnce | apps/api-tester-server/src/security_service.rs:606-634 | each registration is answered at most once in a run |
| SecurityExecutor.NextKeeps | crates/security/src/executor.rs:577-907 | gate, tickets, wire and ledger survive every step of every party |
| SecurityExecutor.CancelStopsSoon | crates/security/src/executor.rs:583-587 | once cancelled, at most the current test's request is still sent |
| SecurityProgress.RunEnds | crates/security/src/executor.rs:577-907 | whatever the other parties do, a run takes at most thirteen steps per test and eleven more, and can go on unless it has ended or stands before a full channel |
| SecurityProgress.ReadReleases | crates/security/src/executor.rs:645-679 | a run before a full channel is released by one message read, if the channel holds any, and by its receiver going away |
| SecurityProgress.WaitCanBeApprovedIff | crates/security/src/executor.rs:672-690 | a wait can end approved if and only if the endpoint has answered yes |
| SecurityProgress.ApprovalCanSend | crates/security/src/executor.rs:672-721 | from every run that waits, was answered yes and has a slot left, a continuation sends the request with that approval |
| SecurityExecutor.StuckIffBlocked | crates/security/src/executor.rs:634-701 | a run that has not ended can go on if and only if it is not about to send on a full channel whose receiver is still there |
| SecurityExecutor.BlockedUntilRead | crates/security/src/executor.rs:645-679 | before a full channel the run stays where it is, cancelled or answered, until a receiver takes a message or goes away |
| SecurityExecutor.ApprovalHonouredIff | crates/security/src/executor.rs:634-721 | in every run past the test: an approval the endpoint accepted led to the request if and only if the wait ended by the answer and a slot was left, and got as far as the budget if and only if the wait ended by the answer |
| SecurityExecutor.LateApprovalIsLost | crates/security/src/executor.rs:672-701 | an approval accepted after the wait has ended never leads to a request |
| SecurityExecutor.AcceptedApprovalMayBeLost | crates/security/src/executor.rs:672-701 | a run in which the endpoint accepts an approval after the timer and the run ends with the test skipped |
| SecurityExecutor.SentIsApprovedIffChannel | crates/security/src/executor.rs:634-636 | a destructive test on the wire was approved if and only if the run has a confirmation channel |
| ScanCache.ScanCache.StoreAnalysis | crates/analysis/src/secret_scanner.rs:101-117 | leaves a cached key alone; else makes room by evicting the oldest and appends the new key |
| ScanCache.EntryLifetime | crates/analysis/src/secret_scanner.rs:95-117 | through any stores of other keys the i-th oldest entry can be looked up, with its value, exactly as long as the misses among them leave it one of the 4096 youngest |
| ScanCache.ScanCache.Analyze | crates/analysis/src/secret_scanner.rs:122-132 | default for blank bodies, the cached entry on a hit, else the analysis, stored |
| ScanCache.StoredIsSound | crates/analysis/src/secret_scanner.rs:101-117 | a store keeps the order queue a duplicate-free listing of the keys, within the capacity |
| ScanCache.CacheStaysSound | crates/analysis/src/secret_scanner.rs:71-132 | so it is after every history of racing calls, with at most 4096 entries |
| ScanCache.TransparentIff | crates/analysis/src/secret_scanner.rs:95-132 | every call of every racing history returns the uncached result if and only if hashes collide only between bodies with equal analyses |
| Luhn.LuhnValid | crates/analysis/src/sensitive_taxonomy.rs:202-224 | the loop decides validity by the Luhn sum of ISO/IEC 7812-1 Annex B over the digits of the text, 13 to 19 of them |
| Luhn.FlagSumIsLuhnSum | crates/analysis/src/sensitive_taxonomy.rs:211-222 | the alternating flag from the right gives the sum by places, doubled digits counted by their decimal digits |
| Luhn.OneWrongDigitIsDetected | crates/analysis/src/sensitive_taxonomy.rs:199-224 | changing any one digit of a valid text makes it invalid |
| Luhn.SwapIsDetectedIff | crates/analysis/src/sensitive_taxonomy.rs:199-224 | exchanging two neighbouring digits keeps a valid text valid if and only if they are equal or are 0 and 9 |
| Luhn.ExactlyOneCheckDigit | crates/analysis/src/sensitive_taxonomy.rs:199-224 | a text of 12 to 18 digits has exactly one digit that completes it |

## Left out

- Sockets, TLS, SQLite, browsers, the AI client and the prompt builders, the proxy and the HTTP routes: flows, requests and answers are plain records here.
- Regular expressions, gitleaks and MD5: the noise patterns, the regex engine of the query language and the uncached body analysis are function parameters; a flow carries the digest of its body as a field.
- The tokens of headers, cookies and JWTs in bodies, used by `DependencyMapper` and `FlowGraph`: the extractor is a function parameter there; only the JSON walk of the extractor is modelled, in `JsonPathResolver`.
- The JSON parser that `RscChunks` calls is a parameter; what the theorems ask of it is that it gives the arguments of the page their value, where they have one.
- JsonPaths.SetLeaf: the descent through mutable references is modelled on values; what creating missing parents does in place to aliases is not captured (there are none in the source).
- SiteMap.CollectSites: the nested maps are rebuilt on values along the path of a flow instead of being updated through a mutable reference.
- SecurityExecutor.RunIsSafe: which methods and paths make a test destructive (crates/security/src/types.rs:35-52), request building, oracles, verdicts and evidence texts are vocabulary; a test says of itself whether it is destructive and in scope.
- SecurityExecutor.StuckIffBlocked: that the two forwarding tasks do read their channels in the end is not stated; rate limiting and the request itself are single steps that end.
- ScanScheduler.PoolIsSafe: that a deadline passes is a step of the environment, at any moment and for good, since try_take never consults the clock; retries inside the request executor and rate limiting are outside.
- CaptureBuffer.BufferIsSafe: that a waiting push or receive is eventually woken is not stated; wake-ups may be spurious.
- ScanCache.CacheStaysSound: a poisoned lock, which makes lookups miss and stores do nothing, is not modelled.
- HttpQlPrinter.ParseInvertsPrint: leaves with wildcards (whose regex is not printable) and with values that hold separators, parentheses or edge space have no printed form; the parser itself is modelled on every input.
- Numbers are unbounded: overflow of counters, cursors and depths is not modelled; `parse::<usize>` does not fail on large digits, which a lookup answers the same way.
- Texts are sequences of Unicode characters: byte offsets inside UTF-8 are not modelled, except for the byte length of a token.
- Workflow execution, body and cookie decoding, overfetching heuristics, entropy thresholds, taxonomy keyword lists, the ring buffer and the intercept controller: easy or vocabulary, not modelled.
