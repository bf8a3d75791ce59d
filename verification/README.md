# Verified models of the Fitz broker and its stress tools

Fitz is a message broker written in Rust. This project restates the parts of it whose correctness is hardest to
see by reading, as Dafny models, and proves for all inputs, all interleavings or all reachable states what those
parts promise. Nothing here executes the broker: the proofs are about the models, and each row of the table below
says which lines a model stands for.

What is modelled, one file per component:

- `RouteMatcher.dfy`, `PatternCoverage.dfy`, `PatternLimits.dfy`: route patterns with `*` and `**`, the table-driven
  matcher, the product-automaton search that decides whether one pattern covers every route of another, and how far
  that search reaches.
- `ShutdownSignals.dfy`, `ShutdownProtocol.dfy`, `ShutdownRuns.dfy`: the published shutdown signal and its
  priorities, and the protocol of the four tasks around it (OS signals, runtime monitor, storage-lease monitor,
  boot task) as a step relation in which any task may move next.
- `BrokerBoot.dfy`: boot and teardown as a machine over listeners, store and domains. The operations on resources
  carry preconditions (spawn once, stop only a live listener, join only a stopped one, one shutdown of the store and
  only when nothing reaches it), so every boot path is checked against them.
- `BufferBudget.dfy`: two-level byte admission, both as classes and as an interleaving machine over sessions,
  half-done wraps, shared frames and their handles.
- `Latencies.dfy`: the power-of-two histogram and its percentile, against the exact nearest-rank percentile.
- `Snapshot.dfy`: snapshot artifacts, their validator, constructors and encoding, against one declarative predicate.
- `RpcWire.dfy`, `PipelinedDrain.dfy`: the RPC payload parsers and the two drains of pipelined responses.
- `ScheduleList.dfy`: the paged list checker, for any replies, and against the server's own paging.
- `StressCounters.dfy`, `StressPhase.dfy`, `StressRun.dfy`, `StressCleanup.dfy`: the stress runner's saturating counters
  against an exact log, the phase loop and what a passed phase guarantees, the phases of a run, and its cleanup.
- `CatalogFixture.dfy`: a long put log over 32 keys and the closed form of what is left of it.
- `Basics.dfy`: options, results, 64-bit clamping, sums over finite maps.

Where the source does not meet what one would expect of it, the exact condition is proved and a failing input given:

- The histogram's percentile promise holds exactly when the saturating product `count * percent` still yields the
  true rank (`ApproximationNeedsTheRank`, `SaturationLosesTheRank`).
- The lane progress check means what it says when the active time or the limit fits 64 bits of nanoseconds; beyond
  both, a stalled lane passes (`ProgressIsExact`, `ProgressMeans`, `StalledLanePasses`). This lies outside every
  configured run: a duration is at most 86400 s, so a phase's active time fits (`ConfiguredPhaseFits`).
- The coverage search refuses what it cannot finish: a pattern of sixteen segments does not cover itself
  (`TailedLimit`, `CoversItself`). Patterns whose bound is within the limit are decided exactly (`SmallSearchesFit`),
  and a pattern against itself up to thirteen segments from its first `**` on (`SelfSearchFits`).
- The fixed-depth coverage check is exact when the schemes agree or the request can match the depth; otherwise it
  refuses a request that has no such route (`CoversAtFixedDepth`, `MismatchRefusedThoughCovered`).
- A session's wraps in progress can keep out a frame that would fit beside its live ones; admission is exact when
  there are none, or when the session's budget is not the tightest limit (`ExactAdmission`,
  `WronglyRefusedLengths`, `ContentionCanRefuseWhatWouldFit`).

No fatal signal is lost on any way a boot can end. Fatal signals come from the storage monitor and from failed
domains, so none is requested before the store is monitored (`NoFatalBeforeStorage`, `EarlyEndMissesNothing`), and
every return of a boot during which one was requested is an error, naming the first one unless startup itself failed
(`BootInitialized`). A failed domain becomes a fatal signal exactly if it is still attached when the runtime monitor
looks at it (`DomainFailureIsReported`); cleanup detaches the domains.

Trusted, and not proved here: the watch channel delivers its latest value and fails only when every sender is
gone; the runtime's drain, shutdown and fatal-failure flags are sticky; nothing but the two monitors requests a
fatal signal, and the fatal-failure flag is raised only once there can be domains; semaphore acquire and release are atomic; the
JSON codec gives back what it encoded, and the digest is an arbitrary function; recompiling a pattern's own text
gives the same pattern; the clock is monotone; 128-bit nanosecond totals and 64-bit identifiers do not reach their
ceiling. Counters that the source saturates are modelled with their saturation.

## Model

| member | source | states |
|---|---|---|
| `RouteMatcher.MatchesAtEnd` | src/runtime/matcher.rs:415-449 | the front-to-back meaning of a pattern can be peeled from the end, which is what a row of the table does |
| `RouteMatcher.NextRow` | src/runtime/matcher.rs:426-446 | one row of the table says, for every prefix of the route, whether the pattern so far matches it |
| `RouteMatcher.MatchSegments` | src/runtime/matcher.rs:415-449 | the table answers exactly whether the pattern matches the route |
| `RouteMatcher.SomePathMatches` | src/runtime/matcher.rs:387-399 | every parsed pattern matches at least one route |
| `RouteMatcher.CanMatchIsExact` | src/runtime/matcher.rs:113-121 | the registration rule on fixed segments and `**` holds exactly when some path of that length matches |
| `PatternCoverage.EpsilonClosure` | src/runtime/matcher.rs:321-328 | one left-to-right pass reaches everything reachable through consecutive `**` |
| `PatternCoverage.Transition` | src/runtime/matcher.rs:330-346 | one symbol step of the automaton, closed again |
| `PatternCoverage.StartIsRun` | src/runtime/matcher.rs:235-235 | the start states are those whose pattern prefix matches the empty path |
| `PatternCoverage.StepIsRun` | src/runtime/matcher.rs:330-346 | stepping the states of a path by a segment gives the states of the longer path |
| `PatternCoverage.AcceptsMeansMatches` | src/runtime/matcher.rs:348-350 | the accepting state is alive after a path exactly when the pattern matches it |
| `PatternCoverage.Alphabet` | src/runtime/matcher.rs:225-233 | the collected symbols are the literals of both patterns and one stand-in for everything else, without repeats |
| `PatternCoverage.SymbolFor` | src/runtime/matcher.rs:225-233 | every path segment is represented by one of the symbols, for both patterns at once |
| `PatternCoverage.SegmentFor` | src/runtime/matcher.rs:225-233 | every symbol stands for some real path segment, so no refutation is spurious |
| `PatternCoverage.Expand` | src/runtime/matcher.rs:244-256 | expanding a pair adds exactly its unseen live successors and reports the state limit |
| `PatternCoverage.Walk` | src/runtime/matcher.rs:239-259 | the search visits only reachable pairs; a clean end leaves every visited pair expanded and not refuting |
| `PatternCoverage.ClosedSetMeetsEveryPath` | src/runtime/matcher.rs:239-257 | a set closed under the symbols contains the pair of every path the request can still match |
| `PatternCoverage.CoveredIffNoRefutation` | src/runtime/matcher.rs:240-242 | inclusion holds exactly when no reachable pair accepts for the request only |
| `PatternCoverage.LanguageIsSubset` | src/runtime/matcher.rs:220-260 | answers true exactly when inclusion holds for all paths, both patterns are below 128 segments and the reachable pairs are at most 16384 |
| `PatternCoverage.NextAtDepth` | src/runtime/matcher.rs:289-312 | the pairs at depth d+1 are exactly the live successors of the pairs at depth d |
| `PatternCoverage.NextFrontier` | src/runtime/matcher.rs:290-305 | one level is expanded completely or the limit is reported |
| `PatternCoverage.LanguageIsSubsetAtDepth` | src/runtime/matcher.rs:267-319 | answers true exactly when inclusion holds among paths of that length and every level stays within the limits |
| `PatternCoverage.SchemesMustAgree` | src/runtime/matcher.rs:184-192 | covering every route means a matching scheme and inclusion of the path languages |
| `PatternCoverage.Covers` | src/runtime/matcher.rs:184-192 | a grant is accepted exactly when it covers every route of the request and the search stays within its limits |
| `PatternCoverage.CoversAtFixedDepth` | src/runtime/matcher.rs:209-217 | the same for routes of one depth; within its limits the answer is the coverage of those routes exactly when the schemes agree or the request can match that depth |
| `PatternCoverage.CoverageAtDepth` | src/runtime/matcher.rs:209-217 | covering every route of one depth is a matching scheme with inclusion there, or a request that has no such route |
| `PatternCoverage.MismatchRefusedThoughCovered` | src/runtime/matcher.rs:209-214 | a grant and a request of different schemes that are refused although the request has no route of that depth |
| `PatternLimits.TailedLimit` | src/runtime/matcher.rs:250-254 | `**`, a literal and k stars have 2^(k+1) product states against themselves, so thirteen stars are within the limit and fourteen are not |
| `PatternLimits.CoversItself` | src/runtime/matcher.rs:184-192 | such a pattern is found to cover itself exactly up to thirteen stars, although it always does |
| `PatternLimits.RunShape` | src/runtime/matcher.rs:321-346 | before its first `**` a pattern has at most one live position, and from then on that `**` or nothing |
| `PatternLimits.ReachableBound` | src/runtime/matcher.rs:239-257 | the number of product states is at most a bound computed from where the first `**` stands and how much follows it |
| `PatternLimits.SmallSearchesFit` | src/runtime/matcher.rs:220-319 | patterns whose bound is at most 16384 are decided exactly, at any depth too |
| `PatternLimits.ShortTailsFit` | src/runtime/matcher.rs:220-319 | so are all patterns without `**`, and patterns of up to 64 segments with at most six from the first `**` on |
| `PatternLimits.SelfSearchBound` | src/runtime/matcher.rs:239-257 | a pattern searched against itself has at most one state per live position set of one side |
| `PatternLimits.SelfSearchFits` | src/runtime/matcher.rs:220-319 | so a pattern with at most thirteen segments from its first `**` on is decided against itself, at any depth too |
| `ShutdownSignals.ShutdownTrigger.constructor` | src/api/broker_shutdown.rs:73-82 | a new channel has no signal and no history |
| `ShutdownSignals.ShutdownTrigger.Request` | src/api/broker_shutdown.rs:55-63 | a request is accepted exactly when it is more urgent than what is published, and the published value stays the fold of the history |
| `ShutdownSignals.PublishedIsEarliestMaximal` | src/api/broker_shutdown.rs:40-63 | after any requests the published signal is the earliest among those of maximal priority |
| `ShutdownSignals.LevelNeverFalls` | src/api/broker_shutdown.rs:55-63 | further requests never lower the level, take the signal away, or replace it without raising the level |
| `ShutdownSignals.LevelIgnoresOrder` | src/api/broker_shutdown.rs:40-63 | the final priority does not depend on the order of racing requests |
| `ShutdownSignals.AcceptedIsBounded` | src/api/broker_shutdown.rs:40-63 | at most three requests of a run are accepted |
| `ShutdownProtocol.RuntimeStep` | src/api/broker_shutdown.rs:98-152 | every move of the runtime monitor keeps its invariant, leaves the other tasks alone and only raises shared flags |
| `ShutdownProtocol.StorageStep` | src/api/broker_shutdown.rs:154-195 | the same for the storage-lease monitor |
| `ShutdownProtocol.OsStep` | src/api/broker_shutdown.rs:233-261 | the OS signal task changes only the channel and itself |
| `ShutdownProtocol.MainStep` | src/api/broker.rs:617-784 | every move of the boot task while it starts, waits, closes, drains, cleans up and reports keeps its invariant |
| `ShutdownProtocol.EarlyStep` | src/api/broker.rs:270-372 | every step keeps that nothing has failed before the storage monitor starts, and that a boot task that ended later had begun the shutdown |
| `ShutdownProtocol.StepCountsSenders` | src/api/broker_shutdown.rs:66-112 | the number of live senders is the coordinator's own plus one per task that has not ended, after every step |
| `ShutdownProtocol.StepKeepsInv` | src/api/broker_shutdown.rs:98-223 | every step of every task keeps the whole invariant and moves the system only forward |
| `ShutdownProtocol.RunKeepsInv` | src/api/broker_shutdown.rs:98-223 | the invariant holds in every state of every run |
| `ShutdownRuns.RunAdvances` | src/api/broker_shutdown.rs:55-63 | along any run the request history only grows, and version, level, lifecycle and the fatal-failure flag never go back |
| `ShutdownRuns.PublishedFatalIsFirst` | src/api/broker_shutdown.rs:34-63 | a fatal signal is published exactly when one was requested, and it is the first such |
| `ShutdownRuns.ReportNamesFirstFatal` | src/api/broker.rs:617-644 | in every interleaving the report names the first fatal signal requested before the last read, whatever cleanup did, and is Ok only without one and with a clean cleanup |
| `ShutdownRuns.FinalReadSeesEarlierRequests` | src/api/broker.rs:624-627 | every request made before the report is among those the last read decides on |
| `ShutdownRuns.FatalBeforeReportFailsBroker` | src/api/broker.rs:617-644 | a fatal signal published at any time before the report makes the broker fail with its text |
| `ShutdownRuns.MonitorsOutliveADrain` | src/api/broker_shutdown.rs:98-195 | while only drain-level signals are published both monitors keep watching; the runtime monitor leaves only a draining or stopping runtime behind |
| `ShutdownRuns.SeenFailureEscalates` | src/api/broker_shutdown.rs:127-193 | a failure a monitor has seen raises the published level to fatal before that monitor does anything else |
| `ShutdownRuns.RuntimeFailureIsReported` | src/api/broker_shutdown.rs:127-143 | a tick that meets a failure makes the channel fatal within four moves of the runtime monitor, three once it looks at the domains, two if the failure was marked; whatever the other tasks do, except that detaching the domains before it has looked at them withdraws the first two cases |
| `ShutdownRuns.DomainFailureIsReported` | src/api/broker_shutdown.rs:133-141 | the monitor's look at the domains acts exactly on a failed one still attached, and the channel is then fatal within three of its moves, that look included, even if the domains are detached right after |
| `ShutdownRuns.NoFatalBeforeStorage` | src/api/broker.rs:342-361 | in no run is a fatal signal requested before the storage monitor starts |
| `ShutdownRuns.EarlyEndMissesNothing` | src/api/broker.rs:276-341 | a boot task that ended before that has missed no fatal signal, then or at any later time |
| `ShutdownRuns.LeaseFailureIsReported` | src/api/broker_shutdown.rs:178-223 | a lease that is unhealthy when the storage monitor looks is fatal on the channel within three of its moves |
| `ShutdownRuns.CloseDecision` | src/api/broker.rs:704-764 | the close is decided on a signal at least as urgent as the incoming one, with the drain reason exactly when that signal drains, and the grace is cut short only by an urgent one |
| `ShutdownRuns.GraceWakesAtMostTwice` | src/api/broker.rs:720-741 | the drain wait wakes at most twice, whatever version its receiver had seen, and the channel changes at most three times |
| `ShutdownRuns.ChannelNeverCloses` | src/api/broker_shutdown.rs:205-216 | no receiver ever finds the channel closed: neither monitor, nor the drain wait, nor the wait for a signal, nor the pause between storage attempts |
| `ShutdownRuns.BootEndsWithinElevenMoves` | src/api/broker.rs:617-784 | from the moment it starts closing the boot task reports within eleven of its own moves |
| `BrokerBoot.CombinedMentionsEveryError` | src/api/broker.rs:578-588 | cleanup is Ok only if every part is, and an error contains the text of every part that failed |
| `BrokerBoot.Broker.constructor` | src/api/broker.rs:270-274 | a fresh boot holds no resource and monitors nothing |
| `BrokerBoot.Broker.StartListeners` | src/api/broker.rs:112-181 | both standby listeners are live or everything spawned was stopped and joined, with the first error in front |
| `BrokerBoot.Broker.StartMetrics` | src/api/broker.rs:145-173 | the metrics listener is live behind the HTTP one, or both were stopped and joined, with the first error in front |
| `BrokerBoot.Broker.OpenStorageStage` | src/api/storage_runtime.rs:50-182 | in every storage mode: nothing is opened once a signal was there to see, a store handed on was opened with no signal published, otherwise it was never opened or got one shutdown, and a failed shutdown is an error; giving up means a signal was published, and only persistent storage is tried again |
| `BrokerBoot.Broker.OpenOnce` | src/api/storage_runtime.rs:229-300 | one attempt hands on an open store, or leaves none open, or asks for another only after a retryable failure to open |
| `BrokerBoot.Broker.OpenWithRetry` | src/api/storage_runtime.rs:204-247 | the retry loop ends with a store opened under no signal, a seen signal or an error, and otherwise every attempt failed to open and was retryable |
| `BrokerBoot.Broker.CloseCancelled` | src/api/storage_runtime.rs:291-300 | an engine opened under a published signal is closed again, and a close that fails is the startup error |
| `BrokerBoot.Broker.AbortStartup` | src/api/broker.rs:527-554 | stops and joins exactly what was spawned and keeps the startup error before any cleanup error |
| `BrokerBoot.Broker.ShutdownIncompleteStartup` | src/api/broker.rs:556-576 | stops and joins both standby listeners and reports their cleanup |
| `BrokerBoot.Broker.DrainGrace` | src/api/broker.rs:718-741 | the wait ends early only on an urgent published signal, otherwise lasts the whole grace, and wakes at most twice |
| `BrokerBoot.Broker.SessionCloseReason` | src/api/broker.rs:704-751 | the answer is at least as urgent as the incoming signal and comes with the reason that belongs to it |
| `BrokerBoot.Broker.StopAndJoinListeners` | src/api/broker.rs:667-686 | every live listener gets one stop signal and is then joined, and nothing else changes |
| `BrokerBoot.Broker.ShutdownContext` | src/api/broker.rs:659-702 | every live listener is stopped and joined once, domains are detached, the store gets its one shutdown and is shut exactly if that succeeded, and the errors are combined |
| `BrokerBoot.Broker.ShutdownBroker` | src/api/broker.rs:617-644 | nothing is left running, the store is shut exactly if its shutdown succeeded, and the result follows the first fatal signal requested so far and the cleanup |
| `BrokerBoot.Broker.FailStartedBroker` | src/api/broker.rs:646-657 | a failed start stops everything, gives the store its one shutdown and keeps its error in front |
| `BrokerBoot.Broker.Wait` | src/api/broker_shutdown.rs:205-216 | a published signal, or the closed-channel error exactly when no sender is left; the boot sequence shows that case impossible for itself |
| `BrokerBoot.Broker.WaitForRetry` | src/api/storage_runtime.rs:363-379 | the pause between storage attempts ends with a signal, with the closed-channel error exactly when no sender is left, or with the next attempt |
| `BrokerBoot.Broker.StartTcp` | src/api/broker.rs:408-447 | the TCP listener is live behind attached domains or not configured, or the whole broker was torn down with the error in front |
| `BrokerBoot.Broker.CompleteStartup` | src/api/broker.rs:392-462 | TCP starts only behind attached domains, the failing return of the wait is unreachable, and every return has stopped everything and shut down the store once |
| `BrokerBoot.Broker.BootWithStore` | src/api/broker.rs:342-372 | the same from the open store on: a signal seen now ends the boot before anything is monitored |
| `BrokerBoot.Broker.BootInitialized` | src/api/broker.rs:270-372 | over all stage outcomes and signal arrivals, every return has stopped and joined each spawned listener and attempted the store's shutdown exactly once if and only if it was opened; the store is shut exactly if that attempt succeeded, and is an error otherwise; a fatal signal requested at any time makes the result an error, which begins with the startup error or else with the first fatal signal; without either the result is the cleanup's |
| `BufferBudget.Semaphore.TryAcquire` | src/api/buffer_budget.rs:27-44 | takes all the permits asked for or none |
| `BufferBudget.BufferBudget.constructor` | src/api/buffer_budget.rs:20-25 | a session starts with its own full budget beside the shared one |
| `BufferBudget.BufferBudget.Wrap` | src/api/buffer_budget.rs:27-44 | uncontended admission succeeds exactly when the length fits 32 bits, the session and the shared budget; a refusal restores both counters |
| `BufferBudget.BudgetedFrame.Drop` | src/api/buffer_budget.rs:56-60 | dropping a frame returns its bytes to both budgets |
| `BufferBudget.StepConservesSession` | src/api/buffer_budget.rs:27-60 | every step keeps: a session's free permits plus its wraps in progress plus its live frames equal its capacity |
| `BufferBudget.StepConservesShared` | src/api/buffer_budget.rs:27-60 | every step keeps: shared free permits plus all live frames equal the shared capacity |
| `BufferBudget.StepKeepsCounts` | src/api/buffer_budget.rs:56-68 | a frame's owner count is the number of handles on it, under clones, slices and drops |
| `BufferBudget.RunConserves` | src/api/buffer_budget.rs:20-60 | all of this holds after any interleaving of any sessions' two-step wraps, clones, slices and drops |
| `BufferBudget.NoLeakNoOverrun` | src/api/buffer_budget.rs:20-60 | live frames never exceed either capacity, and once nothing is live or in progress every permit is back |
| `BufferBudget.DroppedFrameIsReleased` | src/api/buffer_budget.rs:56-60 | a frame without handles is on its way to giving both permits back, and nothing can stop it |
| `BufferBudget.RefusalRestoresEverything` | src/api/buffer_budget.rs:30-39 | a wrap the shared budget refuses leaves the whole state as it was |
| `BufferBudget.SessionAdmission` | src/api/buffer_budget.rs:29-33 | in every reachable state the first acquisition succeeds exactly when the length fits beside the session's live frames and wraps in progress |
| `BufferBudget.SharedAdmission` | src/api/buffer_budget.rs:34-38 | the second one succeeds exactly when it fits beside the live frames of all sessions, and is refused otherwise |
| `BufferBudget.WronglyRefusedLengths` | src/api/buffer_budget.rs:27-44 | the lengths that live frames alone would admit and wraps in progress keep out are exactly one interval |
| `BufferBudget.ExactAdmission` | src/api/buffer_budget.rs:27-44 | admission is what live frames allow, for every length, exactly when the session has no bytes in progress or its free permits are not the tightest limit |
| `BufferBudget.ContentionCanRefuseWhatWouldFit` | src/api/buffer_budget.rs:30-39 | a run in which a wrap bound to be refused by the shared pool keeps another of its session out that would fit |
| `Latencies.BinIsBound` | benches/stress_support/histogram.rs:13-22 | a sample falls into a bin up to some index exactly when it is at most that bin's bound, the 64th included |
| `Latencies.BoundApproximates` | benches/stress_support/histogram.rs:13-39 | a bin's bound is at least the sample and less than twice it, or 1 for a sample of 0 |
| `Latencies.SortedRank` | benches/stress_support/histogram.rs:24-39 | the nearest-rank definition is the k-th element of the sorted samples |
| `Latencies.FirstReachingBin` | benches/stress_support/histogram.rs:31-37 | the cumulative count reaches a rank exactly from the bin of the sample with that rank on |
| `Latencies.Histogram.constructor` | benches/stress_support/histogram.rs:5-10 | an empty histogram |
| `Latencies.Histogram.Record` | benches/stress_support/histogram.rs:13-22 | bins, count and maximum stay those of the recorded samples, saturating |
| `Latencies.Histogram.PercentileUpperNs` | benches/stress_support/histogram.rs:24-39 | the answer is the bound of the bin of the sample at the target rank; the maximum is returned only for a target beyond the count |
| `Latencies.PercentileApproximates` | benches/stress_support/histogram.rs:24-39 | for any samples and percent 1 to 100 the answer is at least the exact percentile and less than twice it, as long as the product does not saturate |
| `Latencies.ApproximationNeedsTheRank` | benches/stress_support/histogram.rs:25-28 | that holds for all sample lists of a size exactly when the saturated target is the true rank |
| `Latencies.SaturationLosesTheRank` | benches/stress_support/histogram.rs:25-28 | a size and percent for which it fails |
| `Latencies.PercentileIsMonotone` | benches/stress_support/histogram.rs:24-39 | a higher percent never gives a smaller answer |
| `Latencies.PercentileIgnoresOrder` | benches/stress_support/histogram.rs:13-39 | the answer does not depend on the order of recording |
| `Snapshot.CheckRoute` | src/snapshot.rs:314-321 | a resource route passes exactly when it is concrete, selected and not seen before |
| `Snapshot.KeysAreDistinct` | src/snapshot.rs:322-327 | the key set test finds exactly the repeated keys |
| `Snapshot.AnyTooLarge` | src/snapshot.rs:362-372 | the size test, with its saturating additions, finds exactly the events that could not be replayed |
| `Snapshot.ValidateKv` | src/snapshot.rs:314-334 | the loop accepts exactly the lists whose routes, keys and overflow-free count are in order, and an error names a rule that is broken |
| `Snapshot.ValidateStream` | src/snapshot.rs:347-379 | the same for streams, with watermarks and event sizes |
| `Snapshot.Validate` | src/snapshot.rs:290-388 | accepts exactly the declaratively valid artifacts, and an error names a rule that is broken |
| `Snapshot.FromPayload` | src/snapshot.rs:278-288 | builds exactly from valid encodable payloads, and never fails on its own checksum |
| `Snapshot.FromKvResources` | src/snapshot.rs:124-164 | succeeds exactly on lists meeting the predicate; count and checksum mismatches cannot come out of it |
| `Snapshot.StreamCountAgrees` | src/snapshot.rs:178-206 | the fold counts the true sum, and its errors are real defects of the list |
| `Snapshot.FromStreamResources` | src/snapshot.rs:166-216 | the same as for KV resources |
| `Snapshot.ToBytes` | src/snapshot.rs:259-268 | a valid artifact fails to encode only if the codec cannot encode it |
| `Snapshot.FromBytes` | src/snapshot.rs:270-276 | only valid artifacts come out of bytes |
| `Snapshot.EncodedRoundTrips` | src/snapshot.rs:259-276 | decoding an encoded artifact gives it back |
| `RpcWire.BytesToNumberAndBack` | benches/tier4_rpc_support.rs:36-48 | big-endian bytes determine a number that writes back as the same bytes |
| `RpcWire.ReadNumber` | benches/tier4_rpc_support.rs:36-48 | reads exactly the next bytes, or nothing and leaves the offset alone, at any offset |
| `RpcWire.ReadLenPrefixed` | benches/tier4_rpc_support.rs:50-57 | reads a field exactly when the announced bytes are there |
| `RpcWire.ReadUuid` | benches/tier4_rpc_support.rs:59-65 | reads exactly sixteen bytes or nothing |
| `RpcWire.ParseRequest` | benches/tier4_rpc_support.rs:76-94 | never indexes past the end and agrees with the reference decoder |
| `RpcWire.ParseResponse` | benches/tier4_rpc_support.rs:188-205 | the same for responses |
| `RpcWire.RequestRoundTrips` | benches/tier4_rpc_support.rs:76-94 | the fields an encoder wrote are recovered |
| `RpcWire.RequestLanguage` | benches/tier4_rpc_support.rs:76-94 | exactly the encodings are accepted, to the last byte, and each has one reading |
| `RpcWire.ResponseRoundTrips` | benches/tier4_rpc_support.rs:188-205 | the fields an encoder wrote are recovered |
| `RpcWire.ResponseLanguage` | benches/tier4_rpc_support.rs:188-205 | exactly the encodings are accepted, and each has one reading |
| `RpcWire.FrameRoundTrips` | src/protocol/wire2/header.rs:253-304 | a framed message decodes to its type and value |
| `RpcWire.FrameLanguage` | src/protocol/wire2/header.rs:205-304 | exactly the encoded messages are accepted as frames, and each has one type and value |
| `RpcWire.ParseResponseFrame` | benches/tier4_rpc_support.rs:207-215 | a frame is a response exactly when it is a whole message of type 303 with a well-formed payload |
| `PipelinedDrain.ExpectedResponseBodies` | benches/tier4_rpc_support.rs:649-660 | the map has one entry per request exactly when the correlation ids are distinct |
| `PipelinedDrain.ValidatePipelinedResponse` | benches/tier4_rpc_support.rs:662-676 | a response is taken off the list only if it was expected, with its own body, sequence 0 and end flag |
| `PipelinedDrain.LeftMeans` | benches/tier4_rpc_support.rs:662-676 | what is still expected after some frames is what was sent minus what was answered, each once and properly |
| `PipelinedDrain.DrainPipelinedResponses` | benches/tier4_rpc_support.rs:587-616 | Ok exactly when ids are distinct and some prefix of at most four frames per request answers each request exactly once and properly; no more frames than that are read |
| `PipelinedDrain.CollectTimedResponse` | benches/tier4_rpc_support.rs:798-815 | pending plus collected stays constant, and the collected latency is that of the answered request |
| `PipelinedDrain.DrainTimedResponses` | benches/tier4_rpc_support.rs:760-777 | Ok exactly when a prefix answers everything once; the latencies are one per request in order of arrival, so the count check cannot fail |
| `ScheduleList.LessIsTransitive` | benches/stress_support/schedule.rs:101-106 | route order is transitive, so comparing neighbours orders the whole list |
| `ScheduleList.ScanEntries` | benches/stress_support/schedule.rs:84-122 | a page passes exactly when it has at most eight entries and the listing so far stays increasing with the route absent or as wanted |
| `ScheduleList.CheckDefinition` | benches/stress_support/schedule.rs:61-138 | Ok exactly when within nine replies the list ends, increases strictly across all pages and has the route once as expected (or not at all); the bounded-scan error comes exactly from nine good continuing replies |
| `ScheduleList.ContinuationStart` | src/domains/schedule/actor/claim_and_ack.rs:177-190 | the server's continuation resumes right after the definition it names |
| `ScheduleList.BoundedPageLen` | src/domains/schedule/actor/claim_and_ack.rs:125-162 | the page length is the number of entries that fit the response, and an error exactly when the first fits none |
| `ScheduleList.FitIsLongest` | src/domains/schedule/actor/claim_and_ack.rs:125-162 | that is the longest run from the front whose cost stays within the limit |
| `ScheduleList.ServedWalk` | src/domains/schedule/actor/claim_and_ack.rs:168-217 | against a server paging a sorted list, request k starts where page k does and nothing is skipped or repeated, whatever length its size limit gives each page |
| `ScheduleList.ServedListIsDecided` | benches/stress_support/schedule.rs:61-138 | such a list is accepted exactly when nine pages reach its end and it says of the route what is wanted, and given up exactly when nine pages were sent and did not |
| `ScheduleList.FullPagesDecide72` | benches/stress_support/schedule.rs:61-138 | with full pages of eight the list is decided within nine pages exactly when it has at most 72 definitions, and then correctly |
| `ScheduleList.EveryPageAdvances` | src/domains/schedule/actor/claim_and_ack.rs:125-161 | every page brings at least one definition as long as each fits a response |
| `StressCounters.AttemptsAreConserved` | benches/stress_support/runner.rs:135-167 | attempts equal completions plus rejected, contended, missed and failed steps |
| `StressCounters.OneSamplePerCompletion` | benches/stress_support/runner.rs:143-152 | the histogram holds one sample per completion |
| `StressCounters.LaneCompletionsAddUp` | benches/stress_support/runner.rs:143-152 | lane completions sum to completions |
| `StressCounters.LaneRejectionsAddUp` | benches/stress_support/runner.rs:169-174 | lane rejections sum to all rejections |
| `StressCounters.CodeRejectionsAddUp` | benches/stress_support/runner.rs:169-174 | per-code rejections sum to all rejections |
| `StressCounters.SaturatedSum` | benches/stress_support/runner.rs:169-174 | saturating every addend keeps the saturated sum exactly when the total fits or one addend holds it all |
| `StressCounters.CountersAreTotals` | benches/stress_support/runner.rs:120-174 | every counter is the exact total of the event log, cut off at the 64-bit ceiling |
| `StressCounters.AttemptsMatch` | benches/stress_support/runner.rs:135-167 | the same conservation on the reported counters, exactly when attempts fit or all ended the same reported way |
| `StressCounters.LanesMatchTotal` | benches/stress_support/runner.rs:143-152 | reported lane completions sum to the reported total exactly when nothing saturated or one lane did all the work |
| `StressCounters.RejectionsMatch` | benches/stress_support/runner.rs:169-174 | reported lane rejections, and reported per-code rejections, sum to all rejections exactly when none of those counters saturated |
| `StressCounters.NoFailureMeansNone` | benches/stress_support/runner.rs:120-133 | the remembered failure is absent exactly when no event of the log failed |
| `StressCounters.Phase.constructor` | benches/stress_support/runner.rs:487-497 | a fresh phase record counts nothing |
| `StressCounters.Phase.Classify` | benches/stress_support/runner.rs:135-167 | one step changes the counters by exactly one event of the log |
| `StressCounters.Phase.ApplyBatch` | benches/stress_support/runner.rs:370-388 | a batch counts every lane's step, moves the clock and the completed lanes' times, and answers its first failure |
| `StressCounters.Phase.Verify` | benches/stress_support/runner.rs:246-267 | a round counts every result; the answer is its first failure |
| `StressCounters.RoundVerdict` | benches/stress_support/runner.rs:250-258 | a round passes exactly when every lane made at least one check |
| `StressCounters.StallIsSeen` | benches/stress_support/runner.rs:358-368 | the remaining time is positive exactly when the gap is below the limit or the limit exceeds 64 bits of nanoseconds |
| `StressCounters.Phase.CheckLaneProgress` | benches/stress_support/runner.rs:390-406 | fails, and records a timeout, exactly when some lane has no time left |
| `StressCounters.Shortfall` | benches/stress_support/capacity_boundary.rs:13-26 | falls short exactly unless every lane has ten cycles and the active time is 30 s or the budget |
| `StressCounters.Phase.QualifyCapacityBoundary` | benches/stress_support/runner.rs:417-426 | marks the boundary exactly when it is earned and records a failure otherwise |
| `StressPhase.RunTurn` | benches/stress_support/runner.rs:440-461 | one turn goes on, ends on time, ends at a boundary or stops exactly under the stated conditions, and a stop is explained |
| `StressPhase.RunLoop` | benches/stress_support/runner.rs:428-464 | the loop ends well exactly when some turn does after turns that all went on |
| `StressPhase.ProgressMeans` | benches/stress_support/runner.rs:362-406 | for any limit the progress check passes exactly when every lane completed within it or the limit exceeds 64 bits of nanoseconds |
| `StressPhase.ProgressIsExact` | benches/stress_support/runner.rs:362-406 | with active time or limit within 64 bits it passes exactly when every lane completed within the limit |
| `StressPhase.ConfiguredPhaseFits` | benches/stress_support/runner.rs:80-96 | a phase of at most 86400 s has an active time within 64 bits, whatever its last batch takes short of centuries |
| `StressPhase.StalledLanePasses` | benches/stress_support/runner.rs:108-118 | beyond 64 bits on both counts, which no configured run reaches, a stalled lane passes: thirty thousand million idle seconds under a limit of 18446744074 seconds |
| `StressPhase.FinishPhaseVerification` | benches/stress_support/runner.rs:466-477 | passes exactly when every lane completed a cycle and the final round verified every lane |
| `StressPhase.RunPhase` | benches/stress_support/runner.rs:479-534 | Ok exactly when the loop ended well, every lane worked and was verified, and both saves succeeded; a passed phase has no failure, a failed one has one, and the termination label is the right one |
| `StressPhase.PassedPhase` | benches/stress_support/runner.rs:428-464 | a passed phase whose active time or limit fits 64 bits has no failure, worked and verified every lane, kept every lane's gap below the limit at each batch end and ran the whole duration, or stopped at capacity with ten cycles per lane and 30 s or the whole budget |
| `StressRun.RunPhases` | benches/stress_support/runner.rs:585-644 | runs probe, load stages and probe through the phases above, stopping at the first that does not succeed; the run succeeds exactly when every phase of the plan passes, and unless a load stage stopped at its capacity it was then active under load for at least the configured duration |
| `StressRun.PlanSplitsDuration` | benches/stress_support/runner.rs:608-620 | the stage budgets sum exactly to the duration and differ by less than the number of stages in nanoseconds, and no stage needs more drivers than are prepared |
| `StressRun.WholeDurationIsSpent` | benches/stress_support/runner.rs:608-644 | a run in which no stage stopped at its capacity was active under load for at least the configured duration |
| `StressCleanup.FirstFailureSurvives` | benches/stress_support/runner.rs:654-666 | the first failure's kind and words survive any number of appended ones; only no failure at all is Ok |
| `StressCleanup.EveryFailureIsTold` | benches/stress_support/runner.rs:654-666 | the final text contains every failure's detail |
| `StressCleanup.StorageDirectory.constructor` | benches/stress_support/fixture.rs:50-61 | a local profile owns a directory, a memory profile none |
| `StressCleanup.StorageDirectory.Release` | benches/stress_support/fixture.rs:67-78 | deletes the directory, and may only be called once the server is known to be down |
| `StressCleanup.StorageDirectory.Drop` | benches/stress_support/fixture.rs:81-88 | a directory that was not released is kept |
| `StressCleanup.Artifacts.SaveCleanupProgress` | benches/stress_support/runner.rs:668-674 | a failed save is added to the result, and the evidence remembers the result |
| `StressCleanup.Artifacts.RecordCleanupFailure` | benches/stress_support/runner.rs:676-695 | the failure is listed and added to the result |
| `StressCleanup.CloseServerAndDirectory` | benches/stress_support/runner.rs:697-726 | files go only behind a confirmed shutdown, stay otherwise, and at most one failure is listed, with its stage |
| `StressCleanup.CloseDrivers` | benches/stress_support/runner.rs:739-746 | every failed driver close is listed in index order and added to the result |
| `StressCleanup.CloseFixture` | benches/stress_support/runner.rs:728-755 | Ok exactly when workload, closes, shutdown, removal and all saves went well; every driver failure is listed in order |
| `StressCleanup.Finalize` | benches/stress_support/runner.rs:757-772 | Ok exactly when the result is and the last save succeeded; an error text starts with the result's |
| `StressCleanup.Run` | benches/stress_support/runner.rs:774-814 | over a whole run the directory is deleted only after a confirmed shutdown, and the answer is Ok exactly when every stage, close and save was |
| `CatalogFixture.KeysDiffer` | benches/cloud_catalog/fixture.rs:18-25 | different slots have different keys |
| `CatalogFixture.ValuesDiffer` | benches/cloud_catalog/fixture.rs:27-29 | different sequence numbers have different values |
| `CatalogFixture.ClosedFormIsLatest` | benches/cloud_catalog/fixture.rs:31-34 | the closed form picks the last write to the slot |
| `CatalogFixture.ReplayGivesExpected` | benches/cloud_catalog/fixture.rs:27-34 | replaying a log of any length leaves each written slot holding exactly the closed form, without underflow |
| `CatalogFixture.OtherKeysAreKept` | benches/cloud_catalog/fixture.rs:78-98 | the log touches no other key |
| `CatalogFixture.FixtureIsReadBack` | benches/cloud_catalog/fixture.rs:55-98 | after replay over the seeded store there are the seed, the 32 slots as expected, and nothing else |
| `CatalogFixture.Publish` | benches/cloud_catalog/fixture.rs:44-98 | the loop builds that log as a chain of consecutive, linked segments and adds up their sizes |

## Left out

- Domain actors, router, subscription index, sessions and storage engine: only what the modelled parts call is represented, by its outcome.
- Splitting route text into scheme and segments, and the textual rules for registration patterns: patterns and paths start as segment lists; `Snapshot.dfy` takes the route grammar as a parameter.
- The 128-bit masks of the coverage search: sets of positions stand for them, with the 128-segment limit kept.
- Back-off times, the retry loops inside a store's shutdown and log messages: each attempt to open or shut the store is an input outcome.
- The order in which two listeners are joined and the text of each listener's own error: joins happen at one await, errors are inputs.
- Real sockets, timers and the Tokio scheduler: replaced by step relations, request arrivals at awaits and an abstract clock.
- JSON text and SHA-256: a codec with a stated round trip and an arbitrary digest.
- Zero-length slices of a budgeted frame, whose buffer library drops the owner early: every slice counts as a handle.
- PipelinedDrain.DrainPipelinedResponses: the WebSocket form, which repeats the TCP one line by line, is not modelled separately.
- ScheduleList.CheckDefinition: replies start as decoded fields with the way decoding ended; the byte layout of a list reply is not modelled.
- ScheduleList.ServedWalk: assumes non-empty routes, as registration enforces, and a list that does not change between pages; what an entry costs in bytes is a parameter.
- StressPhase.RunLoop: an execution is a finite list of turns, so a loop that never reaches its duration is "still running"; wall time, memory samples and report rows are not modelled.
- StressCleanup.CloseFixture: driver closes are given as their results in index order; that they run concurrently is not modelled.
- Authentication, background tasks, the UI, environment parsing, report serialisation and the remaining benchmark tiers: short decisions over foreign libraries or plumbing, on which nothing proved here depends.
