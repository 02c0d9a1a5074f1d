# Verified model of klaw's runtime core

This project models the parts of klaw that carry state, loops or inverse pairs, and proves what they
keep over every input, every environment and every run. `dafny verify dfyconfig.toml` checks all of it.

| files | part of klaw | main results |
|---|---|---|
| `Turn`, `TurnHistory`, `TurnTheorems`, `TurnLoosening` | the tool-calling turn engine | the state is a fold of the trace of provider requests and tool executions; shape of the conversation; endings; exact token budget; caps; which turns end; two runs under different limits |
| `Delivery`, `DeliveryTheorems`, `DeliveryProtocol`, `DeliveryBounds`, `DeliveryOutcomes`, `Reliability`, `RunState` | reliable delivery, retry policy, circuit breaker, run states | at most one publish; no acknowledged message is lost, and exactly which ones `run_once` loses; every event of every run is the one a small protocol automaton makes due; truthful outcomes and progress; retry bounds; breaker history and interleaving; language of completed runs |
| `Planning`, `Channels`, `ChannelsTheorems`, `ChannelStatuses`, `ChannelManager`, `Acp` | lifecycle reconciliation of channels and ACP agents | one driver per key; convergence; safety and coherence of the status map under interleaving, and what it shows after each operation |
| `Utf8`, `OutputBuffer` | bounded terminal output | the incremental buffer is the longest fitting tail of its whole history |
| `Base64Url`, `CardTokens` | card callback tokens with URL-safe base64 | print and parse are inverse |
| `Archive` | content-addressed archive | index and files agree; downloads return what was ingested |
| `ConfigMerge` | configuration migration | merging is a fixpoint and loses nothing |
| `Text`, `Wrappers` | trimming, options, results, integer widths | |

## How the outside world is modelled

- Unknown code is a parameter. The model provider and the tools are deterministic oracles over the
  trace of everything that happened before in the turn; brokers, publishes, acknowledgements, the
  breaker's answer and the inner turn are oracles over the delivery log; thread scheduling, failing
  builds, failing spawns and joins of channel drivers are oracles over the manager's clock. Quantifying
  over all oracles quantifies over all behaviours of that code, including failures at any point.
- The turn engine is a step function (one iteration) with `Run` for any number of iterations. The
  method `RunAgentExecution` takes a ghost bound that witnesses that this turn ends, because a turn
  that never ends returns nothing to specify; `TerminationIsDecidedByLimits` says which turns end.
- Every acquisition of the shared status lock by the channel manager is one atomic step, and driver
  threads may run any steps before it.
- Integer widths are explicit where they matter. The release profile does not enable overflow checks,
  so `tool_calls_used += 1`, the breaker's deadline and its counter wrap; iterations and tokens
  saturate; durations are nanoseconds with the library's maximum.
- Every induction is written out. The theorems switch automatic induction off, since the rank order it
  relies on is not well-founded for datatypes that hold arbitrary functions, as the environments here do.
- Calls on one idempotency store do not overlap, and neither do ingests into one archive: the pairs
  `seen`/`mark_seen` and lookup/insert are not atomic in klaw.

## Where a promise has an exact condition

- Loosening limits can change a turn in one case only: its last request carried the final-iteration
  prompt and the iteration limit changed (`LooseningPreservesTurn`, both directions;
  `LooseningCanChangeATurn` is such a turn).
- A call limit of 2^32-1 caps nothing, because the counter wraps before it is exceeded
  (`TerminationIsDecidedByLimits`, `LargestCallLimitIsNoCap`). A token budget of 2^64-1 never fails a
  turn (`ExactBudget`).
- `delay_for` follows its documented formula for every attempt exactly when the cap is reached before
  the 32-bit power saturates (`BackoffIsExponential`).
- The breaker is open for the whole interval exactly when the 64-bit deadline does not wrap
  (`DeadlineIsTrueUnlessItWraps`). The documented half-open state does not exist in the code.
- `run_once`, unlike `run_once_reliable`, acknowledges messages it never answered: exactly those that are
  invalid or whose turn produced no response (`PlainCallLosesUnansweredMessages`; `PlainCallLosesAMessage`
  is one). It marks them as seen, so they stay lost: a later redelivery to `run_once_reliable` is
  acknowledged as a duplicate (`DiscardedMessagesStayLost`).
- The ACP hub is keyed by the raw id and cleaned by the trimmed one, so a start keeps it in step exactly
  when the id carries no surrounding white space (`Acp.StartInStep`). Agents and tools converge for all ids.
- Rows have the sizes of their files exactly when ingests with one hash had contents of one length
  (`SizesAgreeIff`). The archive agrees with its files when a source file changes between fingerprinting
  and copying exactly if the hash stays the same (`ChangedSourceBreaksAgreement`); every failed cleanup of
  a failed insert leaves exactly one file too many (`IndexAndFilesAgree`).

## Model

| member | source | states |
|---|---|---|
| Turn.ApplyToolCallsLoop | klaw-agent/src/lib.rs:605-664 | the loop over the calls of one reply has exactly the effect of the specification function, including counting, audits, signals, tool messages and early exits |
| Turn.HandleReply | klaw-agent/src/lib.rs:491-588 | accounting, budget test, final answer or tool calls, and the short-circuit output after a successful reply |
| Turn.RunIteration | klaw-agent/src/lib.rs:402-588 | one iteration: the request with or without the final-iteration prompt, the provider failure, and what follows the reply |
| Turn.RunAgentExecution | klaw-agent/src/lib.rs:354-598 | every turn that ends returns the outcome, and makes the requests and executions, of the specified run |
| TurnHistory.ApplyLawful | klaw-agent/src/lib.rs:617-663 | calls are executed in the order the provider asked for them and nothing else enters the trace |
| TurnHistory.ApplySyncs | klaw-agent/src/lib.rs:617-663 | after applying calls every accumulator is the fold of the trace, and each way of ending says what was executed |
| TurnHistory.ApplyAnswers | klaw-agent/src/lib.rs:617-663 | when all calls were executed the log grew by exactly one answer per call, in order, with the call's id |
| TurnHistory.AccountKeeps | klaw-agent/src/lib.rs:492-521 | usages and audits recorded are those of the trace, and the saturating budget test is exact |
| TurnHistory.TurnIsGood | klaw-agent/src/lib.rs:401-598 | every state any turn reaches keeps the invariant or ended as its outcome says |
| TurnTheorems.ConversationLog | klaw-agent/src/lib.rs:408-431 | every request is the initial messages plus complete blocks; the prompt appears in the last permitted request only, exactly when due, and never enters the log; the reply is the provider's answer to that request |
| TurnTheorems.RequestsCarryResults | klaw-agent/src/lib.rs:537-657 | every later request carries, in order, each reply with tool calls and then for each call the rendered result and the media of its own execution under its id |
| TurnTheorems.ExecutionOrder | klaw-agent/src/lib.rs:617-630 | each executed call is the next unexecuted call of the reply before it, with the result the tool gave there |
| TurnTheorems.SignalsDecideTheEnding | klaw-agent/src/lib.rs:522-587 | only the last result can carry an ending signal, it alone decides the disposition, and the signals are those of the audited results in order |
| TurnTheorems.StoppedText | klaw-agent/src/lib.rs:670-691 | the stop notice is empty exactly when a question card is attached or the first stop signal comes from `ask_question` |
| TurnTheorems.EndingText | klaw-agent/src/lib.rs:522-587 | which text a turn ends with, for each disposition |
| TurnTheorems.HistoryKeepsOrder | klaw-agent/src/lib.rs:371-384 | filtering the history keeps its order: it distributes over any split of the history |
| TurnTheorems.HistoryIsFiltered | klaw-agent/src/lib.rs:371-384 | exactly the history messages with supported roles are kept, without media |
| TurnTheorems.ExactBudget | klaw-agent/src/lib.rs:492-514 | a normal ending spent at most the budget; a budget failure names the first reply that went over, none of whose calls ran |
| TurnTheorems.ExecutionCaps | klaw-agent/src/lib.rs:401-407 | requests and executions never exceed their limits, and exhaustion means one limit is used up exactly |
| TurnTermination.TurnEnds | klaw-agent/src/lib.rs:401-598 | an explicit bound on the iterations of every bounded turn |
| TurnTermination.TerminationIsDecidedByLimits | klaw-agent/src/lib.rs:401-598 | all turns end if and only if iterations or calls are bounded; all usage-reporting ones if and only if some limit is |
| TurnTermination.LargestCallLimitIsNoCap | klaw-agent/src/lib.rs:617-625 | with a call limit of 2^32-1 some turn executes any number of calls |
| TurnLoosening.ApplyLoosened | klaw-agent/src/lib.rs:617-625 | a looser call limit changes nothing about calls that were within the tighter one |
| TurnLoosening.WarnedRequestIsUnique | klaw-agent/src/lib.rs:408-429 | a request with the final-iteration prompt is never made under another iteration limit |
| TurnLoosening.LooseningPreservesTurn | klaw-agent/src/lib.rs:401-588 | under looser limits a normal turn is the same turn, if and only if its last request did not carry the prompt or the iteration limit is unchanged |
| TurnLoosening.LooseningCanChangeATurn | klaw-agent/src/lib.rs:408-429 | one turn whose answer changes when its iteration limit of 3 is lifted |
| Retry.DelayNeverShrinks | klaw-core/src/reliability.rs:105-109 | delays grow with the attempt and never exceed the cap |
| Retry.BackoffIsExponential | klaw-core/src/reliability.rs:103-109 | the documented formula holds for all attempts if and only if the cap is reached in time |
| CircuitBreaker.InMemoryCircuitBreaker.constructor | klaw-core/src/reliability.rs:151-157 | a new breaker is closed |
| CircuitBreaker.InMemoryCircuitBreaker.AllowRequest | klaw-core/src/reliability.rs:169-173 | allowed exactly from the deadline on |
| CircuitBreaker.InMemoryCircuitBreaker.OnSuccess | klaw-core/src/reliability.rs:175-178 | a success closes the circuit and forgets failures |
| CircuitBreaker.InMemoryCircuitBreaker.OnFailure | klaw-core/src/reliability.rs:180-187 | a failure is counted, or trips the circuit and resets the count |
| CircuitBreaker.CounterRefinesHistory | klaw-core/src/reliability.rs:175-187 | the counter is the number of failures since the last success modulo the period, below max(threshold, 1) |
| CircuitBreaker.DeniedIffOpen | klaw-core/src/reliability.rs:169-187 | denied if and only if the latest trip has no later success and its deadline is ahead |
| CircuitBreaker.DeadlineIsTrueUnlessItWraps | klaw-core/src/reliability.rs:182-184 | open for the whole interval if and only if the sum does not wrap |
| CircuitBreaker.InterleavedCounterBound | klaw-core/src/reliability.rs:175-187 | under any interleaving of atomic accesses the counter exceeds threshold - 1 by at most the tripping calls not yet reset |
| RunState.CompletedLanguage | klaw-core/src/agent_loop.rs:713-730 | completed if and only if no error, the five steps as a subsequence, and validation not failed first |
| RunState.FailedLanguage | klaw-core/src/agent_loop.rs:713-730 | without an error event a run fails if and only if validation rejects the message, and never degrades |
| RunState.ErrorsAreForever | klaw-core/src/agent_loop.rs:725-727 | after an error the state is the one named by the last error event |
| Delivery.Attempt | klaw-core/src/agent_loop.rs:1436-1520 | only attempts below the limit are repeated |
| Delivery.Runtime.Decide | klaw-core/src/agent_loop.rs:1525-1634 | the effect and verdict of each retry decision |
| Delivery.Runtime.TryOnce | klaw-core/src/agent_loop.rs:1436-1520 | one pass of the loop has the specified effects in the specified order |
| Delivery.Runtime.RunReliably | klaw-core/src/agent_loop.rs:1396-1522 | the whole reliable call, with its retry loop, has the specified effect |
| Delivery.Runtime.RunPlainly | klaw-core/src/agent_loop.rs:1347-1393 | the plain call has the specified effect |
| DeliveryTheorems.KeyIsInjective | klaw-core/src/reliability.rs:136-138 | messages with different ids or sessions have different keys |
| DeliveryTheorems.AtMostOnePublish | klaw-core/src/agent_loop.rs:1347-1522 | over any mix of calls, redeliveries and failures a message is published at most once |
| DeliveryTheorems.DuplicatesAreGenuine | klaw-core/src/agent_loop.rs:1416-1433 | over any mix of calls a message is suppressed if and only if that very message was marked, that is answered or discarded and never both; over reliable calls if and only if it was answered |
| DeliveryTheorems.AckedMessagesAreSettled | klaw-core/src/agent_loop.rs:1347-1633 | over any mix of calls, when a delivery is acknowledged its message was answered, buried whole, invalid, or discarded by a plain call |
| DeliveryTheorems.DiscardsComeFromPlainCalls | klaw-core/src/agent_loop.rs:1377-1393 | a discarded message was consumed by a plain call whose processing gave no response |
| DeliveryTheorems.NoAckedMessageIsLost | klaw-core/src/agent_loop.rs:1415-1633 | over reliable calls, when a delivery is acknowledged its message was answered, buried whole, or invalid |
| DeliveryTheorems.FailedDeadLetterStaysUnacked | klaw-core/src/agent_loop.rs:1605-1621 | a delivery whose dead letter failed is never acknowledged |
| DeliveryOutcomes.OutcomesAreTruthful | klaw-core/src/agent_loop.rs:1396-1633 | after any calls, the outcome of a finished reliable call says what became of its message, and there are only four kinds |
| DeliveryOutcomes.PlainOutcomesAreTruthful | klaw-core/src/agent_loop.rs:1347-1393 | after any calls, the outcome of a finished plain call: a duplicate if answered or discarded before, and otherwise told by the message and the end of its turn |
| DeliveryOutcomes.ReliableCallErrsIff | klaw-core/src/agent_loop.rs:1396-1633 | a reliable call comes to an end, and errs if and only if nothing was consumed or its last acknowledgement or dead letter failed |
| DeliveryOutcomes.ReliableCallAnswers | klaw-core/src/agent_loop.rs:1436-1480 | with a permitted turn that answers and a successful publish a reliable call finishes with that answer, unless its acknowledgement fails |
| DeliveryBounds.ReliableCallIsBounded | klaw-core/src/agent_loop.rs:1435-1521 | bounds on passes and waiting, and the exact number of attempts in a dead letter |
| DeliveryProtocol.CallsFollowProtocol | klaw-core/src/agent_loop.rs:1347-1634 | a call does exactly what the protocol automaton says, event by event, and stops exactly where the protocol is over |
| DeliveryProtocol.RunsFollowProtocol | klaw-core/src/agent_loop.rs:1347-1634 | every event of any run of calls is a delivery or the event that is due in its call |
| DeliveryProtocol.DeniedPassesPublishNothing | klaw-core/src/agent_loop.rs:1437-1455 | over any run, a reply directly follows the breaker's permission, or the delivery in a plain call |
| DeliveryProtocol.SetbacksBackOff | klaw-core/src/agent_loop.rs:1437-1569 | over any run, a denied pass, a failed publish and an unavailable provider are followed by exactly the delay of that attempt and the next pass, and by the dead letter when attempts are used up |
| DeliveryTheorems.PlainCallLosesUnansweredMessages | klaw-core/src/agent_loop.rs:1377-1393 | after any calls, a plain call that finishes with a new message has acknowledged it, and answered it if and only if it is valid and its turn gave a response; otherwise it discarded it |
| DeliveryTheorems.PlainCallLosesAMessage | klaw-core/src/agent_loop.rs:1377-1393 | one valid message that a plain call loses |
| DeliveryTheorems.DiscardedMessagesStayLost | klaw-core/src/agent_loop.rs:1416-1433 | a discarded message is never answered by any later calls, and every redelivery to a reliable call is acknowledged as a duplicate |
| Planning.PlanUpdates | klaw-channel/src/manager.rs:784-818 | the loops that fill the plan compute the specified plan |
| Planning.PlanMeaning | klaw-channel/src/manager.rs:784-818 | the plan partitions current and desired keys into kept, started, restarted and stopped, without repetition |
| Planning.StablePlan | klaw-acp/src/manager.rs:882-909 | a plan over matching configs stops and restarts nothing |
| Channels.StartChannel | klaw-channel/src/manager.rs:505-647 | starting needs a key that is not held, touches no other handle, and holds the new config if and only if neither building nor spawning fails |
| Channels.StartAllStarts | klaw-channel/src/manager.rs:436-438 | of several starts in a row exactly those hold their key that the environment did not refuse |
| Channels.PlanIsStartable | klaw-channel/src/manager.rs:420-440 | after the stops of a sync every key to start is free, so no held handle is overwritten |
| Planning.EnabledByKeyMeaning | klaw-channel/src/manager.rs:788-793 | a config is desired under a key if and only if it is enabled, has that key, and no later enabled config of the snapshot has it; `klaw-acp/src/manager.rs:886-891` collects the same map |
| Channels.FindConfig | klaw-channel/src/manager.rs:468-475 | finds a config of the snapshot with this key, or there is none |
| ChannelManager.ChannelManager.Start | klaw-channel/src/manager.rs:505-647 | the status writes, failures and the new handle of a start |
| ChannelManager.ChannelManager.AwaitStop | klaw-channel/src/manager.rs:705-733 | a stop is joined only when the thread ended, and records how it went |
| ChannelManager.ChannelManager.ReconcileStatuses | klaw-channel/src/manager.rs:656-690 | the status map is cut down to the snapshot and corrected entry by entry |
| ChannelManager.ChannelManager.SyncTo | klaw-channel/src/manager.rs:420-453 | stops, restarts, starts and reconciliation in order |
| ChannelManager.ChannelManager.RestartOne | klaw-channel/src/manager.rs:463-493 | restarts an enabled channel, and refuses a missing or disabled one without any change |
| ChannelManager.ChannelManager.ShutdownAll | klaw-channel/src/manager.rs:455-461 | all channels are told and awaited concurrently |
| ChannelsTheorems.OneDriverPerKey | klaw-channel/src/manager.rs:420-654 | over any run at most one driver per key is not told to stop, and it is the held one |
| ChannelsTheorems.SyncConverges | klaw-channel/src/manager.rs:420-453 | after a sync exactly the enabled configs run, minus those whose build or spawn failed at their turn, and a second sync stops and restarts nothing and starts exactly those |
| ChannelsTheorems.SyncRunsEverything | klaw-channel/src/manager.rs:420-453 | when no build or spawn fails exactly the enabled configs run |
| ChannelsTheorems.RestartReplaces | klaw-channel/src/manager.rs:463-493 | a restart holds a new driver with the configured settings, or none if its start failed, and changes no other handle |
| ChannelsTheorems.SyncStatusKeys | klaw-channel/src/manager.rs:656-690 | right after a sync the status map lists exactly the snapshot |
| ChannelsTheorems.SyncedStatus | klaw-channel/src/manager.rs:656-690 | every status shows its config, and a disabled instance is stopped without error |
| ChannelsTheorems.StatusMapSafety | klaw-channel/src/manager.rs:286-733 | between syncs the status map holds only snapshot keys and keys of drivers whose join did not succeed |
| ChannelsTheorems.StatusesAreCoherent | klaw-channel/src/manager.rs:250-316 | in every interleaving state, error and reconnect fields of a status agree |
| ChannelStatuses.KeyIsInjective | klaw-channel/src/manager.rs:52-56 | instances share a key if and only if kind and trimmed id agree |
| ChannelStatuses.RefusedStartsShowTheirError | klaw-channel/src/manager.rs:524-538 | whatever the threads do, a refused start leaves the channel failed with the error that refused it |
| ChannelStatuses.StartsShow | klaw-channel/src/manager.rs:505-647 | with silent threads a start writes its own key only: failed with its build or spawn error, or running with its event |
| ChannelStatuses.StopsShow | klaw-channel/src/manager.rs:705-733 | whatever the threads do, a stopped channel shows stopped if and only if its thread was joined, and the timeout otherwise |
| ChannelStatuses.SyncShowsItsStarts | klaw-channel/src/manager.rs:420-453 | after a sync with silent threads each started key is running, or failed with the error that refused it |
| ChannelStatuses.SyncKeepsStatuses | klaw-channel/src/manager.rs:656-690 | with silent threads a kept channel keeps its status, but for its labels |
| ChannelStatuses.RestartNeedsEnabled | klaw-channel/src/manager.rs:463-493 | a restart goes ahead if and only if the first config with the key is enabled |
| ChannelStatuses.RestartShows | klaw-channel/src/manager.rs:463-493 | with silent threads a restarted channel shows how its start went |
| ChannelStatuses.ShutdownShows | klaw-channel/src/manager.rs:455-461 | after a complete shutdown with silent threads each held channel is stopped if and only if its thread was joined |
| ChannelStatuses.LastWordIsShown | klaw-channel/src/manager.rs:286-316 | however threads interleave, the last event of a live thread for a channel decides its status |
| Acp.AcpManager.Start | klaw-acp/src/manager.rs:370-440 | a runnable agent is registered as tool, hub entry and held agent; a blank command starts nothing |
| Acp.AcpManager.Stop | klaw-acp/src/manager.rs:442-447 | a held agent is removed from all three registries |
| Acp.AcpManager.SyncTo | klaw-acp/src/manager.rs:212-237 | stops, restarts and starts by plan |
| Acp.StartInStep | klaw-acp/src/manager.rs:398-428 | a start keeps the tools in step, and the hub if and only if the id is trimmed or nothing is started |
| Acp.SyncConverges | klaw-acp/src/manager.rs:212-237 | after any run and a sync exactly the enabled agents with a command and their tools are held, the hub agrees if no enabled id had surrounding white space, and a second sync changes nothing |
| Acp.ShutdownEmpties | klaw-acp/src/manager.rs:262-267 | after any run a shutdown removes every agent and tool and nothing else, and every hub entry if no enabled id had surrounding white space |
| OutputBuffer.TerminalOutputBuffer.Append | klaw-acp/src/client.rs:218-239 | the trimming loop computes the specified buffer |
| OutputBuffer.NextBoundaryIsFirst | klaw-acp/src/manager.rs:846-850 | the trim index is the first character boundary at or after the excess |
| OutputBuffer.BufferIsLongestTail | klaw-acp/src/client.rs:218-239 | after any appends: the longest fitting tail on a boundary, valid UTF-8, truncated if and only if something did not fit, at most three bytes wasted |
| OutputBuffer.UnlimitedKeepsEverything | klaw-acp/src/client.rs:220-222 | without a limit the whole history is kept |
| Utf8.DecodeEncode | klaw-channel/src/im_card.rs:236-237 | decoding undoes encoding |
| Utf8.EncodeDecode | klaw-channel/src/im_card.rs:236-237 | only the encoding of the result decodes to it |
| Utf8.EncodeCharIsUtf8 | klaw-channel/src/im_card.rs:105-109 | the encoding of a character is the one of the table in section 3 of RFC 3629 |
| Base64Url.Decode64Encode64 | klaw-channel/src/im_card.rs:105-109 | decoding undoes encoding for every number of bytes |
| Base64Url.Encode64Decode64 | klaw-channel/src/im_card.rs:236 | only canonical encodings decode |
| Base64Url.AlphabetIsUrlSafe | klaw-channel/src/im_card.rs:105-109 | the alphabet is the one of section 5 of RFC 4648 |
| Base64Url.Encode64IsPositional | klaw-channel/src/im_card.rs:105-109 | each group of three bytes and its four digits are the same 24-bit number |
| Base64Url.Encode64Length | klaw-channel/src/im_card.rs:105-109 | no padding: the length for every number of bytes |
| CardTokens.TokenRoundTrip | klaw-channel/src/im_card.rs:95-133 | a printed token parses back to the same kind and runtime command for the three separators, and to nothing for any other |
| CardTokens.TokensMeanTheirCommands | klaw-channel/src/im_card.rs:117-133 | an approve token becomes `/approve`, a reject token `/reject`, each with its id, and a command token exactly its command |
| CardTokens.ActionsMeanTheirText | klaw-channel/src/im_card.rs:82-133 | what each kind of action prints and does; a token is printed if and only if there is a runtime command |
| CardTokens.ApprovalsParseInAnyCase | klaw-channel/src/im_card.rs:211-236 | approvals are read in any case, with any white space around |
| CardTokens.ParsePrintParse | klaw-channel/src/im_card.rs:211-256 | printing what a token parses to and parsing again gives exactly the same action |
| CardTokens.ParsedIsNormal | klaw-channel/src/im_card.rs:211-256 | a parse returns a trimmed approval or a trimmed command and nothing else |
| CardTokens.PrefixTestOnBytes | klaw-channel/src/im_card.rs:222-230 | the byte-wise, case-insensitive prefix test agrees with the test on characters |
| Archive.FingerprintPath | klaw-archive/src/fs_store.rs:22-52 | fingerprinting in chunks of any sizes equals fingerprinting the whole content |
| Archive.ArchiveService.FindExisting | klaw-archive/src/service.rs:84-102 | the lookup loop finds the specified row |
| Archive.ArchiveService.Store | klaw-archive/src/service.rs:165-282 | deduplication, write, insert and cleanup have the specified effect and result |
| Archive.ArchiveService.IngestBytes | klaw-archive/src/service.rs:243-282 | ingesting a buffer has the specified effect |
| Archive.ArchiveService.IngestPath | klaw-archive/src/service.rs:202-241 | ingesting a file read in chunks has the same effect as ingesting its content |
| Archive.LookupIsOldest | klaw-archive/src/service.rs:88-100 | deduplication reuses an oldest row with the hash |
| Archive.IndexAndFilesAgree | klaw-archive/src/service.rs:165-282 | for any hash, each row's file exists with its hash, rows share a file if and only if they share a hash, and files are distinct hashes plus failed cleanups |
| Archive.SizesAgreeIff | klaw-archive/src/service.rs:165-282 | every row has its file's size if and only if ingests with one hash had contents of one length, as under a collision-free hash |
| Archive.IngestOutcome | klaw-archive/src/service.rs:165-282 | which failure an ingest returns, exactly, and that a failed one inserts nothing |
| Archive.RowsPointToTheirWriter | klaw-archive/src/service.rs:165-282 | every row points to the file, the bytes and the media type that the first ingest of its content left behind |
| Archive.DownloadReturnsIngestedBytes | klaw-archive/src/service.rs:354-365 | a download returns the ingested bytes whatever was ingested since |
| Archive.DownloadsNeverMiss | klaw-archive/src/service.rs:354-365 | a download fails if and only if no row has the id, and then with not-found |
| Archive.ChangedSourceBreaksAgreement | klaw-archive/src/service.rs:202-241 | a source that changed between the reads keeps agreement if and only if its hash did not change, and the right size if and only if its length did not |
| ConfigMerge.MergeInPlace | klaw-config/src/io.rs:326-341 | the in-place merge computes the specified value |
| ConfigMerge.MergedLookup | klaw-config/src/io.rs:326-341 | what is found at every path of a merge, completely |
| ConfigMerge.MergeIsFixpoint | klaw-config/src/io.rs:326-341 | merging again, either way, changes nothing |
| ConfigMerge.UserValuesSurvive | klaw-config/src/io.rs:326-341 | every non-table value of the user's file survives at its path |
| ConfigMerge.DefaultsSurvive | klaw-config/src/io.rs:326-341 | every default neither defined nor cut off survives |
| ConfigMerge.MigrationIsIdempotent | klaw-config/src/io.rs:272-312 | migrating a migrated file succeeds and writes the same file |
| ConfigMerge.MigrationKeepsItsPromise | klaw-config/src/io.rs:272-312 | migration writes exactly the value described path by path without merging if that is valid, and fails if it is not; without a file it is the defaults |
| ConfigMerge.MigrationLosesNothing | klaw-config/src/io.rs:272-312 | in a migrated file every user value is at its path and every default neither defined nor cut off keeps its value |
| Text.TrimIsTrimmed | klaw-channel/src/im_card.rs:82-93 | trimming leaves no white space at the ends and does not touch trimmed text |
| Text.TrimSplits | klaw-channel/src/im_card.rs:82-93 | trimming removes white space only, and only at the ends |

## Left out

- The wording of the final-iteration prompt after its first sentence: only its fixed beginning and its place matter.
- Streaming snapshots, chat options, tool definitions and audit timestamps of a turn: they do not feed back into the loop.
- The JSON envelope of a tool message: a parameter, since only its position and id matter to the conversation.
- Telemetry, response metadata and card building around `process_message_inner`: output plumbing; only the shape of each outcome is kept.
- Expiry of idempotency keys: the in-memory store ignores the time to live.
- Crashes between a publish and marking its message, and overlapping calls on one key: the original gives no guarantee there.
- Overload of the in-memory queue and the session scheduler: branch tables.
- Wall-clock fields of channel statuses, and the lists a sync returns to its caller.
- ACP statuses, process handling, timeouts and the ACP protocol: foreign processes, or the channel results again without threads.
- Temporary files of a failed archive write, SQL queries other than the lookup by hash and by id, and media sniffing.
- Parsing, rendering and validating configuration files: taken as inverse functions and a predicate.
- SHA-256: any function; where content must be recovered it is taken to be free of collisions.
- Approvals, cron schedules, the gateway, the user interfaces and configuration structs: easy members or library behaviour.
- Channels.StartChannel: its contract speaks of handles only; its status writes are covered by ChannelManager.ChannelManager.Start and the status theorems.
