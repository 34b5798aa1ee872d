# AI gateway for Coripo: a verified model

The gateway stands between a language model, a tenant's CRM and its users. This project models the
parts of it whose correctness spans many steps, and proves what they promise over every run:

- **Calling CRM tools.** Per tenant a circuit breaker, a semaphore and one retry for reads
  (`Resilience`, `CrmProvider`), and the single-flight manifest cache with TTL, revalidation, stale
  fallback and snapshot (`ManifestCache`). The code between two awaits is one atomic step, and any
  number of calls, gets, cancellations and invalidations interleave (`CrmRuns`, `CrmTrials`,
  `ManifestRuns`, `ManifestAnswers`, `ManifestLimit`, `ManifestCoherence`). `CrmSimulation` shows that a
  call's way through such a run is exactly what the code of the call does when others act during its
  awaits.
- **Streaming answers.** The chunk-fed classifier (`AnswerStream`), the one whole-text function it
  computes, and exactly the texts for which the cut into chunks does not matter (`ChunkIndependence`);
  and when the streamed text is the answer the agent loop reads (`ReplyParsing`).
- **Preview, confirm, edit.** Envelopes, observations, normalisation and edits (`Envelopes`,
  `AgentResults`, `PendingPatch`), the tools of a turn (`ToolSets`), whole chats with an arbitrary
  model, CRM and client (`Conversation`), and what becomes of a confirmation token (`TokenBinding`).
- **The agent loop** with a model and tools that may do anything (`AgentLoop`, `AgentBounds`,
  `AgentAnswers`).
- **The search index** against the CRM list it is ingested from (`RagIngest`, `RagAgreement`,
  `RagFailures`, `RagLimits`, `RagResume`, `RagOutcomes`), and de-duplication of its results
  (`Deduplication`).
- **Replay protection**: stores that drop expired entries, and single-use stream tokens
  (`NonceStore`, `StreamToken`).

Where the source changes state, a class has the source's fields and methods, and each method is
proved equal to a function on values; the theorems are about those functions. For each main operation
there is also a law that does not mention them: what the answers in the log make of the breaker
(`BreakerCountsAnswers`), what each answer makes of the cache (`SnapshotCarriesOver` and the lemmas
beside it), what a turn puts on the wire (`ConfirmRuns`, `EditPreviews`, `AgentTurn`), what the agent
returns (`EveryEnding`), what an ingest stores (`FullIngest`, `LimitedIngest`, `IncrementalIngest`),
what an edit changes (`EditIs`), and which tokens are accepted (`AcceptedIff`). Several promises turn
out to hold under a condition only. Those are stated as equivalences, or with a lemma that shows the
failing case for every input of its kind:

- The streamed text depends on the cut into chunks exactly when a think tag stands inside the answer
  (`ChunkIndependentIffSteady`). It agrees with the answer the loop reads exactly when at most three
  whitespace characters follow the closing answer tag (`StreamAgreesWithRead`).
- A second half-open trial can start beside the one in flight exactly when some other call is in
  flight (`SecondTrialIff`): one admitted before the breaker opened, or an earlier trial.
- A confirmed write can reach the CRM twice: a turn aborted between the tool call and the commit
  leaves the old proposal pending (`AbortRepeats`). Otherwise it does so at most once
  (`NoAbortNoRepeat`, `WritesAtMostOnce`).
- An incremental ingest leaves the same index as a full one exactly when each record that has to be
  written passes the watermark and stands before the end of the first page that is short or reaches
  an older record, in whatever order the CRM lists them (`IncrementalCompleteIff`). The ingest sends no
  order. For a list that is newest first the second half falls away (`IncrementalAgreesIff`); in
  another order new records are missed (`UnsortedMisses`).
- A limited incremental ingest of a newest-first list is complete exactly when all that has to be
  written passes the watermark and fits the limit (`LimitedNewestFirstIff`); for any order the
  condition is `LimitedIncrementalIff`. Failures while hashes are loaded do not change when an
  unlimited one is complete (`IncrementalDespiteFailures`).
- An ingest cut short, by its limit or by a failure, is finished by an incremental run exactly when
  every record left over passes the watermark and stands before that run's stop (`ResumeIff`). For a
  first ingest of a newest-first list that means: nothing left over is older than the newest record
  (`FirstRunCut`).
- A stale manifest is served for longer than `stale_max_seconds` exactly after a failure at an age within
  the limit by less than one back-off (`LateAfterFailure`, `LateIff`, `LateRun`); so the documented limit
  holds exactly when there is no back-off (`LimitHoldsIff`).
- The agent loop ends with a non-empty output unless, and only unless, a round it reaches raises: the
  decoding of a call fails on more than its syntax, a call or its arguments are no object, a status
  cannot be looked up, or the trace log, when it is on, fails on a call, a result or the output
  (`LoopIsBounded`). A list of arguments is enough (`ListArgumentsRaise`).
- A properly signed stream token can be accepted again exactly when it lives on past the memory of its
  nonce (`SecondUseIff`); the ones the gateway mints never do (`SingleUse`).
- The same edit applied twice changes nothing the second time, except for a description that ends in
  whitespace once its final dots are dropped (`EditTwice`).

Where code and comments disagree the model follows the code. The comment on the breaker promises one
trial call; the code lets stragglers clear the trial flag. The cache is described as serving a stale copy
for up to `stale_max_seconds` and as never fetching on every turn; the code serves it for up to
`retry_seconds` longer while it backs off, and does fetch on every turn once no entry is left
(`FetchesIff`).

`dafny verify dfyconfig.toml` checks the whole project.

## Model

| member | source | states |
|---|---|---|
| `AnswerStream.AnswerStreamState.Feed` | app/engine/answer_stream.py:23-31 | one chunk moves the object exactly as the transducer on values, in each of its three states, and returns what that shows |
| `AnswerStream.AnswerStreamState.Classify` | app/engine/answer_stream.py:33-63 | the shrinking loop drops every closed think block; the verdict, the state and the text shown are the transducer's |
| `AnswerStream.AnswerStreamState.StripThink` | app/engine/answer_stream.py:34-43 | every closed think block is dropped, and an open one stops the classification |
| `AnswerStream.AnswerStreamState.Emit` | app/engine/answer_stream.py:65-72 | the last 12 characters stay back, everything before them is returned; nothing is lost or reordered |
| `AnswerStream.AnswerStreamState.Flush` | app/engine/answer_stream.py:74-89 | the drained tail without its closing answer tag and trailing whitespace; the new state in every case |
| `AnswerStream.Emitted` | app/engine/answer_stream.py:65-72 | shown and kept text together are the old tail and the chunk, and the kept part is the longest allowed |
| `ChunkIndependence.ClassifyByLead` | app/engine/answer_stream.py:33-63 | the verdict on a buffer is the verdict on the text behind its leading whitespace and closed think blocks; for each kind of that text it is a tool call, the answer's body, or undecided |
| `ChunkIndependence.SteadyShowsMeaning` | app/engine/answer_stream.py:23-89 | for every split into chunks, the feed outputs and the flush together are one function of the whole text |
| `ChunkIndependence.ChunkIndependentIffSteady` | app/engine/answer_stream.py:23-89 | all splits of a text show the same if and only if no think tag stands inside its answer |
| `ChunkIndependence.SomeCutShowsThink` | app/engine/answer_stream.py:33-72 | every text with a think tag inside its answer has a split that shows the tag to the user |
| `ChunkIndependence.OnePieceShowsNoThink` | app/engine/answer_stream.py:33-89 | a text that arrives in one piece never shows a think tag |
| `ChunkIndependence.NothingShownUnlessAnswer` | app/engine/answer_stream.py:23-89 | a stream that ends as a tool call or undecided has shown nothing, whatever its chunks, and its flush adds nothing |
| `ReplyParsing.ReadsBody` | app/engine/agent.py:487-582 | from a reply as prompted (think blocks, tagged answer, whitespace) the loop extracts exactly the stripped body |
| `ReplyParsing.ReadsCall` | app/engine/agent.py:487-502 | from a tool call as prompted (think blocks, tagged JSON, whitespace) the loop takes exactly the stripped JSON |
| `ReplyParsing.ReadsPlain` | app/engine/agent.py:487-583 | a reply without tags is the answer as it stands, stripped; think blocks and whitespace alone are an empty reply |
| `ReplyParsing.ReplyMeaning` | app/engine/answer_stream.py:33-89 | such a reply shows the same for every split: its body and closing tag with the end trimmed |
| `ReplyParsing.StreamAgreesWithRead` | app/engine/agent.py:466-487 | for such a reply, cut anyhow, the streamed text equals the loop's answer up to outer whitespace if and only if at most three whitespace characters follow the tag |
| `Resilience.CircuitBreaker.BeforeCall` | app/tools/resilience.py:43-48 | refuses while open and during a trial, and a half-open admission sets the trial flag; nothing else changes |
| `Resilience.CircuitBreaker.RecordSuccess` | app/tools/resilience.py:50-53 | closes, forgets the failures and the trial |
| `Resilience.CircuitBreaker.RecordFailure` | app/tools/resilience.py:55-59 | counts, ends the trial, and opens or re-opens at this moment once the threshold is reached |
| `Resilience.CircuitBreaker.ReleaseTrial` | app/tools/resilience.py:61-63 | clears the trial flag and nothing else |
| `Resilience.BreakerIsItsHistory` | app/tools/resilience.py:43-63 | after any calls in any order the breaker is open exactly when the failures since the last success reach the threshold, since the last of them |
| `Resilience.TenantGuards.Get` | app/tools/resilience.py:79-87 | one guard per tenant, created once with the configured limits; no operation on one tenant touches another's guard |
| `Resilience.TenantGuards.State` | app/tools/resilience.py:89-93 | the phase and failure count of a tenant's breaker, closed and zero for an unknown tenant |
| `CrmProvider.CrmToolProvider.HttpError` | app/tools/crm_provider.py:136-150 | a code from 500 on is one more failure in a row, which opens the breaker at the threshold; any other closes it and forgets the failures; only 404 has the manifest fetched again |
| `CrmProvider.CrmToolProvider.Conclude` | app/tools/crm_provider.py:105-130 | what each kind of last answer does to the breaker: one more failure for a 5xx, a timeout or a transport failure, none left after any response of a CRM that is up, the count untouched by any other error; and the permit goes back |
| `CrmProvider.CrmToolProvider.Cancel` | app/tools/crm_provider.py:122-124 | cancellation releases the trial and, if one is held, the permit |
| `CrmProvider.CrmToolProvider.Round` | app/tools/crm_provider.py:99-121 | one attempt, with the pause before a repetition, is the call's next awaits; it is repeated only with an attempt left |
| `CrmProvider.CrmToolProvider.Transport` | app/tools/crm_provider.py:97-121 | the retry loop is the course of the call over its awaits; transport calls and refetch are as that course says |
| `CrmProvider.CrmToolProvider.Call` | app/tools/crm_provider.py:72-134 | refused without a trace while the breaker does not admit; else exactly the course of the call, with its result and number of transport calls; and a call that ends with an answer leaves the gate as that answer judges the one it found, whatever others did meanwhile |
| `CrmProvider.AnswerJudges` | app/tools/crm_provider.py:105-150 | in the course of any call the answer it ends with reaches the breaker as it stands then: one failure more, none, or unchanged, by the kind of answer, and one permit more |
| `CrmProvider.AnswerIsTold` | app/tools/crm_provider.py:105-159 | what the caller is told of each answer; that the change may have been made is said exactly for a write that got no answer in time, and such a write went out exactly once |
| `CrmProvider.SendsBounded` | app/tools/crm_provider.py:85-122 | whatever happens during a call it makes at most the transport calls its kind allows, at least one if an answer reached the caller, none if it was not admitted |
| `CrmProvider.SentIff` | app/tools/crm_provider.py:89-122 | a call goes out, a write then exactly once, if and only if it is admitted and what ends its wait for the semaphore is a permit |
| `CrmSimulation.MeanwhileIsNext` | app/tools/crm_provider.py:84-132 | a step of any other call changes the shared breaker and permits only by their own operations |
| `CrmSimulation.RunIsPlay` | app/tools/crm_provider.py:84-132 | in every interleaving, the way of a call in flight is what its code does on the awaits of that run |
| `CrmSimulation.SendsArePlayed` | app/tools/crm_provider.py:89-122 | the transport calls any run records for a call admitted in it are those of its code on that run's awaits |
| `CrmRuns.BreakerEqualsHistory` | app/tools/resilience.py:36-63 | in every run of interleaved calls the breaker is open exactly when the failure verdicts since the last success reach the threshold, since the last of them |
| `CrmRuns.BreakerCountsAnswers` | app/tools/crm_provider.py:104-150 | in every run the failures counted are the calls that ended in a row with a 5xx, a timeout or a transport failure, since the last response of a CRM that was up (cancelled calls and other errors do not count); the breaker is open exactly when they reach the threshold, since the last of them |
| `CrmRuns.AnswerIsRecorded` | app/tools/crm_provider.py:99-122 | in every run the first answer to a read is tried again exactly when it is a 502, 503, 504, a timeout of asyncio or a transport failure other than a read timeout, and the gate is untouched; any other answer ends its call |
| `CrmRuns.StaysClosed` | app/tools/crm_provider.py:96-150 | a run in which no call ends in a transport failure or a 5xx never opens the breaker and turns no call away |
| `CrmRuns.ConcurrencyBounded` | app/tools/crm_provider.py:98 | permits are conserved, so never more than the limit are in transport |
| `CrmRuns.OneVerdictBoundedAttempts` | app/tools/crm_provider.py:72-150 | every call hands in at most one verdict and none before it ends; writes are sent once, reads at most twice, the second time only after an answer that may be retried |
| `CrmTrials.TrialNeverLeaks` | app/tools/resilience.py:43-63 | in every run the trial flag is set exactly while a half-open admission stands and the call that set it is in flight |
| `CrmTrials.ArrivalIsJudged` | app/tools/resilience.py:35-48 | in every run an arriving call is turned away exactly when the calls failed in a row reach the threshold and either the cool-down since the last of them is not over or a trial stands; the others are admitted, as a trial exactly when the threshold was reached |
| `CrmTrials.TrialIsExclusive` | app/tools/resilience.py:43-48 | between a half-open admission and the next verdict or release by any call, nobody is admitted |
| `CrmTrials.OneTrialUntilClosed` | app/tools/crm_provider.py:89-130 | from an open breaker with nobody in flight, at most one call is in flight until one succeeds |
| `CrmTrials.SecondTrialNeedsStraggler` | app/tools/crm_provider.py:89-130 | a second half-open admission beside a trial in flight always follows a verdict or release of a third call |
| `CrmTrials.SecondTrialIff` | app/tools/resilience.py:43-63 | with a trial in flight, some continuation admits a second one beside it if and only if some other call is in flight |
| `CrmTrials.TwoTrialsAtOnce` | app/tools/crm_provider.py:89-130 | a run from the start in which that happens: a call admitted before the breaker opened fails during the first trial |
| `ManifestCache.Cache.Invalidate` | app/tools/manifest_cache.py:67-72 | the entry stays as a fallback and is no longer usable; other tenants are untouched |
| `ManifestCache.Cache.Peek` | app/tools/manifest_cache.py:87-90 | the entry's manifest exactly when it is usable |
| `ManifestCache.Cache.Enter` | app/tools/manifest_cache.py:91-106 | looked up again under the lock; else the fetch asks with the entry's hash, if it has one, and the lock stays held |
| `ManifestCache.Cache.Refresh` | app/tools/manifest_cache.py:103-131 | entry, result and lock after every kind of reply; a reply without a manifest asks the snapshot store when nothing is cached and there is one, and else serves the entry flagged while it is young enough; other tenants are untouched |
| `ManifestCache.Cache.Store` | app/tools/manifest_cache.py:119-131 | a parsed manifest replaces the entry and is saved exactly when its hash is new |
| `ManifestCache.Cache.FallBack` | app/tools/manifest_cache.py:133-158 | after a failure: to the snapshot store without an entry, else the entry, flagged, if it is young enough, else nothing |
| `ManifestCache.Cache.Keep` | app/tools/manifest_cache.py:146-158 | served flagged and backing off when young enough, dropped otherwise |
| `ManifestCache.Cache.AfterSave` | app/tools/manifest_cache.py:126-131 | a save changes no entry, failed or not |
| `ManifestCache.Cache.AfterLoad` | app/tools/manifest_cache.py:135-158 | a loaded snapshot is kept or refused by its own age; one that fails to parse counts as none, or raises |
| `ManifestRuns.StalenessBounded` | app/tools/manifest_cache.py:87-158 | in every run, what is served unflagged was refreshed less than the TTL ago or by this very get, and what is flagged is younger than the limit plus one back-off |
| `ManifestRuns.FlagIsLastError` | app/tools/manifest_cache.py:107-153 | in every run an entry is flagged stale exactly when its last error is set, and carries the tools of its raw manifest |
| `ManifestRuns.FetchesAreSpaced` | app/tools/manifest_cache.py:98-153 | without an invalidation between, no fetch starts within the TTL of a success or within the back-off of a failure that left an entry |
| `ManifestRuns.OneFetchInFlight` | app/tools/manifest_cache.py:91-96 | at most one fetch of a tenant is in flight |
| `ManifestRuns.BurstIsServed` | app/tools/manifest_cache.py:87-96 | while the entry left by a fetch stays usable, any number of gets behind it is served from it and none fetches |
| `ManifestRuns.FetchesIff` | app/tools/manifest_cache.py:87-106 | in every run with the lock free, a get fetches if and only if the last thing that happened to the entry is neither a success within the TTL nor a failure within the back-off; so with no entry left, and after an invalidation, every get does |
| `ManifestAnswers.AsksWithTheHash` | app/tools/manifest_cache.py:103-106 | in every run a fetch asks with the hash of the entry, if there is one and it has one |
| `ManifestAnswers.SnapshotCarriesOver` | app/tools/manifest_cache.py:116-153 | in every run, with nothing cached and a snapshot store, a fetch that fails, is empty or does not parse leaves the get waiting for the store; whatever happens meanwhile, a stored row that parses and is young enough is what the get is given, flagged stale, and becomes the entry |
| `ManifestAnswers.StoredRowIsServed` | app/tools/manifest_cache.py:135-158 | in every run the get waiting for the store is given nothing exactly when the load fails, there is no row, or it is refused or too old; else exactly the row, flagged, or the exception of the parser |
| `ManifestAnswers.FailureKeepsTheEntry` | app/tools/manifest_cache.py:116-158 | in every run, with an entry, an answer without a manifest serves it, flagged and backing off, exactly when its age is within the limit; else nothing is served and no entry is left |
| `ManifestAnswers.NotModifiedRenews` | app/tools/manifest_cache.py:107-112 | in every run a 304 renews the entry, unflagged, for another TTL and serves it |
| `ManifestAnswers.ManifestIsTaken` | app/tools/manifest_cache.py:113-131 | in every run a manifest that parses becomes the entry for one TTL and is served; it is saved first exactly when there is a store and its hash is not the one cached |
| `ManifestAnswers.SaveIsServed` | app/tools/manifest_cache.py:126-131 | in every run a save, however it ends, serves what was fetched, unflagged, and touches no entry |
| `ManifestLimit.LateAfterFailure` | app/tools/manifest_cache.py:98-153 | in every run a flagged manifest is served past the limit only within one back-off of a failure at which its age was at most the limit and above the limit less that back-off |
| `ManifestLimit.LateIff` | app/tools/manifest_cache.py:146-158 | an entry kept after a failure is served past the limit at some later moment if and only if its age and one back-off together exceed the limit |
| `ManifestLimit.LateRun` | app/tools/manifest_cache.py:87-158 | for each such age there is a run that serves the entry past the limit after a failure at that age |
| `ManifestLimit.LimitHoldsIff` | app/tools/manifest_cache.py:87-158 | the limit on staleness holds in all runs if and only if there is no back-off |
| `ManifestCoherence.EntryIsLastPublished` | app/tools/manifest_cache.py:103-131 | against a CRM that answers 304 exactly on its current hash, the entry is what was published at the last successful refresh, 200 or 304; with no refresh in progress and the last save good, the snapshot holds the same; a save that fails or is cancelled may have stored its row or not |
| `Envelopes.NormalizeIdempotent` | app/domain/contracts.py:84-113 | normalising twice is normalising once, so reading, storing and reading again changes nothing |
| `Envelopes.NormalizeKeeps` | app/domain/contracts.py:84-113 | an envelope cannot be normalised exactly when its module or action is blank; else module and action are trimmed, the first module given counts, and data, notes, doubts and consent are kept as they are |
| `Envelopes.KeptCall` | app/domain/contracts.py:76-113 | the tool call, with arguments and token, passes normalisation whole, or not at all when it names no tool |
| `AgentResults.NormalizeForUi` | app/presentation/agent_result.py:143-212 | the newest proposal or failed action among the steps decides status and pending action; else the newest result that is the answer gives its status |
| `AgentResults.ExtractPending` | app/presentation/agent_result.py:269-297 | the result's own pending action, else the newest proposal's among its steps |
| `AgentResults.NewestSettles` | app/presentation/agent_result.py:143-297 | the newest step that proposes or fails gives the status; a proposal is read back as it stands there, and after a failed CRM action something is pending exactly if a step before it proposed with an envelope |
| `AgentResults.NothingSettles` | app/presentation/agent_result.py:143-297 | without such a step nothing is pending, and the newest step that is the answer gives its status, if it has one |
| `AgentResults.ExtractedComesFrom` | app/presentation/agent_result.py:143-297 | whatever is read back later came from the result or one of its steps, or is empty |
| `AgentResults.ProposalSurvives` | app/presentation/agent_result.py:167-201 | a proposal that ends the turn is read back exactly as proposed, its tool call unchanged |
| `PendingPatch.PatchFields` | app/engine/pending_patch.py:189-231 | field by field with the changed flag: which fields move, to what, with which notes, and when the derived end is dropped |
| `PendingPatch.TryPatch` | app/engine/pending_patch.py:169-261 | an edit exactly when the action is editable, the text an edit, and something changes |
| `PendingPatch.EditIs` | app/engine/pending_patch.py:69-243 | an edit is made exactly when the action is editable and what the text asks for differs: a time clamped to 23:59, or 13, 14 or 8 o'clock for a part of the day, on the day already planned; at most 12 hours or 59 minutes; the dictated text without final dots; nothing else changes, each change is noted, and the end goes with the times |
| `PendingPatch.EditHasNoToken` | app/engine/pending_patch.py:189-243 | an edited envelope carries no tool call and no token, keeps all the text does not name, and loses its end when start or length moves |
| `PendingPatch.EditTwice` | app/engine/pending_patch.py:195-228 | the same text again changes nothing, if and only if its description without final dots is trimmed |
| `ToolSets.BuildSet` | app/tools/toolset.py:104-157 | the CRM tools offered and those dropped for a name conflict |
| `ToolSets.NativesAreSafe` | app/tools/toolset.py:133-142 | no manifest can put a CRM tool in the place of one of the gateway's own, or offer one of a disabled capability |
| `ToolSets.OfferedIff` | app/tools/toolset.py:133-146 | under a name that is not taken the last tool of the manifest that has it and an enabled capability is offered, and nothing else |
| `ToolSets.PendingSpecIff` | app/tools/toolset.py:240-245 | the tool a proposal names is the one offered under the name, else the first of the manifest that has it |
| `ToolSets.NothingAfterAStop` | app/engine/agent.py:556-569 | the tool calls of a turn end with the first proposal, and only with one before all are made |
| `Conversation.Session.LoadLatest` | app/services/chat_service.py:443-469 | the pending action of the newest assistant message only |
| `Conversation.Session.Decided` | app/engine/pipeline.py:452-547 | confirmation, edit or agent, and what each does on the wire and stores; EditPreviews, ConfirmRuns and AgentTurn tell each branch record by record |
| `Conversation.Session.ProcessInput` | app/engine/pipeline.py:386-583 | one whole turn, stored or aborted before its commit |
| `Conversation.Session.NoteRecordCreated` | app/api/endpoints.py:936-957 | the notice becomes the newest assistant message and leaves nothing pending |
| `Conversation.OutcomeExtends` | app/tools/toolset.py:197-238 | all calls of a turn come from one branch, and each is lawful for it |
| `Conversation.NoWriteWithoutToken` | app/tools/toolset.py:197-228 | in every chat, whatever model, CRM and client do: the model's calls are reads or previews without a token, a write is executed only from the confirm branch with a token, and no call is sent more often than its kind allows |
| `TokenBinding.OutcomeMinted` | app/tools/observation.py:61-89 | what a turn stores carries a token only if the CRM issued it in that very turn, next to the arguments it was issued for |
| `TokenBinding.TokensStayBound` | app/engine/pipeline.py:386-569 | in every chat, each envelope the log can give back has exactly the arguments its token was issued for, and each execution ran exactly those |
| `TokenBinding.WritesAtMostOnce` | app/engine/pipeline.py:452-569 | a token reaches the CRM as a write at most once, plus once for every aborted turn that had run it |
| `TokenBinding.NoAbortNoRepeat` | app/engine/pipeline.py:452-569 | at most once when no turn is aborted |
| `TokenBinding.AbortRepeats` | app/engine/pipeline.py:456-583 | in every chat with an executable proposal, an aborted confirmation and the same confirmation again send the write as often as its two calls go out |
| `TokenBinding.ConfirmRuns` | app/tools/toolset.py:221-228 | a confirmation makes exactly one call: an execution under the token of the pending proposal with exactly its arguments |
| `TokenBinding.EditPreviews` | app/tools/toolset.py:230-238 | an edit of a pending tool call makes exactly one call: a preview without a token whose data is the edited data and whose other arguments are those pending |
| `TokenBinding.EditThenConfirm` | app/tools/toolset.py:221-238 | edit, then confirm: the confirmation executes the edited data, unless the CRM named other arguments, under the token issued for exactly that, and what was pending between shows it |
| `TokenBinding.EditWithoutTool` | app/engine/pipeline.py:476-547 | an edit of a proposal without a tool call sends nothing, and the edited proposal is what is pending next |
| `TokenBinding.ToolIsGone` | app/tools/toolset.py:221-245 | when the tool is no longer there neither a confirmation nor an edit sends anything, and nothing stays pending |
| `TokenBinding.AgentTurn` | app/engine/pipeline.py:452-547 | the agent gets exactly the turns without a proposal, the confirmations without a token and the texts that are no edit; a turn in which it fails leaves nothing pending |
| `TokenBinding.OnlyTheNewestCounts` | app/services/chat_service.py:443-469 | what is pending is read from the newest assistant message, whatever the user said since |
| `TokenBinding.NoticeClears` | app/api/endpoints.py:936-957 | the notice of a created record leaves nothing pending and sends nothing |
| `TokenBinding.ConfirmRunsTheProposal` | app/tools/toolset.py:221-228 | whatever step proposed last, be it a native tool: the confirmation makes exactly the call it proposed |
| `TokenBinding.ConfirmRunsThePreview` | app/tools/toolset.py:205-228 | preview, then confirm: the agent's last call is on the wire as a preview without a token; the confirmation makes exactly one call, those arguments, unless the CRM named others, under the token issued for exactly that; what was pending between shows the data that is executed |
| `AgentLoop.Agent.AskModel` | app/engine/agent.py:465-486 | what is streamed while the model answers or fails, chunk by chunk through the classifier, and the raw answer |
| `AgentLoop.Agent.CallTool` | app/engine/agent.py:509-573 | the events, the step and the flow after a tool call, known tool or not, whatever its arguments are; what is observed of an unknown tool names it |
| `AgentLoop.Agent.Iterate` | app/engine/agent.py:464-583 | one iteration: failure, empty answer, a call that is broken, raises or is run, or a final answer, which is kept and ends the loop |
| `AgentLoop.Agent.Loop` | app/engine/agent.py:464-583 | the iterations up to the cap or the one that ends the loop |
| `AgentLoop.Agent.AnswerFromGatheredData` | app/engine/agent.py:324-340 | one more answer without tools; a failure or another tool call counts as none |
| `AgentLoop.Agent.Run` | app/engine/agent.py:376-634 | the whole loop, its events, its steps and its result; EveryEnding tells the result from the answers alone |
| `AgentBounds.LoopIsBounded` | app/engine/agent.py:464-634 | for any model and tools: at most cap + 1 model calls and cap tool invocations, nothing after a stopping observation, events numbered without a gap, and a non-empty output unless, and only unless, a round that is reached raises (its call fails to decode on more than syntax, the call or its arguments are no object, the status cannot be looked up, the trace log fails) or the trace log fails on the output |
| `AgentBounds.ObjectsGiveOutput` | app/engine/agent.py:464-634 | when no answer up to the cap makes its round raise and the trace log takes the output, there is an output and it is not empty |
| `AgentBounds.ListArgumentsRaise` | app/engine/agent.py:499-515 | a first answer that calls a tool with a list for its arguments leaves no output; no tool is invoked and no step is kept |
| `AgentBounds.BoundsAreReached` | app/engine/agent.py:464-589 | a model that keeps calling tools gets exactly that many |
| `AgentBounds.DeltasAreShown` | app/engine/agent.py:466-479 | the deltas of one model answer together are what the classifier shows of it |
| `AgentBounds.DeltasOfCutOff` | app/engine/agent.py:466-486 | of an answer that is cut off, what the classifier made of it so far, without the flush; nothing without a listener |
| `AgentAnswers.FinalIsReturned` | app/engine/agent.py:576-634 | if the first answer that does not keep the loop going is final and not empty, the output is its normal form, or the apology when that is empty, with exactly the results gathered before |
| `AgentAnswers.PromptedBodyIsReturned` | app/engine/agent.py:464-634 | so for a reply as prompted, in whatever chunks it arrives, the output is the normal form of its stripped body |
| `AgentAnswers.ProposalIsReturned` | app/engine/agent.py:556-569 | a proposal ends the loop with what it says to the user, else its message, else a fixed request to confirm |
| `AgentAnswers.ForcedIsReturned` | app/engine/agent.py:584-589 | with all rounds used up, the answer made without tools is what is returned |
| `AgentAnswers.LastSaidIsReturned` | app/engine/agent.py:591-604 | without an answer the last tool result stands in: what it says to the user, else its summary, else its first 500 characters |
| `AgentAnswers.EveryEnding` | app/engine/agent.py:464-634 | every run ends in one of these ways or raises, and the answers of model and tools alone tell which |
| `AgentAnswers.ResultsAreHeard` | app/engine/agent.py:540-554 | a listener hears of exactly the results that are kept as steps, in their order |
| `RagIngest.Collection.Upsert` | app/engine/rag.py:660 | the points are filed, later ones over earlier ones |
| `RagIngest.Collection.LoadExistingHashes` | app/engine/rag.py:895-926 | the hashes of complete points, chunk by chunk, up to the first retrieval that fails |
| `RagIngest.Collection.WriteChanged` | app/engine/rag.py:628-666 | exactly the records with another hash are written, whatever the batch size, and the rest counted |
| `RagIngest.Collection.IngestRecords` | app/engine/rag.py:593-677 | hashes loaded as far as they can be, then the changed records written |
| `RagIngest.Collection.SelectPage` | app/engine/rag.py:1074-1089 | the records without a time or at or after the watermark |
| `RagIngest.Collection.IngestPage` | app/engine/rag.py:1072-1122 | what is selected and written of one page, and whether it is the last |
| `RagIngest.Collection.IngestPaginated` | app/engine/rag.py:1001-1125 | the whole run over the pages with its limit and counts |
| `RagIngest.Collection.LatestModified` | app/engine/rag.py:967-975 | the newest time among the points read back for the module, whose name is compared trimmed and in lower case, in any order of reading |
| `RagAgreement.WritesStale` | app/engine/rag.py:623-636 | with all hashes loaded, exactly the records the index does not hold as they are get written |
| `RagAgreement.FullRunTwice` | app/engine/rag.py:1034-1125 | a full run makes every record current and leaves all other points alone; a second one writes nothing, for any page and batch sizes |
| `RagFailures.CompleteDespiteFailures` | app/engine/rag.py:903-926 | whatever fails while hashes are loaded, a full run is complete |
| `RagFailures.CountsAddUp` | app/engine/rag.py:1100-1115 | in every run, selected is written plus unchanged, and no more than the limit is written |
| `RagOutcomes.FullIngest` | app/engine/rag.py:1001-1125 | a call without limit and watermark stores, complete and with their hash and time, exactly the records whose point is missing, incomplete or has another hash, whatever page and batch size it is called with, and changes no other point; all are selected and counted as written or unchanged |
| `RagOutcomes.FullIngestHolds` | app/engine/rag.py:895-1125 | whatever fails while hashes are loaded, every record is held afterwards and no other point has changed |
| `RagOutcomes.FailedLoadWrites` | app/engine/rag.py:895-926 | when the retrieval of a chunk fails, the records of the chunks before it are compared with their points and all others are written |
| `RagOutcomes.LimitedIngest` | app/engine/rag.py:1015-1125 | with a limit of n it stores exactly the first n of those records in the order of the list |
| `RagOutcomes.NoRoom` | app/engine/rag.py:1015-1036 | a limit of zero or less does nothing at all |
| `RagOutcomes.IncrementalIngest` | app/engine/rag.py:1015-1125 | with a watermark it reads up to the end of the first page, of 1 to 500 records whatever is asked for, that is short or has a record older than the watermark, and stores exactly the records read that are neither held nor older |
| `RagOutcomes.NamesAlike` | app/engine/rag.py:967-975 | points filed under a name that differs from the module's in letter case or outer whitespace alone are read back for it, others are not |
| `RagAgreement.IncrementalCompleteIff` | app/engine/rag.py:1019-1125 | against a list in any order, an incremental run makes every record current, and leaves the index of a full run, if and only if each record to be written passes the watermark and stands before the end of the first page that is short or reaches an older record |
| `RagFailures.IncrementalDespiteFailures` | app/engine/rag.py:895-1125 | whatever fails while hashes are loaded, an incremental run makes every record current under exactly the same condition |
| `RagAgreement.IncrementalAgreesIff` | app/engine/rag.py:1019-1125 | newest first and all times parsed, that comes to: every record to be written is at or after the watermark |
| `RagAgreement.ChangedSinceSync` | app/engine/rag.py:967-1125 | so it is enough when whatever changed is no older than anything indexed |
| `RagAgreement.UnsortedMisses` | app/engine/rag.py:1084-1118 | in any order, a record to be written that stands behind a first page which reaches an older one is missed, however new it is |
| `RagLimits.LimitedRunIs` | app/engine/rag.py:1034-1125 | a limited run writes exactly the first records that have to be written, up to the limit, for any page and batch sizes |
| `RagLimits.LimitedIncrementalIs` | app/engine/rag.py:1019-1125 | against a list in any order, a run with a watermark and a limit writes exactly what has to be written of the records it selects before its stop, which depends on the list, the limit and the index at the start alone |
| `RagLimits.LimitedIncrementalIff` | app/engine/rag.py:1019-1125 | so it makes every record current if and only if each one to be written passes the watermark and stands before that stop |
| `RagLimits.LimitedNewestFirst` | app/engine/rag.py:1019-1125 | where no record behind an older one is newer, such a run writes the first records that have to be written and pass the watermark, up to the limit |
| `RagLimits.LimitedNewestFirstIff` | app/engine/rag.py:1019-1125 | so it makes every record current if and only if all that have to be written pass the watermark and are no more than the limit |
| `RagResume.ResumeIff` | app/engine/rag.py:1019-1125 | a run cut short after any number of writes is finished by an incremental one if and only if every record left over passes the watermark and stands before the stop |
| `RagResume.FirstRunCut` | app/engine/rag.py:967-1125 | a first ingest of a newest-first list, cut short, can be finished incrementally if and only if no record left over is older than the newest |
| `RagResume.LimitedFirstRun` | app/engine/rag.py:967-1125 | so a first ingest with a limit writes that many records, and incremental runs reach the others only if all of them are as new as the newest |
| `Deduplication.Dedupe` | app/engine/record_extract.py:298-323 | one item for each identity in order of first appearance, each the first of the best-scored |
| `Deduplication.CandidateIs` | app/engine/record_extract.py:237-310 | what is compared are the dictionaries among the results, in order and unchanged, but for a payload whose text repeats its record, which loses that text |
| `Deduplication.DeduplicatedUnique` | app/engine/record_extract.py:298-323 | that describes one result only |
| `Deduplication.KeptIsDeduplicated` | app/engine/record_extract.py:315-322 | keeping the strictly better of two items one by one amounts to it |
| `Deduplication.DedupeTwice` | app/engine/record_extract.py:237-323 | applying it twice, compaction included, equals applying it once |
| `NonceStore.InMemoryNonceStore.RegisterSync` | app/core/nonce_store.py:36-46 | beyond the threshold all expired entries go first; then accepted exactly when no unexpired entry stands |
| `NonceStore.DatabaseNonceStore.Register` | app/core/nonce_store.py:55-79 | the conditional upsert on shortened keys answers like the map, clean-up or not |
| `NonceStore.CutIff` | app/core/nonce_store.py:66 | the shared store tells two scopes or nonces apart unless both have at least 200 characters and start with the same 200 |
| `NonceStore.AnswersFollowHistory` | app/core/nonce_store.py:36-46 | whatever expired entries are dropped and when, a pair is accepted exactly when each earlier time it was accepted is past its TTL |
| `NonceStore.PruningUnobservable` | app/core/nonce_store.py:39-41 | every store gives the answers of one that forgets nothing |
| `NonceStore.OnceAccepted` | app/core/nonce_store.py:43-46 | right after it was accepted a pair is accepted again exactly when its TTL is over |
| `StreamToken.MintedVerifies` | app/core/stream_token.py:12-81 | a minted token is verified as its owner's by exactly those who hold its non-empty secret under its key, for exactly its sixty seconds |
| `StreamToken.AcceptedIff` | app/core/stream_token.py:53-105 | after any use of the store a token is accepted exactly when it is signed for its payload with the non-empty secret of a known key, not expired, and every earlier accepted registration of its nonce is past its time; the identity is then the payload's |
| `StreamToken.RejectedRegistersNothing` | app/core/stream_token.py:92-105 | a rejected token registers no nonce: one that is not genuine never comes to the store, and a replayed one is not accepted there |
| `StreamToken.AcceptedIsRegistered` | app/core/stream_token.py:92-105 | an accepted one is registered under its key for two minutes |
| `StreamToken.NotWithinMemory` | app/core/stream_token.py:92-105 | no two validations of one nonce within its memory are accepted |
| `StreamToken.SingleUse` | app/core/stream_token.py:20-105 | a token minted on the same clock is accepted at most once ever, whatever else is registered and dropped |
| `StreamToken.SecondUseIff` | app/core/stream_token.py:78-105 | an accepted token can be accepted again later if and only if it outlives the memory of its nonce |

## Left out

- HTTP, database, vector store, language model, speech and embedding calls: any outcome the code distinguishes may come back from them at any moment.
- JSON, regular expressions, `json_repair`, date parsing and hashing: what they find or return is an input; hashes are taken to identify content, and uuid5 point ids to be distinct for distinct records.
- Signatures: a signature is its secret and what it signs, so forging one is not expressible.
- Letter case: lower-casing covers ASCII letters; the case-insensitive think tags also cover the few other letters Python folds to ASCII.
- Times are real or integer numbers; float rounding of clocks and of scores is not modelled.
- `asyncio.Semaphore` and `asyncio.Lock` wake-up order: any waiter may be next, so fairness is not claimed.
- The notice of a created record that repeats the newest one: the endpoint does nothing then.
- A tool call that is cancelled ends its turn in the source; the model also allows turns that go on after one, with an error in its place.
- Several worker processes: each has its own breaker and cache; two of them writing the snapshot is not modelled.
- Locks of the manifest cache are a set of tenants; dropping or replacing lock objects does not happen in the source.
- CRM list errors and failing upserts: the run raises or ends there and leaves a prefix of its writes; when it raises is not modelled, what such a prefix leaves for later runs is (RagResume). A `source_record_count` other than the number of records is not modelled. Records without an id get a random one in the source; here every record has one.
- ManifestCoherence.EntryIsLastPublished: assumes the CRM's hashes identify their manifests and that it answers conditional requests honestly (section 13.1.2 and section 15.4.5 of RFC 9110).
- TokenBinding.TokensStayBound: assumes tokens travel only in the confirmation part of a CRM answer (structured content, form redirects and native tools hand over none) and that an envelope sent by the client is absent or one the CRM would recognise.
- TokenBinding.WritesAtMostOnce: assumes the client sends no envelope of its own; contact proposals, which the client sends back as commands, and history replaced by the client are outside it.
- RagAgreement.IncrementalAgreesIff: assumes pages served as requested from an unchanging list with distinct ids.
- PendingPatch.TryPatch: notes hold their values instead of their wording, texts for the user are left out, and durations are numbers.
- AgentResults.NormalizeForUi: messages and cards are presentation and left out.
- Deduplication.Dedupe: the identity of an item is any function of the compacted item; which fields it is made of is not modelled.
- AgentLoop.Agent.Run: prompts, skills and history only shape what the model says, which is arbitrary anyway. A turn that is cancelled, and a listener that raises, end it at any await; neither is modelled.
- `filter_builder.py`, `briefing_service.py`, fuzzy scores and ranking: their meaning is defined by the CRM or by library numbers.
- `extraction.py`, `validation.py`, routes, migrations, skills and onboarding: per-field branches and wiring.
