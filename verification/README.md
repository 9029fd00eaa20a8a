# Verification of the MaSoVa agent governance runtime

A Dafny model of the code that decides which drafts of the agents exist, which are open,
who may close them, and what the audit log proves, with proofs of its laws.

Code that updates state step by step is a class or a method with loops, and each is proved
against a specification function of its inputs or of the old state. The laws are lemmas
about those functions, over whole runs where the code keeps state.

| file | models |
|---|---|
| `RunStore.dfy`, `RunHistory.dfy`, `StubLaws.dfy` | the hash-chained audit log, its stubs, restarts and failed appends |
| `ProposalStore.dfy` | the proposal log and its cache, superseding, sweep and expiry |
| `Policy.dfy`, `AgentRuntime.dfy`, `ProposalQueue.dfy`, `QueueLaws.dfy` | the commit of a run and the laws of the open queue |
| `ProposalTools.dfy`, `LostAppends.dfy` | the pending guard of the manager's tools, the HTTP route without one, and what failing appends do to both |
| `Governance.dfy` | proposals and draft tables together |
| `RateLimit.dfy`, `Idempotency.dfy` | admission over time |
| `DraftTables.dfy`, `DraftLaws.dfy`, `DecisionLaws.dfy`, `PriceLaws.dfy` | the draft tables and the manager's decisions on them |
| `ToolArgs.dfy`, `ProposeLaws.dfy`, `ToolLoop.dfy`, `LoopLaws.dfy`, `Evidence.dfy` | the tool loops, their result cache, and evidence from earlier results |
| `Roster.dfy`, `Dedupe.dfy`, `Sealing.dfy`, `SealLaws.dfy` | the weekly roster and its sealing |
| `Luhn.dfy`, `Chunking.dfy`, `Forecast.dfy` | check digits, overlapping windows, weighted averages |
| `Outcomes.dfy`, `Texts.dfy` | optional values and results, stripping of blanks |

`dafny verify dfyconfig.toml` checks the project.

Where the code does not do what its comments promise, the model follows the code and the
exact condition is proved:

- `resolve_proposal`, the HTTP route and the named updates look at no status
  (`ProposalTools.HttpResolveExactly`, `DraftLaws.OrderApprovalSparesExactly` and its three
  siblings).
- The advertised `retry_after` is cut to whole seconds (`RateLimit.RetryExactlyThen`).
- A date bucket does not mean once a day (`Idempotency.DateKeyWonOnceExactly`).
- A price cap holds per listing of an id, not per decision (`PriceLaws.PercentageKeptExactly`,
  `PriceLaws.CapKeptExactly`, `PriceLaws.CapUpToRoundingExactly`).
- The result cache compares argument texts only up to a limit (`LoopLaws.CacheExactly`,
  `LoopLaws.KeysCollideExactly`).
- Sealing is idempotent for well-formed times only (`SealLaws.SealTwiceExactly`).
- A failed append leaves the tip in memory ahead of the file
  (`RunHistory.VerifiedExactlyWithoutGap`), and a decided proposal that the log missed may
  read as pending again (`LostAppends.DeedKeepsExactly`).
- A fleet-wide run supersedes nothing (`ProposalQueue.FleetCommitExactly`).
- A review run that replies to several reviews supersedes for the first of them only
  (`QueueLaws.ReviewCommitExactly`, `QueueLaws.SecondReplyPilesUp`).

## Model

| member | source | states |
|---|---|---|
| `RunStore.RunLog.constructor` | src/masova_agent/runtime/run_store.py:20-31 | a process starts with nothing loaded on whatever file an earlier one left |
| `RunStore.RunLog.LoadFileOnce` | src/masova_agent/runtime/run_store.py:190-225 | the first access reads the file once; records without an agent and lines that are no JSON are passed over |
| `RunStore.RunLog.RecordRun` | src/masova_agent/runtime/run_store.py:53-76 | one record is sealed with the tip of this process and becomes the tip, even when the append to the file fails; a record without an agent is refused before anything changes |
| `RunStore.RunLog.UpsertRun` | src/masova_agent/runtime/run_store.py:96-123 | the first unchained record of the run is merged in place, else the record is added; the record returned is the merged or added one; file and tip stay |
| `RunStore.RunLog.GetRunById` | src/masova_agent/runtime/run_store.py:139-145 | the last record of the run in memory, stub or terminal |
| `RunStore.RunLog.VerifyChain` | src/masova_agent/runtime/run_store.py:163-187 | the loop over the file answers true exactly if every record names the hash before it and carries the hash of its own content |
| `RunStore.RunLog.ChainReport` | src/masova_agent/runtime/run_store.py:126-136 | verdict, number of chained records in memory and their last hash |
| `RunStore.NeverMended` | src/masova_agent/runtime/run_store.py:163-187 | a log with a broken prefix never verifies again, whatever is appended |
| `RunStore.SameTipSameLog` | src/masova_agent/runtime/run_store.py:48-50 | for any hash whatever: two logs that verify and end in one tip hold the same records, or two of their own records are a collision (or a hash reads as the start marker) |
| `RunStore.TamperingShows` | src/masova_agent/runtime/run_store.py:163-187 | with a collision-free hash any edit, insertion, deletion or reordering fails verification or changes the tip |
| `RunStore.TruncationVerifies` | src/masova_agent/runtime/run_store.py:169-183 | without the tip a cut-off end goes unnoticed: every prefix verifies |
| `RunHistory.AppendVerifiesExactly` | src/masova_agent/runtime/run_store.py:60-75 | an append keeps the file verified if and only if the process has the file's tip and the caller left prev_hash and record_hash alone |
| `RunHistory.ChainInvariant` | src/masova_agent/runtime/run_store.py:53-123 | after any history of records, stub updates and restarts: the file verifies, the chained records in memory are the file's in order, the tip is the file's, no run has two stubs |
| `RunHistory.MergeKeepsChain` | src/masova_agent/runtime/run_store.py:105-122 | a stub update changes no chained record |
| `RunHistory.ReportIsTrue` | src/masova_agent/runtime/run_store.py:126-136 | in every such state the console's report is: verified, the number of records in the file, the file's tip |
| `RunHistory.VerifiedExactlyWithoutGap` | src/masova_agent/runtime/run_store.py:66-75 | with failing appends the file verifies if and only if no append succeeded after a failed one in the same process |
| `RunHistory.LostRecordBreaksChain` | src/masova_agent/runtime/run_store.py:66-75 | such an input: the append of one record fails, the next succeeds, and the file verifies no more |
| `RunHistory.SettledFindsTerminal` | src/masova_agent/runtime/run_store.py:139-145 | a run whose stub is followed by a chained record is looked up as the chained record |
| `RunHistory.TerminalStays` | src/masova_agent/runtime/run_store.py:96-145 | that stays so through every later call of the process |
| `RunHistory.FinishedRunIsFound` | src/masova_agent/runtime/run_store.py:96-145 | stub, anything meanwhile, terminal record, anything after: the lookup returns a terminal record |
| `RunHistory.LateUpsertExactly` | src/masova_agent/runtime/run_store.py:105-122 | an update that comes after the terminal record hides it unless a stub is there to merge into: if and only if |
| `RunHistory.FreshHasNoStub` | src/masova_agent/runtime/run_store.py:190-225 | after a restart no stub is in memory, so a late update does hide the terminal record |
| `StubLaws.UpdateWins` | src/masova_agent/runtime/run_store.py:105-117 | an update of a run with a stub: the stub has the value of the update for every field that the update names and its old value for every other; no other record changes |
| `StubLaws.UpdateAdds` | src/masova_agent/runtime/run_store.py:118-122 | with no stub the update is added as a record with exactly its fields |
| `StubLaws.RecordSays` | src/masova_agent/runtime/run_store.py:53-76 | a recorded run has exactly the fields passed in, the agent also under its older name, its prev_hash is the tip and its record_hash the hash of tip and content |
| `StubLaws.LookupShowsLastUpdates` | src/masova_agent/runtime/run_store.py:96-145 | in every history of a run from its first update to its terminal record, with other runs in between: the lookup gives, for every field, the value of the last update that names it, and nothing exactly if there was no update |
| `StubLaws.TerminalShows` | src/masova_agent/runtime/run_store.py:139-145 | right after its terminal record a run is looked up with the fields that record was given |
| `StubLaws.TerminalIsFinal` | src/masova_agent/runtime/run_store.py:96-145 | for a run that has a stub, that lookup stays the same record through all later updates and all records of other runs |
| `StubLaws.LoadedExactly` | src/masova_agent/runtime/run_store.py:190-225 | a restart loads exactly the records of the file that name an agent |
| `ProposalStore.Store.constructor` | src/masova_agent/runtime/proposal_store.py:20-28 | a cold start on an existing log is a valid state |
| `ProposalStore.Store.LoadFileOnce` | src/masova_agent/runtime/proposal_store.py:209-236 | the first load puts the last lines of the file over what memory holds; if no append was lost this makes memory complete and changes no answer |
| `ProposalStore.Store.SaveProposal` | src/masova_agent/runtime/proposal_store.py:42-60 | memory takes the card, and the log a line unless the append fails; if none fails the card with that id is exactly the saved one |
| `ProposalStore.Store.GetProposal` | src/masova_agent/runtime/proposal_store.py:63-72 | memory answers first, the file only if it must; if no append was lost the answer is the last line of the id, event tag aside |
| `ProposalStore.Store.ResolveProposal` | src/masova_agent/runtime/proposal_store.py:174-206 | any known card is closed in memory whatever its status, with one tagged line unless the append fails; PENDING is refused; an unknown id changes no card |
| `ProposalStore.Store.FilteredRows` | src/masova_agent/runtime/proposal_store.py:91-113 | exactly the cards that match, each once, newest first; empty store or agent filters nothing |
| `ProposalStore.Store.SupersedeStalePending` | src/masova_agent/runtime/proposal_store.py:255-298 | exactly the stale cards of the store and agent are closed, each with the stated note, and counted |
| `ProposalStore.Store.Replaced` | src/masova_agent/runtime/proposal_store.py:276-290 | the chain of skips closes a card exactly if it is stale |
| `ProposalStore.Store.SweepExpired` | src/masova_agent/runtime/proposal_expiry.py:18-48 | exactly the pending cards whose creation time parses and is not after the cutoff expire, and are counted |
| `ProposalStore.Store.CloseNotices` | src/masova_agent/runtime/proposal_store.py:310-333 | all pending notifications are closed; all other pending cards are sorted into their groups |
| `ProposalStore.Store.CloseOutdated` | src/masova_agent/runtime/proposal_store.py:334-361 | in every group the newest card and the cards of its run stay, all others are closed and counted |
| `ProposalStore.Store.SweepStaleOpenQueue` | src/masova_agent/runtime/proposal_store.py:301-362 | the whole sweep: exactly the notifications and the outdated cards are closed; both counters are exact |
| `ProposalStore.FoldIsLastLine` | src/masova_agent/runtime/proposal_store.py:209-236 | the state a log stands for is its last line per id |
| `AgentRuntime.CommitRun` | src/masova_agent/runtime/agent_runtime.py:139-182 | a run's commit: validated proposals in scope, stamped and saved in order, then the superseding of what they replace |
| `AgentRuntime.SaveCards` | src/masova_agent/runtime/agent_runtime.py:147-171 | the loop over the proposals: those in scope are stamped and saved in order; their ids and the first review they answer are noted |
| `AgentRuntime.SavedAt` | src/masova_agent/runtime/agent_runtime.py:150-171 | saving a batch: ids of the batch read as one of its cards, all others as before |
| `AgentRuntime.CardsAreScoped` | src/masova_agent/runtime/agent_runtime.py:140-162 | what a store-scoped run saves carries its run id, its store and its agent, and is no notification |
| `Policy.FilterTools` | src/masova_agent/runtime/policy.py:115-127 | the filter loop computes the filtered list |
| `Policy.FilterKeepsCallable` | src/masova_agent/runtime/policy.py:102-127 | a tool passes the filter if and only if it could be called under the unfiltered list |
| `Policy.ValidateProposals` | src/masova_agent/runtime/policy.py:129-146 | the validation loop computes the validated list |
| `Policy.ValidatedAreSafe` | src/masova_agent/runtime/policy.py:129-145 | at most fifty proposals pass; each needs approval, is of the propose tier, and was not of the execute tier |
| `ProposalQueue.OneRunAlways` | src/masova_agent/runtime/agent_runtime.py:139-182 | every interleaving of store-scoped commits, resolves, superseding, sweeps, expiry and restarts leaves one run open per snapshot agent and store |
| `ProposalQueue.NewestRunRules` | src/masova_agent/runtime/agent_runtime.py:172-180 | after a commit that run is the one that committed |
| `ProposalQueue.CommitLeavesNewRun` | src/masova_agent/runtime/proposal_store.py:255-298 | an open card of the committing agent and store is of the new run |
| `ProposalQueue.CommitLeavesOthers` | src/masova_agent/runtime/proposal_store.py:255-298 | a commit leaves cards of other stores and agents as they are |
| `ProposalQueue.FleetCommitExactly` | src/masova_agent/runtime/agent_runtime.py:168-172 | a whole fleet-wide commit keeps one run open if and only if no open card of another run is left in a store and agent it saves open snapshot cards for |
| `ProposalQueue.FleetRunBreaksOneRun` | src/masova_agent/runtime/agent_runtime.py:168-172 | one open draft beside an open card of another run breaks the queue |
| `ProposalQueue.FleetRunsPileUp` | src/masova_agent/runtime/agent_runtime.py:168-172 | such an input |
| `ProposalQueue.SavedAloneExactly` | src/masova_agent/runtime/proposal_store.py:42-60 | a single save keeps one run open if and only if the open cards of its store and agent are of its run |
| `ProposalQueue.SweepLeaves` | src/masova_agent/runtime/proposal_store.py:301-362 | a card is open after the sweep if and only if it was, is no notification, and is of the newest run of its group; it is unchanged |
| `ProposalQueue.SweepConserves` | src/masova_agent/runtime/proposal_store.py:301-362 | pending before = pending after + notifications closed + stale cards closed |
| `ProposalQueue.NewestSurvives` | src/masova_agent/runtime/proposal_store.py:334-350 | the newest card of every group survives the sweep |
| `ProposalQueue.SweepIdempotent` | src/masova_agent/runtime/proposal_store.py:301-362 | a second sweep closes nothing |
| `ProposalQueue.SweepEstablishesOneRun` | src/masova_agent/runtime/proposal_store.py:246-252 | the sweep brings any queue whatever to one run per snapshot agent and store |
| `ProposalQueue.LogIsFiled` | src/masova_agent/runtime/proposal_store.py:209-236 | in every state of a log each card is filed under its own id |
| `QueueLaws.SavedExactly` | src/masova_agent/runtime/policy.py:129-146 | a commit saves under an id the last proposal with that id that is among the first fifty, not of the execute tier, no notification and not of another store; missing run, store and agent are filled in, all else is as proposed |
| `QueueLaws.PassingIsQueued` | src/masova_agent/runtime/agent_runtime.py:147-171 | such a proposal is on the queue after the commit |
| `QueueLaws.CommitClosesExactly` | src/masova_agent/runtime/agent_runtime.py:172-180 | a card the run did not save is closed as superseded if and only if it is pending, of the run's store and agent, of another run, and answers the review the run answers or is of a snapshot agent; else it is unchanged |
| `QueueLaws.AnsweredIsReviewOf` | src/masova_agent/runtime/agent_runtime.py:163-164 | the review a run answers is that of the first saved reply that names one |
| `QueueLaws.SupersedeExactly` | src/masova_agent/runtime/proposal_store.py:255-298 | superseding called by itself: exactly which cards close, with its keep list, kept run, review and the three notes; empty store or agent restricts nothing |
| `QueueLaws.ReviewCommitExactly` | src/masova_agent/runtime/proposal_store.py:283-290 | a review run keeps one run open per store and review if and only if it leaves no reply to a second review beside an open one of another run: it supersedes for the first review it answers only |
| `QueueLaws.SecondReplyPilesUp` | src/masova_agent/runtime/agent_runtime.py:163-180 | such an input: a run that replies to two reviews leaves two runs open for the second |
| `QueueLaws.OneReviewIsAnswered` | src/masova_agent/runtime/agent_runtime.py:163-180 | a run whose replies are to one review does no such thing |
| `QueueLaws.OneRunPerReviewAlways` | src/masova_agent/runtime/agent_runtime.py:139-182 | so in every store-scoped history whose review runs reply to one review each, the open replies to a review in a store are of one run |
| `QueueLaws.ResolveExactly` | src/masova_agent/runtime/proposal_store.py:174-206 | resolving changes status, note and time of the named card alone |
| `QueueLaws.ExpiryExactly` | src/masova_agent/runtime/proposal_expiry.py:18-48 | a card expires if and only if it is pending and was created, at a time that parses, at the cutoff or before |
| `QueueLaws.ExpiryInSteps` | src/masova_agent/runtime/proposal_expiry.py:18-48 | expiring at an earlier cutoff first leaves the same cards open |
| `QueueLaws.SelectedExactly` | src/masova_agent/runtime/proposal_store.py:91-113 | a list holds a card if and only if it matches the store, status and agent asked for, and is a decision if only those are wanted |
| `QueueLaws.NewestIsChosen` | src/masova_agent/runtime/proposal_store.py:334-341 | the sweep takes the card created last in each group of store, agent and, for replies, review |
| `QueueLaws.SweepExactly` | src/masova_agent/runtime/proposal_store.py:301-362 | for every card what the sweep leaves of it: notifications close, the newest of a group and the cards of its run stay, the others close, each with its note |
| `ProposalTools.Desk.ApproveProposal` | src/masova_agent/tools/proposal_tools.py:22-49 | approving acts if and only if the lookup of the stripped id answers with a pending card; then it is closed and applied once; the append may fail |
| `ProposalTools.Desk.RejectProposal` | src/masova_agent/tools/proposal_tools.py:52-79 | the same for rejecting |
| `ProposalTools.Desk.HttpResolve` | src/masova_agent/main.py:380-410 | the HTTP route closes and applies whatever the present status |
| `ProposalTools.GuardedLifecycle` | src/masova_agent/tools/proposal_tools.py:22-79 | over any guarded history a card that left PENDING never changes again and every id is applied at most once, so never both as approved and as rejected |
| `ProposalTools.DecisionTakesEffect` | src/masova_agent/tools/proposal_tools.py:29-45 | a guarded decision on a pending card sets its status, note and time and is applied once with its verdict; any other changes nothing |
| `ProposalTools.HttpResolveExactly` | src/masova_agent/main.py:391-405 | one call of the route keeps those two laws if and only if the card is unknown, pending or closed identically, respectively was never applied |
| `ProposalTools.HttpAppliesBoth` | src/masova_agent/main.py:391-405 | such an input: two calls of the route apply a pending card both as approved and as rejected |
| `LostAppends.LoadKeepsExactly` | src/masova_agent/runtime/proposal_store.py:209-236 | reading the file keeps every closed card if and only if it was read before, or has no line for the card, or the line that memory has |
| `LostAppends.RestartKeepsExactly` | src/masova_agent/runtime/proposal_store.py:206-236 | a restart keeps every closed card if and only if the file has it as it stands |
| `LostAppends.ResolvedReadsExactly` | src/masova_agent/runtime/proposal_store.py:187-203 | a resolved card reads as resolved at once; after a load still if and only if the append succeeded, or the file had been read, or has no other line for it |
| `LostAppends.DeedKeepsExactly` | src/masova_agent/tools/proposal_tools.py:22-79 | a save, decision, closing, lookup, listing or restart keeps the closed cards if and only if what it reads from the file is safe to read |
| `LostAppends.LifecycleSurvives` | src/masova_agent/tools/proposal_tools.py:22-79 | over every history whose reads are safe, whatever appends fail, closed cards stay and every id is applied at most once |
| `LostAppends.OneProcessKeepsLifecycle` | src/masova_agent/tools/proposal_tools.py:22-79 | in particular for one process that has read the file |
| `LostAppends.CacheIsSafe` | src/masova_agent/runtime/proposal_store.py:209-236 | with no append lost every read is safe |
| `LostAppends.ReopenedIsAppliedAgain` | src/masova_agent/tools/proposal_tools.py:29-45 | an applied card that reads as pending again is applied again by the next decision |
| `LostAppends.LostApprovalAppliesTwice` | src/masova_agent/tools/proposal_tools.py:22-49 | such a history: saved, approved with a failing append, listed, approved again |
| `Governance.ActsOnce` | src/masova_agent/tools/proposal_tools.py:22-79 | posts, saves, decisions and tables together: no proposal acts on the tables twice |
| `Governance.OrderMovedByOneProposal` | src/masova_agent/runtime/proposal_apply.py:54-76 | an order whose status changes is moved by a decision on an order of its store, and no other action is by that proposal |
| `Governance.CampaignMovedByOneProposal` | src/masova_agent/runtime/proposal_apply.py:78-98 | the same for campaigns |
| `Governance.ShiftMovedByOneProposal` | src/masova_agent/runtime/proposal_apply.py:100-108 | the same for shifts, which are moved only while they are drafts |
| `Governance.PriceMovedByOneProposal` | src/masova_agent/runtime/proposal_apply.py:110-136 | a price changes only by the one approval of an adjustment that lists the item |
| `Governance.OrderMovesByVerdict` | src/masova_agent/runtime/proposal_apply.py:54-76 | in every run an order whose status changes goes to PENDING_APPROVAL with the approver if its proposal was approved, and to CANCELLED with the reason if not |
| `Governance.CampaignMovesByVerdict` | src/masova_agent/runtime/proposal_apply.py:78-98 | a campaign goes to SCHEDULED or CANCELLED by the verdict |
| `Governance.ShiftsMoveByVerdict` | src/masova_agent/runtime/proposal_apply.py:100-108 | when a shift changes, all draft shifts of its store go to CONFIRMED or CANCELLED by the verdict, and no other shift changes |
| `Governance.ActedStaysClosed` | src/masova_agent/tools/proposal_tools.py:39-49 | a proposal that acted was pending, and has its verdict in every later state |
| `RateLimit.RateLimiter.CheckRateLimit` | src/masova_agent/runtime/rate_limit.py:125-162 | one check: answer and next queue of the scoped key; other keys untouched; the exempt tier and the off switch change nothing |
| `RateLimit.RunInvariant` | src/masova_agent/runtime/rate_limit.py:135-159 | the queue is a suffix of the admitted history that holds everything still inside the window |
| `RateLimit.AtMostBudgetInEveryWindow` | src/masova_agent/runtime/rate_limit.py:130-159 | at most `budget` admissions of a scoped key in (t-60, t] for every time t, not only request times, however keys interleave; with several budgets, the largest |
| `RateLimit.AnswersAreGrants` | src/masova_agent/runtime/rate_limit.py:135-159 | over every run the requests answered `allowed` are those of a limiter without a queue that counts its own grants in the last minute, and are the admissions |
| `RateLimit.AnswerExactly` | src/masova_agent/runtime/rate_limit.py:135-159 | the answer to one more request: allowed if and only if fewer than `budget` grants lie in the window; `limit` is the budget, `remaining` what is left after this request, 0 when denied |
| `RateLimit.ResetExactly` | src/masova_agent/runtime/rate_limit.py:140-158 | the reset time is the whole seconds until the oldest grant leaves the window, at least one; the retry time is the same on a denial and 0 otherwise |
| `RateLimit.AtMostBudgetAllowed` | src/masova_agent/runtime/rate_limit.py:130-159 | at most `budget` requests of a key are answered `allowed` in any minute |
| `RateLimit.SharedQueue` | src/masova_agent/runtime/rate_limit.py:133-133 | a client key at the default tier shares the queue of another client's tier if and only if it is that key with the tier's suffix |
| `RateLimit.QueueIsWindowOfHistory` | src/masova_agent/runtime/rate_limit.py:136-149 | the queue at a check is exactly the admitted history in the window; a check is denied if and only if it meets its budget there |
| `RateLimit.RetryAfterInRange` | src/masova_agent/runtime/rate_limit.py:140-153 | retry and reset are between 1 and 60 seconds after every run |
| `RateLimit.RetryExactlyThen` | src/masova_agent/runtime/rate_limit.py:142-142 | coming back exactly when told succeeds if and only if no fraction of a second was cut off, or at most a second was left |
| `RateLimit.RetryCanBeTooEarly` | src/masova_agent/runtime/rate_limit.py:142-142 | a queue for which the advertised wait is too short |
| `Idempotency.ClaimTable.PurgeExpired` | src/masova_agent/runtime/idempotency.py:66-69 | exactly the entries whose time has come are removed |
| `Idempotency.ClaimTable.Seen` | src/masova_agent/runtime/idempotency.py:72-84 | the payload of the live claim, if there is one; table and answer are those of the run model |
| `Idempotency.ClaimTable.Claim` | src/masova_agent/runtime/idempotency.py:87-109 | a claim wins if and only if no live claim holds the key; the holder's payload is returned either way; table and answer are those of the run model |
| `Idempotency.PurgeInvisible` | src/masova_agent/runtime/idempotency.py:66-69 | with or without purging, every call of a run answers the same |
| `Idempotency.SeenAgreesWithClaim` | src/masova_agent/runtime/idempotency.py:72-109 | `seen` answers, with the same payload, exactly when a claim would be a duplicate |
| `Idempotency.SuccessiveWinsApart` | src/masova_agent/runtime/idempotency.py:98-106 | successive wins of a key are at least max(1, ttl) seconds apart |
| `Idempotency.WinsInWindow` | src/masova_agent/runtime/idempotency.py:98-106 | every window (t, t + W] holds at most ceil(W / ttl) wins |
| `Idempotency.LiveExactly` | src/masova_agent/runtime/idempotency.py:98-106 | from its last win on a key is held exactly until the time to live is over |
| `Idempotency.RepliesExactly` | src/masova_agent/runtime/idempotency.py:72-109 | every reply after every run: the payload of the key's last winner while its seconds last, else a win, respectively nothing |
| `Idempotency.PayloadIsKept` | src/masova_agent/runtime/idempotency.py:97-97 | a winner keeps its payload; the time of the claim is added if it is absent |
| `Idempotency.WonOnceExactly` | src/masova_agent/runtime/idempotency.py:87-109 | with one ttl a key is won at most once if and only if no two of its claims are the ttl, or more, apart |
| `Idempotency.DateKeyWonOnceExactly` | src/masova_agent/runtime/idempotency.py:23-37 | at the default ttl: if and only if no two of its claims are six hours, or more, apart |
| `Idempotency.HourKeyWonOnce` | src/masova_agent/runtime/idempotency.py:23-30 | with the six-hour default an hour key is won at most once |
| `Idempotency.DateKeyWonFourTimes` | src/masova_agent/runtime/idempotency.py:33-37 | a date key is won at most four times |
| `Idempotency.DateKeyCanBeWonFourTimes` | src/masova_agent/runtime/idempotency.py:23-37 | and four times can happen: once a day does not hold |
| `DraftTables.DemoBackend.PostOrder` | src/masova_agent/services/demo_backend.py:669-730 | the newest draft of store, supplier and day is refilled, else a new draft is made; its lines are the posted ones |
| `DraftTables.DemoBackend.InsertLines` | src/masova_agent/services/demo_backend.py:713-729 | one line per posted item, in order |
| `DraftTables.DemoBackend.PostCampaign` | src/masova_agent/services/demo_backend.py:742-793 | the newest draft of store, type and day is rewritten, else a new draft is made |
| `DraftTables.DemoBackend.PostShifts` | src/masova_agent/services/demo_backend.py:804-850 | shifts are taken one by one; one that is drafted already, also earlier in the same post, is passed over |
| `DraftTables.ChooseRow` | src/masova_agent/runtime/proposal_apply.py:54-74 | the row a decision means: the named one if it is of the store, else the newest draft of the store, else none |
| `DraftTables.Newest` | src/masova_agent/services/demo_backend.py:684-692 | a newest row of a set, none exactly if it is empty |
| `DraftTables.DemoBackend.ApplyApproved` | src/masova_agent/runtime/proposal_apply.py:38-157 | an approval outside demo mode changes nothing; inside it makes exactly the change of its kind and reports whether it knows the kind |
| `DraftTables.DemoBackend.ApplyPrices` | src/masova_agent/runtime/proposal_apply.py:110-136 | the price loop, each id from the price then in the table |
| `DraftTables.DemoBackend.ApplyRejected` | src/masova_agent/runtime/proposal_apply.py:165-240 | the same for a rejection; prices are never touched |
| `DraftLaws.OneDraftAlways` | src/masova_agent/services/demo_backend.py:669-850 | over every interleaving of posts and decisions: one draft order per store, supplier and day, one draft campaign per store, type and day, one draft shift per store, date, person and start |
| `DraftLaws.PostOrderKeepsOneDraft` | src/masova_agent/services/demo_backend.py:682-711 | posting an order keeps one draft per key |
| `DraftLaws.PostCampaignKeepsOneDraft` | src/masova_agent/services/demo_backend.py:747-792 | posting a campaign keeps one draft per key |
| `DraftLaws.PostShiftsKeepsOneDraft` | src/masova_agent/services/demo_backend.py:811-849 | posting shifts keeps one draft per key, within one post too |
| `DraftLaws.OnlyManagersMoveRows` | src/masova_agent/services/demo_backend.py:662-851 | after any number of posts rows that are no drafts are untouched, drafts are drafts, new rows are drafts, menu and actions are as before |
| `DraftLaws.PostTouchesOnlyDrafts` | src/masova_agent/services/demo_backend.py:662-851 | the same for one post |
| `DraftLaws.DecisionStaysInStore` | src/masova_agent/runtime/proposal_apply.py:54-108 | a changed order, campaign or shift is of the decision's kind and store, and is a draft no more; of shifts only drafts change; no row comes or goes |
| `DraftLaws.DecisionOnMenu` | src/masova_agent/runtime/proposal_apply.py:110-136 | the menu changes only by an approved price adjustment, and only in listed items |
| `DraftLaws.OrderApprovalSparesExactly` | src/masova_agent/runtime/proposal_apply.py:54-74 | an order approval spares rows past DRAFT if and only if it names no order of its store, or a draft, or one approved already: the named update has no status test |
| `DraftLaws.OrderRejectionSparesExactly` | src/masova_agent/runtime/proposal_apply.py:182-201 | the same for a rejection, and an order cancelled for the same reason |
| `DraftLaws.CampaignApprovalSparesExactly` | src/masova_agent/runtime/proposal_apply.py:78-96 | the same for a campaign approval, and a campaign scheduled already |
| `DraftLaws.CampaignRejectionSparesExactly` | src/masova_agent/runtime/proposal_apply.py:205-223 | the same for a campaign rejection, and a campaign cancelled already |
| `DraftLaws.LastDecisionWins` | src/masova_agent/runtime/proposal_apply.py:56-61 | for a named order a later opposite decision overwrites the earlier one |
| `DraftLaws.UnnamedMoveOnce` | src/masova_agent/runtime/proposal_apply.py:62-74 | decisions that name no order never meet one row twice |
| `DraftLaws.ShiftsDecidedOnce` | src/masova_agent/runtime/proposal_apply.py:100-108 | after a roster decision the store has no draft shift, and the opposite decision changes no shift |
| `DraftLaws.PostedItemsExactly` | src/masova_agent/services/demo_backend.py:693-729 | after a post the order holds exactly the posted items, every other order what it held |
| `DraftLaws.ItemsChangeOnlyByPost` | src/masova_agent/services/demo_backend.py:693-729 | no other step changes the items of an order |
| `DraftLaws.OrderHoldsLastPost` | src/masova_agent/services/demo_backend.py:693-729 | in every run an order holds exactly the items of the last post to it |
| `DecisionLaws.OrderIsChosen` | src/masova_agent/runtime/proposal_apply.py:54-74 | the order a decision moves: the one it names if that is of its store, else the newest draft of the store, else none |
| `DecisionLaws.CampaignIsChosen` | src/masova_agent/runtime/proposal_apply.py:78-96 | the same for a campaign |
| `DecisionLaws.OrderDecision` | src/masova_agent/runtime/proposal_apply.py:54-76 | an approval sets that order to PENDING_APPROVAL with its approver, a rejection to CANCELLED with its reason; all else in all tables is as before |
| `DecisionLaws.CampaignDecision` | src/masova_agent/runtime/proposal_apply.py:78-98 | an approval sets that campaign to SCHEDULED, a rejection to CANCELLED; all else is as before |
| `DecisionLaws.RosterDecision` | src/masova_agent/runtime/proposal_apply.py:100-108 | an approval sets every draft shift of the store to CONFIRMED, a rejection to CANCELLED, each with its other fields kept; all else is as before |
| `DecisionLaws.OtherDecision` | src/masova_agent/runtime/proposal_apply.py:138-155 | an approved forecast, reply or brief adds one manager action of the store and changes nothing else; any other kind, and a rejection, change nothing |
| `DecisionLaws.ReportedKinds` | src/masova_agent/runtime/proposal_apply.py:38-240 | which kinds are reported as applied, on approval and on rejection |
| `DecisionLaws.PostedOrder` | src/masova_agent/services/demo_backend.py:669-730 | a posted order: a draft of its store, supplier and day is reused if and only if there is one, with the new notes and time; else it is a new draft; every other order is as before |
| `DecisionLaws.PostedLines` | src/masova_agent/services/demo_backend.py:713-729 | its lines are the posted items, one by one in order |
| `DecisionLaws.PostedCampaign` | src/masova_agent/services/demo_backend.py:742-793 | the same for a campaign, which has the posted content |
| `DecisionLaws.PostedShiftIsDrafted` | src/masova_agent/services/demo_backend.py:811-849 | after a post there is a draft of the date, person and start of every posted shift; an id that a shift took holds exactly that shift |
| `DecisionLaws.AddedShiftWasPosted` | src/masova_agent/services/demo_backend.py:811-849 | a shift that a post adds is one of those posted, as a draft, and was not drafted before |
| `PriceLaws.PriceAfter` | src/masova_agent/runtime/proposal_apply.py:123-134 | the price after a decision is the factor applied once per listing, rounded each time |
| `PriceLaws.PriceCapHolds` | src/masova_agent/runtime/proposal_apply.py:123-134 | with distinct ids every listed price moves once, every other not at all |
| `PriceLaws.DecisionKeepsCap` | src/masova_agent/runtime/proposal_apply.py:110-136 | an approved price adjustment with distinct ids keeps every listed price within its percentage and within -15% or +12%, to half a cent, and leaves every other price alone |
| `PriceLaws.PercentageKeptExactly` | src/masova_agent/runtime/proposal_apply.py:116-134 | a decision that moves prices keeps an item within the stated percentage on every menu if and only if it lists the item once at most |
| `PriceLaws.CapKeptExactly` | src/masova_agent/runtime/proposal_apply.py:117-134 | a decision that asks for 12% up or 15% down, or more, keeps that limit on every menu if and only if it lists the item once at most |
| `PriceLaws.ZeroPercentKept` | src/masova_agent/runtime/proposal_apply.py:123-134 | a decision of zero percent keeps every price, however often it is listed |
| `PriceLaws.NearPower` | src/masova_agent/runtime/proposal_apply.py:123-134 | an item listed n times ends at the price times the factor's n-th power, up to the roundings carried along |
| `PriceLaws.CapUpToRoundingExactly` | src/masova_agent/runtime/proposal_apply.py:116-134 | at any percentage: some slack is enough for the limit on every menu if and only if the factor's power for the number of listings is within it, and then the carried roundings are |
| `PriceLaws.CapNeedsPower` | src/masova_agent/runtime/proposal_apply.py:116-134 | listings that carry the factor past the limit break the cap on some menu |
| `PriceLaws.PriceCap` | src/masova_agent/runtime/proposal_apply.py:112-130 | one move stays within -15% and +12% to half a cent and goes only in the stated direction |
| `PriceLaws.PriceDecision` | src/masova_agent/runtime/proposal_apply.py:110-136 | an approved adjustment that lists an item once moves its price by its percentage, at most 12 up or 15 down, in its direction, rounded; an item not listed, and every price after a rejection, stays; no other table changes |
| `PriceLaws.RepeatedIdEscapesCap` | src/masova_agent/runtime/proposal_apply.py:123-134 | such an input: an id listed twice turns 100 into more than 125 |
| `ToolArgs.HydrateKeepsOtherArgs` | src/masova_agent/core/ops_contract.py:405-498 | filling in writes only the listed arguments; a pinned store stays |
| `ToolArgs.HydrateFillsOnlyGaps` | src/masova_agent/core/ops_contract.py:405-498 | an argument the model gave is never replaced; only a forecast may be completed |
| `ToolArgs.ReadsAreNotHydrated` | src/masova_agent/core/ops_contract.py:405-529 | on the cached read tools filling in is the identity and nothing is skipped |
| `ProposeLaws.PlanStepOutcome` | src/masova_agent/runtime/ops_llm.py:320-371 | a step of a plan on a callable tool: a proposing tool without what it proposes is not called and its entry gives the reason; otherwise exactly one call is added, its arguments are those given with the gaps filled, and its answer is the entry; a tool that is not callable is refused |
| `ProposeLaws.RequestOutcome` | src/masova_agent/runtime/ops_llm.py:607-631 | the same for a request of the model to a tool that is not cached |
| `ProposeLaws.OrderOutcome` | src/masova_agent/core/ops_contract.py:418-433 | an order gets the items given, else those of the newest low-stock result, and the supplier given, else that of the first item that names one; without items the reason is no_po_items |
| `ProposeLaws.CampaignOutcome` | src/masova_agent/core/ops_contract.py:413-417 | a campaign gets the customers given, else the ids of the newest churn segment that lists any; without customers, or if the newest segment counts nobody, the reason is no_churn_customers |
| `ProposeLaws.ForecastOutcome` | src/masova_agent/core/ops_contract.py:523-524 | a forecast gets the forecasts given or lifted; without any the reason is no_forecasts |
| `ProposeLaws.PlainOutcome` | src/masova_agent/core/ops_contract.py:525-529 | rosters, notifications and all other tools get what was given; a roster without shifts and a notification about nobody are passed over, each with its reason |
| `ProposeLaws.BriefOutcome` | src/masova_agent/core/ops_contract.py:463-478 | a kitchen brief gets the figures given, else those of the newest kitchen metrics, and its text likewise |
| `ProposeLaws.PriceOutcome` | src/masova_agent/core/ops_contract.py:479-497 | a price proposal without items gets ids and names of the newest source that lists any: the top items for an increase, slow or top items otherwise |
| `ProposeLaws.IdsAreNewest` | src/masova_agent/core/ops_contract.py:386-402 | the search for customers finds the newest segment that lists any |
| `ProposeLaws.SupplierInRows` | src/masova_agent/core/ops_contract.py:425-433 | the search for a supplier finds the first item that names one, under the first of three keys that has one |
| `ProposeLaws.SourceIsNewest` | src/masova_agent/core/ops_contract.py:481-495 | the search for items to price finds the newest source that lists any |
| `ToolLoop.RunScriptedToolLoop` | src/masova_agent/runtime/ops_llm.py:302-371 | the scripted loop over the first `max_calls` steps, with its three refusals, the unknown tool and the skipped proposal |
| `ToolLoop.RunGenaiToolLoop` | src/masova_agent/runtime/ops_llm.py:444-662 | the model-driven loop with budget, result cache and turns; no callable tool is an error |
| `ToolLoop.TakeTurns` | src/masova_agent/runtime/ops_llm.py:559-662 | turn after turn until the model is done or the budget is spent |
| `ToolLoop.TakeRunnable` | src/masova_agent/runtime/ops_llm.py:600-605 | the requests of a turn that fit the budget; the first that does not still counts |
| `ToolLoop.RunTurn` | src/masova_agent/runtime/ops_llm.py:607-662 | the requests of a turn all see the results before the turn; results and used tools follow in request order |
| `ToolLoop.Runnable` | src/masova_agent/runtime/ops_llm.py:600-605 | a turn runs at least one request and no more than the budget leaves |
| `ToolLoop.Next` | src/masova_agent/runtime/ops_llm.py:559-662 | every turn counts up and never past the budget |
| `LoopLaws.ScriptIsSafe` | src/masova_agent/runtime/ops_llm.py:320-371 | for every plan: no more calls than steps; every call is on the list, is no execute-tier tool, gets only parameters it takes, and the run's own store whenever it takes one |
| `LoopLaws.ScriptKeepsBudget` | src/masova_agent/runtime/ops_llm.py:318-320 | a scripted run keeps to its budget when that is not negative |
| `LoopLaws.ScriptAnswersEveryStep` | src/masova_agent/runtime/ops_llm.py:320-371 | every step that names a tool is answered by one entry of that tool, in order |
| `LoopLaws.ScriptTakesItsBudget` | src/masova_agent/runtime/ops_llm.py:318-320 | the steps taken are the first `max_calls`, the default if that is zero; a negative number leaves off that many at the end |
| `LoopLaws.WholeChatIsSafe` | src/masova_agent/runtime/ops_llm.py:559-662 | for every model: at most `max_calls` calls, each allowed, registered, below the execute tier and pinned; a disallowed request is only ever refused, never served from the cache |
| `LoopLaws.ChatRunsToItsEnd` | src/masova_agent/runtime/ops_llm.py:559-591 | the loop ends only where the model asks for nothing or the budget is spent |
| `LoopLaws.TurnAnswersRequests` | src/masova_agent/runtime/ops_llm.py:600-662 | a turn answers the requests of the model in order, all of them or as many as fit |
| `LoopLaws.UsedExactly` | src/masova_agent/runtime/ops_llm.py:636-639 | a tool is reported as used if and only if an entry of it is no refusal |
| `LoopLaws.RunOneIsSafe` | src/masova_agent/runtime/ops_llm.py:607-631 | one request keeps that, and the cache holds entries of allowed read tools only |
| `LoopLaws.CacheExactly` | src/masova_agent/runtime/ops_llm.py:534-631 | if the listed tools only read: caching changes nothing for any model that asks given questions if and only if at most one call may be made or no two questions of a callable listed tool share a key and are answered differently |
| `LoopLaws.CacheRefines` | src/masova_agent/runtime/ops_llm.py:534-631 | if the listed tools only read and tell no two questions with one key apart, the caching loop yields the same results, used tools and effects as asking every time, with no more calls |
| `LoopLaws.UncutTextsRefine` | src/masova_agent/runtime/ops_llm.py:92-101 | in particular if no argument text of a listed tool exceeds the limit |
| `LoopLaws.KeysCollideExactly` | src/masova_agent/runtime/ops_llm.py:92-101 | two different texts share a cache key if and only if both exceed the limit and agree up to it |
| `LoopLaws.CutTextsGetWrongAnswer` | src/masova_agent/runtime/ops_llm.py:609-611 | the model that asks two questions with one key gets the first answer twice from the caching loop, and both answers from the other |
| `LoopLaws.TwoQuestionsDiffer` | src/masova_agent/runtime/ops_llm.py:609-631 | so if the answers differ the two runs end differently |
| `LoopLaws.OneCallRefines` | src/masova_agent/runtime/ops_llm.py:559-631 | a run of at most one call has nothing to keep |
| `Evidence.InventoryEvidence` | src/masova_agent/runtime/ops_llm.py:255-299 | the evidence loop with its set of seen keys keeps the first report of each tool and row |
| `Evidence.AddRows` | src/masova_agent/runtime/ops_llm.py:276-298 | the same for the rows of one result |
| `Evidence.WithToolEvidence` | src/masova_agent/runtime/ops_llm.py:239-252 | a purchase order's own evidence is replaced, or removed if there is none |
| `Evidence.ExtractProposals` | src/masova_agent/runtime/ops_llm.py:221-236 | single and listed proposals of every result, each with the evidence of the results before it |
| `Evidence.SupportEach` | src/masova_agent/runtime/ops_llm.py:221-236 | the same for the proposals of one result |
| `Evidence.EvidenceIsGrounded` | src/masova_agent/runtime/ops_llm.py:255-299 | each entry is stated by a row of an earlier low-stock result, is the first report of its tool and row, is one of the ordered rows if any are named; no tool and row twice |
| `Evidence.EvidenceIsComplete` | src/masova_agent/runtime/ops_llm.py:269-298 | every such row with a stock value has an entry |
| `Evidence.ReportedIsStated` | src/masova_agent/runtime/ops_llm.py:269-290 | the facts considered are exactly those stated by wanted rows of low-stock results |
| `Evidence.ExtractedFromEarlier` | src/masova_agent/runtime/ops_llm.py:225-236 | every extracted proposal was brought by some result and supported by the ones before it alone |
| `Evidence.NothingReportedNoEvidence` | src/masova_agent/runtime/ops_llm.py:247-251 | a purchase order has evidence if and only if something was reported; its own is never kept |
| `Evidence.ExtractedIsSupported` | src/masova_agent/runtime/ops_llm.py:221-299 | end to end: the evidence of every extracted purchase order is exactly the first reports, by the results before it, of the rows it orders, each once |
| `Evidence.ExtractedExactly` | src/masova_agent/runtime/ops_llm.py:221-236 | a proposal is extracted if and only if some result brings it, alone or in a list, and it carries the evidence of the results before that one |
| `Evidence.BringsExactly` | src/masova_agent/runtime/ops_llm.py:226-235 | what one result brings is its single proposal and those of its list that are objects |
| `Evidence.ExtractedInOrder` | src/masova_agent/runtime/ops_llm.py:224-236 | proposals come out in the order of the results |
| `Evidence.OnlyEvidenceChanges` | src/masova_agent/runtime/ops_llm.py:239-252 | extraction alters nothing of a proposal but the evidence of a purchase order |
| `Evidence.EntrySays` | src/masova_agent/runtime/ops_llm.py:276-298 | an entry of the evidence names tool, row and field and gives the stock that was reported |
| `Evidence.RowSays` | src/masova_agent/runtime/ops_llm.py:276-290 | which id and which stock are read from a row |
| `Roster.BuildDraftShifts` | src/masova_agent/agents/shift_optimisation_agent.py:253-322 | the nested loops give the round-robin roster of the week |
| `Roster.AssignSlot` | src/masova_agent/agents/shift_optimisation_agent.py:295-318 | a slot takes the next people in turn |
| `Roster.StaffCount` | src/masova_agent/agents/shift_optimisation_agent.py:283-294 | two people for a slot with high demand, else one |
| `Roster.RosterSize` | src/masova_agent/agents/shift_optimisation_agent.py:266-322 | 21 shifts plus one per high-demand slot |
| `Roster.EverySlotCovered` | src/masova_agent/agents/shift_optimisation_agent.py:266-322 | every slot of all seven days has someone |
| `Roster.BusyExactly` | src/masova_agent/agents/shift_optimisation_agent.py:276-283 | a slot has two shifts if and only if the orders predicted for its hours on that weekday come to fifteen or more, else one |
| `Roster.PredictionIsRead` | src/masova_agent/agents/shift_optimisation_agent.py:272-279 | a prediction is that of the weekday and hour, a missing one is zero |
| `Roster.Fair` | src/masova_agent/agents/shift_optimisation_agent.py:295-318 | any two people's totals differ by at most one |
| `Roster.NobodyTwiceExactly` | src/masova_agent/agents/shift_optimisation_agent.py:295-318 | nobody is twice in a stretch of shifts if and only if it is no longer than the staff |
| `Roster.NobodyTwiceADay` | src/masova_agent/agents/shift_optimisation_agent.py:266-322 | nobody works twice on a day whose shifts do not exceed the staff, and only then; six always suffice |
| `Roster.RosterSurvivesDedupe` | src/masova_agent/core/ops_contract.py:366-381 | the duplicate filter leaves the roster alone if and only if there are two people or no busy slot |
| `Dedupe.DedupeRows` | src/masova_agent/core/ops_contract.py:366-381 | the filter loop keeps the first row of every key |
| `Dedupe.KeepsEveryKey` | src/masova_agent/core/ops_contract.py:366-381 | no key is lost |
| `Dedupe.ResultDistinct` | src/masova_agent/core/ops_contract.py:366-381 | no key is left twice |
| `Dedupe.UnchangedExactly` | src/masova_agent/core/ops_contract.py:366-381 | a list passes unchanged if and only if its keys are distinct |
| `Dedupe.KeptIsFirst` | src/masova_agent/core/ops_contract.py:366-381 | what is kept of a key is its first row |
| `Sealing.SealRoster` | src/masova_agent/core/ops_contract.py:564-572 | the roster branch of sealing: rows normalised, repetitions dropped, rows counted |
| `SealLaws.SealTwiceExactly` | src/masova_agent/core/ops_contract.py:304-381 | sealing twice equals sealing once if and only if every row of the payload rereads, those aside whose date, person and start an earlier row has: its given times, cut to their clock part, read as themselves, and its start is not taken for a missing date |
| `SealLaws.RowTwiceExactly` | src/masova_agent/core/ops_contract.py:313-363 | a row is sealed twice as once if and only if it rereads |
| `SealLaws.SealedExactly` | src/masova_agent/core/ops_contract.py:564-572 | the sealed rows are those of the items that come first with their date, person and start |
| `SealLaws.SealingIsIdempotent` | src/masova_agent/core/ops_contract.py:304-381 | with times that are absent, HH:MM with anything after it, or ISO date-times, sealing is idempotent |
| `SealLaws.SealedRosterIsSound` | src/masova_agent/core/ops_contract.py:564-572 | both times present in every row, keys unique, count equal to the rows |
| `SealLaws.EveryShiftKept` | src/masova_agent/core/ops_contract.py:366-381 | sealing drops repetitions only |
| `SealLaws.TimesOutcome` | src/masova_agent/core/ops_contract.py:325-340 | a time is the one given, else one of the form HH:MM |
| `SealLaws.SealedTimesExactly` | src/masova_agent/core/ops_contract.py:325-348 | both times and the slot name of a sealed row in terms of the row given: the times given, else the window of the slot it names, else the end that follows the start, else 09:00 and 16:00 |
| `SealLaws.TimesAreGiven` | src/masova_agent/core/ops_contract.py:325-326 | of three names for a time the first that has one counts |
| `SealLaws.ClockIsRead` | src/masova_agent/core/ops_contract.py:304-310 | a clock time is read alike by itself and after a date, and what follows it is dropped |
| `SealLaws.SealedRowSays` | src/masova_agent/core/ops_contract.py:349-363 | store, role, date, status and all other fields of a sealed row in terms of the row given |
| `SealLaws.SealedName` | src/masova_agent/core/ops_contract.py:321-323 | the name of a sealed row is the first of three that is not blank, without its blanks, else Staff |
| `SealLaws.SealedPerson` | src/masova_agent/core/ops_contract.py:319-355 | a sealed row has the person's id, if one was given, under three names |
| `SealLaws.SameShiftExactly` | src/masova_agent/core/ops_contract.py:366-381 | two sealed rows are one shift if and only if date, start and person are the same |
| `SealLaws.LooseTimeIsNotSteady` | src/masova_agent/core/ops_contract.py:304-310 | such an input: with a row starting at "9:00 am", cut to "9:00 ", sealing twice differs from sealing once |
| `Luhn.LuhnValid` | src/masova_agent/runtime/guardrails.py:50-60 | the loop from the right computes the Luhn test |
| `Luhn.SingleDigitErrorDetected` | src/masova_agent/runtime/guardrails.py:50-60 | no two valid strings of one length differ in exactly one digit |
| `Luhn.TwinErrorDetected` | src/masova_agent/runtime/guardrails.py:50-60 | replacing a pair of equal neighbours by another pair keeps validity if and only if the pairs are 22 and 55, 33 and 66, or 44 and 77 |
| `Luhn.WeightIsDigitSum` | src/masova_agent/runtime/guardrails.py:54-58 | a doubled digit weighs the digit sum of its double, any other what it is |
| `Luhn.AdjacentSwapDetected` | src/masova_agent/runtime/guardrails.py:50-60 | swapping neighbours keeps validity if and only if they are equal or are 0 and 9 |
| `Luhn.JumpSwapUndetected` | src/masova_agent/runtime/guardrails.py:50-60 | swapping digits two apart is never noticed |
| `Luhn.CheckDigitUnique` | src/masova_agent/runtime/guardrails.py:50-60 | every prefix has exactly one valid check digit |
| `Chunking.ChunkWords` | src/masova_agent/knowledge/rag.py:60-81 | the window loop ends and computes the windows |
| `Chunking.WindowAt` | src/masova_agent/knowledge/rag.py:64-80 | window k starts at word 320k and is 400 words long or reaches the end |
| `Chunking.WindowsCounted` | src/masova_agent/knowledge/rag.py:64-80 | no window for no words, one up to 400, else 1 + ceil((n - 400) / 320) |
| `Chunking.WindowsInFigures` | src/masova_agent/knowledge/rag.py:60-81 | the same two laws in figures: 400 words, 320 apart |
| `Chunking.FullWithExactOverlap` | src/masova_agent/knowledge/rag.py:64-80 | every window but the last has 400 words; neighbours share exactly 80 |
| `Chunking.RoundTrip` | src/masova_agent/knowledge/rag.py:60-81 | dropping the first 80 words of each later window and joining gives the text back |
| `Chunking.RunWholeInSomeWindow` | src/masova_agent/knowledge/rag.py:64-80 | every run of at most 81 words lies whole in some window |
| `Chunking.WholeRunIsRead` | src/masova_agent/knowledge/rag.py:64-80 | and reads there as in the text |
| `Chunking.LongerRunCanBeCut` | src/masova_agent/knowledge/rag.py:64-80 | 82 words need not |
| `Forecast.RangeKeptExactly` | src/masova_agent/tools/ops_tools.py:669-677 | an average with given weights keeps every series' range if and only if they do not cancel out and none has the sign opposite to their sum |
| `Forecast.ForecastsStayInRange` | src/masova_agent/tools/ops_tools.py:669-677 | both forecasts lie between any bounds of the series |
| `Forecast.AtLeastMean` | src/masova_agent/tools/ops_tools.py:671-677 | with weights that do not fall, a series that does not fall averages to at least its mean (Chebyshev's sum inequality) |
| `Forecast.ForecastsFollowTrend` | src/masova_agent/agents/demand_forecasting_agent.py:154-159 | the same for both forecasts |
| `Forecast.LaterCountsMore` | src/masova_agent/agents/demand_forecasting_agent.py:154-159 | moving a larger value one place later never lowers either forecast |
| `Forecast.ShareOfObservation` | src/masova_agent/agents/demand_forecasting_agent.py:154-159 | the share of every single observation in both forecasts, in closed form |
| `Forecast.GivenWeightsCount` | src/masova_agent/tools/ops_tools.py:669-677 | given weights count if there is one per observation, and are ignored if not |

## Left out

- Clocks, random ids, environment settings and the choice among equally new rows are
  parameters or left open. SHA-256, canonical JSON, `str` and `int`, rounding to cents and
  the JSON reading of a model's arguments are function parameters.
- Audit log: `list_runs`, `get_last_run`, the per-agent index and agent-filtered
  verification, reset helpers. Values are strings, an absent key and an empty value are one.
  A file line that is JSON but no object is not modelled.
- ProposalStore.Store.SupersedeStalePending: in superseding, sweeps, expiry and commits all
  appends are taken to succeed; single saves, resolves and decisions may fail to append.
- Cards carry an id; the reading of a proposal from a dictionary and the file lines that hold
  no proposal id are not modelled.
- ProposalStore.Store.FilteredRows: cards of equal creation time are in any order, where the
  code keeps the order of its map; the filter by type is not modelled.
- ProposalStore.Store.SweepStaleOpenQueue: among cards of equal creation time any may be the
  newest of its group.
- ProposalTools.Desk.ApproveProposal: the effect on the tables is one entry in the list of
  applied proposals; `Governance` carries it out on the tables, in demo mode. Blanks are the
  ASCII ones.
- AgentRuntime.CommitRun: a save that raises, which the code logs and skips, is not modelled.
- DraftTables.DemoBackend.PostShifts: shifts come with their date and start read and their
  staff id chosen.
- RateLimit.RateLimiter.CheckRateLimit: the branch that admits when an exception is caught,
  and floating-point rounding of times, are not modelled.
- Idempotency.ClaimTable.Claim: the Redis mirror and the building of keys are not modelled.
- Locks: each call is one step. Calls of one turn of the model take effect in the order of
  the requests; a request flagged as overlapping shows its result to the cache only after
  the turn.
- Draft tables: defaults of missing body fields, time parsing of posted shifts, ids of order
  lines, notifications, complaints and all read routes; a failing statement and its
  rollback. A store name is looked up in one map, where the code asks for an id or a code.
  A decision comes with its direction in lower case and its reason chosen.
- ToolArgs.HydrateKeepsOtherArgs: the forecast series lifted from earlier results, the
  wording of a kitchen brief, and arguments of the wrong JSON shape (for which the code
  raises and reports an error) are not modelled in detail.
- Filling in of arguments, the reading of proposals out of a result and the normalising of a
  row are functions on values; their searches through earlier results are recursion where the
  code loops and copies.
- Tool loops: prompts, history, timeouts and errors of the model call, traces, summaries and
  counters; entries of the result list carry no copy of the arguments.
- Sealing.SealRoster: other payload kinds are not sealed here; blanks are the ASCII ones;
  the staff index, which sealing leaves empty, is not modelled. Absent keys and nulls are one.
- Roster: names, roles and clock texts of shifts; the forecast is a table of real numbers.
- Chunking: splitting a document into headed sections and the text of a chunk.
- Forecast: rounding of the result to two or four decimals.
- The approval gate of single agents, scopes, JWT and API keys, guardrail patterns, metrics,
  the circuit breaker and the React console are simple, or depend on libraries.
