# Workgroup engine: a verified model

This project models the control plane of the Manage workgroup engine, which queues human
turns, runs a bounded leader loop over tool calls, delegates to members, and delivers an
ordered log to nodes and browsers. It also models five small algorithms kept in the same
repository: the license policy, the ZIP pre-check, the packaging of tool results, release
lines with their version order, and the rate limit on feedback.

Check the whole project with `dafny verify dfyconfig.toml` (Dafny 4.11).

## How the model is built

An object whose methods change its fields is a class here, and each method is proved against
a function of the old state. The properties over whole runs are lemmas about those functions.

| module | what it covers |
|---|---|
| History, Pairing, LeaderLoop | run histories, open tool calls, healing; which histories can be completed; the bounded loop |
| SharedHistory | one history written by several loops and heals at once |
| Compression, SnapshotChain | the choice of a cut; snapshots saved by overlapping tasks |
| TurnLane, HumanQueue, MessageFates | the lock sections of one queue; all their interleavings with crashes; the fate of each message |
| Assignments, AssignmentService, AgentTurns, Reconciliation | assigns and member occupancy; dispatch; frames from nodes; restart |
| EventLog, Resume, BrowserStream, Fencing | Timeline and outbox; gap-fill; live streams; generations |
| HumanQuestions | questions to a human and the threads blocked on them |
| LicenseGrammar, LicenseText | license expressions on tokens and on text |
| ZipLimits | the central directory reader |
| ToolResult | head, hint and tail under a token threshold |
| Versions, VersionText, Releases | version order, version text, latest pointers |
| RateLimiter | the sliding window |
| Shared, Seqs, Whitespace, Decimal | shared types and facts about sequences, white space and decimal digits |

Assumptions that make the statements true of the code:

- A method that holds one lock is one step. `finish`, `cancel_active`, the harvest of one
  summary task, `resume_offer` and the handling of one result frame are also one step each,
  although the code takes several locks. Committing a Timeline event and publishing it are two
  steps, and so are committing a queued message and deleting its record, storing a reply and
  storing its results, and reading the open calls and storing their failures.
- Queue ids, assign ids and turn tokens are fresh.
- The model behind the leader loop is an arbitrary function of the round, the history and
  whether tools are offered. Tool results are arbitrary text. Message weights and the hash of a
  prefix are arbitrary functions; one lemma that needs the hash to be injective says so.
- Token weights 0.3 and 0.6 are counted exactly, in tenths or twentieths of a token. The
  compression ratio of a ZIP entry is compared by multiplication; for the limit of 200 and
  32-bit sizes this decides as the division in the code does.

## Where the code and its promises differ

Each of these has a lemma at failing inputs, one of them or all, and a lemma that says exactly
when the promise holds.

- Healing goes by call id alone. A streaming reply without ids is numbered `call_0` upwards
  (manage/workgroup/llm_chat.py:177), so a second interrupted reply looks answered
  (`ReusedIdDefeatsHealing`, `HealPairsDanglingBatch`). A call with an empty id never closes
  (`HealCloses`, `HealBreaks`).
- A cancel heals the run from another thread. If it falls between a reply and its results, the
  failures come first and the results behind them; the history then counts as closed and stays
  badly paired for good (`CancelDuringTools`, `OneLoopPaired`, `EveryRequestPaired`). A restart
  may start two loops on one run, with the same effect (`SecondLoopBreaks`, `PairedExactly`). A
  loop that finds nothing to heal shows its model the history it read before
  (`StaleRequest`, `RequestPairedExactly`). These statements over all runs are about batches
  with ids of their own.
- The compressor may then cut between the two answers of one call, and keep a result without
  its call (`LateResultLosesCall`, `RunCutKeepsCalls`).
- A summary task may have a shorter history than its snapshot, since another loop can save one
  after the history was read. It is saved all the same, and the covered prefix shrinks
  (`ShortHistoryFallsBack`, `SavingKeepsChain`). Nothing is lost (`ChunksAndTailRebuild`).
- With reused ids the compressor may cut between a call and its result
  (`ReusedIdSplitsBatch`); `ClosedCutSplitsBatch` says exactly when.
- A human question resumed after a restart gets its result before its sisters are healed, which
  breaks call order unless it was the first call (`SecondQuestionBreaksOrder`,
  `ResumedQuestionKeepsOrder`).
- A worker that fails before its message is committed strands the message until the next
  restart (`FailureStrandsMessage`, `FailedExactly`). A message whose client id already waits is
  saved but not queued (`RepeatedClientHidden`, `CopiesPartAtSubmission`). A message that runs
  at once has no durable record, and these are exactly the ones a crash loses
  (`RunningMessageLost`, `CrashLosesExactly`). A crash between
  commit and delete runs a message again, and puts it on the Timeline twice if it has no client
  id (`CrashRepeatsMessage`, `CrashRequeues`, `SecondCommitRepeats`).
- A late approval request writes `awaiting_hitl` over a terminal status
  (`LateApprovalExample`, `LateApprovalBreaksOccupancy`).
- The dispatcher reports another status than the stored one if a cancel slips in between its
  last look and its own finish (`RacingCancelMisreported`, `DispatchAssign`).
- A result that ends as "awaiting" is published and answered, but stored as failed
  (`AwaitingAnswerReportedFailed`, `StoredAgainstAnswered`). A cancel signalled before the turn
  registers its waiter is not announced to it (`SignalWakes`). A stream epoch that returns makes
  events count twice (`ReturningEpochRepeats`, `TakenInOrder`).
- A plain outbox frame has no rollback: after a failed write a restart leaves a gap
  (`GapExample`, `LostFrameLeavesGap`), or gives the number to another frame, which a node that
  already holds the lost one never gets (`NumberReused`, `RestartMisses`).
- A frame that names a member not yet known goes to every node, and to one only later
  (`UnknownMemberExample`, `AudienceIsFixed`).
- A browser that resumes from the highest event it saw can miss one that was overtaken
  (`OvertakingLosesAnEvent`, `RejoinMisses`), also after its queue overflowed
  (`OverflowRejoinMisses`).
- A restart leaves abandoned assigns without an assign_finished event
  (`AbandonedExample`, `ExactlyOneFinishedEvent`), and makes an occupied archived member ready again
  (`ArchivedMemberReturns`, `ArchiveSurvivesUnlessOccupied`).
- Two messages of the same second are reloaded by id, not by arrival (`SameSecondExample`,
  `ArrivalOrder`).
- The rate limiter reads the clock before it takes its lock, so a late request can be the
  twenty-first of a minute (`TwentyOneInAMinute`, `AtMostTwentyWithin`,
  `LateRequestBreaksLimit`).
- A ZIP comment that holds an end signature hides the real end record
  (`NestedEndHidesArchive`, `ArchiveFound`).
- A license name such as `AND-1` is split into an operator and a name (`OperatorSplitOff`,
  `PrintRoundTrip`).
- A long run of white space is packaged differently the second time
  (`BlankTextChanges`, `PackagingIsIdempotent`).

## Model

| member | source | states |
|---|---|---|
| History.OpenToolCallIds | manage/workgroup/history.py:46-57 | the scan returns exactly the called ids that no tool message answers, in order of appearance |
| History.PairedCut | manage/workgroup/history.py:46-57 | cutting off a well-paired prefix does not change whether the rest is well paired |
| History.PairedThenBatch | manage/workgroup/history.py:46-57 | a batch after a well-paired history keeps it well paired exactly when the tool messages match its calls one for one, in call order |
| History.PairedIsClosed | manage/workgroup/history.py:46-57 | a well-paired history has no open call exactly when no call id is empty |
| History.MatchedCanInvoke | manage/workgroup/history.py:60-74 | results in call order always let the model go on |
| History.CanInvokeMeansClosed | manage/workgroup/history.py:60-74 | a batch is closed by its results exactly when the go-on check passes and no call id is empty |
| History.HealCloses | manage/workgroup/turn_kernel.py:1846-1889 | healing closes a history exactly when no call id is empty, and leaves a closed history alone |
| History.CallNameIsLast | manage/workgroup/turn_kernel.py:1861-1866 | a synthetic failure carries the name of the last call with its id |
| History.AllCallsInOrder | manage/workgroup/turn_kernel.py:1861-1866 | the calls looked through are those whose ids are called, in order |
| History.HealPairsDanglingBatch | manage/workgroup/turn_kernel.py:1846-1889 | healing a batch left without results gives a well-paired history exactly when none of its ids was answered before |
| Pairing.PairedIsRead | manage/workgroup/history.py:46-74 | reading a history message by message ends with nothing waiting exactly when it is well paired |
| Pairing.BrokenForGood | manage/workgroup/history.py:46-74 | a history is broken exactly when nothing that could follow makes it well paired |
| Pairing.HealBreaks | manage/workgroup/turn_kernel.py:1846-1889 | healing a well-paired history with an empty id leaves one that no continuation repairs |
| Pairing.HealedIsPaired | manage/workgroup/turn_kernel.py:1846-1889 | where no batch dangles, healing gives a well-paired history exactly if it was one and calls no empty id |
| Pairing.MeanwhileBreaks | manage/workgroup/turn_kernel.py:1520-1708 | messages stored between a batch and its results break the history, whatever they are, as long as they call nothing |
| History.ReusedIdDefeatsHealing | manage/workgroup/turn_kernel.py:1846-1889 | a concrete history with a reused call id that counts as closed, heals to itself and is not well paired |
| History.ResumedQuestionKeepsOrder | manage/workgroup/turn_kernel.py:1846-1889 | answering a human question after a restart and healing the rest keeps call order exactly when the question was the first call of its batch |
| History.SecondQuestionBreaksOrder | manage/workgroup/turn_kernel.py:1846-1889 | two calls of which the second is a question: the healed history is not well paired |
| LeaderLoop.Results | manage/workgroup/turn_kernel.py:1568-1696 | a batch is answered one for one in call order, whatever the tools return |
| LeaderLoop.BatchForGood | manage/workgroup/turn_kernel.py:1568-1708 | in any conversation the results of a batch stand behind it for good: the tool outputs below max_steps, the notice from there on |
| LeaderLoop.RequestShows | manage/workgroup/turn_kernel.py:1463-1490 | a request shows everything stored before, one failure for each open call, and the date when it is due |
| LeaderLoop.ResultsLetTheLoopGoOn | manage/workgroup/turn_kernel.py:1697-1706 | the pairing check before the next request never stops the loop |
| LeaderLoop.ConversationGrows | manage/workgroup/turn_kernel.py:1463-1709 | one more exchange that follows the rules extends a conversation |
| LeaderLoop.LeaderRun.HealOpenToolCalls | manage/workgroup/turn_kernel.py:1846-1889 | in place, the history becomes the healed history and the open ids are returned |
| LeaderLoop.LeaderRun.Ask | manage/workgroup/turn_kernel.py:1463-1516 | the request shows the healed, dated history and withholds tools once the soft budget is spent |
| LeaderLoop.LeaderRun.Record | manage/workgroup/turn_kernel.py:1518-1709 | the history becomes request, reply, whatever other threads stored meanwhile, and one result per call |
| LeaderLoop.LeaderRun.Round | manage/workgroup/turn_kernel.py:1463-1709 | one round adds one exchange and keeps the conversation and the stored history in step |
| LeaderLoop.LeaderRun.RunRounds | manage/workgroup/turn_kernel.py:1463-1709 | the rounds end after at most max_steps + 2 requests, at most max_steps batches really run, and each way of ending holds what it says |
| LeaderLoop.LeaderRun.RunUntilIdle | manage/workgroup/turn_kernel.py:1406-1709 | besides, the history holds for every call of a batch that ran the output of its own tool under its own name, and for every other dispatched call the notice; each reply is the model's to its request, and tools are offered exactly while the soft budget lasts |
| LeaderLoop.EveryRequestClosed | manage/workgroup/turn_kernel.py:1463-1516 | every request of every conversation is closed exactly when it holds no empty call id |
| LeaderLoop.EveryRequestPaired | manage/workgroup/turn_kernel.py:1463-1709 | a request is well paired exactly when the start can be healed, nothing was stored between an earlier reply and its results, and (but for the first) no empty id is called |
| LeaderLoop.LoopLeavesPaired | manage/workgroup/turn_kernel.py:1463-1709 | the loop leaves a well-paired history exactly when its last request was and nothing was stored between the last reply and its results; a refused batch heals exactly when its ids were not answered before |
| LeaderLoop.CancelDuringToolsBreaks | manage/workgroup/turn_kernel.py:785-814 | if a cancel heals while the tools of a batch run, no later request of the loop is well paired |
| LeaderLoop.StubbornModelReachesTheBound | manage/workgroup/turn_kernel.py:1463-1709 | a model that always calls tools makes exactly max_steps + 2 requests, so the bound is tight |
| SharedHistory.NewResults | manage/workgroup/store.py:840-873 | stored answers keep a history repairable exactly when their ids are the first that are open, and then close exactly those |
| SharedHistory.StepKeepsInv | manage/workgroup/turn_kernel.py:1463-1709 | every step of every thread keeps the invariants, and breaks the history exactly when its append does not fit |
| SharedHistory.PairedExactly | manage/workgroup/turn_kernel.py:1463-1709 | over every run of any threads with own, non-empty ids: the history is well paired exactly when every append fitted and nothing is open |
| SharedHistory.AnswersFitExactly | manage/workgroup/turn_kernel.py:1846-1889 | results, or the failures of a heal, fit exactly when nothing was stored since the reply, or since the open calls were read |
| SharedHistory.QuestionFitsExactly | manage/workgroup/turn_kernel.py:274-320 | the answer to a resumed question fits exactly when its call is the first that is open |
| SharedHistory.BrokenStays | manage/workgroup/turn_kernel.py:1846-1889 | no later step of any thread repairs a broken history |
| SharedHistory.OneLoopPaired | manage/workgroup/turn_kernel.py:785-814 | with one loop and any heals from other threads, every request is well paired exactly when no answers were stored between the promise and the storing of others: no heal between a reply and its results, or within another heal |
| SharedHistory.RequestPairedExactly | manage/workgroup/turn_kernel.py:1463-1516 | a request shows the history of an earlier state, and is well paired exactly when all appends up to there fitted and nothing was open |
| SharedHistory.RunAnswersFollowCalls | manage/workgroup/turn_kernel.py:1463-1709 | in every run every result comes after a call of its id |
| SharedHistory.RunCutKeepsCalls | manage/workgroup/context_compression.py:85-97 | in every run a closed cut leaves each kept result its call exactly when none repeats an answer given before the cut |
| SharedHistory.LateResults | manage/workgroup/turn_kernel.py:1708-1709 | after any well-paired history: a batch, its failures and then its results are closed, unchanged by healing, and broken |
| SharedHistory.CancelDuringTools | manage/workgroup/turn_kernel.py:785-814 | for any history and batch, a run of one loop and one cancel that ends so |
| SharedHistory.SecondLoopBreaks | manage/workgroup/routes.py:105-106 | for any history and batch, a run of two loops in which the second replies while the tools of the first still run |
| SharedHistory.StaleRequest | manage/workgroup/turn_kernel.py:1465-1472 | for any history and batch, a run in which a loop shows its model a batch that another thread has already healed |
| Compression.EstimateMonotone | manage/workgroup/context_compression.py:54-59 | a longer list is never estimated below a prefix of it |
| Compression.EstimateCountsWeights | manage/workgroup/context_compression.py:54-59 | the estimate is a tenth of weights and punctuation, rounded down but at least one: bounds from both sides |
| Compression.EstimateGrows | manage/workgroup/context_compression.py:54-59 | two tokens more are always seen, and two lists weigh at most one token more together than apart |
| Compression.CutKeeps | manage/workgroup/context_compression.py:54-59 | cutting within the budget leaves at least keep - 1 estimated tokens |
| Compression.CheckClosedAt | manage/workgroup/context_compression.py:85-97 | a prefix counts as closed exactly when it has no open call |
| Compression.ClosedPrefixEnds | manage/workgroup/context_compression.py:85-97 | the candidates are exactly the closed ends in range, in increasing order |
| Compression.LargestWithin | manage/workgroup/context_compression.py:129-138 | stopping at the first candidate over budget still finds the largest one within it |
| Compression.BuildCompressionPlan | manage/workgroup/context_compression.py:99-143 | the plan is the largest admissible cut, and is absent only if compression is not due or no cut is admissible |
| Compression.HeavyHistoryIsCut | manage/workgroup/context_compression.py:99-143 | a closed history whose unsummarised part weighs the trigger is compressed if some closed cut leaves the weight to be kept, at that cut or a later one |
| Compression.PlanIsDue | manage/workgroup/context_compression.py:109-124 | no plan is made without a trigger, with an open call, or below the trigger |
| Compression.CurrentForItsPrefix | manage/workgroup/context_compression.py:73-82 | a snapshot is current for the very prefix it summarises unless it is blank or empty |
| Compression.PlanKeepsTail | manage/workgroup/context_compression.py:99-143 | a plan strictly extends the current snapshot, leaves a message, and keeps at least keep - 1 tokens |
| Compression.PairedAnswersOnlyCalls | manage/workgroup/context_compression.py:85-97 | in a well-paired history every answered id was called |
| Compression.CutIsBoundary | manage/workgroup/context_compression.py:85-97 | both sides of a cut are well paired exactly when it falls into no batch, and it falls into at most one |
| Compression.ClosedInsideBatch | manage/workgroup/context_compression.py:85-97 | a cut inside a batch is closed exactly when no id up to it is empty and every call with its result beyond the cut was answered before |
| Compression.ClosedCutSplitsBatch | manage/workgroup/context_compression.py:85-97 | a cut is closed and yet splits a batch exactly when it falls into a batch whose calls beyond the cut were all answered before, and no id up to it is empty |
| Compression.ClosedCutIsBoundary | manage/workgroup/context_compression.py:85-97 | a closed cut leaves both sides well paired exactly when it falls into no such batch |
| Compression.UniqueIdsNeverSplit | manage/workgroup/context_compression.py:85-97 | with ids used once there is no such batch |
| Compression.ReusedIdSplitsBatch | manage/workgroup/context_compression.py:99-143 | two answered replies numbered call_0: the plan must cut between the second call and its result |
| Compression.KeptResultsKeepCalls | manage/workgroup/context_compression.py:85-97 | in any history whose results follow their calls, every kept result keeps its call exactly when none repeats an answer given before the cut |
| Compression.AnsweredOnceKeepsCalls | manage/workgroup/context_compression.py:85-97 | if each id is answered once, after its call, no kept result loses its call, paired or not |
| Compression.HealKeepsAnswers | manage/workgroup/turn_kernel.py:1846-1889 | healing a history with ids of its own keeps every answer single and after its call |
| Compression.ResumedAnswerKeepsAnswers | manage/workgroup/turn_kernel.py:1846-1889 | so does answering a question before its sister calls are healed |
| Compression.PairedAnswersFollow | manage/workgroup/context_compression.py:85-97 | in a well-paired history every result follows its call |
| Compression.LateResultLosesCall | manage/workgroup/context_compression.py:99-143 | one id answered by a cancel and then by its tool: the plan must cut between the two, and the kept result has no call |
| SnapshotChain.CurrentUnderAppend | manage/workgroup/context_compression.py:73-82 | a current snapshot stays current whatever is appended |
| SnapshotChain.CurrentMeansSamePrefix | manage/workgroup/context_compression.py:73-82 | with an injective hash, current means exactly that the summarised prefix is unchanged |
| SnapshotChain.CandidateCurrent | manage/workgroup/turn_kernel.py:943-1009 | a task's snapshot is current when harvested, however much later; it starts where its own snapshot ended if the task's history reaches so far, and from the beginning otherwise |
| SnapshotChain.EpochDecides | manage/workgroup/turn_kernel.py:1003-1008 | comparing epochs tells exactly whether the task started from the latest snapshot |
| SnapshotChain.SavingKeepsChain | manage/workgroup/context_compression.py:190-212 | saving keeps every saved snapshot current and the chunks in step, and raises the covered prefix exactly when the task's history reached as far as its snapshot |
| SnapshotChain.ShortHistoryFallsBack | manage/workgroup/turn_kernel.py:855-878 | on any five plain messages, a task with a short history passes both checks and lowers the covered prefix from four to two |
| SnapshotChain.ScheduledStays | manage/workgroup/turn_kernel.py:943-989 | a running task stays harvestable while history grows and other tasks are saved |
| SnapshotChain.ChunksAndTailRebuild | manage/workgroup/context_compression.py:214-230 | the chunks summarised since the last start from the beginning, followed by the raw tail, are the whole history |
| SnapshotChain.ContextSnapshots.Append | manage/workgroup/turn_kernel.py:991-1009 | appending keeps every saved snapshot valid |
| SnapshotChain.ContextSnapshots.Schedule | manage/workgroup/turn_kernel.py:943-989 | a scheduled task freezes the history its loop had read and the snapshot of that moment, with the best plan for them |
| SnapshotChain.ContextSnapshots.Harvest | manage/workgroup/turn_kernel.py:991-1009 | exactly a non-blank summary made from the latest snapshot is saved, and the covered prefix grows exactly when its history reached so far |
| TurnLane.SortItemsSorts | manage/workgroup/turn_kernel.py:602-604 | the queue sort orders by priority, then age, then id, and keeps the items |
| TurnLane.TurnKernel.ClaimNextHuman | manage/workgroup/turn_kernel.py:381-402 | the head of the queue becomes the held turn under a fresh token |
| TurnLane.TurnKernel.EndTurn | manage/workgroup/turn_kernel.py:367-379 | a stale token changes nothing; the current one claims the next item in the same section, and exactly that item is returned |
| TurnLane.TurnKernel.Enqueue | manage/workgroup/turn_kernel.py:629-638 | the returned position is that of the message or of the queued one with its client id |
| TurnLane.TurnKernel.ClaimOrEnqueue | manage/workgroup/turn_kernel.py:640-677 | a message runs at once only if no turn is held and nothing waits; otherwise it is queued and saved |
| TurnLane.RunsAtOnceExactly | manage/workgroup/turn_kernel.py:640-677 | a message runs at once exactly on a free lane with an empty queue; otherwise it is saved, and waits last unless its client id waits already |
| TurnLane.TurnKernel.CancelItem | manage/workgroup/turn_kernel.py:541-557 | the item leaves memory and disk together, and nothing else moves |
| TurnLane.CancelsExactly | manage/workgroup/turn_kernel.py:541-557 | an item that does not wait in memory is not cancelled and keeps its record |
| TurnLane.TurnKernel.PromoteItem | manage/workgroup/turn_kernel.py:583-607 | the item goes to the head in memory and to disk, and the token of that moment is returned |
| TurnLane.PromotedToHead | manage/workgroup/turn_kernel.py:583-604 | on any lane a promoted item is first in the queue |
| TurnLane.PromotedIsClaimed | manage/workgroup/turn_kernel.py:583-621 | a turn taken over right after is the promoted message's |
| TurnLane.TurnKernel.ForceClaim | manage/workgroup/turn_kernel.py:609-621 | the turn is taken over only if it is free or still the one seen first, and exactly the item claimed is returned |
| TurnLane.TurnKernel.ResumePersisted | manage/workgroup/turn_kernel.py:435-467 | a restarted queue claims its head unless a turn is held, and exactly that item is returned |
| TurnLane.WithoutDistinct | manage/workgroup/turn_kernel.py:545-549 | removing the found place is removing the id |
| HumanQueue.StepKeepsTokens | manage/workgroup/turn_kernel.py:367-402 | every step keeps the token invariant: only the current token's worker has yet to begin, and a waiting queue has a turn |
| HumanQueue.StepKeepsLedger | manage/workgroup/turn_kernel.py:1112-1135 | every step keeps the ledger of queue, workers, durable records and Timeline |
| HumanQueue.StepsRunLockSections | manage/workgroup/turn_kernel.py:367-402 | the steps that end, force or resume run exactly the lock sections of the kernel |
| HumanQueue.RunKeepsInv | manage/workgroup/turn_kernel.py:367-402 | both invariants hold in every reachable state |
| HumanQueue.QueueNeverStalls | manage/workgroup/turn_kernel.py:367-402 | in every reachable state a waiting queue has a held turn owned by a live worker, and a worker yet to begin still owns its turn |
| HumanQueue.StaleWorkerChangesNothing | manage/workgroup/turn_kernel.py:371-375 | a worker whose token is not current ends without touching turn, queue or records |
| HumanQueue.SendNowStarts | manage/workgroup/turn_kernel.py:583-625 | a send-now that finds the turn idle and takes it over at once starts its own message |
| HumanQueue.CancelTakesOut | manage/workgroup/turn_kernel.py:541-557 | cancelling a waiting message takes it out of queue and records for good and touches no worker |
| HumanQueue.CrashAndRecovery | manage/workgroup/turn_kernel.py:435-467 | a crash leaves no worker and no turn, and the recovery ends with a turn for the head of the queue |
| HumanQueue.CrashKeepsOrder | manage/workgroup/turn_kernel.py:435-467 | a crash keeps the order of the waiting messages if memory is in key order |
| HumanQueue.ArrivalOrder | manage/workgroup/human_queue.py:16-17 | arrival keeps memory in key order exactly when the new key comes after the last; with one-second timestamps it may not |
| HumanQueue.SameSecondExample | manage/workgroup/human_queue.py:16-17 | two messages of one second are sorted by id, against their arrival |
| MessageFates.EveryMessageAccountedFor | manage/workgroup/turn_kernel.py:640-665 | every accepted message is, in every later state, in exactly one recorded place, and the place is real; one whose client id was waiting has its record until a crash |
| MessageFates.OneEventPerClientId | manage/workgroup/turn_kernel.py:1123-1131 | no client id is on the Timeline twice in any reachable state |
| MessageFates.CopiesPartAtSubmission | manage/workgroup/turn_kernel.py:629-665 | after a submission memory and durable copy disagree exactly when the message had to wait and its client id was waiting already |
| MessageFates.FailedExactly | manage/workgroup/turn_kernel.py:367-379 | between crashes a message is failed exactly if it was, or a worker that held it left before committing it |
| MessageFates.CrashClearsFailed | manage/workgroup/turn_kernel.py:435-467 | a crash leaves nothing failed |
| MessageFates.FailureStrandsMessage | manage/workgroup/turn_kernel.py:1112-1135 | a reachable run that ends with a failed message in no queue and with no worker, its record kept |
| MessageFates.CrashRequeues | manage/workgroup/turn_kernel.py:435-467 | after a crash exactly the messages with a durable record are queued, committed ones included whose record was not yet deleted or was stale |
| MessageFates.CrashLosesExactly | manage/workgroup/turn_kernel.py:640-677 | a crash loses a submitted message that was neither committed nor cancelled exactly when it had been run at once |
| MessageFates.CommittedStays | manage/workgroup/turn_kernel.py:1123-1135 | only a crash makes a committed message uncommitted |
| MessageFates.SecondCommitRepeats | manage/workgroup/turn_kernel.py:1123-1131 | a message committed again is put on the Timeline a second time exactly when it has no client id |
| MessageFates.CrashRepeatsMessage | manage/workgroup/turn_kernel.py:1123-1135 | a reachable run that puts one message on the Timeline twice |
| MessageFates.RunningMessageLost | manage/workgroup/turn_kernel.py:640-677 | a reachable run that loses a message which ran at once |
| MessageFates.RepeatedClientHidden | manage/workgroup/turn_kernel.py:629-665 | a reachable run in which a message with a waiting client id is saved and not queued |
| Assignments.AtMostOneActivePerMember | manage/workgroup/store.py:573-646 | at most one assign of a member is active |
| Assignments.CreateKeepsInv | manage/workgroup/assignment_service.py:23-43 | creating adds one running assign, occupies its member, makes a ready member busy, and changes nothing else |
| Assignments.FinishKeepsInv | manage/workgroup/assignment_service.py:45-84 | finishing an active assign stores status, summary and error, frees its member unless archived or broken, adds its event, and changes nothing else |
| Assignments.OtherWrites | manage/workgroup/store.py:904-982 | an approval request keeps all but the status; a session report sets the status of any but an archived member |
| Assignments.RefusedMembers | manage/workgroup/store.py:573-646 | an assign is refused exactly for an unknown, archived or broken member or one with an active assign |
| Assignments.StepKeepsInv | manage/workgroup/store.py:941-982 | every operation keeps occupancy and events |
| Assignments.StepKeepsFinished | manage/workgroup/assignment_service.py:57-60 | a finished assign keeps status, summary, error and event under every operation |
| Assignments.RestartKeepsInv | manage/workgroup/store.py:1159-1204 | a restart makes exactly the active assigns indeterminate, with its summary and code, and exactly the busy or occupied members ready; nothing else changes |
| Assignments.RestartFreesMembers | manage/workgroup/store.py:1173-1204 | even with unsound occupancy the busy member of an abandoned assign is freed |
| Assignments.RunKeepsInv | manage/workgroup/store.py:573-646 | the invariants hold after every run of operations |
| Assignments.RunKeepsFinished | manage/workgroup/assignment_service.py:57-60 | a finished assign stays as it is over every run |
| Assignments.ExactlyOneFinishedEvent | manage/workgroup/assignment_service.py:61-84 | over every run from an empty store, restarts included, an assign is terminal exactly if it has its one assign_finished event or a restart abandoned it, and never both |
| Assignments.AbandonedExample | manage/workgroup/store.py:1173-1204 | a running assign and a restart: it is terminal and has no event |
| Assignments.LateApprovalBreaksOccupancy | manage/workgroup/vertical.py:395-399 | the unguarded awaiting_hitl write keeps occupancy exactly when the assign was still active |
| Assignments.LateApprovalExample | manage/workgroup/vertical.py:395-399 | a finished assign and its late approval request: occupancy is broken |
| AssignmentService.WorkGroupStore.CreateAssign | manage/workgroup/store.py:573-646 | an assign is created exactly for a known, usable member without an active one |
| AssignmentService.WorkGroupStore.SetAssignStatus | manage/workgroup/store.py:941-982 | the status is written whatever it was; a terminal one frees the member that names the assign |
| AssignmentService.WorkGroupStore.MarkMemberStatus | manage/workgroup/store.py:904-939 | an archived member stays archived against later session reports |
| AssignmentService.WorkGroupStore.Create | manage/workgroup/assignment_service.py:23-43 | create is store creation followed by running |
| AssignmentService.WorkGroupStore.Finish | manage/workgroup/assignment_service.py:45-84 | a terminal assign is returned unchanged; an active one is written and gets one event |
| AssignmentService.WorkGroupStore.CancelActive | manage/workgroup/assignment_service.py:89-128 | exactly the selected active assigns are canceled, each with one event, and nothing else changes |
| AssignmentService.CancelEachCancels | manage/workgroup/assignment_service.py:107-128 | finishing assigns one by one as canceled changes exactly those |
| AssignmentService.WorkGroupStore.DispatchAssign | manage/workgroup/native_tools.py:194-338 | for every completer outcome and every interference the assign ends terminal with one event and a free member; if nobody else finished it, it is stored and reported as succeeded with the returned summary exactly for a return, and otherwise as failed with the message and its code; the report is the stored status exactly when no race finished it differently |
| AssignmentService.RacingCancelMisreported | manage/workgroup/native_tools.py:228-290 | on any store, a cancel between the last look and the finish makes the dispatcher report success on a canceled assign |
| AgentTurns.TurnInbox.AdvanceEventCursor | manage/workgroup/store.py:984-1025 | an event is taken exactly when unnumbered, of another epoch, or above the cursor |
| AgentTurns.CursorRises | manage/workgroup/store.py:984-1025 | behind a taken event the cursor only rises until an event opens another epoch; a blank epoch never does |
| AgentTurns.TakenInOrder | manage/workgroup/store.py:984-1025 | of two taken numbered events the later has the greater number unless an event up to it opened another epoch |
| AgentTurns.TakenExactly | manage/workgroup/store.py:984-1025 | within one epoch an event is taken exactly when its number exceeds the old cursor and every number before it |
| AgentTurns.OtherEpochTaken | manage/workgroup/store.py:997-1012 | an event of another epoch is always taken and numbers count from it again |
| AgentTurns.ReturningEpochRepeats | manage/workgroup/store.py:997-1012 | an epoch that comes back makes the same event be taken twice |
| AgentTurns.AwakeHasMail | manage/workgroup/vertical.py:178-188 | a woken thread always finds a result |
| AgentTurns.SignalWakes | manage/workgroup/vertical.py:330-335 | a signal wakes the thread exactly when it had begun to wait; an earlier one is never announced |
| AgentTurns.TurnInbox.StartTurn | manage/workgroup/vertical.py:89-95 | starting a turn registers the waiter once, before the frame is sent |
| AgentTurns.TurnInbox.Signal | manage/workgroup/vertical.py:330-335 | a signal stores the result and sets the waiter of its own assign only |
| AgentTurns.TurnInbox.GiveUp | manage/workgroup/vertical.py:173-180 | a thread past its deadline drops its waiter and leaves any result |
| AgentTurns.TurnInbox.TakeResult | manage/workgroup/vertical.py:182-187 | the woken thread takes the last result signalled |
| AgentTurns.TurnInbox.HandleResult | manage/workgroup/vertical.py:518-608 | a result frame that fits an active assign finishes it, publishes its text once and wakes its thread; any other changes nothing |
| AgentTurns.LateResultsNeverCount | manage/workgroup/vertical.py:531-540 | after the first result no later frame of the assign counts, whatever else happens |
| AgentTurns.AddressFits | manage/workgroup/vertical.py:518-540 | a frame that names its turn and attempt fits exactly one binding; what it leaves out does not matter |
| AgentTurns.ResultStored | manage/workgroup/vertical.py:556-590 | a counted result leaves its text, or else its message, and an error code exactly if it did not succeed |
| AgentTurns.StoredAgainstAnswered | manage/workgroup/vertical.py:207-218 | the stored status and the answer to the waiting assign disagree exactly for a result that awaits input; canceled is stored exactly for a canceled one |
| AgentTurns.AwaitingAnswerReportedFailed | manage/workgroup/vertical.py:541-590 | on any store, such a result with a text is published and answered, and the assign reported as failed |
| Reconciliation.RestartingStore.RecoverableRuns | manage/workgroup/store.py:1111-1131 | exactly the runs with a pending or unreplayed bound question are recoverable |
| Reconciliation.RestartingStore.FenceRuns | manage/workgroup/store.py:1136-1158 | live runs become awaiting_hitl or indeterminate, others stay |
| Reconciliation.RestartingStore.ReleaseIdleMembers | manage/workgroup/store.py:1159-1172 | exactly the busy members without an active assign are reset |
| Reconciliation.RestartingStore.AbandonAssigns | manage/workgroup/store.py:1173-1204 | active assigns become indeterminate and the members they occupy are reset |
| Reconciliation.RestartingStore.ReconcileInflightRuns | manage/workgroup/store.py:1098-1209 | the passes together are one reconciliation of the whole state |
| Reconciliation.PassesCompose | manage/workgroup/store.py:1159-1204 | the two member passes in sequence reset each member at most once and in the same way |
| Reconciliation.ReconciliationFences | manage/workgroup/store.py:1098-1209 | afterwards nothing is active or occupied, no checkpoint is left, and every live run waits for a question that can continue it |
| Reconciliation.ReconciliationSparesRuns | manage/workgroup/store.py:1136-1158 | ended runs stay; a live run is given up exactly when nothing can continue it |
| Reconciliation.QuestionKeepsRun | manage/workgroup/store.py:1111-1131 | a pending bound question keeps its run, and so does an answer not yet in its history; a replayed or unbound one does not |
| Reconciliation.ReconciliationIdempotent | manage/workgroup/store.py:1098-1209 | a second pass changes nothing |
| Reconciliation.ArchiveSurvivesUnlessOccupied | manage/workgroup/store.py:1190-1196 | an archived member stays archived exactly when no assign occupied it |
| Reconciliation.ArchivedMemberReturns | manage/workgroup/store.py:1190-1196 | an archived member with a running assign is ready after a restart |
| EventLog.AppendKeepsSound | manage/workgroup/store.py:1213-1308 | appending a new client id keeps numbering, outbox order and unique client ids |
| EventLog.AppendIsIdempotent | manage/workgroup/store.py:1213-1240 | appending an event with a client id twice is appending it once |
| EventLog.WorkgroupLog.AppendTimeline | manage/workgroup/store.py:1213-1308 | a known client id returns its event; a failed write leaves memory and disk as they were |
| EventLog.WorkgroupLog.Push | manage/workgroup/store.py:1239-1259 | the in-memory half adds the event and its frame together |
| EventLog.WorkgroupLog.Unpush | manage/workgroup/store.py:1291-1297 | the rollback removes exactly what was added |
| EventLog.WorkgroupLog.EnqueueOutbox | manage/workgroup/store.py:1341-1370 | a plain frame is numbered next; after a failed write memory and disk differ |
| EventLog.WorkgroupLog.AckOutbox | manage/workgroup/store.py:1387-1403 | an ack marks exactly the frame of that number |
| EventLog.WorkgroupLog.Reload | manage/workgroup/store.py:159-163 | a new process reads the written frames back in the order of their numbers |
| EventLog.LostFrameReadBack | manage/workgroup/store.py:159-163 | after a failed write, any further writes and a restart, all frames are read back but the lost one, and that one too if it was acked |
| EventLog.LostFrameLeavesGap | manage/workgroup/store.py:1341-1370 | after a failed write, any further writes and a restart, the outbox is numbered without a gap exactly when the lost frame was acked or nothing was enqueued behind it |
| EventLog.GapExample | manage/workgroup/store.py:1341-1370 | one written frame, one lost, one written: the reloaded outbox has a gap |
| Resume.NodeSession.ResumeOffer | manage/workgroup/ws_hub.py:248-318 | each refusal exactly under its condition; otherwise the node's frames after the cursor, up to where sending fails |
| Resume.ReplayedTo | manage/workgroup/ws_hub.py:238-246 | a frame behind the cursor goes to exactly the node it names; naming none, to exactly the home of its known member; with neither, to every node |
| Resume.ResumeIsExact | manage/workgroup/ws_hub.py:262-318 | frames up to any cursor followed by a complete replay are all the node's frames, in order, gaps in the numbers or not |
| Resume.PrefixHolds | manage/workgroup/ws_hub.py:262-318 | any prefix of a node's frames is all its frames up to its own last one |
| Resume.ResumeKeepsExact | manage/workgroup/ws_hub.py:262-318 | over any interrupted resumes no frame is lost, repeated or reordered, gaps in the numbers or not |
| Resume.AudienceIsFixed | manage/workgroup/ws_hub.py:227-246 | a frame's audience never changes exactly when it names a home, no member, or a known member |
| Resume.UnknownMemberExample | manage/workgroup/ws_hub.py:238-246 | a frame for a member not yet known reaches a node that a later replay leaves out |
| Resume.HoldsStays | manage/workgroup/store.py:1380-1385 | acks, new members and new frames change nothing a node already holds |
| Resume.ResumeMisses | manage/workgroup/ws_hub.py:262-318 | resuming with a new process can miss exactly a new frame whose number is not above the cursor |
| Resume.RestartMisses | manage/workgroup/store.py:1341-1370 | after a lost frame, any writes, a restart and new frames, a resuming node misses one exactly when the lost frame was last and not acked, the node holds it, and another frame of the node took its number |
| Resume.NumberReused | manage/workgroup/store.py:1341-1370 | on any log such a run: the node never gets the second frame of that number, though no number is left out |
| HumanQuestions.StepKeepsInv | manage/workgroup/store.py:1404-1600 | every step keeps the link from blocked threads to fired or registered events |
| HumanQuestions.RunKeepsInv | manage/workgroup/store.py:1404-1600 | the link holds in every reachable state |
| HumanQuestions.NoLostWakeUp | manage/workgroup/store.py:1492-1534 | a blocked thread can wake exactly when its question is resolved |
| HumanQuestions.NewQuestionHasEvent | manage/workgroup/store.py:1404-1452 | a new question has a fresh event at once, and its answer fires exactly that |
| HumanQuestions.ResolutionIsFinal | manage/workgroup/store.py:1536-1581 | the first resolution is final across answers, cancels, timeouts and restarts |
| HumanQuestions.QuestionsAreSaid | manage/workgroup/store.py:1404-1600 | in every run the stored questions are exactly those asked, each resolved by the first answer after its asking; restarts forget none |
| HumanQuestions.BlockedWaits | manage/workgroup/store.py:1500-1600 | in every run a thread is blocked exactly on the pending question it last began to wait for and has not left |
| HumanQuestions.HitlStore.CreateHitl | manage/workgroup/store.py:1404-1452 | a question and its event appear together |
| HumanQuestions.HitlStore.BeginWait | manage/workgroup/store.py:1492-1510 | either the resolution at once, or the registered event to wait on |
| HumanQuestions.HitlStore.EndWait | manage/workgroup/store.py:1511-1534 | the woken thread always finds its resolution |
| HumanQuestions.HitlStore.ResolveHitlCas | manage/workgroup/store.py:1536-1581 | only a pending question is resolved, and its waiters' event fires |
| Fencing.LateCleanupChangesNothing | manage/workgroup/ws_hub.py:203-225 | a cleanup by an older generation changes no node's state |
| Fencing.HelloEffect | manage/workgroup/ws_hub.py:113-168 | a hello issues the next generation of its node only |
| Fencing.CleanupEffect | manage/workgroup/ws_hub.py:203-225 | a cleanup disconnects its node exactly if it names the newest generation |
| Fencing.WSHub.SessionHello | manage/workgroup/ws_hub.py:113-168 | each session gets the next generation and the old one is fenced |
| Fencing.WSHub.AssertGeneration | manage/workgroup/ws_hub.py:174-201 | succeeds exactly for the newest generation while it is connected |
| Fencing.WSHub.CloseSession | manage/workgroup/ws_hub.py:203-217 | a close counts exactly for the newest generation |
| Fencing.WSHub.MarkSendFailed | manage/workgroup/ws_hub.py:219-225 | a send failure on an old connection changes nothing |
| BrowserStream.BrowserConnection.Enqueue | manage/workgroup/ws_hub.py:46-73 | a full queue is replaced by the resync marker and the stream closed |
| BrowserStream.BrowserConnection.Close | manage/workgroup/ws_hub.py:75-82 | closing adds the end marker if there is room |
| BrowserStream.Delivered | manage/workgroup/ws_hub.py:385-411 | a message reaches every listening browser with room, at the end of its queue, and nobody else |
| BrowserStream.ClosingEnds | manage/workgroup/ws_hub.py:75-82 | a closed stream ends in the end marker if there was room and takes nothing more |
| BrowserStream.StepKeepsInv | manage/workgroup/ws_hub.py:385-411 | every step keeps bounds, completeness and the resync marker |
| BrowserStream.RunKeepsInv | manage/workgroup/ws_hub.py:486-520 | the invariant holds in every reachable state |
| BrowserStream.StreamsAreComplete | manage/workgroup/ws_hub.py:385-411 | no queue exceeds 256; a registered browser that kept up reaches every published event above its cursor; one that did not ends in the resync marker |
| BrowserStream.LeavingKnows | manage/workgroup/ws_hub.py:513-520 | of the events after its cursor a leaving browser that kept up lacks exactly those not replayed to it that are unpublished or still queued |
| BrowserStream.BackMisses | manage/workgroup/ws_hub.py:486-511 | a registered browser that keeps up misses exactly the events published before it came that its cursor skips |
| BrowserStream.RejoinMisses | manage/workgroup/ws_hub.py:486-520 | over every run: an event is missed by leaving and coming back at any cursor exactly when the cursor skips it, it was published by then, and it was unpublished or still queued when the browser left |
| BrowserStream.OverflowStep | manage/workgroup/ws_hub.py:57-73 | an overflowed browser overflowed in some step of its run |
| BrowserStream.OverflowRejoinMisses | manage/workgroup/ws_hub.py:31-73 | over every run: after an overflow, an event is missed exactly when the new cursor skips it, it was published by then, not replayed, and unpublished or still queued when the queue overflowed |
| BrowserStream.OvertakingLosesAnEvent | manage/workgroup/store.py:1298-1302 | a reachable run in which a browser resumes from its highest event and never gets an overtaken one |
| LicenseGrammar.Parser.Primary | scripts/ci/check_npm_license_policy.py:63-78 | the nested procedure advances the shared index exactly as the specification parser |
| LicenseGrammar.Parser.Conjunction | scripts/ci/check_npm_license_policy.py:80-86 | the AND loop agrees with the specification parser |
| LicenseGrammar.Parser.Disjunction | scripts/ci/check_npm_license_policy.py:88-95 | the OR loop agrees with the specification parser |
| LicenseGrammar.Parser.Allowed | scripts/ci/check_npm_license_policy.py:97-101 | the verdict is true exactly if all tokens are used and the value is true |
| LicenseGrammar.ParserEvaluates | scripts/ci/check_npm_license_policy.py:61-101 | on the tokens of any expression the parser uses them all and returns its value, AND binding tighter than OR |
| LicenseGrammar.OrDerives | scripts/ci/check_npm_license_policy.py:88-95 | whatever is parsed is the token list of a tree with that value |
| LicenseGrammar.AcceptsExactlyAllowed | scripts/ci/check_npm_license_policy.py:61-101 | a token list is accepted exactly when some expression with these tokens evaluates to allowed |
| LicenseText.Tokenize | scripts/ci/check_npm_license_policy.py:50-58 | the token loop computes the specification lexer |
| LicenseText.NameCharacters | scripts/ci/check_npm_license_policy.py:37 | license names consist of letters, digits, dot, plus and minus |
| LicenseText.LexFindsPlain | scripts/ci/check_npm_license_policy.py:37 | no name the lexer returns begins with an operator that stands for itself |
| LicenseText.PrintRoundTrip | scripts/ci/check_npm_license_policy.py:37 | printed tokens read back exactly when no name begins with an operator that stands for itself |
| LicenseText.OperatorSplitOff | scripts/ci/check_npm_license_policy.py:37 | AND-1 is read as an operator and a name |
| LicenseText.LicenseExpressionAllowed | scripts/ci/check_npm_license_policy.py:40-101 | a license text is allowed exactly when it spells an expression that evaluates to allowed, after the exemption and the alias |
| LicenseText.PrintedExpressionAllowed | scripts/ci/check_npm_license_policy.py:40-101 | a printed expression of plain names is allowed exactly when it evaluates to allowed or is the generic label of the exempt package |
| ZipLimits.Word32At | desktop/tray-tauri/src/workspace-documents.js:20-25 | a 32-bit word read is the word written, and its bytes are its encoding |
| ZipLimits.CheckEntries | desktop/tray-tauri/src/workspace-documents.js:32-49 | the entry loop computes the specification walk |
| ZipLimits.ValidateOfficeZipLimits | desktop/tray-tauri/src/workspace-documents.js:9-51 | every read is in bounds for any input, and the verdict is the specification's |
| ZipLimits.EntryAt | desktop/tray-tauri/src/workspace-documents.js:34-42 | an encoded entry is read back with all its fields and its length |
| ZipLimits.EntryFromAt | desktop/tray-tauri/src/workspace-documents.js:34-42 | the bytes between two cursors are the encoding of the entry read there |
| ZipLimits.EntryLayout | desktop/tray-tauri/src/workspace-documents.js:32-38 | a header keeps signature, sizes, lengths and name where section 4.3.12 of PKWARE APPNOTE.TXT puts them |
| ZipLimits.EndLayout | desktop/tray-tauri/src/workspace-documents.js:17-23 | an end record keeps its fields where section 4.3.16 puts them |
| ZipLimits.OfficeLimits | desktop/tray-tauri/src/workspace-documents.js:7 | the default limits are 5000 entries, 128 MiB in all, 32 MiB each and a ratio of 200 |
| ZipLimits.WalkFindsTiles | desktop/tray-tauri/src/workspace-documents.js:32-49 | an accepted walk means the declared entries tile the directory, with every size, ratio and the sum within limits |
| ZipLimits.WalkAcceptsTiles | desktop/tray-tauri/src/workspace-documents.js:32-49 | entries that tile the directory within limits are accepted with their sum |
| ZipLimits.EndFound | desktop/tray-tauri/src/workspace-documents.js:12-17 | the backward scan stops at an end record exactly when no later end signature follows it |
| ZipLimits.AcceptsExactly | desktop/tray-tauri/src/workspace-documents.js:9-51 | accepted with a count and a sum exactly when the last end record declares that many entries, they tile the directory, and all are within limits |
| ZipLimits.ArchiveFound | desktop/tray-tauri/src/workspace-documents.js:12-17 | a written archive is read at its own end record exactly when its comment holds no end signature behind it |
| ZipLimits.ArchiveAccepted | desktop/tray-tauri/src/workspace-documents.js:9-51 | such an archive is accepted with its own count and sum if within limits, and rejected otherwise |
| ZipLimits.EmptyCommentAccepted | desktop/tray-tauri/src/workspace-documents.js:9-51 | any within-limits entry list with an empty comment is accepted with its count and sum |
| ZipLimits.NestedEndHidesArchive | desktop/tray-tauri/src/workspace-documents.js:12-17 | any archive whose comment is an empty end record passes as an empty archive |
| ToolResult.TakePrefixForBudget | manage/workgroup/builtin_hooks.py:129-141 | the longest prefix within the budget, and always the first character |
| ToolResult.TakeSuffixForBudget | manage/workgroup/builtin_hooks.py:143-156 | the longest suffix within the budget, and always the last character |
| ToolResult.EstimateByScript | manage/workgroup/builtin_hooks.py:37-52 | an ideograph counts 0.6 tokens, any other character 0.3 |
| ToolResult.FormatHeadTailWithHint | manage/workgroup/builtin_hooks.py:158-180 | the summary is the text itself, the bare hint, or head, hint and tail |
| ToolResult.HeadAndTailApart | manage/workgroup/builtin_hooks.py:170-180 | head and tail never meet, and the omitted count is the rounded weight of exactly what lies between |
| ToolResult.RoundsToNearest | manage/workgroup/builtin_hooks.py:160-181 | token counts in the hint are rounded to the nearest, halves up |
| ToolResult.SummaryFits | manage/workgroup/builtin_hooks.py:158-180 | with room for the empty hint and five tokens the summary fits; with less it fits exactly when the bare hint does |
| ToolResult.PackageToolResult | manage/workgroup/builtin_hooks.py:182-226 | what goes into the history and what is written to disk, for every combination of settings |
| ToolResult.SpilledExactly | manage/workgroup/builtin_hooks.py:208-226 | a text is written to disk, whole, exactly if the hook applies, it is over the threshold and there is a directory; the default threshold is 12000 tokens |
| ToolResult.PackagedFits | manage/workgroup/builtin_hooks.py:182-226 | with room for it the packaged text fits the threshold |
| ToolResult.PackagingIsIdempotent | manage/workgroup/builtin_hooks.py:182-226 | packaging again changes and writes nothing exactly when the text was not a long run of white space |
| ToolResult.BlankTextChanges | manage/workgroup/builtin_hooks.py:182-226 | forty spaces under a threshold of ten tokens are packaged differently the second time |
| Versions.CompareVersions | manage/releases/semver.py:20-41 | the comparison loop computes the zero-padded lexicographic order, then the prerelease order |
| Versions.CompareConsistent | manage/releases/semver.py:20-41 | comparison is transitive, and strictly so when one step is strict |
| Versions.CompareSigns | manage/releases/semver.py:20-41 | swapping the arguments flips the sign; 0 means equal after padding |
| Versions.ReleaseAfterPrereleases | manage/releases/semver.py:20-41 | of two versions with equal numbers the release comes after every prerelease, and prereleases are ordered as texts |
| Versions.CompareTextExactly | manage/releases/semver.py:20-41 | the first character in which two texts differ decides; a text comes before what continues it |
| Versions.ComparePartsExactly | manage/releases/semver.py:24-30 | less exactly when the first differing number is smaller; equal exactly when none differs |
| Versions.RowsConsistent | manage/releases/store.py:104-112 | the listing comparator is transitive, strictly so when one step is strict |
| Versions.RowsSigns | manage/releases/store.py:104-112 | the listing comparator is antisymmetric in sign |
| Versions.NeighboursSuffice | manage/releases/store.py:114 | a listing whose neighbours are in order is in order throughout |
| Versions.NewestFirst | manage/releases/store.py:104-114 | the first row of a group has the greatest version in it |
| VersionText.ParseVersion | manage/releases/semver.py:6-17 | the parsing loop computes the specification |
| VersionText.ShowRoundTrip | manage/releases/semver.py:6-17 | a version shown as text reads back exactly when its prerelease is lower case and does not end in white space |
| VersionText.TextsCompareAlike | manage/releases/semver.py:20-41 | folded versions compare as their texts do |
| VersionText.LeadingV | manage/releases/semver.py:7 | a v in front makes no difference |
| VersionText.LowerLetters | manage/releases/semver.py:17 | each capital becomes the small letter in its place of the alphabet, and nothing else changes |
| Releases.ReleasePackageStore.ClearOthers | manage/releases/store.py:171-183 | exactly the other versions of the line lose the pointer |
| Releases.ReleasePackageStore.SaveDraft | manage/releases/store.py:116-129 | a draft is written unless the version is published |
| Releases.ReleasePackageStore.MakePublished | manage/releases/store.py:131-157 | publication date, status and pointer after a publish |
| Releases.ReleasePackageStore.MakeLatest | manage/releases/store.py:159-169 | a published version takes the pointer of its line |
| Releases.ReleasePackageStore.Remove | manage/releases/store.py:197-214 | anything but a latest release can be deleted |
| Releases.ReleasePackageStore.GetLatest | manage/releases/store.py:185-195 | a published latest of the line is found if there is one |
| Releases.StepKeepsInv | manage/releases/store.py:116-214 | every operation keeps at most one latest per line and latest implies published |
| Releases.OwnPackage | manage/releases/store.py:134-190 | a publish or promote publishes, dates and points its own package as asked, and takes the pointer from exactly the others of its line |
| Releases.RunKeepsInv | manage/releases/store.py:116-214 | both hold in every reachable state |
| Releases.StepKeepsLatest | manage/releases/store.py:131-214 | a pointer moves exactly by a successful publish-as-latest or promote of another version of its line, and then to that version |
| Releases.LatestNeverDisappears | manage/releases/store.py:116-214 | a line that once has a latest release has one in every later state |
| Releases.RunKeepsDate | manage/releases/store.py:145-150 | a published version stays published under its first date until deleted |
| RateLimiter.Prune | manage/feedback/routes.py:15 | the list comprehension keeps exactly the times after the cutoff |
| RateLimiter.FeedbackRates.Allow | manage/feedback/routes.py:11-20 | the decision and the new list of the node |
| RateLimiter.RunAgrees | manage/feedback/routes.py:11-20 | after every run, in whatever order requests are served, the kept list of a node is its accepted requests that no later request has outlived |
| RateLimiter.AdmittedExactly | manage/feedback/routes.py:16-20 | a request is admitted exactly when fewer than twenty of those lie in the minute up to it |
| RateLimiter.RefusedOnlyWhenFull | manage/feedback/routes.py:16-18 | a refused request always had twenty accepted ones in the minute up to it, in every run |
| RateLimiter.RefusedExactlyWhenFull | manage/feedback/routes.py:15-20 | a request younger than all before it is refused exactly when that minute is full, and the list is that minute's |
| RateLimiter.AtMostTwentyWithin | manage/feedback/routes.py:11-20 | if requests are served at most some seconds out of order, every stretch of a minute less those seconds holds at most twenty accepted ones |
| RateLimiter.AtMostTwentyAMinute | manage/feedback/routes.py:11-20 | served in the order of their times, every minute holds at most twenty |
| RateLimiter.LateRequestBreaksLimit | manage/feedback/routes.py:11-20 | a request late by any time can be the twenty-first of a stretch just longer than that: the bound is exact |
| RateLimiter.TwentyOneInAMinute | manage/feedback/routes.py:11-20 | a run with twenty-one accepted requests in one minute |

## Left out

- LeaderLoop: a request is the run history; the prompt text, the projection of the Timeline into a request, the place of the date message within one request, tool arguments, parallel dispatch of assigns, the assigns that healing cancels, and the resume of a human question are not part of this model. What other threads store outside the tool calls of a round is in SharedHistory.
- History: the conversion to provider messages only renames fields.
- Compression: `normalize_summary` and the summary request are text; JSON encoding enters only as the weight of a message.
- SnapshotChain.ContextSnapshots.Harvest: one atomic step, although the code reads history and snapshot under separate locks.
- TurnLane: editing a queued text, cancel flags, checkpoints and other workgroups' lanes are not modelled.
- HumanQueue.CrashKeepsOrder: needs memory in key order, which `ArrivalOrder` shows to hold exactly while keys arrive in order.
- Assignments: `assign_started` events, child turns and run links carry no invariant here; a late `hitl_required` frame is an operation only while its assign is active, see `LateApprovalBreaksOccupancy`.
- AgentTurns.TurnInbox.HandleResult: one atomic step; session frames, live status messages and the Timeline entries of member events are left out.
- EventLog: the failure of an ack's own write is not modelled; SQLite is a log whose write may fail.
- Resume: `ack_delivery` and live pushes only repeat what a resume sends.
- HumanQuestions: cancelling the questions of an assign is a resolution like any other.
- Fencing: heartbeats and the content of the welcome frame.
- ToolResult: the names of spilled files and the directory they go to; the quoted path is part of an arbitrary hint.
- ZipLimits: the messages of the errors; unpacking itself.
- LicenseText: reading package metadata from disk; Python's recursion limit on deep nesting.
- VersionText: digits and letters outside ASCII, for which Python's `isdigit` and `lower` do more.
- Releases: files, downloads and the SQLite copy of the packages; the answer of `check` follows from `GetLatest` and `CompareVersions`.
- RateLimiter: the clock is a time that comes with each request; times are exact.
- Routers, authentication, metrics, browser and desktop code, and the plain create-read-update-delete stores of the repository would only add easy members.
