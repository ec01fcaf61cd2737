# Dafny model of shelldon's core

shelldon is a desk pet: an LLM-free core process that runs at most one forked worker turn at a time, while
several asyncio tasks start, finish, time out and resume that turn. This project models the parts of it that
are hard to get right and proves what they promise. `dafny verify dfyconfig.toml` checks everything.

## How the model is built

- **Turn lifecycle** (`Arbiter`, `TurnFence`, `ForkServer`, `Lifecycle*`, `Core`). `Lifecycle.dfy` is one
  transition system: the inbox consumer, the scheduler, every armed timeout, the reap tasks and the workers.
  A step is the code between two suspension points of one task, and every outcome of an awaited call (failed
  push, failed fork, failed spend record, failed history write) is a choice of the environment.
  `LifecycleInvariant` carries one invariant through every step; its core is the slot's holder, the one party
  that must release a reserved slot. `LifecycleTheorems` states safety over all runs, `LifecycleProgress`
  the ranking argument, `LifecycleStrays` exactly when a second worker can be live, and `LifecycleSteps` what
  single steps record, apply, open and start. The class `CoreRuntime.Core` updates the same fields the source
  does, over the classes `Arbiter`, `TurnFence` and `ForkServer`, and each of its methods is proved to take
  exactly the step of the transition system it stands for.
- **Tool loop** (`Conversation`, `ToolLoop`, `Worker`, `Approvals`, `ApprovalRuns`). The loop is specified by
  `RunFrom`, the worker's loops are methods proved against it, and parking, pruning and tapping are runs over
  two tables. `ApprovalRuns` joins them with the lifecycle that parks and the workers that resume.
- **Autonomy** (`Clock`, `Power`, `Scheduler`, `Budget`, `Restarts`, `RestartSchedules`, `Dispatch`,
  `Mood`). Floats are reals; every result is about whole runs of ticks, proposals or nudges. `Restarts` runs the
  budget through checkpoints and crashes, and `RestartSchedules` says on which schedules the cap survives them.
- **Codecs and stores** (`ReplyParser`, `Framing`, `Timestamps`, `Display`, `Screen`, `Learnings`,
  `Checkpoint`).

Assumptions taken from the source: turn ids are fresh (uuid4), a fork does not suspend in the parent, and the
reap task and the timeout are created in the same segment as the fork. sqlite statements are atomic steps;
JSON and msgpack encoders and decoders are inverse to each other; the bus keeps order.

## Where the code and its comments differ

- "At most one worker" is a bound on turns, not on processes: a reap that gives up after the kill frees the
  guard while its worker may still be there. `OneWorkerAtATime` counts those workers, `SecondWorkerExactly`
  says exactly when a second one can be live, and `TwoWorkersAreReachable` reaches such a state.
- A reply can be tagged for approval with nothing parked: `_handle_result` looks for an asking op among all
  ops, `_apply_proposed_ops` only among the first 16, drops a blank directive, and parks nothing when the
  write fails. `TaggedMayNotBeParked` gives inputs, `TaggedIsParkedExactly` the exact condition.
- A tap does not always settle a timely call: a live tool promotion under the same turn takes the tap first.
  `TimelyTapSettles` has the exact condition.
- `checkpoint` syncs the file but never its directory, so a power cut after a finished checkpoint can still
  bring back an older state. `FinishedCheckpointSurvives` says, from what is known before the call, exactly when
  it cannot; once the directory has settled it cannot. A killed process is always safe.
- A load that cannot read an intact file starts from the defaults, clean: "not dirty" then does not mean
  saved, and the next flush overwrites the file (`LoadIsFaithful`, `UnreadLoadOverwrites`). Patch values are not
  type-checked, so a mistyped state can be saved that does not load. `CleanMeansSaved` is the exact statement.
- The daily cap holds if and only if no local date is left and returned to (`CapHoldsExactly`); travel can do
  that (`MovingDateOverspends`).
- "A restart can't reset the daily cap" is false in general: after a crash before the next checkpoint, or a load
  that cannot read, a day's budget is spent again at a later reading of the day (`CrashSpendsTwice`).
  `CapSurvivesExactly` has the exact condition on the schedule of readings, saves and crashes;
  `OverspendIsWhatCrashesUndid` accounts for any run.
- A reply's ops block may itself hold an approval request. It is parked like a pause of the loop, with no
  conversation, and its resumed worker first sends a lone tool message (`WrittenApprovalResumesUnpaired`).
  `ResumeRestoresPairing` and `ResumedJobsPairExactly` say exactly which parked states resume well paired.
- The snapshot contract speaks of a sequence per region; core numbers faces and captions from one counter.

## Model

| member | source | states |
|---|---|---|
| `LifecycleInvariant.StepKeepsInv` | shelldon/core/runtime.py:466-543 | every step of every task, whatever its awaited call answers, keeps the lifecycle invariant: a reserved slot has one holder, guards agree, no message is lost |
| `LifecycleTheorems.OneWorkerAtATime` | shelldon/core/runtime.py:785-798 | in every reachable state at most one worker is live beside those whose reap gave up, and it is under both guards; an idle arbiter means no open turn, a released fork guard and nothing pending |
| `LifecycleStrays.SecondWorkerExactly` | shelldon/worker/forkserver.py:193-208 | from a reachable state two workers can come to be live without a further reap giving up, if and only if some worker has outlived its reap |
| `LifecycleStrays.TwoWorkersAreReachable` | shelldon/worker/forkserver.py:329-342 | a run from the start that ends with two live workers |
| `LifecycleStrays.ForkIsReached` | shelldon/core/runtime.py:502-543 | from every state some run without giving up forks a new worker, and no left-over worker has gone |
| `LifecycleTheorems.SlotHasOneOwner` | shelldon/core/runtime.py:527-543 | the slot is reserved if and only if one task owns it or the open turn's timeout is armed with its reap task; never two owners |
| `LifecycleTheorems.SpawnIsNeverBusy` | shelldon/worker/forkserver.py:290-327 | in every reachable state a task about to fork finds the guard free, so only the kernel can refuse |
| `LifecycleTheorems.OpenNeverSupersedes` | shelldon/core/turn.py:27-31 | no step of any run opens a turn over another open one |
| `LifecycleTheorems.TurnOwnsTheFace` | shelldon/core/runtime.py:1006-1022 | while a turn is open the face core last pushed is its thinking face; the mood never takes the screen |
| `LifecycleTheorems.TurnsEndOnce` | shelldon/core/runtime.py:674-677 | a turn ends at most one way, has its ops applied at most once, and at most one history pair, under its own id and owner text |
| `LifecycleTheorems.EndedTurnsStayFenced` | shelldon/core/turn.py:33-46 | after a turn ended no Result for it is accepted in any continuation, even once its id is forgotten |
| `LifecycleTheorems.OpenTurnIsAccepted` | shelldon/core/turn.py:43-46 | in reachable states the fence accepts a turn's Result if and only if it is the open turn |
| `LifecycleTheorems.MessagesConserved` | shelldon/core/arbiter.py:39-79 | owner messages, in arrival order, are those of started turns and dropped batches, then the batch in hand, then the pending slot; each started turn is named once and its prompt is its batch joined |
| `LifecycleTheorems.NoMessageLost` | shelldon/core/runtime.py:740-750 | while no start fails the started turns carry every message but those still held |
| `LifecycleSteps.DeliveryRecords` | shelldon/core/runtime.py:683-710 | a step that leaves a turn's delivery records exactly that turn's pair when the write succeeds, for a reply always and for a degrade only if every delivery went out, and applies exactly a reply's ops; any other step within it records nothing |
| `LifecycleSteps.OnlyDeliveryRecords` | shelldon/core/runtime.py:880-897 | no step outside a delivery records or applies anything |
| `LifecycleSteps.OwnerMessageOpens` | shelldon/core/runtime.py:486-490 | an owner message opens a turn with its own words on a free slot and joins the pending ones otherwise |
| `LifecycleSteps.OthersOpen` | shelldon/core/runtime.py:502-525 | a self-driven turn opens under its marker or else its prompt, a resumed one under its fixed text |
| `LifecycleSteps.FinishedTurnHandsOver` | shelldon/core/runtime.py:736-750 | a finished turn hands the pending messages, joined, to one catch-up turn, or frees the slot |
| `LifecycleSteps.WorkerGetsThePrompt` | shelldon/core/runtime.py:526-543 | a started worker gets its turn's own prompt, with its reap and timeout armed; a failed fork closes the turn and frees the slot |
| `LifecycleSteps.ResultIsDelivered` | shelldon/core/runtime.py:671-683 | the open turn's Result ends it, disarms its timeout and is delivered as a reply exactly if ok |
| `LifecycleSteps.TimeoutIsDelivered` | shelldon/core/runtime.py:762-783 | the open turn's timeout ends it and is delivered as a degrade |
| `LifecycleProgress.ProgressDecreases` | shelldon/core/runtime.py:712-740 | each progress step releases the slot or lowers its rank, including failed spawn and failed delivery |
| `LifecycleProgress.FailedDispatchFreesSlot` | shelldon/core/dispatch.py:102-117 | a dispatch whose spend record fails leaves the slot free and everything else as it was |
| `LifecycleProgress.OthersDoNotDelay` | shelldon/core/runtime.py:488-500 | no other task's step raises the rank or takes the slot |
| `LifecycleProgress.ReleaseIsNear` | shelldon/core/runtime.py:762-783 | in any run with the slot still held, progress steps taken so far plus the rank left are at most 13 |
| `LifecycleProgress.SlotNeverWedges` | shelldon/core/runtime.py:735-750 | from every state with the slot reserved and for every assignment of answers to the awaited calls, the run those answers lead to reaches a release within the rank, by tasks, timer and reap alone |
| `LifecycleProgress.ThirteenStepsRelease` | shelldon/core/runtime.py:735-750 | and every run with thirteen steps of progress has released the slot, whatever else happened |
| `ForkServing.WaitpidReap` | shelldon/worker/forkserver.py:169-209 | the polling loop ends within timeout plus grace plus two naps for every sequence of waitpid answers, errors included; it kills only after the deadline and gives up only after the grace |
| `ForkServing.ForkServer.Spawn` | shelldon/worker/forkserver.py:290-305 | refused when not ready or busy; a failed fork leaves the guard free |
| `ForkServing.ForkServer.ReapCurrent` | shelldon/worker/forkserver.py:329-342 | the guard is cleared on every exit of the reap, by an error too, in bounded time; only an answer of waitpid reclaims the worker |
| `Arbitration.Arbiter.Submit` | shelldon/core/arbiter.py:39-50 | an idle slot is reserved and the text returned; otherwise the text is coalesced |
| `Arbitration.Arbiter.Complete` | shelldon/core/arbiter.py:52-66 | hands over the pending batch keeping the slot, or frees it |
| `Arbitration.JoinReadsBack` | shelldon/core/arbiter.py:60-64 | folded messages of one line each are the lines of the catch-up prompt, in order |
| `TurnFencing.RemembersNewest` | shelldon/core/turn.py:33-41 | after closing any run of fresh ids set and deque hold the same ids without duplicates: exactly the newest `max_closed`, oldest first |
| `TurnFencing.TurnFence.Open` | shelldon/core/turn.py:27-31 | closes a different current turn first and keeps set and deque in agreement |
| `TurnFencing.TurnFence.Close` | shelldon/core/turn.py:33-41 | evicts the oldest id at the bound and keeps set and deque in agreement |
| `CoreRuntime.Core.StartTurn` | shelldon/core/runtime.py:502-525 | takes the opening step of a turn |
| `CoreRuntime.Core.SpawnWorker` | shelldon/core/runtime.py:526-543 | forks, then creates the reap task and arms the timeout; a failed fork closes the fence and resets the slot |
| `CoreRuntime.Core.ResumeApproved` | shelldon/core/runtime.py:642-668 | an approved tap reserves the idle slot and opens a resume turn |
| `CoreRuntime.Core.AdmitJob` | shelldon/core/dispatch.py:102-122 | a self-driven turn takes the slot; a failed spend record frees it |
| `CoreRuntime.Core.HandleResult` | shelldon/core/runtime.py:671-679 | only the open turn's Result disarms the timeout and closes the turn |
| `CoreRuntime.Core.TimeoutWatch` | shelldon/core/runtime.py:762-773 | a timeout whose turn is no longer open does nothing |
| `CoreRuntime.Core.CompleteTurn` | shelldon/core/runtime.py:736-750 | frees the slot or opens the turn of the coalesced batch |
| `CoreRuntime.Core.RecordTurnPair` | shelldon/core/runtime.py:887-897 | one pair of the current id and owner text, or none when the write fails; `LifecycleSteps.DeliveryRecords` says when |
| `CoreRuntime.Core.MaybePushMoodFace` | shelldon/core/runtime.py:1006-1022 | a mood face goes out only with fence and arbiter idle, no reaction holding the screen, and a changed token; the caption goes out without it too |
| `CoreRuntime.Core.TakeStep` | shelldon/core/runtime.py:466-500 | the class refines the transition system, step by step |
| `Conversation.PairedCallsAreAnswered` | shelldon/worker/worker.py:291-362 | in a well paired conversation each assistant message is followed at once by one tool message per call, same ids, same order |
| `Conversation.StrayReplyBreaksPairing` | shelldon/worker/worker.py:291-362 | and no tool message stands at the start or right after a user text |
| `ToolLoop.LoopKeepsPairing` | shelldon/worker/worker.py:291-362 | every Job of a run is well paired, and a pause leaves exactly its last call unanswered |
| `ToolLoop.LoopIsBounded` | shelldon/worker/worker.py:291-362 | from pass i at most 7-i Jobs and 6-i rounds |
| `ToolLoop.LoopNeverRunsRisky` | shelldon/worker/worker.py:319-347 | the loop executes no risky call; the call it pauses on is risky and heads the ops of an ok Result |
| `ToolLoop.PersonaEditsArriveOnce` | shelldon/worker/worker.py:253-259 | an ok Result carries each successful persona call exactly once, in order, between the approval request and the parsed ops |
| `ToolLoop.JobsCarryTheAnswers` | shelldon/worker/worker.py:348-360 | each Job after the first is the one before, the assistant message with that completion's calls, and for each call in order what its tool returned, or that there is no such tool |
| `ToolLoop.LoopEndsExactly` | shelldon/worker/worker.py:291-362 | a run goes on exactly while there is time, an answer and only free calls; it ends at the first pass without, with that pass's result, having executed exactly the calls made before |
| `ToolLoop.EveryEditArrives` | shelldon/worker/worker.py:253-259 | each successful persona call of an ok run is an op with the call's content |
| `Worker.ExecuteCalls` | shelldon/worker/worker.py:352-359 | executes, answers and notes a completion's calls in call order; what a call answers is `JobsCarryTheAnswers` |
| `Worker.AgenticLoop` | shelldon/worker/worker.py:262-362 | the loop with its exits returns the run that `JobsCarryTheAnswers` and `LoopEndsExactly` pin down, and strikes exactly the self-coded tools that failed in it |
| `Worker.ResumeLoop` | shelldon/worker/worker.py:365-378 | executes the pending call once on approval, not at all on denial, then loops; strikes exactly the self-coded tools that failed |
| `Worker.ResumeAnswersTheCall` | shelldon/worker/worker.py:371-378 | the resumed run's first Job is the parked conversation and one message under the call's id: what the approved tool returned, that there is none, or that the owner denied it |
| `Worker.ResumeRestoresPairing` | shelldon/worker/worker.py:371-378 | approved or denied, the resumed conversation is well paired if and only if the pause left exactly its own call unanswered |
| `Worker.ResumedJobsPairExactly` | shelldon/worker/worker.py:371-378 | and so are all Jobs of the resumed run, when it sends any |
| `Worker.EveryJobIsPaired` | shelldon/worker/worker.py:262-378 | through any chain of loop-made pauses and resumptions every Job is well paired, with at most 7 Jobs and 6 rounds a run |
| `ApprovalRuns.WrittenApprovalResumesUnpaired` | shelldon/core/runtime.py:1098-1112 | an approval request written in a reply's ops block is parked without a conversation, and the resumed run's first Job is not well paired |
| `Worker.RiskyCallsRunOnlyWhenApproved` | shelldon/worker/worker.py:371-378 | a resumed run executes exactly one risky call if the pending one is risky and approved, else none |
| `Approvals.ExpiryIsExact` | shelldon/core/history.py:267-292 | take and prune keep a row exactly strictly before parking time plus ttl; a take always consumes it |
| `Approvals.HistoryStore.TakeApproval` | shelldon/core/history.py:267-287 | read, expiry test and delete as one step |
| `Approvals.HistoryStore.PruneExpiredApprovals` | shelldon/core/history.py:289-292 | removes exactly the expired rows |
| `Approvals.HistoryStore.HandleDecision` | shelldon/core/runtime.py:589-643 | promotion first, then the idle test, and only then is the parked call consumed; a state that no longer decodes is dropped; `SettledRunsExactly` says what then runs |
| `Approvals.HistoryStore.ApplyProposedOps` | shelldon/core/runtime.py:1058-1136 | parks, under the turn's key, the first asking op within the cap whose write succeeds, and no other |
| `Approvals.ParkedIsTagged` | shelldon/core/runtime.py:683-700 | whatever is parked, the reply was tagged for approval |
| `Approvals.TaggedMayNotBeParked` | shelldon/core/runtime.py:1063-1067 | two inputs whose reply is tagged and nothing is parked, though every write succeeds |
| `Approvals.TaggedIsParkedExactly` | shelldon/core/runtime.py:683-700 | a tagged reply parks if and only if some asking op is within the cap, is no blank directive, and is written |
| `Approvals.LoopPauseIsParked` | shelldon/core/runtime.py:1098-1112 | a pause of the tool loop whose write succeeds is parked with exactly its conversation and call |
| `Approvals.FirstStoredIs` | shelldon/core/runtime.py:1098-1136 | the first asking op written parks its own call and conversation, or the directive change it carries |
| `Approvals.ParkedCallsRunAtMostOnce` | shelldon/core/history.py:252-292 | over any run of park, prune and tap each parked call is settled at most once, by a tap on its turn strictly before expiry, and meets the fate of that tap |
| `Approvals.SettledRunsExactly` | shelldon/core/runtime.py:610-668 | what was settled runs if and only if its tap approved it and, unless it is a directive, a worker was spawned |
| `Approvals.ParkedUntilTapped` | shelldon/core/history.py:252-292 | a parked call stays parked until a tap on its turn or a prune at or after its expiry |
| `Approvals.TimelyApprovalRuns` | shelldon/core/runtime.py:589-668 | a parked call that the next tap on its turn approves in time is settled by that tap, and runs |
| `Approvals.TimelyTapSettles` | shelldon/core/runtime.py:602-643 | a tap settles its call if and only if the slot is idle, no live promotion is parked under the turn, the state decodes and the tap is before expiry; the row stays if and only if the slot was busy or a promotion took the tap |
| `ApprovalRuns.LifecycleParksOnce` | shelldon/core/runtime.py:1069-1073 | parkings done while the lifecycle applies a turn's ops, one each time, never park a turn twice |
| `ApprovalRuns.ParkedCallsExecuteAtMostOnce` | shelldon/worker/worker.py:365-378 | for any reachable lifecycle, any taps and prunes over what it parked, and whatever the resumed workers meet, what is parked under a turn is carried out at most once, risky or not, and only after an approval strictly before expiry |
| `ApprovalRuns.OnlyOnApproval` | shelldon/worker/worker.py:371-378 | a settled tap carries out exactly one thing if it approved and was resumed or applied, else nothing |
| `ApprovalRuns.SettledExecutesExactly` | shelldon/core/runtime.py:610-668 | what was settled under a turn is carried out once if its tap approved it and a directive or a spawned worker carries it, else never |
| `ApprovalRuns.TimelyApprovalExecutesOnce` | shelldon/worker/worker.py:365-378 | what a turn of the lifecycle parked and the next tap approves in time is carried out exactly once, whatever the resumed worker meets |
| `ApprovalRuns.FreshTurnExecutesNone` | shelldon/worker/worker.py:319-347 | no fresh turn carries out a risky call |
| `Timestamps.StringOrderIsTimeOrder` | shelldon/core/history.py:258-259 | for all datetimes of years 1 to 9999, with or without a fraction, string order of isoformat texts is time order and equal texts mean equal times |
| `Timestamps.AtIsValid` | shelldon/core/history.py:258-259 | every representable microsecond count is the datetime it denotes, leap years included |
| `Timestamps.ExpiryTestIsExact` | shelldon/core/history.py:270-292 | the stored-text comparison decides exactly "expires at or before now" |
| `Budget.LedgerIsExact` | shelldon/core/budget.py:77-100 | from any start ledger, over dates that do not return, the ledger equals its start plus the cost of all turns admitted on its local day |
| `Budget.DailyCapHolds` | shelldon/core/budget.py:82-91 | over any run whose dates do not return, whatever the clock and the stamp, what is admitted on any local day stays within the budget |
| `Budget.CapHoldsExactly` | shelldon/core/budget.py:77-91 | for every valid gate and schedule of readings at least the cooldown apart, the cap is safe against all proposals if and only if no local date is left and returned to |
| `Budget.CooldownHolds` | shelldon/core/budget.py:42-60 | with a forward clock any two admissions are at least the cooldown apart, also across a rollover and whatever ledger the run started with |
| `Budget.AdmittedExactly` | shelldon/core/budget.py:82-91 | over any run whose dates do not return, a proposal is admitted if and only if its spend is recorded, what was used and admitted on its local day leaves room for its cost, and the cooldown since the latest admission, or else the start's stamp, is over or lies in the future |
| `Budget.FutureStampRecovers` | shelldon/core/budget.py:53-59 | a stamp in the future never defers, and the next admission replaces it |
| `Budget.MovingDateOverspends` | shelldon/core/budget.py:77-80 | three readings half an hour apart, the middle one fourteen hours east, on which every gate with the default cooldown or less spends twice its budget on one date |
| `Restarts.OverspendIsWhatCrashesUndid` | shelldon/core/state.py:41-49 | across any checkpoints and crashes a day is overspent by at most what crashes undid on it, and the ledger falls short of its admissions by exactly that |
| `RestartSchedules.CapSurvivesExactly` | shelldon/core/state.py:41-49 | for every valid gate and schedule with readings at least the cooldown apart, no proposals overspend any local date if and only if at every reading the ledger still knows of all earlier readings of that date, and the dates it knows of are not left and returned to |
| `RestartSchedules.SafeCrashesLoseNothing` | shelldon/core/runtime.py:985-990 | when each crash comes after a save of every reading and finds the file readable, nothing is lost, and the cap is safe exactly as without restarts |
| `Restarts.LostAdmissionRepeats` | shelldon/core/dispatch.py:110-115 | after a checkpoint, an admission lost to a crash and a later one on the same day count together against nothing |
| `Restarts.CrashSpendsTwice` | shelldon/core/state.py:41-49 | for any valid gate and any two readings of one day, a crash between them before a checkpoint lets the day spend twice its budget |
| `Dispatch.TurnDispatcher.DispatchTurnJob` | shelldon/core/dispatch.py:69-122 | a turn starts exactly for an admitted proposal with a prompt on a free slot after its spend is recorded; otherwise slot and ledger are as before |
| `Dispatch.PromptIsExact` | shelldon/core/dispatch.py:124-149 | a built prompt goes out with the white space around it removed, a blank or failed one not at all, a static one as it is unless empty |
| `Scheduling.QuietIsTheArc` | shelldon/core/scheduler.py:144-147 | the quiet test is membership of the arc from start to end, across midnight or not |
| `Scheduling.NeverInQuietHours` | shelldon/core/scheduler.py:144-153 | when a job fires, the owner's local time lies on none of the arcs of its nested quiet windows, across midnight or not |
| `Scheduling.FiringsAreSpaced` | shelldon/core/scheduler.py:60-120 | any two firings: interval jobs at least period times scale apart, idle jobs with an interaction between them that is old enough, daily jobs on different dates |
| `Scheduling.FiresExactly` | shelldon/core/scheduler.py:60-153 | a registered job fires at a tick if and only if the owner's time is on none of its quiet arcs and its time has come, counted from the last tick at which it fired and stretched by the power reading |
| `Scheduling.DeeperOnlyRemoves` | shelldon/core/power.py:46-92 | what is due, and what is dispatched, at a deeper backoff level is so at every shallower one, for every valid policy and cadence |
| `Scheduling.PoorerPowerOnlyRemoves` | shelldon/core/power.py:66-92 | for any two power readings of which one is no richer, every job due, and dispatched, under it is so under the other |
| `Power.LevelFollowsPower` | shelldon/core/power.py:66-74 | a poorer reading never has a shallower level, and an unknown charge never the deepest |
| `Scheduling.DueJobsAct` | shelldon/core/scheduler.py:274-289 | a due reflex job always runs; a due turn job is dispatched whenever its level allows |
| `Scheduling.TickActsExactly` | shelldon/core/scheduler.py:279-289 | a tick runs, dispatches or skips a job exactly when it is due, by its tier, the power reading and whether it is essential |
| `Scheduling.TickActsInOrder` | shelldon/core/scheduler.py:254-289 | and at most once each, in the order of registration |
| `Scheduling.Scheduler.Register` | shelldon/core/scheduler.py:236-240 | appends a job, or refuses exactly a duplicate name |
| `Scheduling.Scheduler.RunTick` | shelldon/core/scheduler.py:261-289 | marks exactly the due jobs with the tick's time and acts on each, in registration order |
| `Mood.StepShrinks` | shelldon/core/reflexes.py:39-46 | a step in range multiplies the distance to the target by 0.9 and stays in range |
| `Mood.RestIsNearTarget` | shelldon/core/reflexes.py:79-102 | a tick proposes nothing exactly within ten epsilons of the target |
| `Mood.FeelingStaysInRange` | shelldon/core/reactions.py:38-59 | over any mix of nudges and reflex ticks every axis stays in range |
| `Mood.NudgesAreDebounced` | shelldon/core/runtime.py:1026-1044 | two nudges of a kind that both moved the mood are at least the cooldown apart |
| `Mood.ArousalComesToRest` | shelldon/core/reflexes.py:79-102 | under a fixed target arousal is at rest after 48 ticks from any start in range |
| `Mood.FortyEightIsTight` | shelldon/core/reflexes.py:27-46 | from the far end the 48th tick still moves |
| `Mood.FeelingComesToRest` | shelldon/core/reflexes.py:79-102 | after 48 or more ticks under one target arousal rests there; valence and energy rest too while the owner is away, and stand still while not |
| `Mood.NudgesMoveExactly` | shelldon/core/reactions.py:25-59 | over any mix of beats a nudge moves the mood if and only if it has room and the cooldown since the last one of its kind that moved it is over, and then by its own amounts up to the bounds |
| `Mood.Affect.HandleNudge` | shelldon/core/runtime.py:1026-1044 | the debounced nudge and its ledger entry |
| `Mood.Affect.RunReflex` | shelldon/core/runtime.py:1001-1004 | the reflex tick on every axis |
| `ReplyParsing.CutReply` | shelldon/worker/worker.py:160-187 | cutting the decoded spans from last to first leaves exactly the gaps in order; ops in block order; malformed blocks verbatim; the spans are those of `MatchesAreGreedy` |
| `ReplyParsing.CutOne` | shelldon/worker/worker.py:181-183 | one cut removes exactly its span, earlier indices staying valid |
| `ReplyParsing.MatchIsExact` | shelldon/worker/worker.py:80-89 | the search finds exactly the blocks: a header, blanks to the line's end, and a body of any lines up to the nearest closing fence |
| `ReplyParsing.MatchesAreGreedy` | shelldon/worker/worker.py:173-180 | the blocks taken are in order and disjoint, and any block not taken starts inside one that is |
| `ReplyParsing.RenderParses` | shelldon/worker/worker.py:80-94 | blocks of any number of lines, blanks after their header, between header-free texts: exactly those that decode are cut, their ops in order, and the others stay in the text whole |
| `ReplyParsing.PrintedOpsParseBack` | shelldon/worker/worker.py:160-187 | ops printed with any encoding without a closing fence in it parse back to the same ops, and the reply to its text without the blocks |
| `Framing.StreamReader.ReadPrefixed` | shelldon/core/bus/frame.py:28-37 | one read, whatever the chunking; an oversized length is refused before any body byte |
| `Framing.StreamWriter.WritePrefixed` | shelldon/core/bus/frame.py:23-25 | appends the four-byte big-endian length and the payload |
| `Framing.FrameIsBigEndian` | shelldon/core/bus/frame.py:23-25 | a frame is the length in four bytes, most significant first, and the payload |
| `Framing.FrameReadsBackExactly` | shelldon/core/bus/frame.py:16-37 | a frame reads back if and only if its payload is within the cap; otherwise its body stays unread |
| `Framing.CutStreamReads` | shelldon/core/bus/frame.py:28-37 | a stream cut at any byte yields exactly the whole frames before the cut, then its end |
| `Framing.WholeIsExact` | shelldon/core/bus/frame.py:28-37 | those are the longest run of frames that fits before the cut |
| `Framing.AllFramesReadBack` | shelldon/core/bus/frame.py:16-37 | payloads within the cap are read back in order under any chunking |
| `Display.ShowsTheNewest` | shelldon/display/service.py:30-78 | for any arrivals and render speed drawn numbers rise per region, one snapshot per region is staged, staged work is signalled, and at rest the last drawn is the highest that arrived |
| `Display.ComesToRest` | shelldon/display/service.py:62-78 | once arrivals stop the render loop rests after exactly the steps before it, showing the highest-numbered snapshot of each region, and from wherever it is it can get there |
| `Display.StageKeepsPlaces` | shelldon/display/service.py:53-59 | a staged snapshot takes the place of the one of its region, or else the last place |
| `Display.Compositor.AcceptSnapshot` | shelldon/display/service.py:53-59 | drops stale and duplicate numbers, stages newest-wins and sets the signal |
| `Display.Compositor.TakeBatch` | shelldon/display/service.py:69-76 | clears the signal and takes all that is staged |
| `Screen.ScreenShowsLastFace` | shelldon/core/runtime.py:833-843 | once no face is on its way and the display rests, the face on screen is core's `_last_face` |
| `Screen.FacePusher.PushFaceToken` | shelldon/core/runtime.py:833-843 | remembers the face and sends it under the next number |
| `Learnings.LearningsTable.CaptureLearning` | shelldon/core/history.py:197-224 | the table stays the replay of its log through the atomic upsert |
| `Learnings.LearningsTable.ResolveLearning` | shelldon/core/history.py:238-250 | moves exactly a pending row |
| `Learnings.LedgerMatchesLog` | shelldon/core/history.py:52-66 | one row per non-blank key, a row for every noted key, counts equal to the notes with the key, all counts together the non-blank observations |
| `Learnings.StatusIsTheLastWord` | shelldon/core/history.py:238-250 | a row is pending iff its last word is a capture, and has a verdict iff that resolution met it pending and nothing recaptured it |
| `Learnings.StatusStep` | shelldon/core/history.py:197-224 | key, first wording and first date of a row never change; its last date is that of its last capture |
| `Learnings.NewRowStep` | shelldon/core/history.py:208-224 | a new row is pending with count one, the observation trimmed and both dates those of its capture |
| `Learnings.KeyIsExact` | shelldon/core/history.py:212 | a blank or missing pattern key is none; any other is trimmed |
| `Learnings.PendingListIsTheTop` | shelldon/core/history.py:226-236 | the dream's list is ranked by count then id, all pending, and what it leaves out is outranked by all of it and left out only when the list is full |
| `Checkpoint.PatchSetsExactly` | shelldon/core/state.py:109-125 | after a patch each path reads what the patch gave it and every other path what it was |
| `Checkpoint.PersistentState.ApplyPatch` | shelldon/core/state.py:109-125 | an unknown path anywhere changes nothing; a non-empty patch sets the dirty flag; value types are not checked |
| `Checkpoint.PersistentState.Load` | shelldon/core/state.py:90-107 | an absent, unreadable, corrupt or mistyped file loads the defaults, clean |
| `Checkpoint.DecodesExactly` | shelldon/core/state.py:33-60 | a state decodes if and only if its floats are numbers, its count is whole, its date a text and its stamps texts or missing |
| `Checkpoint.PersistentState.WriteCheckpoint` | shelldon/core/state.py:127-151 | success saves the state and clears the flag; a failure before the replace leaves path and flag as they were, and at most the temp file behind |
| `Checkpoint.CleanMeansSaved` | shelldon/core/state.py:90-151 | in every run, crashes, failures and unreadable loads included, a state that is not dirty is what loading now would return, if and only if the last load or save left the two together: a load that read its file or found the defaults, or a save of a state that decodes |
| `Checkpoint.OrderlyRunsStaySaved` | shelldon/core/state.py:90-151 | with readable files and well-typed patches "not dirty" always implies saved |
| `Checkpoint.LoadIsFaithful` | shelldon/core/state.py:97-107 | the clean state a load leaves is the saved one if and only if the file was read or holds the defaults |
| `Checkpoint.UnreadLoadOverwrites` | shelldon/core/state.py:97-107 | after an unreadable load the next patch and checkpoint replace the intact file |
| `Checkpoint.CheckpointIsAtomic` | shelldon/core/state.py:127-151 | killed at any step, the next load is the last saved state before the replace and the new one after it; after a power cut one whole saved state |
| `Checkpoint.FinishedCheckpointSurvives` | shelldon/core/state.py:133-151 | known before the call: a power cut after a finished checkpoint surely restores what it saved if and only if the state decodes and everything the path already named loads as that state |
| `Checkpoint.SettledCheckpointSurvives` | shelldon/core/state.py:140-151 | once the directory has settled, if and only if the state decodes |
| `Checkpoint.FinishedCheckpointMayBeUndone` | shelldon/core/state.py:140-151 | a finished checkpoint that a power cut undoes |

## Left out

- Approvals.HistoryStore.ApplyProposedOps: a parked directive carries a fixed call id where the code uses the turn's own id; nothing later reads it. Ops that park nothing (faces, memory, learnings) are applied elsewhere.
- Approvals.HistoryStore.HandleDecision: what a promotion does with staged files is left out; a decision frame without an answer counts as a denial before it gets here.
- CoreRuntime.Core.MaybePushMoodFace: face tokens are classes (thinking, reaction, degraded, mood), so whether the token changed and whether a reaction still holds the screen are inputs.
- ReplyParsing.CutReply: stops before whitespace stripping and the two directive lines; `_strip_reasoning` and `_extract_line` are left out, so the parse is stated for text without think tags.
- Checkpoint.PersistentState.ApplyPatch: ints and whole floats are one number.
- Checkpoint.PersistentState.WriteCheckpoint: a value that cannot be encoded at all, which raises before anything is written, is left out.
- Restarts.OverspendIsWhatCrashesUndid: checkpoints and crashes are single events here; that a finished checkpoint saves the state in memory and a readable load returns it is what Checkpoint proves.
- Screen.ScreenShowsLastFace: the bus delivers in order and does not fail; a failed face push leaves `_last_face` ahead of the screen.
- ToolLoop.JobsCarryTheAnswers: the name of an unknown tool is quoted plainly; `repr` would escape quotes and backslashes in it.
- Worker.AgenticLoop: the broker's answers, the time left and what tools return are inputs; what a tool itself does is left out.
- ForkServing.WaitpidReap: signals and process ids are left out; only the answers of waitpid and the length of each sleep are inputs. Cancellation belongs to the teardown.
- The lifecycle lets a Result of any worker ever spawned arrive any number of times, and lets a cancelled timeout wake once more: more than asyncio allows.
- Bus failures are modelled where the code guards them (face push at a turn's start, the delivery block, degrade on timeout); elsewhere they would end `run()`, whose teardown is left out.
- `max_closed` is positive, as its only use has it.
- Clocks that run backwards, except for the future spend stamp the budget gate ignores.
- White space is ASCII; text is a sequence of characters without encoding.
- Sockets, drain and backpressure, real fork, privilege drop, provider adapters, chat transports, hardware drivers and the plugins.
- The self-coding gate (one bounded step here), memory files, full-text recall and the prompt builders' wording.
- Caption ownership of the screen: the mood path awaits between face and caption.
