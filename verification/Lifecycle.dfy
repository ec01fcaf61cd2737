/** The turn lifecycle: core's coroutines, the worker and its reap, as one transition system.
    A step is the code between two suspension points of one task. */
module Lifecycle {
  import opened Options
  import opened Arbitration
  import opened TurnFencing
  import opened ForkServing

  /** The tasks that run turn code. Every armed timeout is a task of its own. */
  datatype Agent = Consumer | Scheduler | Watcher(turn: TurnId)

  /** What a turn is for. */
  datatype Job =
    | OwnerBatch(batch: seq<string>)
    | SelfDriven(prompt: string, marker: Option<string>)
    | Resumed
  {
    function Prompt(): string {
      match this
      case OwnerBatch(batch) => Join(batch)
      case SelfDriven(prompt, _) => prompt
      case Resumed => ""
    }

    /** What history records as the owner's side. */
    function OwnerText(): string {
      match this
      case OwnerBatch(batch) => Join(batch)
      case SelfDriven(prompt, marker) => if marker.Some? then marker.value else prompt
      case Resumed => "[resumed after tool approval]"
    }

    function Messages(): seq<string> {
      if OwnerBatch? then batch else []
    }
  }

  datatype Ending = Reply | FailureResult | Timeout

  datatype Stage = SendingText | PushingFace | PushingCaption

  /** Where a task is suspended. */
  datatype Pc =
    | Resting
    | Chatting                                  // a reply or mood push outside any turn
    | StartFace(turn: TurnId, job: Job)
    | StartCaption(turn: TurnId, job: Job)
    | Deliver(turn: TurnId, ending: Ending, stage: Stage)
    | Propose(turn: TurnId)
    | AwaitReap(turn: TurnId, ending: Ending, task: Option<TurnId>)
    | Emit(next: Option<seq<string>>)
  {
    /** The task must release the slot, or hand it to a worker. */
    predicate Owns() {
      !Resting? && !Chatting? && (Emit? ==> next.Some?)
    }

    function Messages(): seq<string> {
      if StartFace? || StartCaption? then job.Messages()
      else if Emit? && next.Some? then next.value
      else []
    }
  }

  datatype ReapState = Created | Waiting(handle: Option<Handle>) | Done

  datatype Face = NoFace | ThinkingFace | ReactionFace | DegradedFace | MoodFace

  /** The fields of `Core` that the lifecycle reads and writes. */
  datatype CoreVars = CoreVars(
    turn: Option<TurnId>, ownerText: Option<string>, face: Face,
    reapTask: Option<TurnId>, timeoutTask: Option<TurnId>)

  /** The event loop and the kernel: suspended tasks, sleeping timeouts (cancelled ones may still
      wake up once), reap tasks, live worker processes. */
  datatype Loop = Loop(
    pcs: map<Agent, Pc>, sleeping: set<TurnId>, cancelled: set<TurnId>,
    reaps: map<TurnId, ReapState>, live: set<TurnId>)
  {
    function At(a: Agent): Pc {
      if a in pcs then pcs[a] else Resting
    }
  }

  datatype Fate = Started(turn: TurnId, batch: seq<string>) | Dropped(batch: seq<string>)

  datatype How = ResultAccepted | TimedOut | NeverStarted

  datatype End = End(turn: TurnId, how: How)

  datatype Pair = Pair(turn: TurnId, ownerText: string)

  datatype Holder = Free | HeldBy(agent: Agent) | WithWorker(turn: TurnId)

  /** History variables: no step reads them, except that a new turn id is not in `texts`. `gaveUp` are the
      workers whose reap ended without them. */
  datatype Log = Log(
    holder: Holder, texts: map<TurnId, string>, prompts: map<TurnId, string>,
    submitted: seq<string>, fates: seq<Fate>, ended: seq<End>, history: seq<Pair>, applied: seq<TurnId>,
    releases: nat, gaveUp: set<TurnId>)

  datatype Sys = Sys(slot: Slot, fence: Fence, server: Server, core: CoreVars, loop: Loop, log: Log) {
    predicate Fresh(turn: TurnId) {
      turn !in log.texts
    }
  }

  function Init(cap: nat): Sys {
    Sys(Slot(false, []), Empty(cap), Server(true, false, None),
        CoreVars(None, None, NoFace, None, None), Loop(map[], {}, {}, map[], {}),
        Log(Free, map[], map[], [], [], [], [], [], 0, {}))
  }

  // ---- the segments of `Core`'s coroutines ----

  /** `_start_turn` and `_start_resume_turn` up to the face push. */
  function OpenTurn(s: Sys, a: Agent, job: Job, turn: TurnId): Sys
    requires s.fence.cap > 0 && |s.fence.order| <= s.fence.cap
  {
    s.(fence := s.fence.Open(turn),
       core := s.core.(turn := Some(turn), ownerText := Some(job.OwnerText()), face := ThinkingFace),
       loop := s.loop.(pcs := s.loop.pcs[a := StartFace(turn, job)]),
       log := s.log.(holder := HeldBy(a), texts := s.log.texts[turn := job.OwnerText()]))
  }

  /** The spawn, and on success the reap task and the timeout; on failure both guards are released. */
  function SpawnTurn(s: Sys, a: Agent, turn: TurnId, job: Job, forkSucceeds: bool): Sys
    requires s.fence.cap > 0 && |s.fence.order| <= s.fence.cap
  {
    var (server, result) := s.server.Spawn(turn, forkSucceeds);
    var resting := s.loop.pcs[a := Resting];
    if result.Spawned? then
      s.(server := server,
         core := s.core.(reapTask := Some(turn), timeoutTask := Some(turn)),
         loop := s.loop.(pcs := resting, sleeping := s.loop.sleeping + {turn},
                         reaps := s.loop.reaps[turn := Created], live := s.loop.live + {turn}),
         log := s.log.(holder := WithWorker(turn), prompts := s.log.prompts[turn := job.Prompt()],
                       fates := s.log.fates + [Started(turn, job.Messages())]))
    else
      s.(server := server, fence := s.fence.Close(turn), slot := s.slot.Reset(),
         loop := s.loop.(pcs := resting),
         log := s.log.(holder := Free, ended := s.log.ended + [End(turn, NeverStarted)],
                       fates := s.log.fates + [Dropped(job.Messages()), Dropped(s.slot.pending)],
                       releases := s.log.releases + 1))
  }

  /** `_handle_result` up to the first delivery. */
  function AdmitResult(s: Sys, turn: TurnId, ok: bool): Sys
    requires s.fence.cap > 0 && |s.fence.order| <= s.fence.cap
  {
    if !s.fence.Accepts(Some(turn)) then s
    else
      var disarmed := if s.core.timeoutTask.Some? then {s.core.timeoutTask.value} else {};
      s.(fence := s.fence.Close(turn), core := s.core.(timeoutTask := None),
         loop := s.loop.(sleeping := s.loop.sleeping - disarmed, cancelled := s.loop.cancelled + disarmed,
                         pcs := s.loop.pcs[Consumer := Deliver(turn, if ok then Reply else FailureResult, SendingText)]),
         log := s.log.(holder := HeldBy(Consumer), ended := s.log.ended + [End(turn, ResultAccepted)]))
  }

  /** `_timeout_watch` from the end of its sleep. */
  function WakeWatcher(s: Sys, turn: TurnId): Sys
    requires s.fence.cap > 0 && |s.fence.order| <= s.fence.cap
  {
    var woken := s.loop.(sleeping := s.loop.sleeping - {turn}, cancelled := s.loop.cancelled - {turn});
    if s.fence.current != Some(turn) then s.(loop := woken)
    else
      s.(fence := s.fence.Close(turn), core := s.core.(timeoutTask := None),
         loop := woken.(pcs := woken.pcs[Watcher(turn) := Deliver(turn, Timeout, SendingText)]),
         log := s.log.(holder := HeldBy(Watcher(turn)), ended := s.log.ended + [End(turn, TimedOut)]))
  }

  /** `_record_turn`: the pair is built from the fields, not from the turn being ended. */
  function RecordTurn(s: Sys, stored: bool): Sys {
    if s.core.ownerText.None? || s.core.turn.None? || !stored then s
    else s.(log := s.log.(history := s.log.history + [Pair(s.core.turn.value, s.core.ownerText.value)]))
  }

  /** `_apply_proposed_ops`: the ops are applied, and a call parked, under the field's turn id. */
  function ApplyOps(s: Sys): Sys {
    if s.core.turn.None? then s else s.(log := s.log.(applied := s.log.applied + [s.core.turn.value]))
  }

  function MoveTo(s: Sys, a: Agent, pc: Pc): Sys {
    s.(loop := s.loop.(pcs := s.loop.pcs[a := pc]))
  }

  /** `_await_reap` up to its wait. */
  function BeginAwait(s: Sys, a: Agent, turn: TurnId, ending: Ending): Sys {
    MoveTo(s.(core := s.core.(reapTask := None)), a, AwaitReap(turn, ending, s.core.reapTask))
  }

  /** The code after the delivery block, whether it finished or was cut short. */
  function AfterDelivery(s: Sys, a: Agent, turn: TurnId, ending: Ending, proposes: bool, stored: bool): Sys {
    if ending == Reply then
      var recorded := RecordTurn(ApplyOps(s), stored);
      if proposes then MoveTo(recorded, a, Propose(turn)) else BeginAwait(recorded, a, turn, ending)
    else
      BeginAwait(s, a, turn, ending)
  }

  /** One resumption inside the delivery block; a failed send or face push leaves the block. */
  function ContinueDelivery(s: Sys, a: Agent, turn: TurnId, ending: Ending, stage: Stage, c: Choice): Sys {
    match stage
    case SendingText =>
      if c.succeeds then
        MoveTo(s.(core := s.core.(face := if ending == Reply then ReactionFace else DegradedFace)),
               a, Deliver(turn, ending, PushingFace))
      else AfterDelivery(s, a, turn, ending, c.proposes, c.stored)
    case PushingFace =>
      if c.succeeds then MoveTo(s, a, Deliver(turn, ending, PushingCaption))
      else AfterDelivery(s, a, turn, ending, c.proposes, c.stored)
    case PushingCaption =>
      var recorded := if ending == Reply then s else RecordTurn(s, c.stored);
      AfterDelivery(recorded, a, turn, ending, c.proposes, c.stored)
  }

  /** `arbiter.complete()` and what follows up to the next suspension. */
  function ReleaseSlot(s: Sys, a: Agent, ending: Ending, newId: TurnId): Sys
    requires s.fence.cap > 0 && |s.fence.order| <= s.fence.cap
  {
    var batch := s.slot.pending;
    var next := if batch == [] then None else Some(batch);
    var released := s.(slot := s.slot.Complete(),
                       log := s.log.(releases := s.log.releases + 1,
                                     holder := if batch == [] then Free else HeldBy(a)));
    if ending == Reply then MoveTo(released, a, Emit(next))
    else if batch == [] then MoveTo(released, a, Resting)
    else OpenTurn(released, a, OwnerBatch(batch), newId)
  }

  // ---- steps ----

  /** How the awaited call of a resumed task ended, and what the resumed code chooses. */
  datatype Choice = Choice(succeeds: bool, proposes: bool, stored: bool, reclaimed: bool, newId: TurnId)

  datatype Step =
    | OwnerMessage(text: string, newId: TurnId)
    | ApprovalTap(newId: TurnId)                       // a tap that found its parked call
    | ResultArrives(turn: TurnId, ok: bool)
    | DispatchJob(prompt: string, marker: Option<string>, spendRecorded: bool, newId: TurnId)
    | PushMoodFace(agent: Agent)
    | StartChat(agent: Agent)
    | Continue(agent: Agent, choice: Choice)
    | WatcherWakes(turn: TurnId)
    | ReapStarts(turn: TurnId)
    | ReapEnds(turn: TurnId, reclaimed: bool)          // or given up on, after the kill
    | WorkerExits(turn: TurnId)

  predicate ReapFinished(s: Sys, task: Option<TurnId>) {
    task.Some? ==> task.value in s.loop.reaps && s.loop.reaps[task.value] == Done
  }

  /** A Result comes from some worker ever spawned, alive or dead, any number of times. */
  predicate Enabled(s: Sys, step: Step) {
    match step
    case OwnerMessage(_, newId) => s.loop.At(Consumer) == Resting && s.Fresh(newId)
    case ApprovalTap(newId) => s.loop.At(Consumer) == Resting && s.Fresh(newId) && !s.slot.reserved
    case ResultArrives(turn, _) => s.loop.At(Consumer) == Resting && turn in s.log.prompts
    case DispatchJob(_, _, _, newId) => s.loop.At(Scheduler) == Resting && s.Fresh(newId) && !s.slot.reserved
    case PushMoodFace(a) => !a.Watcher? && s.loop.At(a) == Resting && s.fence.current == None && !s.slot.reserved
    case StartChat(a) => !a.Watcher? && s.loop.At(a) == Resting
    case Continue(a, c) =>
      && s.Fresh(c.newId)
      && !s.loop.At(a).Resting?
      && (s.loop.At(a).AwaitReap? ==> ReapFinished(s, s.loop.At(a).task))
    case WatcherWakes(turn) => turn in s.loop.sleeping + s.loop.cancelled
    case ReapStarts(turn) => turn in s.loop.reaps && s.loop.reaps[turn] == Created
    case ReapEnds(turn, _) => turn in s.loop.reaps && s.loop.reaps[turn].Waiting?
    case WorkerExits(turn) => turn in s.loop.live
  }

  function ContinueTask(s: Sys, a: Agent, c: Choice): Sys
    requires s.fence.cap > 0 && |s.fence.order| <= s.fence.cap
  {
    match s.loop.At(a)
    case Resting => s
    case Chatting => MoveTo(s, a, Resting)
    case StartFace(turn, job) => MoveTo(s, a, StartCaption(turn, job))
    case StartCaption(turn, job) => SpawnTurn(s, a, turn, job, c.succeeds)
    case Deliver(turn, ending, stage) => ContinueDelivery(s, a, turn, ending, stage, c)
    case Propose(turn) => BeginAwait(s, a, turn, Reply)
    case AwaitReap(_, ending, _) => ReleaseSlot(s, a, ending, c.newId)
    case Emit(next) => if next.None? then MoveTo(s, a, Resting) else OpenTurn(s, a, OwnerBatch(next.value), c.newId)
  }

  /** The worker a waiting reap is for. */
  function ReapedBy(s: Sys, turn: TurnId): set<TurnId> {
    if turn in s.loop.reaps && s.loop.reaps[turn].Waiting? && s.loop.reaps[turn].handle.Some?
    then {s.loop.reaps[turn].handle.value} else {}
  }

  function Next(s: Sys, step: Step): Sys
    requires s.fence.cap > 0 && |s.fence.order| <= s.fence.cap
  {
    match step
    case OwnerMessage(text, newId) =>
      var heard := s.(slot := s.slot.Submit(text), log := s.log.(submitted := s.log.submitted + [text]));
      if s.slot.reserved then heard else OpenTurn(heard, Consumer, OwnerBatch([text]), newId)
    case ApprovalTap(newId) =>
      OpenTurn(s.(slot := s.slot.Submit("[tool approval]")), Consumer, Resumed, newId)
    case ResultArrives(turn, ok) => AdmitResult(s, turn, ok)
    case DispatchJob(prompt, marker, spendRecorded, newId) =>
      var taken := s.(slot := s.slot.Submit(prompt));
      if spendRecorded then OpenTurn(taken, Scheduler, SelfDriven(prompt, marker), newId)
      else taken.(slot := taken.slot.Reset(), log := s.log.(releases := s.log.releases + 1))
    case PushMoodFace(a) => MoveTo(s.(core := s.core.(face := MoodFace)), a, Chatting)
    case StartChat(a) => MoveTo(s, a, Chatting)
    case Continue(a, c) => ContinueTask(s, a, c)
    case WatcherWakes(turn) => WakeWatcher(s, turn)
    case ReapStarts(turn) =>
      s.(server := s.server.BeginReap(),
         loop := s.loop.(reaps := s.loop.reaps[turn := Waiting(s.server.inflight)]))
    case ReapEnds(turn, reclaimed) =>
      var reaped := ReapedBy(s, turn);
      s.(server := s.server.EndReap(),
         loop := s.loop.(reaps := s.loop.reaps[turn := Done], live := if reclaimed then s.loop.live - reaped else s.loop.live),
         log := if reclaimed then s.log else s.log.(gaveUp := s.log.gaveUp + reaped))
    case WorkerExits(turn) => s.(loop := s.loop.(live := s.loop.live - {turn}))
  }
}
