/** `Core`: the segments of its coroutines between suspension points, on the fields they update. Each
    is proved to be the corresponding transition of the lifecycle. */
module CoreRuntime {
  import opened Options
  import opened Arbitration
  import opened TurnFencing
  import opened ForkServing
  import opened Lifecycle
  import opened LifecycleInvariant

  class Core {
    const arbiter: Arbiter
    const fence: TurnFence
    const spawner: ForkServer
    var currentTurnId: Option<TurnId>
    var currentPrompt: Option<string>
    var lastFace: Face
    var reapTask: Option<TurnId>
    var timeoutTask: Option<TurnId>
    /** The event loop's own state, and the history variables. */
    ghost var loop: Loop
    ghost var log: Log

    ghost function View(): Sys
      reads this, arbiter, fence, spawner
    {
      Sys(arbiter.View(), fence.View(), spawner.View(),
          CoreVars(currentTurnId, currentPrompt, lastFace, reapTask, timeoutTask), loop, log)
    }

    ghost predicate Valid()
      reads this, fence
    {
      fence.Valid()
    }

    constructor (maxClosed: nat)
      requires maxClosed > 0
      ensures Valid() && View() == Init(maxClosed)
      ensures fresh(arbiter) && fresh(fence) && fresh(spawner)
    {
      arbiter := new Arbiter();
      fence := new TurnFence(maxClosed);
      spawner := new ForkServer();
      currentTurnId, currentPrompt, lastFace := None, None, NoFace;
      reapTask, timeoutTask := None, None;
      loop := Loop(map[], {}, {}, map[], {});
      log := Log(Free, map[], map[], [], [], [], [], [], 0, {});
      new;
      spawner.Preload();
    }

    /** `_start_turn`/`_start_resume_turn` up to the first suspension. */
    method StartTurn(ghost a: Agent, job: Job, turnId: TurnId)
      requires Valid()
      modifies this, arbiter, fence, spawner
      ensures Valid() && View() == OpenTurn(old(View()), a, job, turnId)
    {
      currentPrompt := Some(job.OwnerText());
      currentTurnId := Some(turnId);
      fence.Open(turnId);
      lastFace := ThinkingFace;
      loop := loop.(pcs := loop.pcs[a := StartFace(turnId, job)]);
      log := log.(holder := HeldBy(a), texts := log.texts[turnId := job.OwnerText()]);
    }

    /** The consumer takes an owner message from the inbox. */
    method HearOwner(text: string, turnId: TurnId)
      requires Valid()
      modifies this, arbiter, fence, spawner
      ensures Valid() && View() == Next(old(View()), OwnerMessage(text, turnId))
    {
      log := log.(submitted := log.submitted + [text]);
      var prompt := arbiter.Submit(text);
      if prompt.Some? {
        StartTurn(Consumer, OwnerBatch([text]), turnId);
      }
    }

    /** The consumer takes an approval whose parked call was found, the slot being idle. */
    method ResumeApproved(turnId: TurnId)
      requires Valid() && arbiter.IsIdle()
      modifies this, arbiter, fence, spawner
      ensures Valid() && View() == Next(old(View()), ApprovalTap(turnId))
    {
      var marker := arbiter.Submit("[tool approval]");
      StartTurn(Consumer, Resumed, turnId);
    }

    /** The dispatcher admits a scheduler job; a failed spend record frees the slot again. */
    method AdmitJob(prompt: string, marker: Option<string>, spendRecorded: bool, turnId: TurnId)
      requires Valid() && arbiter.IsIdle()
      modifies this, arbiter, fence, spawner
      ensures Valid() && View() == Next(old(View()), DispatchJob(prompt, marker, spendRecorded, turnId))
    {
      var taken := arbiter.Submit(prompt);
      if !spendRecorded {
        arbiter.Reset();
        log := log.(releases := log.releases + 1);
        return;
      }
      StartTurn(Scheduler, SelfDriven(prompt, marker), turnId);
    }

    /** `_start_turn` from the end of the caption push: spawn, then reap task and timeout. */
    method SpawnWorker(ghost a: Agent, turnId: TurnId, job: Job, forkSucceeds: bool)
      requires Valid()
      modifies this, arbiter, fence, spawner
      ensures Valid() && View() == SpawnTurn(old(View()), a, turnId, job, forkSucceeds)
    {
      hide Fence.Close, Job.Prompt, Job.Messages;
      ghost var pending := arbiter.pending;
      var spawned := spawner.Spawn(turnId, forkSucceeds);
      loop := loop.(pcs := loop.pcs[a := Resting]);
      if !spawned.Spawned? {
        fence.Close(turnId);
        arbiter.Reset();
        log := log.(holder := Free, ended := log.ended + [End(turnId, NeverStarted)],
                    fates := log.fates + [Dropped(job.Messages()), Dropped(pending)],
                    releases := log.releases + 1);
        return;
      }
      reapTask := Some(turnId);
      timeoutTask := Some(turnId);
      loop := loop.(sleeping := loop.sleeping + {turnId}, reaps := loop.reaps[turnId := Created],
                    live := loop.live + {turnId});
      log := log.(holder := WithWorker(turnId), prompts := log.prompts[turnId := job.Prompt()],
                  fates := log.fates + [Started(turnId, job.Messages())]);
    }

    method DisarmTimeout()
      modifies this`timeoutTask, this`loop
      ensures timeoutTask == None
      ensures old(timeoutTask) == None ==> loop == old(loop)
      ensures old(timeoutTask).Some? ==>
                loop == old(loop).(sleeping := old(loop).sleeping - {old(timeoutTask).value},
                                   cancelled := old(loop).cancelled + {old(timeoutTask).value})
    {
      if timeoutTask.Some? {
        loop := loop.(sleeping := loop.sleeping - {timeoutTask.value},
                      cancelled := loop.cancelled + {timeoutTask.value});
        timeoutTask := None;
      }
    }

    /** `_handle_result` up to the first delivery. */
    method HandleResult(turnId: TurnId, ok: bool)
      requires Valid()
      modifies this, arbiter, fence, spawner
      ensures Valid() && View() == Next(old(View()), ResultArrives(turnId, ok))
    {
      if !fence.Accept(Some(turnId)) {
        return;
      }
      DisarmTimeout();
      fence.Close(turnId);
      loop := loop.(pcs := loop.pcs[Consumer := Deliver(turnId, if ok then Reply else FailureResult, SendingText)]);
      log := log.(holder := HeldBy(Consumer), ended := log.ended + [End(turnId, ResultAccepted)]);
    }

    /** `_timeout_watch` from the end of its sleep. */
    method TimeoutWatch(turnId: TurnId)
      requires Valid()
      modifies this, arbiter, fence, spawner
      ensures Valid() && View() == Next(old(View()), WatcherWakes(turnId))
    {
      loop := loop.(sleeping := loop.sleeping - {turnId}, cancelled := loop.cancelled - {turnId});
      if fence.current != Some(turnId) {
        return;
      }
      fence.Close(turnId);
      timeoutTask := None;
      loop := loop.(pcs := loop.pcs[Watcher(turnId) := Deliver(turnId, Timeout, SendingText)]);
      log := log.(holder := HeldBy(Watcher(turnId)), ended := log.ended + [End(turnId, TimedOut)]);
    }

    method RecordTurnPair(stored: bool)
      modifies this`log
      ensures View() == RecordTurn(old(View()), stored)
    {
      if currentPrompt.None? || currentTurnId.None? {
        return;
      }
      if stored {
        log := log.(history := log.history + [Pair(currentTurnId.value, currentPrompt.value)]);
      }
    }

    /** Under which turn the ops of a Result are applied; what they do is not part of this class. */
    method ApplyProposedOps()
      modifies this`log
      ensures View() == ApplyOps(old(View()))
    {
      if currentTurnId.Some? {
        log := log.(applied := log.applied + [currentTurnId.value]);
      }
    }

    method BeginAwaitReap(ghost a: Agent, turnId: TurnId, ending: Ending) returns (task: Option<TurnId>)
      modifies this`reapTask, this`loop
      ensures View() == BeginAwait(old(View()), a, turnId, ending) && task == old(reapTask)
    {
      task := reapTask;
      reapTask := None;
      loop := loop.(pcs := loop.pcs[a := AwaitReap(turnId, ending, task)]);
    }

    /** The code after the delivery block, whether the block finished or was cut short. */
    method FinishDelivery(ghost a: Agent, turnId: TurnId, ending: Ending, proposes: bool, stored: bool)
      modifies this`log, this`loop, this`reapTask
      ensures View() == AfterDelivery(old(View()), a, turnId, ending, proposes, stored)
    {
      if ending == Reply {
        ApplyProposedOps();
        RecordTurnPair(stored);
        if proposes {
          loop := loop.(pcs := loop.pcs[a := Propose(turnId)]);
          return;
        }
      }
      var task := BeginAwaitReap(a, turnId, ending);
    }

    /** One resumption inside the delivery block of `_handle_result` or of the timeout's degrade. */
    method ResumeDelivery(ghost a: Agent, turnId: TurnId, ending: Ending, stage: Stage, c: Choice)
      requires Valid()
      modifies this, arbiter, fence, spawner
      ensures Valid() && View() == ContinueDelivery(old(View()), a, turnId, ending, stage, c)
    {
      if stage == PushingCaption {
        if ending != Reply {
          RecordTurnPair(c.stored);
        }
        FinishDelivery(a, turnId, ending, c.proposes, c.stored);
      } else if !c.succeeds {
        FinishDelivery(a, turnId, ending, c.proposes, c.stored);
      } else if stage == SendingText {
        lastFace := if ending == Reply then ReactionFace else DegradedFace;
        loop := loop.(pcs := loop.pcs[a := Deliver(turnId, ending, PushingFace)]);
      } else {
        loop := loop.(pcs := loop.pcs[a := Deliver(turnId, ending, PushingCaption)]);
      }
    }

    /** The slot release, and the catch-up turn it may start. */
    method CompleteTurn(ghost a: Agent, ending: Ending, turnId: TurnId)
      requires Valid()
      modifies this, arbiter, fence, spawner
      ensures Valid() && View() == ReleaseSlot(old(View()), a, ending, turnId)
    {
      var batch := arbiter.pending;
      var folded := arbiter.Complete();
      log := log.(releases := log.releases + 1, holder := if batch == [] then Free else HeldBy(a));
      if ending == Reply {
        loop := loop.(pcs := loop.pcs[a := Emit(if batch == [] then None else Some(batch))]);
      } else if folded.Some? {
        StartTurn(a, OwnerBatch(batch), turnId);
      } else {
        loop := loop.(pcs := loop.pcs[a := Resting]);
      }
    }

    /** The mood face is pushed between turns only, not while a reaction holds the screen, and only when it
        changes; its caption goes out even when the face stays. */
    method MaybePushMoodFace(ghost a: Agent, reactionHolds: bool, changed: bool)
      requires Valid()
      modifies this`lastFace, this`loop
      ensures View() == if !old(fence.IsIdle() && arbiter.IsIdle()) || reactionHolds then old(View())
                        else Next(old(View()), if changed then PushMoodFace(a) else StartChat(a))
    {
      if !(fence.IsIdle() && arbiter.IsIdle()) {
        return;
      }
      if reactionHolds {
        return;
      }
      if changed {
        lastFace := MoodFace;
      }
      loop := loop.(pcs := loop.pcs[a := Chatting]);
    }

    /** The reap task's first segment. */
    method StartReap(turnId: TurnId)
      requires Valid()
      modifies this, arbiter, fence, spawner
      ensures Valid() && View() == Next(old(View()), ReapStarts(turnId))
    {
      var handle := spawner.BeginReap();
      loop := loop.(reaps := loop.reaps[turnId := Waiting(handle)]);
    }

    /** The reap task's last segment: the worker is gone, or its reap gave up. The guard is freed either way. */
    method FinishReap(turnId: TurnId, ghost reclaimed: bool)
      requires Valid()
      modifies this, arbiter, fence, spawner
      ensures Valid() && View() == Next(old(View()), ReapEnds(turnId, reclaimed))
    {
      ghost var reaped := ReapedBy(View(), turnId);
      spawner.EndReap();
      if reclaimed {
        loop := loop.(reaps := loop.reaps[turnId := Done], live := loop.live - reaped);
      } else {
        loop := loop.(reaps := loop.reaps[turnId := Done]);
        log := log.(gaveUp := log.gaveUp + reaped);
      }
    }

    /** The task `a`, suspended at `pc`, is resumed. */
    method ResumeTask(ghost a: Agent, pc: Pc, c: Choice)
      requires Valid() && pc == loop.At(a)
      modifies this, arbiter, fence, spawner
      ensures Valid() && View() == ContinueTask(old(View()), a, c)
    {
      match pc {
        case Resting =>
        case Chatting => loop := loop.(pcs := loop.pcs[a := Resting]);
        case StartFace(turn, job) => loop := loop.(pcs := loop.pcs[a := StartCaption(turn, job)]);
        case StartCaption(turn, job) => SpawnWorker(a, turn, job, c.succeeds);
        case Deliver(turn, ending, stage) => ResumeDelivery(a, turn, ending, stage, c);
        case Propose(turn) => var task := BeginAwaitReap(a, turn, Reply);
        case AwaitReap(_, ending, _) => CompleteTurn(a, ending, c.newId);
        case Emit(next) =>
          if next.Some? {
            StartTurn(a, OwnerBatch(next.value), c.newId);
          } else {
            loop := loop.(pcs := loop.pcs[a := Resting]);
          }
      }
    }

    /** Any step of any task, taken on the object: it is the lifecycle's transition, and keeps its
        invariant. `pc` is where the resumed task was suspended. */
    method TakeStep(step: Step, pc: Pc)
      requires Inv(View()) && Enabled(View(), step)
      requires step.Continue? ==> pc == loop.At(step.agent)
      modifies this, arbiter, fence, spawner
      ensures View() == Next(old(View()), step) && Inv(View())
    {
      StepKeepsInv(View(), step);
      match step {
        case OwnerMessage(text, newId) => HearOwner(text, newId);
        case ApprovalTap(newId) => ResumeApproved(newId);
        case ResultArrives(turn, ok) => HandleResult(turn, ok);
        case DispatchJob(prompt, marker, spendRecorded, newId) => AdmitJob(prompt, marker, spendRecorded, newId);
        case PushMoodFace(a) => MaybePushMoodFace(a, false, true);
        case StartChat(a) => loop := loop.(pcs := loop.pcs[a := Chatting]);
        case Continue(a, c) => ResumeTask(a, pc, c);
        case WatcherWakes(turn) => TimeoutWatch(turn);
        case ReapStarts(turn) => StartReap(turn);
        case ReapEnds(turn, reclaimed) => FinishReap(turn, reclaimed);
        case WorkerExits(turn) => loop := loop.(live := loop.live - {turn});
      }
    }
  }
}
