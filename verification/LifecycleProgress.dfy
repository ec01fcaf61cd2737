/** The slot cannot wedge: every reserved slot is released after boundedly many steps of progress, and
    a step of progress is always possible without help from the worker, the broker or the owner. */
module LifecycleProgress {
  import opened Options
  import opened Arbitration
  import opened TurnFencing
  import opened ForkServing
  import opened Lifecycle
  import opened LifecycleInvariant
  import opened LifecycleTheorems

  function ReapLeft(s: Sys, turn: TurnId): nat {
    if turn !in s.loop.reaps then 0
    else match s.loop.reaps[turn]
      case Created => 2
      case Waiting(_) => 1
      case Done => 0
  }

  /** How many steps of progress the holder of the slot is away from releasing it. */
  function Rank(s: Sys): nat {
    match s.log.holder
    case Free => 0
    case WithWorker(turn) => 8 + ReapLeft(s, turn)
    case HeldBy(a) =>
      match s.loop.At(a)
      case Resting => 0
      case Chatting => 0
      case StartFace(_, _) => 12
      case StartCaption(_, _) => 11
      case Deliver(turn, _, SendingText) => 7 + ReapLeft(s, turn)
      case Deliver(turn, _, PushingFace) => 6 + ReapLeft(s, turn)
      case Deliver(turn, _, PushingCaption) => 5 + ReapLeft(s, turn)
      case Propose(turn) => 4 + ReapLeft(s, turn)
      case AwaitReap(turn, _, _) => 3 + ReapLeft(s, turn)
      case Emit(_) => 13
  }

  predicate Released(s: Sys, t: Sys) {
    t.log.releases > s.log.releases
  }

  /** The steps that bring a release nearer. */
  predicate IsProgress(s: Sys, step: Step) {
    match step
    case Continue(a, _) => s.log.holder == HeldBy(a)
    case WatcherWakes(turn) => s.fence.current == Some(turn)
    case ResultArrives(turn, _) => s.fence.Accepts(Some(turn))
    case ReapStarts(_) => true
    case ReapEnds(_, _) => true
    case _ => false
  }

  ghost predicate Nearer(s: Sys, t: Sys) {
    Released(s, t) || (t.slot.reserved && Rank(t) < Rank(s) && t.log.releases == s.log.releases)
  }

  ghost predicate OnlyDelivery(s: Sys, t: Sys) {
    t.slot == s.slot && t.log == s.log.(history := t.log.history, applied := t.log.applied) && t.loop.reaps == s.loop.reaps
  }

  lemma AfterDeliveryKeeps(s: Sys, a: Agent, turn: TurnId, ending: Ending, proposes: bool, stored: bool)
    ensures OnlyDelivery(s, AfterDelivery(s, a, turn, ending, proposes, stored))
  {
  }

  /** What leaving or continuing the delivery block leaves alone. */
  lemma DeliveryKeeps(s: Sys, a: Agent, c: Choice)
    requires FenceBounded(s) && s.loop.At(a).Deliver?
    ensures OnlyDelivery(s, ContinueTask(s, a, c))
  {
    hide AfterDelivery;
    var pc := s.loop.At(a);
    var recorded := if pc.ending == Reply || pc.stage != PushingCaption then s else RecordTurn(s, c.stored);
    AfterDeliveryKeeps(recorded, a, pc.turn, pc.ending, c.proposes, c.stored);
  }

  lemma DeliveryProgresses(s: Sys, a: Agent, c: Choice)
    requires FenceBounded(s) && s.slot.reserved && s.log.holder == HeldBy(a) && s.loop.At(a).Deliver?
    ensures Nearer(s, ContinueTask(s, a, c))
  {
    var pc, t := s.loop.At(a), ContinueTask(s, a, c);
    DeliveryKeeps(s, a, c);
    if pc.stage != PushingCaption && c.succeeds {
      assert t.loop.At(a) == Deliver(pc.turn, pc.ending, if pc.stage == SendingText then PushingFace else PushingCaption);
    } else {
      assert t.loop.At(a) == Propose(pc.turn) || (t.loop.At(a).AwaitReap? && t.loop.At(a).turn == pc.turn);
    }
  }

  /** A start, a fork or an event publication: one step on, or the slot is released. */
  lemma StartProgresses(s: Sys, a: Agent, c: Choice)
    requires FenceBounded(s) && s.slot.reserved && s.log.holder == HeldBy(a) && HolderOk(s)
    requires s.loop.At(a).StartFace? || s.loop.At(a).StartCaption? || s.loop.At(a).Emit?
    ensures Nearer(s, ContinueTask(s, a, c))
  {
    var t := ContinueTask(s, a, c);
    assert OwnerOk(s, s.loop.At(a));
    if s.loop.At(a).StartFace? {
      assert t.loop.At(a).StartCaption?;
    } else if s.loop.At(a).Emit? {
      assert t.loop.At(a).StartFace?;
    }
  }

  lemma EndProgresses(s: Sys, a: Agent, c: Choice)
    requires FenceBounded(s) && s.slot.reserved && s.log.holder == HeldBy(a) && HolderOk(s)
    requires s.loop.At(a).Propose? || s.loop.At(a).AwaitReap?
    ensures Nearer(s, ContinueTask(s, a, c))
  {
    if s.loop.At(a).Propose? {
      assert ContinueTask(s, a, c).loop.At(a).AwaitReap?;
    }
  }

  lemma ContinueProgresses(s: Sys, a: Agent, c: Choice)
    requires Inv(s) && Enabled(s, Continue(a, c)) && s.log.holder == HeldBy(a)
    ensures Nearer(s, ContinueTask(s, a, c))
  {
    assert FenceBounded(s) && s.loop.At(a).Owns() && s.slot.reserved;
    hide Inv, HolderOk, ContinueTask, Nearer, Enabled;
    if s.loop.At(a).Deliver? {
      DeliveryProgresses(s, a, c);
    } else if s.loop.At(a).Propose? || s.loop.At(a).AwaitReap? {
      assert HolderOk(s) by { InvHolds(s); }
      EndProgresses(s, a, c);
    } else {
      assert HolderOk(s) by { InvHolds(s); }
      StartProgresses(s, a, c);
    }
  }

  lemma InvHolds(s: Sys)
    requires Inv(s)
    ensures HolderOk(s)
  {
  }

  lemma ReapProgresses(s: Sys, step: Step)
    requires Inv(s) && Enabled(s, step) && (step.ReapStarts? || step.ReapEnds?)
    ensures Next(s, step).slot.reserved && Rank(Next(s, step)) < Rank(s)
    ensures Next(s, step).log.releases == s.log.releases
  {
    var t := Next(s, step);
    assert forall b :: t.loop.At(b) == s.loop.At(b);
    if s.log.holder.HeldBy? {
      assert s.loop.At(s.log.holder.agent).Owns() && OwnerOk(s, s.loop.At(s.log.holder.agent));
    }
  }

  lemma EndingProgresses(s: Sys, step: Step)
    requires Inv(s) && Enabled(s, step) && IsProgress(s, step) && (step.WatcherWakes? || step.ResultArrives?)
    ensures Next(s, step).slot.reserved && Rank(Next(s, step)) < Rank(s)
    ensures Next(s, step).log.releases == s.log.releases
  {
    if step.WatcherWakes? {
      SleeperIsRunning(s, step.turn);
      assert Next(s, step).loop.At(Watcher(step.turn)).Deliver?;
    } else {
      AcceptedIsRunning(s, step.turn);
      assert Next(s, step).loop.At(Consumer).Deliver?;
    }
  }

  lemma ProgressDecreases(s: Sys, step: Step)
    requires Inv(s) && Enabled(s, step) && s.slot.reserved && IsProgress(s, step)
    ensures Nearer(s, Next(s, step))
  {
    match step
    case Continue(a, c) => ContinueProgresses(s, a, c);
    case WatcherWakes(turn) => EndingProgresses(s, step);
    case ResultArrives(turn, ok) => EndingProgresses(s, step);
    case ReapStarts(turn) => ReapProgresses(s, step);
    case ReapEnds(_, _) => ReapProgresses(s, step);
    case _ =>
  }

  /** A dispatch whose spend record fails holds the slot for no step: it is free before and after, and only that
      release is new. */
  lemma FailedDispatchFreesSlot(s: Sys, prompt: string, marker: Option<string>, newId: TurnId)
    requires Inv(s) && Enabled(s, DispatchJob(prompt, marker, false, newId))
    ensures var t := Next(s, DispatchJob(prompt, marker, false, newId));
            !t.slot.reserved && t == s.(log := s.log.(releases := s.log.releases + 1))
  {
    hide LogOk, FenceOk, Conserved;
  }

  lemma BystandersDoNotDelay(s: Sys, a: Agent, c: Choice)
    requires Inv(s) && s.log.holder != HeldBy(a)
    ensures var t := ContinueTask(s, a, c);
            && t.slot == s.slot && t.log == s.log && t.loop.reaps == s.loop.reaps
            && (forall b :: b != a ==> t.loop.At(b) == s.loop.At(b))
  {
    assert !s.loop.At(a).Owns();
  }

  lemma OthersDoNotDelay(s: Sys, step: Step)
    requires Inv(s) && Enabled(s, step) && s.slot.reserved && !IsProgress(s, step)
    ensures Next(s, step).slot.reserved && Rank(Next(s, step)) <= Rank(s)
    ensures Next(s, step).log.releases == s.log.releases
  {
    var t := Next(s, step);
    if step.Continue? { BystandersDoNotDelay(s, step.agent, step.choice); }
    if s.log.holder.HeldBy? {
      assert s.loop.At(s.log.holder.agent).Owns();
      hide ContinueTask;
      assert t.loop.At(s.log.holder.agent) == s.loop.At(s.log.holder.agent);
    }
    hide ContinueTask;
  }

  ghost function CountProgress(s: Sys, steps: seq<Step>): nat
    requires Inv(s) && Possible(s, steps)
    decreases |steps|
  {
    if steps == [] then 0
    else
      StepKeepsInv(s, steps[0]);
      (if IsProgress(s, steps[0]) then 1 else 0) + CountProgress(Next(s, steps[0]), steps[1..])
  }

  lemma ContinueKeepsReleases(s: Sys, a: Agent, c: Choice)
    requires s.fence.cap > 0 && |s.fence.order| <= s.fence.cap
    ensures s.log.releases <= ContinueTask(s, a, c).log.releases
  {
    if s.loop.At(a).Deliver? { DeliveryKeeps(s, a, c); }
    hide ContinueDelivery;
  }

  lemma ReleasesOnlyGrow(s: Sys, step: Step)
    requires s.fence.cap > 0 && |s.fence.order| <= s.fence.cap
    ensures s.log.releases <= Next(s, step).log.releases
  {
    if step.Continue? { ContinueKeepsReleases(s, step.agent, step.choice); }
    hide ContinueTask;
  }

  lemma {:induction false} ReleasesOnlyGrowInRuns(s: Sys, steps: seq<Step>)
    requires Inv(s) && Possible(s, steps)
    ensures s.log.releases <= After(s, steps).log.releases
    decreases |steps|
  {
    if steps != [] {
      StepKeepsInv(s, steps[0]);
      ReleasesOnlyGrow(s, steps[0]);
      ReleasesOnlyGrowInRuns(Next(s, steps[0]), steps[1..]);
    }
  }

  /** In any run that starts with the slot reserved, whatever the interleaving, at most `Rank` steps of
      progress can happen before the slot is released. */
  lemma {:induction false} ReleaseIsNear(s: Sys, steps: seq<Step>)
    requires Inv(s) && Possible(s, steps) && s.slot.reserved
    requires !Released(s, After(s, steps))
    ensures CountProgress(s, steps) + Rank(After(s, steps)) <= Rank(s) <= 13
    ensures After(s, steps).slot.reserved
    decreases |steps|
  {
    RankIsSmall(s);
    if steps != [] {
      hide Inv, Enabled, Rank, IsProgress;
      StepKeepsInv(s, steps[0]);
      var t := Next(s, steps[0]);
      ReleasesOnlyGrowInRuns(t, steps[1..]);
      if IsProgress(s, steps[0]) {
        ProgressDecreases(s, steps[0]);
      } else {
        OthersDoNotDelay(s, steps[0]);
      }
      ReleaseIsNear(t, steps[1..]);
    }
  }

  lemma RankIsSmall(s: Sys)
    ensures Rank(s) <= 13
  {
  }

  /** The step that is always possible: the owner resumes, the timeout fires, or the bounded reap moves. */
  function ProgressStep(s: Sys, c: Choice): Step {
    match s.log.holder
    case Free => Continue(Consumer, c)
    case WithWorker(turn) => WatcherWakes(turn)
    case HeldBy(a) =>
      var pc := s.loop.At(a);
      if pc.AwaitReap? && pc.task.Some? && pc.task.value in s.loop.reaps && s.loop.reaps[pc.task.value] != Done then
        if s.loop.reaps[pc.task.value] == Created then ReapStarts(pc.task.value) else ReapEnds(pc.task.value, c.reclaimed)
      else Continue(a, c)
  }

  lemma ProgressIsPossible(s: Sys, c: Choice)
    requires Inv(s) && s.slot.reserved && s.Fresh(c.newId)
    ensures Enabled(s, ProgressStep(s, c)) && IsProgress(s, ProgressStep(s, c))
    ensures !ProgressStep(s, c).ResultArrives?
  {
    if s.log.holder.HeldBy? {
      assert s.loop.At(s.log.holder.agent).Owns();
    }
  }

  lemma FreshExists(texts: map<TurnId, string>) returns (id: TurnId)
    ensures id !in texts
  {
    id := AboveAll(texts.Keys);
  }

  lemma AboveAll(ids: set<TurnId>) returns (bound: TurnId)
    ensures forall id :: id in ids ==> id < bound
    decreases ids
  {
    bound := 0;
    if ids != {} {
      var id :| id in ids;
      var rest := AboveAll(ids - {id});
      bound := if id < rest then rest else id + 1;
      assert forall x :: x in ids ==> x == id || x in ids - {id};
    }
  }

  lemma {:induction false} AfterFirst(s: Sys, step: Step, rest: seq<Step>)
    requires Inv(s) && Enabled(s, step) && Inv(Next(s, step)) && Possible(Next(s, step), rest)
    ensures Possible(s, [step] + rest) && After(s, [step] + rest) == After(Next(s, step), rest)
  {
    hide Inv, Enabled, Next;
    assert ([step] + rest)[1..] == rest;
  }

  /** The run is one that the answers lead to: `answers` says, in every state, how the call awaited there
      ends; new turn ids are whatever is fresh. */
  ghost predicate Follows(s: Sys, steps: seq<Step>, answers: Sys -> Choice)
    requires Inv(s) && Possible(s, steps)
    decreases |steps|
  {
    steps == [] ||
    (StepKeepsInv(s, steps[0]);
     && (steps[0].Continue? ==> steps[0].choice == answers(s).(newId := steps[0].choice.newId))
     && (steps[0].ReapEnds? ==> steps[0].reclaimed == answers(s).reclaimed)
     && Follows(Next(s, steps[0]), steps[1..], answers))
  }

  lemma {:induction false} FollowsFirst(s: Sys, step: Step, rest: seq<Step>, answers: Sys -> Choice)
    requires Inv(s) && Enabled(s, step) && Inv(Next(s, step)) && Possible(Next(s, step), rest)
    requires Follows(Next(s, step), rest, answers)
    requires step.Continue? ==> step.choice == answers(s).(newId := step.choice.newId)
    requires step.ReapEnds? ==> step.reclaimed == answers(s).reclaimed
    ensures Possible(s, [step] + rest) && Follows(s, [step] + rest, answers)
  {
    hide Inv, Enabled, Next;
    assert ([step] + rest)[1..] == rest;
  }

  /** The step of progress that the answers allow. */
  lemma AnsweredStep(s: Sys, answers: Sys -> Choice) returns (step: Step)
    requires Inv(s) && s.slot.reserved
    ensures Enabled(s, step) && Inv(Next(s, step)) && Nearer(s, Next(s, step))
    ensures step.Continue? ==> step.choice == answers(s).(newId := step.choice.newId)
    ensures step.ReapEnds? ==> step.reclaimed == answers(s).reclaimed
    ensures !step.ResultArrives? && !step.WorkerExits?
  {
    var id := FreshExists(s.log.texts);
    var c := answers(s).(newId := id);
    step := ProgressStep(s, c);
    ProgressIsPossible(s, c);
    assert step.Continue? ==> step.choice == c;
    hide Inv, Enabled, IsProgress, ProgressStep, Nearer;
    ProgressDecreases(s, step);
    StepKeepsInv(s, step);
  }

  /** From every state with the slot reserved, the tasks, the timer and the reap alone reach a release,
      whatever the awaited calls answer. */
  lemma {:induction false} SlotNeverWedges(s: Sys, answers: Sys -> Choice) returns (steps: seq<Step>)
    requires Inv(s) && s.slot.reserved
    ensures |steps| <= Rank(s) && Possible(s, steps) && Released(s, After(s, steps))
    ensures Follows(s, steps, answers)
    ensures forall k :: 0 <= k < |steps| ==> !steps[k].ResultArrives? && !steps[k].WorkerExits?
    decreases Rank(s)
  {
    HolderHasRank(s);
    hide Inv, Enabled, Rank, Next;
    var step := AnsweredStep(s, answers);
    var t := Next(s, step);
    var rest: seq<Step> := [];
    if !Released(s, t) {
      rest := SlotNeverWedges(t, answers);
    }
    steps := [step] + rest;
    AfterFirst(s, step, rest);
    FollowsFirst(s, step, rest, answers);
  }

  /** And no run can avoid it: any run with thirteen steps of progress has released the slot. */
  lemma ThirteenStepsRelease(s: Sys, steps: seq<Step>)
    requires Inv(s) && Possible(s, steps) && s.slot.reserved && CountProgress(s, steps) >= 13
    ensures Released(s, After(s, steps))
  {
    if !Released(s, After(s, steps)) {
      ReleaseIsNear(s, steps);
      RunsKeepInv(s, steps);
      HolderHasRank(After(s, steps));
      assert false;
    }
  }

  lemma HolderHasRank(s: Sys)
    requires Inv(s) && s.slot.reserved
    ensures Rank(s) > 0
  {
    if s.log.holder.HeldBy? {
      assert s.loop.At(s.log.holder.agent).Owns();
    }
  }
}
