/** When a second worker can be live: exactly when a reap has given up on one that is still there. */
module LifecycleStrays {
  import opened Options
  import opened Arbitration
  import opened TurnFencing
  import opened ForkServing
  import opened Lifecycle
  import opened LifecycleInvariant
  import opened LifecycleTheorems
  import opened LifecycleProgress

  /** The workers that outlived their reap. */
  function Strays(s: Sys): set<TurnId> {
    s.loop.live * s.log.gaveUp
  }

  /** No reap of the run gives up. */
  predicate Reclaims(steps: seq<Step>) {
    forall k :: 0 <= k < |steps| && steps[k].ReapEnds? ==> steps[k].reclaimed
  }

  // ---- no stray, no second worker ----

  lemma NoNewStray(s: Sys, step: Step)
    requires Inv(s) && Enabled(s, step) && Strays(s) == {} && (step.ReapEnds? ==> step.reclaimed)
    ensures Strays(Next(s, step)) == {}
  {
    SpawnsAreNew(s, step);
    hide Inv, Enabled, Next;
  }

  /** What a step does to the live workers and the given-up ones. */
  lemma SpawnsAreNew(s: Sys, step: Step)
    requires Inv(s) && Enabled(s, step)
    ensures var t := Next(s, step);
            && (forall w :: w in t.loop.live && w !in s.loop.live ==> w !in s.log.prompts && w !in s.log.gaveUp)
            && ((step.ReapEnds? ==> step.reclaimed) ==> t.log.gaveUp == s.log.gaveUp)
  {
    if step.Continue? {
      ContinueSpawns(s, step.agent, step.choice);
    }
    hide ContinueTask;
  }

  /** The workers are left alone, or joined by one that is new. */
  ghost predicate OnlyNewWorkers(s: Sys, t: Sys) {
    && t.log.gaveUp == s.log.gaveUp && s.log.prompts.Keys <= t.log.prompts.Keys && s.loop.live <= t.loop.live
    && (forall w :: w in t.loop.live && w !in s.loop.live ==> w !in s.log.prompts && w !in s.log.gaveUp)
  }

  lemma ForkIsNew(s: Sys, a: Agent, c: Choice)
    requires Inv(s) && s.loop.At(a).StartCaption?
    ensures OnlyNewWorkers(s, ContinueTask(s, a, c))
  {
    assert s.loop.At(a).Owns() && OwnerOk(s, s.loop.At(a));
    hide HolderOk, Conserved, LogOk;
  }

  ghost predicate SameWorkers(s: Sys, t: Sys) {
    t.loop.live == s.loop.live && t.log.gaveUp == s.log.gaveUp && t.log.prompts == s.log.prompts
  }

  lemma OpeningLeavesWorkers(s: Sys, a: Agent, c: Choice)
    requires FenceBounded(s) && !s.loop.At(a).StartCaption? && !s.loop.At(a).Deliver?
    ensures SameWorkers(s, ContinueTask(s, a, c))
  {
  }

  lemma DeliveryLeavesWorkers(s: Sys, a: Agent, c: Choice)
    requires FenceBounded(s) && s.loop.At(a).Deliver?
    ensures SameWorkers(s, ContinueTask(s, a, c))
  {
    DeliveryKeeps(s, a, c);
  }

  lemma ContinueSpawns(s: Sys, a: Agent, c: Choice)
    requires Inv(s)
    ensures OnlyNewWorkers(s, ContinueTask(s, a, c))
  {
    assert FenceBounded(s);
    hide Inv, ContinueTask;
    if s.loop.At(a).StartCaption? {
      ForkIsNew(s, a, c);
    } else if s.loop.At(a).Deliver? {
      DeliveryLeavesWorkers(s, a, c);
    } else {
      OpeningLeavesWorkers(s, a, c);
    }
  }

  lemma {:induction false} NoStrayNoSecond(s: Sys, steps: seq<Step>)
    requires Inv(s) && Possible(s, steps) && Strays(s) == {} && Reclaims(steps)
    ensures |After(s, steps).loop.live| <= 1
    decreases |steps|
  {
    if steps == [] {
      LiveIsHeld(s);
      assert s.loop.live <= HeldWorker(s);
      SubsetSize(s.loop.live, HeldWorker(s));
    } else {
      StepKeepsInv(s, steps[0]);
      NoNewStray(s, steps[0]);
      NoStrayNoSecond(Next(s, steps[0]), steps[1..]);
    }
  }

  // ---- a stray can always be joined by a second worker ----

  /** How many steps away from forking a worker. */
  function SpawnRank(s: Sys): nat {
    match s.log.holder
    case Free => if s.loop.At(Consumer).Resting? then 3 else 4
    case WithWorker(_) => 2 + Rank(s)
    case HeldBy(a) =>
      match s.loop.At(a)
      case StartCaption(_, _) => 1
      case StartFace(_, _) => 2
      case Emit(_) => 3
      case _ => 2 + Rank(s)
  }

  /** Everything goes well. */
  function GoodChoice(id: TurnId): Choice {
    Choice(true, false, true, true, id)
  }

  /** A step toward the next fork. */
  function SpawnStep(s: Sys, id: TurnId): Step {
    if s.log.holder != Free then ProgressStep(s, GoodChoice(id))
    else if s.loop.At(Consumer).Resting? then OwnerMessage("", id)
    else Continue(Consumer, GoodChoice(id))
  }

  /** A worker forked since `s`, still there. */
  ghost predicate Forked(s: Sys, t: Sys) {
    t.log.holder.WithWorker? && t.log.holder.turn in t.loop.live && t.log.holder.turn !in s.log.prompts
  }

  /** `t` is a later state in which no given-up worker has gone. */
  ghost predicate KeepsStrays(s: Sys, t: Sys) {
    Strays(s) <= Strays(t) && t.log.gaveUp == s.log.gaveUp && s.log.prompts.Keys <= t.log.prompts.Keys
  }

  lemma FreeStepNears(s: Sys, id: TurnId)
    requires Inv(s) && s.log.holder == Free && s.Fresh(id)
    ensures Enabled(s, SpawnStep(s, id)) && SpawnRank(Next(s, SpawnStep(s, id))) < SpawnRank(s)
    ensures KeepsStrays(s, Next(s, SpawnStep(s, id)))
  {
    assert !s.loop.At(Consumer).Owns();
    if s.loop.At(Consumer).Resting? {
      assert Next(s, SpawnStep(s, id)).loop.At(Consumer).StartFace?;
    } else {
      assert Next(s, SpawnStep(s, id)).loop.At(Consumer).Resting?;
    }
  }

  lemma ForkStepForks(s: Sys, a: Agent, id: TurnId)
    requires Inv(s) && s.log.holder == HeldBy(a) && s.loop.At(a).StartCaption?
    ensures Forked(s, ContinueTask(s, a, GoodChoice(id)))
  {
    assert OwnerOk(s, s.loop.At(a));
    hide LogOk, FenceOk, Conserved;
  }

  lemma HeldStepKeepsStrays(s: Sys, id: TurnId)
    requires Inv(s) && s.slot.reserved && s.Fresh(id)
    ensures Enabled(s, SpawnStep(s, id)) && KeepsStrays(s, Next(s, SpawnStep(s, id)))
  {
    var step := SpawnStep(s, id);
    ProgressIsPossible(s, GoodChoice(id));
    if step.Continue? {
      ContinueSpawns(s, step.agent, step.choice);
    } else if step.ReapEnds? {
      GaveUpIsNotWaiting(s, step.turn);
    }
    hide ContinueTask, Inv;
  }

  /** The worker a reap waits for is not one given up on. */
  lemma GaveUpIsNotWaiting(s: Sys, turn: TurnId)
    requires Inv(s) && turn in s.loop.reaps && s.loop.reaps[turn].Waiting?
    ensures ReapedBy(s, turn) == {turn} && turn !in s.log.gaveUp
  {
    if s.log.holder.HeldBy? {
      assert s.loop.At(s.log.holder.agent).Owns();
    }
  }

  lemma HeldStepNears(s: Sys, id: TurnId)
    requires Inv(s) && s.slot.reserved && s.Fresh(id)
    ensures var t := Next(s, SpawnStep(s, id));
            Forked(s, t) || SpawnRank(t) < SpawnRank(s)
  {
    var step := SpawnStep(s, id);
    ProgressIsPossible(s, GoodChoice(id));
    if step.Continue? && !s.loop.At(step.agent).Deliver? && !s.loop.At(step.agent).Propose? {
      ContinueNears(s, step.agent, id);
    } else {
      SpawnRankFollows(s, step);
    }
    hide ContinueTask, Inv, Forked, SpawnRank;
  }

  /** Where only a release is nearer, so is the fork. */
  lemma SpawnRankFollows(s: Sys, step: Step)
    requires Inv(s) && Enabled(s, step) && s.slot.reserved && IsProgress(s, step)
    requires step.Continue? ==> s.loop.At(step.agent).Deliver? || s.loop.At(step.agent).Propose?
    requires s.log.holder.HeldBy? ==>
               !s.loop.At(s.log.holder.agent).StartFace? && !s.loop.At(s.log.holder.agent).StartCaption?
               && !s.loop.At(s.log.holder.agent).Emit?
    ensures SpawnRank(Next(s, step)) < SpawnRank(s)
  {
    HolderHasRank(s);
    assert SpawnRank(s) == 2 + Rank(s);
    ReleaseTakesAnAwait(s, step);
    hide Inv, Rank, SpawnRank, Enabled, IsProgress;
    ProgressDecreases(s, step);
    StepKeepsInv(s, step);
    SpawnRankIsBounded(Next(s, step));
    hide Next;
  }

  lemma ReleaseTakesAnAwait(s: Sys, step: Step)
    requires Inv(s) && Enabled(s, step) && IsProgress(s, step)
    requires step.Continue? ==> s.loop.At(step.agent).Deliver? || s.loop.At(step.agent).Propose?
    ensures Next(s, step).log.releases == s.log.releases
  {
    assert FenceBounded(s);
    if step.Continue? { DeliveryOrProposalHolds(s, step.agent, step.choice); }
    hide ContinueTask, Inv;
  }

  lemma DeliveryOrProposalHolds(s: Sys, a: Agent, c: Choice)
    requires FenceBounded(s) && (s.loop.At(a).Deliver? || s.loop.At(a).Propose?)
    ensures ContinueTask(s, a, c).log.releases == s.log.releases
  {
    if s.loop.At(a).Deliver? { DeliveryKeeps(s, a, c); }
    hide ContinueDelivery;
  }

  lemma SpawnRankIsBounded(s: Sys)
    requires Inv(s) && s.slot.reserved
    ensures SpawnRank(s) <= 2 + Rank(s)
  {
    hide LogOk, FenceOk, Conserved;
  }

  lemma ContinueNears(s: Sys, a: Agent, id: TurnId)
    requires Inv(s) && s.log.holder == HeldBy(a) && Enabled(s, Continue(a, GoodChoice(id)))
    requires s.loop.At(a).StartFace? || s.loop.At(a).StartCaption? || s.loop.At(a).Emit? || s.loop.At(a).AwaitReap?
    ensures var t := ContinueTask(s, a, GoodChoice(id));
            Forked(s, t) || SpawnRank(t) < SpawnRank(s)
  {
    var t := ContinueTask(s, a, GoodChoice(id));
    assert s.loop.At(a).Owns();
    if s.loop.At(a).StartCaption? {
      ForkStepForks(s, a, id);
    } else if s.loop.At(a).StartFace? {
      assert t.loop.At(a).StartCaption?;
    } else if s.loop.At(a).Emit? {
      assert t.loop.At(a).StartFace?;
    } else {
      assert t.loop.At(a).Emit? || t.loop.At(a).StartFace? || t.loop.At(a).Resting?;
    }
  }

  lemma SpawnStepNears(s: Sys, id: TurnId)
    requires Inv(s) && s.Fresh(id)
    ensures var step := SpawnStep(s, id);
            && Enabled(s, step) && Inv(Next(s, step)) && KeepsStrays(s, Next(s, step))
            && (step.ReapEnds? ==> step.reclaimed)
            && (Forked(s, Next(s, step)) || SpawnRank(Next(s, step)) < SpawnRank(s))
  {
    if s.log.holder == Free {
      FreeStepNears(s, id);
    } else {
      HeldStepKeepsStrays(s, id);
      HeldStepNears(s, id);
    }
    hide Enabled, Next, Forked, KeepsStrays, SpawnRank;
    StepKeepsInv(s, SpawnStep(s, id));
  }

  /** From every state a run without giving up on any reap forks a new worker, and keeps the strays. */
  lemma {:induction false} ForkIsReached(s: Sys) returns (steps: seq<Step>)
    requires Inv(s)
    ensures Possible(s, steps) && Reclaims(steps)
    ensures Forked(s, After(s, steps)) && KeepsStrays(s, After(s, steps))
    decreases SpawnRank(s)
  {
    var id := FreshExists(s.log.texts);
    assert FenceBounded(s);
    hide Inv, Enabled, Next, SpawnRank, SpawnStep;
    SpawnStepNears(s, id);
    var t := Next(s, SpawnStep(s, id));
    var rest: seq<Step> := [];
    if !Forked(s, t) {
      rest := ForkIsReached(t);
    }
    steps := [SpawnStep(s, id)] + rest;
    AfterFirst(s, SpawnStep(s, id), rest);
  }

  lemma ForkedBesideStray(s: Sys, t: Sys)
    requires Inv(s) && Forked(s, t) && KeepsStrays(s, t) && Strays(s) != {}
    ensures |t.loop.live| >= 2
  {
    var w :| w in Strays(s);
    assert w in s.log.prompts && w in t.loop.live;
    SubsetSize({w, t.log.holder.turn}, t.loop.live);
  }

  ghost predicate ReachesTwo(s: Sys, steps: seq<Step>) {
    Inv(s) && Possible(s, steps) && Reclaims(steps) && |After(s, steps).loop.live| >= 2
  }

  /** From a reachable state two workers can come to be live without a reap giving up, if and only if some
      worker has already outlived its reap. */
  lemma SecondWorkerExactly(s: Sys)
    requires Reachable(s)
    ensures (exists steps :: ReachesTwo(s, steps)) <==> Strays(s) != {}
  {
    ReachableInv(s);
    if Strays(s) == {} {
      forall steps ensures !ReachesTwo(s, steps) {
        if Possible(s, steps) && Reclaims(steps) { NoStrayNoSecond(s, steps); }
      }
    } else {
      var steps := ForkIsReached(s);
      ForkedBesideStray(s, After(s, steps));
      assert ReachesTwo(s, steps);
    }
  }

  // ---- and it happens ----

  lemma {:induction false} AfterConcat(s: Sys, first: seq<Step>, more: seq<Step>)
    requires Inv(s) && Possible(s, first) && Inv(After(s, first)) && Possible(After(s, first), more)
    ensures Possible(s, first + more) && After(s, first + more) == After(After(s, first), more)
    decreases |first|
  {
    assert FenceBounded(s);
    hide Inv, Next, Enabled;
    if first == [] {
      assert first + more == more;
    } else {
      assert (first + more)[1..] == first[1..] + more;
      StepKeepsInv(s, first[0]);
      AfterConcat(Next(s, first[0]), first[1..], more);
    }
  }

  lemma ReachableOnward(s: Sys, steps: seq<Step>)
    requires Reachable(s) && Inv(s) && Possible(s, steps)
    ensures Reachable(After(s, steps))
  {
    var cap, first :| RunReaches(cap, first, s);
    InitInv(cap);
    AfterConcat(Init(cap), first, steps);
    assert RunReaches(cap, first + steps, After(s, steps));
  }

  /** The reap of a live worker gives up on it. */
  lemma GiveUpOn(s: Sys) returns (steps: seq<Step>)
    requires Inv(s) && s.log.holder.WithWorker? && s.log.holder.turn in s.loop.live
    ensures Possible(s, steps) && Strays(After(s, steps)) != {}
  {
    var turn := s.log.holder.turn;
    if s.loop.reaps[turn].Done? {
      steps := [];
      assert turn in Strays(s);
    } else {
      var waiting := s;
      steps := [];
      if s.loop.reaps[turn].Created? {
        waiting := Next(s, ReapStarts(turn));
        StepKeepsInv(s, ReapStarts(turn));
        steps := [ReapStarts(turn)];
      }
      GaveUpIsNotWaiting(waiting, turn);
      StepKeepsInv(waiting, ReapEnds(turn, false));
      assert turn in Strays(Next(waiting, ReapEnds(turn, false)));
      AfterFirst(waiting, ReapEnds(turn, false), []);
      assert [ReapEnds(turn, false)] + [] == [ReapEnds(turn, false)];
      if steps != [] { AfterFirst(s, ReapStarts(turn), [ReapEnds(turn, false)]); }
      steps := steps + [ReapEnds(turn, false)];
    }
  }

  /** A reachable state with two live workers: the guards bound turns, not processes. */
  lemma TwoWorkersAreReachable(cap: nat) returns (s: Sys)
    requires cap > 0
    ensures Reachable(s) && |s.loop.live| >= 2
  {
    InitInv(cap);
    var start := Init(cap);
    assert RunReaches(cap, [], start);
    var forking := ForkIsReached(start);
    RunsKeepInv(start, forking);
    ReachableOnward(start, forking);
    var busy := After(start, forking);
    var leaving := GiveUpOn(busy);
    RunsKeepInv(busy, leaving);
    ReachableOnward(busy, leaving);
    var left := After(busy, leaving);
    var again := ForkIsReached(left);
    ReachableOnward(left, again);
    s := After(left, again);
    ForkedBesideStray(left, s);
  }
}
