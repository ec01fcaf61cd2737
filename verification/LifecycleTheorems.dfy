/** What the turn lifecycle guarantees over every run. */
module LifecycleTheorems {
  import opened Options
  import opened Arbitration
  import opened TurnFencing
  import opened ForkServing
  import opened Lifecycle
  import opened LifecycleInvariant

  /** The steps can be taken one after the other from `s`. */
  ghost predicate Possible(s: Sys, steps: seq<Step>)
    requires Inv(s)
    decreases |steps|
  {
    steps == [] || (Enabled(s, steps[0]) && (StepKeepsInv(s, steps[0]); Possible(Next(s, steps[0]), steps[1..])))
  }

  ghost function After(s: Sys, steps: seq<Step>): Sys
    requires Inv(s) && Possible(s, steps)
    decreases |steps|
  {
    if steps == [] then s
    else
      StepKeepsInv(s, steps[0]);
      After(Next(s, steps[0]), steps[1..])
  }

  lemma {:induction false} RunsKeepInv(s: Sys, steps: seq<Step>)
    requires Inv(s) && Possible(s, steps)
    ensures Inv(After(s, steps))
    decreases |steps|
  {
    if steps != [] {
      StepKeepsInv(s, steps[0]);
      RunsKeepInv(Next(s, steps[0]), steps[1..]);
    }
  }

  ghost predicate Reachable(s: Sys) {
    exists cap: nat, steps: seq<Step> :: RunReaches(cap, steps, s)
  }

  ghost predicate RunReaches(cap: nat, steps: seq<Step>, s: Sys) {
    cap > 0 && (InitInv(cap); Possible(Init(cap), steps) && After(Init(cap), steps) == s)
  }

  lemma ReachableInv(s: Sys)
    requires Reachable(s)
    ensures Inv(s)
  {
    var cap, steps :| RunReaches(cap, steps, s);
    RunsKeepInv(Init(cap), steps);
  }

  // ---- one worker, guards in lockstep ----

  /** The worker the slot's holder answers for. */
  function HeldWorker(s: Sys): set<TurnId> {
    match s.log.holder
    case Free => {}
    case WithWorker(turn) => {turn}
    case HeldBy(a) =>
      var pc := s.loop.At(a);
      if pc.Deliver? || pc.Propose? || pc.AwaitReap? then {pc.turn} else {}
  }

  lemma LiveIsHeld(s: Sys)
    requires Inv(s)
    ensures s.loop.live <= s.log.gaveUp + HeldWorker(s)
    ensures s.loop.live - s.log.gaveUp != {} ==> s.slot.reserved && s.server.workerInFlight
    ensures !s.slot.reserved ==> s.fence.current == None && !s.server.workerInFlight && s.slot.pending == []
  {
    if s.log.holder.HeldBy? {
      assert s.loop.At(s.log.holder.agent).Owns();
    }
    hide LogOk, FenceOk, Conserved;
  }

  /** Beside the workers whose reap gave up on them at most one is live, under both guards; an idle
      arbiter means that nothing of a turn is left. */
  lemma {:induction false} OneWorkerAtATime(s: Sys)
    requires Reachable(s)
    ensures |s.loop.live - s.log.gaveUp| <= 1
    ensures |s.loop.live| <= 1 + |s.log.gaveUp|
    ensures s.loop.live - s.log.gaveUp != {} ==> s.slot.reserved && s.server.workerInFlight
    ensures !s.slot.reserved ==> s.fence.current == None && !s.server.workerInFlight && s.slot.pending == []
  {
    ReachableInv(s);
    hide Reachable;
    LiveIsHeld(s);
    hide Inv;
    assert |HeldWorker(s)| <= 1;
    hide HeldWorker;
    SubsetSize(s.loop.live - s.log.gaveUp, HeldWorker(s));
    UnionSize(s.loop.live, HeldWorker(s), s.log.gaveUp);
  }

  lemma UnionSize<T>(all: set<T>, a: set<T>, b: set<T>)
    requires all <= a + b
    ensures |all| <= |a| + |b|
  {
    SubsetSize(all, a + b);
    assert a + b == a + (b - a) && |a + (b - a)| == |a| + |b - a|;
    SubsetSize(b - a, b);
  }

  lemma {:induction false} SubsetSize<T>(a: set<T>, b: set<T>)
    requires a <= b
    ensures |a| <= |b|
    decreases |a|
  {
    if a != {} {
      var x :| x in a;
      SubsetSize(a - {x}, b - {x});
    }
  }

  /** A reserved slot has exactly one party that must release it: one suspended task, or the worker of
      the open turn whose timeout is armed and whose reap task exists. */
  lemma SlotHasOneOwner(s: Sys)
    requires Reachable(s)
    ensures forall a, b :: s.loop.At(a).Owns() && s.loop.At(b).Owns() ==> a == b
    ensures s.slot.reserved
        <==> (exists a :: s.loop.At(a).Owns()) || (s.fence.current.Some? && s.fence.current.value in s.loop.sleeping)
    ensures (exists a :: s.loop.At(a).Owns()) ==> s.loop.sleeping == {}
    ensures s.loop.sleeping != {} ==>
              s.core.reapTask == s.core.timeoutTask == s.fence.current && s.fence.current.Some?
              && s.fence.current.value in s.loop.reaps
  {
    ReachableInv(s);
    if s.log.holder.HeldBy? {
      assert s.loop.At(s.log.holder.agent).Owns();
    }
  }

  /** The guard is always free when a task is about to spawn, so a refusal can only be the kernel's. */
  lemma SpawnIsNeverBusy(s: Sys, a: Agent, forkSucceeds: bool)
    requires Reachable(s) && s.loop.At(a).StartCaption?
    ensures s.server.Spawn(s.loop.At(a).turn, forkSucceeds).1
         == if forkSucceeds then Spawned(s.loop.At(a).turn) else ForkFailed
  {
    ReachableInv(s);
    assert s.loop.At(a).Owns();
  }

  /** No step ever supersedes an open turn: a turn is only opened on an idle fence. */
  lemma OpenNeverSupersedes(s: Sys, step: Step)
    requires Reachable(s) && Enabled(s, step)
    requires (ReachableInv(s); Next(s, step).fence.current.Some? && Next(s, step).fence.current != s.fence.current)
    ensures s.fence.current == None
  {
    ReachableInv(s);
    if step.Continue? && s.loop.At(step.agent).Owns() {
      assert s.log.holder == HeldBy(step.agent);
    }
  }

  /** The mood never takes the screen from a turn: until its Result or timeout, the face is "thinking". */
  lemma TurnOwnsTheFace(s: Sys)
    requires Reachable(s) && s.fence.current.Some?
    ensures s.core.face == ThinkingFace
  {
    ReachableInv(s);
    if s.log.holder.HeldBy? {
      assert s.loop.At(s.log.holder.agent).Owns();
    }
  }

  // ---- each turn ends once ----

  /** Each turn ends at most one way, is recorded at most once, under the owner text it was started
      with, and has its proposed ops applied at most once, under its own id. */
  lemma TurnsEndOnce(s: Sys)
    requires Reachable(s)
    ensures forall j, k :: 0 <= j < k < |s.log.ended| ==> s.log.ended[j].turn != s.log.ended[k].turn
    ensures forall j, k :: 0 <= j < k < |s.log.history| ==> s.log.history[j].turn != s.log.history[k].turn
    ensures forall j, k :: 0 <= j < k < |s.log.applied| ==> s.log.applied[j] != s.log.applied[k]
    ensures forall k :: 0 <= k < |s.log.history| ==>
              var pair := s.log.history[k];
              Ended(s, pair.turn) && pair.turn in s.log.texts && pair.ownerText == s.log.texts[pair.turn]
  {
    ReachableInv(s);
  }

  /** Endings are only ever added. */
  lemma EndedOnlyGrows(s: Sys, step: Step)
    requires s.fence.cap > 0 && |s.fence.order| <= s.fence.cap
    ensures s.log.ended <= Next(s, step).log.ended
  {
  }

  lemma StepKeepsEnded(s: Sys, step: Step, turn: TurnId)
    requires Inv(s) && Ended(s, turn)
    ensures Ended(Next(s, step), turn)
  {
    EndedOnlyGrows(s, step);
    var k :| 0 <= k < |s.log.ended| && s.log.ended[k].turn == turn;
    assert Next(s, step).log.ended[k].turn == turn;
  }

  /** Once a turn has ended, no Result for it is accepted in any continuation, whether or not the
      fence still remembers its id. */
  lemma {:induction false} EndedTurnsStayFenced(s: Sys, steps: seq<Step>, turn: TurnId)
    requires Inv(s) && Possible(s, steps) && Ended(s, turn)
    ensures Ended(After(s, steps), turn) && !After(s, steps).fence.Accepts(Some(turn))
    decreases |steps|
  {
    if steps != [] {
      StepKeepsInv(s, steps[0]);
      StepKeepsEnded(s, steps[0], turn);
      EndedTurnsStayFenced(Next(s, steps[0]), steps[1..], turn);
    }
  }

  /** Of a live, undisturbed turn the Result is accepted: the fence rejects nothing it should admit. */
  lemma OpenTurnIsAccepted(s: Sys, turn: TurnId)
    requires Reachable(s)
    ensures s.fence.Accepts(Some(turn)) <==> s.fence.current == Some(turn)
  {
    ReachableInv(s);
  }

  // ---- owner messages ----

  /** Every message heard is, in order, in a started turn, in a batch dropped by a failed start, in the
      hands of the one task about to start it, or pending; each started turn is named once. */
  lemma MessagesConserved(s: Sys)
    requires Reachable(s)
    ensures s.log.submitted == Flatten(s.log.fates) + InHand(s) + s.slot.pending
    ensures !s.slot.reserved ==> s.log.submitted == Flatten(s.log.fates)
    ensures forall k :: 0 <= k < |s.log.fates| ==> CarriedBy(s.log.prompts, s.log.fates[k])
    ensures forall j, k :: 0 <= j < k < |s.log.fates| && s.log.fates[j].Started? && s.log.fates[k].Started?
              ==> s.log.fates[j].turn != s.log.fates[k].turn
  {
    ReachableInv(s);
  }

  function StartedMessages(fates: seq<Fate>): seq<string> {
    if fates == [] then []
    else StartedMessages(fates[..|fates| - 1]) + (if fates[|fates| - 1].Started? then fates[|fates| - 1].batch else [])
  }

  /** While no start fails, nothing is lost: the started turns carry every message but those still held. */
  lemma NoMessageLost(s: Sys)
    requires Reachable(s)
    requires forall k :: 0 <= k < |s.log.fates| ==> s.log.fates[k].Started?
    ensures s.log.submitted == StartedMessages(s.log.fates) + InHand(s) + s.slot.pending
  {
    ReachableInv(s);
    AllStarted(s.log.fates);
  }

  lemma {:induction false} AllStarted(fates: seq<Fate>)
    requires forall k :: 0 <= k < |fates| ==> fates[k].Started?
    ensures StartedMessages(fates) == Flatten(fates)
    decreases |fates|
  {
    if fates != [] {
      AllStarted(fates[..|fates| - 1]);
    }
  }
}
