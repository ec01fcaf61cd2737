/** What single steps of the lifecycle leave behind: what is recorded, applied, opened, started and shown. */
module LifecycleSteps {
  import opened Options
  import opened Arbitration
  import opened TurnFencing
  import opened ForkServing
  import opened Lifecycle
  import opened LifecycleInvariant
  import opened LifecycleTheorems

  /** The step leaves the delivery block of a turn: its last push was resumed, or a send or face push failed. */
  predicate LeavesDelivery(pc: Pc, c: Choice) {
    pc.Deliver? && (pc.stage == PushingCaption || !c.succeeds)
  }

  lemma DeliveringIsCurrent(s: Sys, a: Agent)
    requires Inv(s) && s.loop.At(a).Deliver?
    ensures var turn := s.loop.At(a).turn;
            turn in s.log.texts && s.core.turn == Some(turn) && s.core.ownerText == Some(s.log.texts[turn])
  {
    assert s.loop.At(a).Owns();
    hide LogOk, FenceOk, Conserved;
  }

  lemma DeliveryLogs(s: Sys, a: Agent, c: Choice)
    requires FenceBounded(s) && s.loop.At(a).Deliver?
    requires var turn := s.loop.At(a).turn;
             turn in s.log.texts && s.core.turn == Some(turn) && s.core.ownerText == Some(s.log.texts[turn])
    ensures var pc, t := s.loop.At(a), ContinueTask(s, a, c);
            && (LeavesDelivery(pc, c) <==> !t.loop.At(a).Deliver?)
            && t.log.history == s.log.history +
                 (if LeavesDelivery(pc, c) && c.stored && (pc.ending == Reply || pc.stage == PushingCaption)
                  then [Pair(pc.turn, s.log.texts[pc.turn])] else [])
            && t.log.applied == s.log.applied + (if LeavesDelivery(pc, c) && pc.ending == Reply then [pc.turn] else [])
            && t.core.face == if pc.stage == SendingText && c.succeeds
                              then (if pc.ending == Reply then ReactionFace else DegradedFace) else s.core.face
  {
  }

  /** Leaving the delivery block records exactly the turn's own pair, when the write succeeds - for a reply in any
      case, for a degrade only if its deliveries all went out - and applies exactly a reply's ops. The text sent,
      core turns to the reaction or the degraded face. */
  lemma DeliveryRecords(s: Sys, a: Agent, c: Choice)
    requires Reachable(s) && Enabled(s, Continue(a, c)) && s.loop.At(a).Deliver?
    ensures FenceBounded(s) && s.loop.At(a).turn in s.log.texts
    ensures var pc, t := s.loop.At(a), Next(s, Continue(a, c));
            && (LeavesDelivery(pc, c) <==> !t.loop.At(a).Deliver?)
            && t.log.history == s.log.history +
                 (if LeavesDelivery(pc, c) && c.stored && (pc.ending == Reply || pc.stage == PushingCaption)
                  then [Pair(pc.turn, s.log.texts[pc.turn])] else [])
            && t.log.applied == s.log.applied + (if LeavesDelivery(pc, c) && pc.ending == Reply then [pc.turn] else [])
            && t.core.face == if pc.stage == SendingText && c.succeeds
                              then (if pc.ending == Reply then ReactionFace else DegradedFace) else s.core.face
  {
    ReachableInv(s);
    assert FenceBounded(s);
    DeliveringIsCurrent(s, a);
    hide Inv, ContinueTask, Reachable;
    DeliveryLogs(s, a, c);
  }

  /** No other step records or applies anything. */
  lemma OnlyDeliveryRecords(s: Sys, step: Step)
    requires FenceBounded(s) && Enabled(s, step) && (step.Continue? ==> !s.loop.At(step.agent).Deliver?)
    ensures Next(s, step).log.history == s.log.history && Next(s, step).log.applied == s.log.applied
  {
  }

  // ---- what a turn is opened with ----

  /** A turn was opened under this owner text: the fence, core's fields and the log agree, and the screen thinks. */
  ghost predicate OpenedWith(s: Sys, t: Sys, turn: TurnId, text: string) {
    && t.fence.current == Some(turn) && t.core.turn == Some(turn) && t.core.ownerText == Some(text)
    && t.core.face == ThinkingFace && t.log.texts == s.log.texts[turn := text]
  }

  /** An owner message opens a turn with its own words on a free slot, and joins the pending ones otherwise. */
  lemma OwnerMessageOpens(s: Sys, text: string, newId: TurnId)
    requires Reachable(s) && Enabled(s, OwnerMessage(text, newId))
    ensures FenceBounded(s)
    ensures var t := Next(s, OwnerMessage(text, newId));
            if s.slot.reserved then
              t.slot == Slot(true, s.slot.pending + [text]) && t.log.texts == s.log.texts && t.fence == s.fence
            else
              OpenedWith(s, t, newId, text) && t.loop.At(Consumer) == StartFace(newId, OwnerBatch([text]))
  {
    ReachableInv(s);
    hide Inv;
  }

  /** A self-driven turn is opened under its marker, or else its prompt; a resumed one under a fixed text. */
  lemma OthersOpen(s: Sys, prompt: string, marker: Option<string>, newId: TurnId)
    requires Reachable(s)
    ensures FenceBounded(s)
    ensures Enabled(s, DispatchJob(prompt, marker, true, newId)) ==>
              var t := Next(s, DispatchJob(prompt, marker, true, newId));
              && OpenedWith(s, t, newId, if marker.Some? then marker.value else prompt) && t.slot.reserved
              && t.loop.At(Scheduler) == StartFace(newId, SelfDriven(prompt, marker))
    ensures Enabled(s, ApprovalTap(newId)) ==>
              var t := Next(s, ApprovalTap(newId));
              && OpenedWith(s, t, newId, "[resumed after tool approval]") && t.slot.reserved
              && t.loop.At(Consumer) == StartFace(newId, Resumed)
  {
    ReachableInv(s);
    assert FenceBounded(s) by { hide HolderOk, LogOk, Conserved; }
    hide Inv;
  }

  /** A finished turn hands the pending messages, joined, to one catch-up turn - at once after a timeout or failure,
      after publishing the event for a reply - or frees the slot. */
  lemma FinishedTurnHandsOver(s: Sys, a: Agent, c: Choice)
    requires Reachable(s) && Enabled(s, Continue(a, c)) && s.loop.At(a).AwaitReap?
    ensures FenceBounded(s)
    ensures var t, batch := Next(s, Continue(a, c)), s.slot.pending;
            && t.slot == Slot(batch != [], []) && t.log.releases == s.log.releases + 1
            && if s.loop.At(a).ending == Reply then t.loop.At(a) == Emit(if batch == [] then None else Some(batch))
               else if batch == [] then t.loop.At(a) == Resting
               else OpenedWith(s, t, c.newId, Join(batch)) && t.loop.At(a) == StartFace(c.newId, OwnerBatch(batch))
  {
    ReachableInv(s);
    hide Inv;
  }

  lemma EventPublishedOpens(s: Sys, a: Agent, c: Choice)
    requires Reachable(s) && Enabled(s, Continue(a, c)) && s.loop.At(a).Emit?
    ensures FenceBounded(s)
    ensures var t, next := Next(s, Continue(a, c)), s.loop.At(a).next;
            if next.None? then t.loop.At(a) == Resting && t.log == s.log
            else OpenedWith(s, t, c.newId, Join(next.value)) && t.loop.At(a) == StartFace(c.newId, OwnerBatch(next.value))
  {
    ReachableInv(s);
    hide Inv;
  }

  /** A started worker gets its turn's own prompt: the joined messages, the job's prompt, or none for a resumption;
      a failed fork closes the turn and frees the slot. */
  lemma WorkerGetsThePrompt(s: Sys, a: Agent, c: Choice)
    requires Reachable(s) && Enabled(s, Continue(a, c)) && s.loop.At(a).StartCaption?
    ensures FenceBounded(s)
    ensures var t, turn, job := Next(s, Continue(a, c)), s.loop.At(a).turn, s.loop.At(a).job;
            var prompt := if job.OwnerBatch? then Join(job.batch) else if job.SelfDriven? then job.prompt else "";
            if c.succeeds then
              && t.log.prompts == s.log.prompts[turn := prompt] && turn in t.loop.live && turn in t.loop.sleeping
              && t.core.reapTask == Some(turn) && t.core.timeoutTask == Some(turn)
            else
              t.fence.current == None && t.slot == Slot(false, []) && t.loop.live == s.loop.live
              && t.log.ended == s.log.ended + [End(turn, NeverStarted)]
  {
    SpawnIsNeverBusy(s, a, c.succeeds);
    ReachableInv(s);
    assert s.loop.At(a).Owns() && OwnerOk(s, s.loop.At(a));
    hide LogOk, Conserved, Reachable;
  }

  /** The open turn's Result ends it as accepted, disarms its timeout and is delivered: as a reply exactly if ok. */
  lemma ResultIsDelivered(s: Sys, turn: TurnId, ok: bool)
    requires Reachable(s) && Enabled(s, ResultArrives(turn, ok)) && s.fence.current == Some(turn)
    ensures FenceBounded(s)
    ensures var t := Next(s, ResultArrives(turn, ok));
            && t.fence.current == None && t.core.timeoutTask == None && turn !in t.loop.sleeping
            && t.log.ended == s.log.ended + [End(turn, ResultAccepted)]
            && t.loop.At(Consumer) == Deliver(turn, if ok then Reply else FailureResult, SendingText)
  {
    ReachableInv(s);
    OpenTurnIsAccepted(s, turn);
    AcceptedIsRunning(s, turn);
    hide LogOk, FenceOk, Conserved, Reachable;
  }

  /** The open turn's timeout ends it as timed out and is delivered as such. */
  lemma TimeoutIsDelivered(s: Sys, turn: TurnId)
    requires Reachable(s) && Enabled(s, WatcherWakes(turn)) && s.fence.current == Some(turn)
    ensures FenceBounded(s)
    ensures var t := Next(s, WatcherWakes(turn));
            && t.fence.current == None && t.core.timeoutTask == None && turn !in t.loop.sleeping
            && t.log.ended == s.log.ended + [End(turn, TimedOut)]
            && t.loop.At(Watcher(turn)) == Deliver(turn, Timeout, SendingText)
  {
    ReachableInv(s);
    hide Inv, Reachable;
  }
}
