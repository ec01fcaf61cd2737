/** The invariant of the turn lifecycle, and its preservation by every step. */
module LifecycleInvariant {
  import opened Options
  import opened Arbitration
  import opened TurnFencing
  import opened ForkServing
  import opened Lifecycle

  function Flatten(fates: seq<Fate>): seq<string> {
    if fates == [] then [] else Flatten(fates[..|fates| - 1]) + fates[|fates| - 1].batch
  }

  /** No worker but those a reap gave up on, no reap under way, no armed timeout. */
  ghost predicate NoWorker(s: Sys) {
    && s.server == Server(true, false, None)
    && s.loop.live <= s.log.gaveUp
    && s.core.reapTask == None && s.core.timeoutTask == None
    && s.loop.sleeping == {}
    && forall t :: t in s.loop.reaps ==> s.loop.reaps[t] == Done
  }

  /** The one worker is `turn`'s: guard, handle and process agree with the state of its reap task. */
  ghost predicate WorkerOf(s: Sys, turn: TurnId) {
    && turn in s.loop.reaps
    && (forall t :: t in s.loop.reaps && t != turn ==> s.loop.reaps[t] == Done)
    && match s.loop.reaps[turn]
       case Created => s.server == Server(true, true, Some(turn)) && s.loop.live <= s.log.gaveUp + {turn}
       case Waiting(handle) =>
         s.server == Server(true, true, None) && handle == Some(turn) && s.loop.live <= s.log.gaveUp + {turn}
       case Done => s.server == Server(true, false, None) && s.loop.live <= s.log.gaveUp
  }

  ghost predicate Current(s: Sys, turn: TurnId) {
    && s.core.turn == Some(turn)
    && turn in s.log.texts && s.core.ownerText == Some(s.log.texts[turn])
  }

  ghost predicate Ended(s: Sys, turn: TurnId) {
    exists k :: 0 <= k < |s.log.ended| && s.log.ended[k].turn == turn
  }

  ghost predicate Recorded(s: Sys, turn: TurnId) {
    exists k :: 0 <= k < |s.log.history| && s.log.history[k].turn == turn
  }

  ghost predicate Applied(s: Sys, turn: TurnId) {
    exists k :: 0 <= k < |s.log.applied| && s.log.applied[k] == turn
  }

  ghost predicate Starting(s: Sys, turn: TurnId, job: Job) {
    && NoWorker(s)
    && s.fence.current == Some(turn)
    && Current(s, turn) && s.core.ownerText == Some(job.OwnerText())
    && turn !in s.log.prompts
    && s.core.face == ThinkingFace
  }

  ghost predicate Running(s: Sys, turn: TurnId) {
    && WorkerOf(s, turn)
    && s.fence.current == Some(turn)
    && Current(s, turn)
    && s.core.reapTask == Some(turn) && s.core.timeoutTask == Some(turn)
    && s.loop.sleeping == {turn}
    && s.core.face == ThinkingFace
  }

  ghost predicate Closing(s: Sys, turn: TurnId) {
    && WorkerOf(s, turn)
    && s.fence.current == None
    && s.core.timeoutTask == None && s.loop.sleeping == {}
    && Current(s, turn) && Ended(s, turn)
  }

  /** What holds while a task that owns the slot is suspended at `pc`. */
  ghost predicate OwnerOk(s: Sys, pc: Pc) {
    match pc
    case Resting => false
    case Chatting => false
    case StartFace(turn, job) => Starting(s, turn, job)
    case StartCaption(turn, job) => Starting(s, turn, job)
    case Deliver(turn, _, _) => Closing(s, turn) && s.core.reapTask == Some(turn) && !Recorded(s, turn) && !Applied(s, turn)
    case Propose(turn) => Closing(s, turn) && s.core.reapTask == Some(turn)
    case AwaitReap(turn, _, task) => Closing(s, turn) && s.core.reapTask == None && task == Some(turn)
    case Emit(next) => next.Some? && NoWorker(s) && s.fence.current == None
  }

  /** Exactly one party answers for a reserved slot, and the system is in the state that party needs. */
  ghost predicate HolderOk(s: Sys) {
    && (forall a :: s.loop.At(a).Owns() <==> s.log.holder == HeldBy(a))
    && match s.log.holder
       case Free => !s.slot.reserved && s.slot.pending == [] && NoWorker(s) && s.fence.current == None
       case HeldBy(a) => s.slot.reserved && OwnerOk(s, s.loop.At(a))
       case WithWorker(turn) => s.slot.reserved && Running(s, turn) && turn in s.log.prompts
  }

  /** Each turn ends once, and is recorded at most once, under its own owner text. */
  ghost predicate LogOk(s: Sys) {
    && s.log.prompts.Keys <= s.log.texts.Keys
    && (forall k :: 0 <= k < |s.log.ended| ==> s.log.ended[k].turn in s.log.texts)
    && (forall j, k :: 0 <= j < k < |s.log.ended| ==> s.log.ended[j].turn != s.log.ended[k].turn)
    && (forall k :: 0 <= k < |s.log.history| ==>
          var pair := s.log.history[k];
          Ended(s, pair.turn) && pair.turn in s.log.texts && pair.ownerText == s.log.texts[pair.turn])
    && (forall j, k :: 0 <= j < k < |s.log.history| ==> s.log.history[j].turn != s.log.history[k].turn)
    && (forall k :: 0 <= k < |s.log.applied| ==> Ended(s, s.log.applied[k]))
    && (forall j, k :: 0 <= j < k < |s.log.applied| ==> s.log.applied[j] != s.log.applied[k])
  }

  ghost predicate FenceOk(s: Sys) {
    && s.fence.Valid()
    && (forall id :: id in s.fence.closed ==> Ended(s, id))
    && (s.fence.current.Some? ==> s.fence.current.value in s.log.texts && !Ended(s, s.fence.current.value))
    && (forall id :: id in s.loop.cancelled ==> Ended(s, id))
    && s.loop.reaps.Keys <= s.log.prompts.Keys
    && (forall t :: t in s.log.gaveUp ==> t in s.loop.reaps && s.loop.reaps[t] == Done)
  }

  /** The messages held by a task between leaving the pending slot and reaching a worker. */
  function InHand(s: Sys): seq<string> {
    if s.log.holder.HeldBy? then s.loop.At(s.log.holder.agent).Messages() else []
  }

  /** The worker of a started turn was given exactly the turn's messages, joined. */
  ghost predicate CarriedBy(prompts: map<TurnId, string>, fate: Fate) {
    fate.Started? ==> fate.turn in prompts && (fate.batch != [] ==> prompts[fate.turn] == Join(fate.batch))
  }

  /** And no two of them name the same turn. */
  ghost predicate Carried(log: Log) {
    && (forall k :: 0 <= k < |log.fates| ==> CarriedBy(log.prompts, log.fates[k]))
    && (forall j, k :: 0 <= j < k < |log.fates| && log.fates[j].Started? && log.fates[k].Started?
          ==> log.fates[j].turn != log.fates[k].turn)
  }

  ghost predicate Conserved(s: Sys) {
    && s.log.submitted == Flatten(s.log.fates) + InHand(s) + s.slot.pending
    && Carried(s.log)
  }

  ghost predicate Inv(s: Sys) {
    HolderOk(s) && LogOk(s) && FenceOk(s) && Conserved(s)
  }

  lemma InitInv(cap: nat)
    requires cap > 0
    ensures Inv(Init(cap))
  {
  }

  // ---- building blocks ----

  lemma FlattenGrows(fates: seq<Fate>, fate: Fate)
    ensures Flatten(fates + [fate]) == Flatten(fates) + fate.batch
  {
    assert (fates + [fate])[..|fates|] == fates;
  }

  lemma EndedGrows(s: Sys, t: Sys, end: End)
    requires t.log.ended == s.log.ended + [end]
    ensures forall id :: Ended(t, id) <==> Ended(s, id) || id == end.turn
  {
    forall id
      ensures Ended(t, id) <==> Ended(s, id) || id == end.turn
    {
      if Ended(s, id) {
        var k :| 0 <= k < |s.log.ended| && s.log.ended[k].turn == id;
        assert t.log.ended[k].turn == id;
      }
      if id == end.turn {
        assert t.log.ended[|s.log.ended|].turn == id;
      }
    }
  }

  /** A step that ends, records, applies and spawns nothing. */
  lemma SameLogsOk(s: Sys, r: Sys)
    requires LogOk(s) && FenceOk(s)
    requires r.log == s.log.(releases := r.log.releases, holder := r.log.holder, submitted := r.log.submitted, gaveUp := r.log.gaveUp)
    requires r.fence == s.fence && r.loop.cancelled == s.loop.cancelled && r.loop.reaps.Keys == s.loop.reaps.Keys
    requires forall t :: t in r.log.gaveUp ==> t in r.loop.reaps && r.loop.reaps[t] == Done
    ensures LogOk(r) && FenceOk(r)
    ensures forall id :: (Recorded(r, id) <==> Recorded(s, id)) && (Applied(r, id) <==> Applied(s, id))
    ensures forall id :: Ended(r, id) <==> Ended(s, id)
  {
    assert forall id :: Ended(r, id) <==> Ended(s, id);
  }

  /** Ready for a new turn: the slot is taken, nothing else is under way, `a` is the only candidate. */
  ghost predicate ReadyToOpen(s: Sys, a: Agent, job: Job) {
    && s.slot.reserved && NoWorker(s) && s.fence.current == None
    && (forall b :: b != a ==> !s.loop.At(b).Owns())
    && LogOk(s) && FenceOk(s)
    && s.log.submitted == Flatten(s.log.fates) + job.Messages() + s.slot.pending
    && Carried(s.log)
  }

  lemma OpenTurnInv(s: Sys, a: Agent, job: Job, turn: TurnId)
    requires ReadyToOpen(s, a, job) && s.Fresh(turn)
    ensures Inv(OpenTurn(s, a, job, turn))
  {
    var t := OpenTurn(s, a, job, turn);
    OpenKeepsValid(s.fence, turn);
    assert t.loop.At(a) == StartFace(turn, job);
    assert forall b :: b != a ==> t.loop.At(b) == s.loop.At(b);
    assert t.log.ended == s.log.ended && t.log.history == s.log.history;
    assert forall id :: Ended(t, id) <==> Ended(s, id);
    assert !Ended(s, turn);
  }

  ghost predicate FenceBounded(s: Sys) {
    s.fence.cap > 0 && |s.fence.order| <= s.fence.cap
  }

  lemma SpawnSucceedsHolder(s: Sys, a: Agent, turn: TurnId, job: Job)
    requires FenceBounded(s) && HolderOk(s) && s.loop.At(a) == StartCaption(turn, job)
    ensures HolderOk(SpawnTurn(s, a, turn, job, true))
  {
    var t := SpawnTurn(s, a, turn, job, true);
    assert s.loop.At(a).Owns() && s.log.holder == HeldBy(a);
    assert t.loop.At(a) == Resting && forall b :: b != a ==> t.loop.At(b) == s.loop.At(b);
  }

  lemma SpawnSucceedsLog(s: Sys, a: Agent, turn: TurnId, job: Job)
    requires FenceOk(s) && LogOk(s) && turn in s.log.texts && turn !in s.log.prompts
    ensures LogOk(SpawnTurn(s, a, turn, job, true)) || !s.server.Spawn(turn, true).1.Spawned?
    ensures FenceOk(SpawnTurn(s, a, turn, job, true)) || !s.server.Spawn(turn, true).1.Spawned?
  {
    var t := SpawnTurn(s, a, turn, job, true);
    if s.server.Spawn(turn, true).1.Spawned? {
      assert forall id :: Ended(t, id) <==> Ended(s, id);
    }
  }

  /** A batch moves from the task's hands to its fate. */
  lemma FatesTakeBatch(fates: seq<Fate>, fate: Fate, pending: seq<string>, submitted: seq<string>)
    requires submitted == Flatten(fates) + fate.batch + pending
    ensures submitted == Flatten(fates + [fate]) + [] + pending
  {
    FlattenGrows(fates, fate);
  }

  lemma SpawnSucceedsConserves(s: Sys, a: Agent, turn: TurnId, job: Job)
    requires FenceBounded(s) && Conserved(s) && s.loop.At(a) == StartCaption(turn, job) && s.log.holder == HeldBy(a)
    requires turn !in s.log.prompts && s.server.Spawn(turn, true).1.Spawned?
    ensures Conserved(SpawnTurn(s, a, turn, job, true))
  {
    hide Flatten;
    FatesTakeBatch(s.log.fates, Started(turn, job.Messages()), s.slot.pending, s.log.submitted);
  }

  lemma SpawnFailsConserves(s: Sys, a: Agent, turn: TurnId, job: Job)
    requires FenceBounded(s) && Conserved(s) && s.loop.At(a) == StartCaption(turn, job) && s.log.holder == HeldBy(a)
    ensures Conserved(SpawnTurn(s, a, turn, job, false))
  {
    hide Flatten;
    var own, rest := Dropped(job.Messages()), Dropped(s.slot.pending);
    FatesTakeBatch(s.log.fates, own, s.slot.pending, s.log.submitted);
    FlattenGrows(s.log.fates + [own], rest);
    assert s.log.fates + [own, rest] == s.log.fates + [own] + [rest];
  }

  lemma SpawnSucceedsInv(s: Sys, a: Agent, turn: TurnId, job: Job)
    requires Inv(s) && s.loop.At(a) == StartCaption(turn, job)
    ensures Inv(SpawnTurn(s, a, turn, job, true))
  {
    assert s.loop.At(a).Owns() && OwnerOk(s, s.loop.At(a));
    hide LogOk, HolderOk, Conserved, SpawnTurn;
    SpawnSucceedsHolder(s, a, turn, job);
    SpawnSucceedsLog(s, a, turn, job);
    SpawnSucceedsConserves(s, a, turn, job);
  }

  lemma SpawnFailsHolder(s: Sys, a: Agent, turn: TurnId, job: Job)
    requires s.fence.Valid() && HolderOk(s) && s.loop.At(a) == StartCaption(turn, job)
    ensures HolderOk(SpawnTurn(s, a, turn, job, false))
  {
    var t := SpawnTurn(s, a, turn, job, false);
    assert s.loop.At(a).Owns() && s.log.holder == HeldBy(a);
    assert t.loop.At(a) == Resting && forall b :: b != a ==> t.loop.At(b) == s.loop.At(b);
    CloseKeepsValid(s.fence, turn);
  }

  lemma SpawnFailsLog(s: Sys, a: Agent, turn: TurnId, job: Job)
    requires FenceOk(s) && LogOk(s) && s.fence.current == Some(turn)
    ensures LogOk(SpawnTurn(s, a, turn, job, false)) && FenceOk(SpawnTurn(s, a, turn, job, false))
  {
    var t := SpawnTurn(s, a, turn, job, false);
    CloseKeepsValid(s.fence, turn);
    EndedGrows(s, t, End(turn, NeverStarted));
  }

  lemma SpawnFailsInv(s: Sys, a: Agent, turn: TurnId, job: Job)
    requires Inv(s) && s.loop.At(a) == StartCaption(turn, job)
    ensures Inv(SpawnTurn(s, a, turn, job, false))
  {
    assert s.loop.At(a).Owns() && OwnerOk(s, s.loop.At(a));
    hide LogOk, HolderOk, Conserved, SpawnTurn;
    SpawnFailsHolder(s, a, turn, job);
    SpawnFailsLog(s, a, turn, job);
    SpawnFailsConserves(s, a, turn, job);
  }

  lemma AdmitHolder(s: Sys, turn: TurnId, ok: bool)
    requires Inv(s) && s.log.holder == WithWorker(turn) && s.loop.At(Consumer) == Resting
    ensures HolderOk(AdmitResult(s, turn, ok))
  {
    var t := AdmitResult(s, turn, ok);
    if s.fence.Accepts(Some(turn)) {
      assert t.loop.At(Consumer).Deliver? && forall b :: b != Consumer ==> t.loop.At(b) == s.loop.At(b);
      EndedGrows(s, t, End(turn, ResultAccepted));
      assert !Recorded(s, turn) && !Applied(s, turn);
      assert t.log.history == s.log.history;
    }
  }

  lemma AdmitLog(s: Sys, turn: TurnId, ok: bool)
    requires FenceOk(s) && LogOk(s) && (s.core.timeoutTask.Some? ==> s.core.timeoutTask == Some(turn))
    ensures LogOk(AdmitResult(s, turn, ok)) && FenceOk(AdmitResult(s, turn, ok))
  {
    if s.fence.Accepts(Some(turn)) {
      CloseKeepsValid(s.fence, turn);
      EndedGrows(s, AdmitResult(s, turn, ok), End(turn, ResultAccepted));
    }
  }

  lemma AdmitResultInv(s: Sys, turn: TurnId, ok: bool)
    requires Inv(s) && Enabled(s, ResultArrives(turn, ok))
    ensures Inv(AdmitResult(s, turn, ok))
  {
    if s.fence.Accepts(Some(turn)) {
      AcceptedIsRunning(s, turn);
      AdmitHolder(s, turn, ok);
      AdmitLog(s, turn, ok);
    }
    hide HolderOk, LogOk, FenceOk;
  }

  /** An open turn whose worker was spawned is in the hands of that worker. */
  lemma AcceptedIsRunning(s: Sys, turn: TurnId)
    requires Inv(s) && s.fence.current == Some(turn) && turn in s.log.prompts
    ensures s.log.holder == WithWorker(turn)
  {
    assert s.log.holder.HeldBy? ==> OwnerOk(s, s.loop.At(s.log.holder.agent));
  }

  /** The timeout of a turn that is no longer open: only the sleeper is gone. */
  lemma LateWatcherInv(s: Sys, turn: TurnId)
    requires Inv(s) && Enabled(s, WatcherWakes(turn)) && s.fence.current != Some(turn)
    ensures Inv(WakeWatcher(s, turn))
  {
    var t := WakeWatcher(s, turn);
    assert turn !in s.loop.sleeping by {
      if turn in s.loop.sleeping { SleeperIsCurrent(s, turn); }
    }
    assert t.loop.sleeping == s.loop.sleeping;
    assert forall id :: Ended(t, id) <==> Ended(s, id);
    assert forall b :: t.loop.At(b) == s.loop.At(b);
    assert t.loop.reaps == s.loop.reaps;
  }

  lemma TimeoutHolder(s: Sys, turn: TurnId)
    requires Inv(s) && s.log.holder == WithWorker(turn)
    ensures HolderOk(WakeWatcher(s, turn))
  {
    var t := WakeWatcher(s, turn);
    assert t.loop.At(Watcher(turn)).Deliver? && forall b :: b != Watcher(turn) ==> t.loop.At(b) == s.loop.At(b);
    EndedGrows(s, t, End(turn, TimedOut));
    assert !Recorded(s, turn) && !Applied(s, turn);
    assert t.log.history == s.log.history;
  }

  lemma TimeoutLog(s: Sys, turn: TurnId)
    requires FenceOk(s) && LogOk(s) && s.fence.current == Some(turn)
    ensures LogOk(WakeWatcher(s, turn)) && FenceOk(WakeWatcher(s, turn))
  {
    var t := WakeWatcher(s, turn);
    CloseKeepsValid(s.fence, turn);
    EndedGrows(s, t, End(turn, TimedOut));
  }

  lemma WakeWatcherInv(s: Sys, turn: TurnId)
    requires Inv(s) && Enabled(s, WatcherWakes(turn))
    ensures Inv(WakeWatcher(s, turn))
  {
    if s.fence.current == Some(turn) {
      SleeperIsRunning(s, turn);
      TimeoutHolder(s, turn);
      TimeoutLog(s, turn);
      hide HolderOk, LogOk, FenceOk;
    } else {
      LateWatcherInv(s, turn);
    }
  }

  lemma SleeperIsCurrent(s: Sys, turn: TurnId)
    requires Inv(s) && turn in s.loop.sleeping
    ensures s.log.holder == WithWorker(turn) && s.fence.current == Some(turn)
  {
    assert s.log.holder.HeldBy? ==> OwnerOk(s, s.loop.At(s.log.holder.agent));
  }

  lemma SleeperIsRunning(s: Sys, turn: TurnId)
    requires Inv(s) && s.fence.current == Some(turn) && turn in s.loop.sleeping + s.loop.cancelled
    ensures s.log.holder == WithWorker(turn)
  {
    assert turn !in s.loop.cancelled;
    SleeperIsCurrent(s, turn);
  }

  ghost predicate UnderWay(s: Sys, turn: TurnId) {
    LogOk(s) && FenceOk(s) && Current(s, turn) && Ended(s, turn) && !Recorded(s, turn)
  }

  lemma RecordTurnInv(s: Sys, turn: TurnId, stored: bool)
    requires UnderWay(s, turn)
    ensures LogOk(RecordTurn(s, stored)) && FenceOk(RecordTurn(s, stored))
  {
    var t := RecordTurn(s, stored);
    assert forall id :: Ended(t, id) <==> Ended(s, id);
  }

  lemma ApplyOpsInv(s: Sys, turn: TurnId)
    requires UnderWay(s, turn) && !Applied(s, turn)
    ensures UnderWay(ApplyOps(s), turn)
  {
    var t := ApplyOps(s);
    assert forall id :: Ended(t, id) <==> Ended(s, id);
    assert Recorded(t, turn) <==> Recorded(s, turn);
  }

  /** A task that keeps the slot moves on: only its own position and the delivery's traces change. */
  lemma OwnerMovesInv(s: Sys, t: Sys, a: Agent)
    requires Inv(s) && s.log.holder == HeldBy(a)
    requires forall b :: b != a ==> t.loop.At(b) == s.loop.At(b)
    requires t.loop.At(a).Owns() && OwnerOk(t, t.loop.At(a))
    requires t.loop.At(a).Messages() == s.loop.At(a).Messages()
    requires t.log.holder == s.log.holder && t.slot == s.slot
    requires t.log.submitted == s.log.submitted && t.log.fates == s.log.fates && t.log.prompts == s.log.prompts
    requires LogOk(t) && FenceOk(t)
    ensures Inv(t)
  {
  }

  /** `r` is `s` with more recorded or applied. */
  ghost predicate OnlyLogged(s: Sys, r: Sys) {
    r == s.(log := r.log) && r.log == s.log.(history := r.log.history, applied := r.log.applied)
  }

  lemma BeginAwaitInv(s: Sys, r: Sys, a: Agent, turn: TurnId, ending: Ending)
    requires Inv(s) && s.log.holder == HeldBy(a) && (s.loop.At(a).Deliver? || s.loop.At(a).Propose?)
    requires s.loop.At(a).turn == turn
    requires OnlyLogged(s, r) && LogOk(r) && FenceOk(r)
    ensures Inv(BeginAwait(r, a, turn, ending))
  {
    var t := BeginAwait(r, a, turn, ending);
    assert t.loop.At(a) == AwaitReap(turn, ending, s.core.reapTask);
    assert forall b :: b != a ==> t.loop.At(b) == s.loop.At(b);
    assert forall id :: Ended(t, id) <==> Ended(s, id);
    OwnerMovesInv(s, t, a);
  }

  lemma BeginProposeInv(s: Sys, r: Sys, a: Agent, turn: TurnId)
    requires Inv(s) && s.log.holder == HeldBy(a) && s.loop.At(a).Deliver? && s.loop.At(a).turn == turn
    requires OnlyLogged(s, r) && LogOk(r) && FenceOk(r)
    ensures Inv(MoveTo(r, a, Propose(turn)))
  {
    var t := MoveTo(r, a, Propose(turn));
    assert t.loop.At(a) == Propose(turn);
    assert forall b :: b != a ==> t.loop.At(b) == s.loop.At(b);
    assert forall id :: Ended(t, id) <==> Ended(s, id);
    OwnerMovesInv(s, t, a);
  }

  lemma AfterDeliveryInv(s: Sys, r: Sys, a: Agent, turn: TurnId, ending: Ending, proposes: bool, stored: bool)
    requires Inv(s) && s.log.holder == HeldBy(a) && s.loop.At(a).Deliver? && s.loop.At(a).turn == turn
    requires r == s || (ending != Reply && r == RecordTurn(s, stored))
    ensures Inv(AfterDelivery(r, a, turn, ending, proposes, stored))
  {
    assert OwnerOk(s, s.loop.At(a));
    assert UnderWay(s, turn) && !Applied(s, turn);
    hide Inv, OwnerOk, LogOk, FenceOk, BeginAwait;
    ApplyOpsInv(s, turn);
    RecordTurnInv(s, turn, stored);
    RecordTurnInv(ApplyOps(s), turn, stored);
    if ending == Reply {
      var last := RecordTurn(ApplyOps(s), stored);
      if proposes { BeginProposeInv(s, last, a, turn); } else { BeginAwaitInv(s, last, a, turn, ending); }
    } else {
      BeginAwaitInv(s, r, a, turn, ending);
    }
  }

  lemma DeliveryMovesInv(s: Sys, t: Sys, a: Agent, turn: TurnId, ending: Ending, from: Stage, to: Stage)
    requires Inv(s) && s.loop.At(a) == Deliver(turn, ending, from)
    requires t == MoveTo(s.(core := s.core.(face := t.core.face)), a, Deliver(turn, ending, to))
    ensures Inv(t)
  {
    assert s.loop.At(a).Owns() && OwnerOk(s, s.loop.At(a));
    assert t.loop.At(a).Deliver? && forall b :: b != a ==> t.loop.At(b) == s.loop.At(b);
    assert forall id :: Ended(t, id) <==> Ended(s, id);
    assert (Recorded(t, turn) <==> Recorded(s, turn)) && (Applied(t, turn) <==> Applied(s, turn));
    OwnerMovesInv(s, t, a);
  }

  lemma ContinueDeliveryInv(s: Sys, a: Agent, turn: TurnId, ending: Ending, stage: Stage, c: Choice)
    requires Inv(s) && s.loop.At(a) == Deliver(turn, ending, stage)
    ensures Inv(ContinueDelivery(s, a, turn, ending, stage, c))
  {
    assert s.loop.At(a).Owns() && s.log.holder == HeldBy(a);
    hide Inv;
    if stage == PushingCaption {
      var recorded := if ending == Reply then s else RecordTurn(s, c.stored);
      AfterDeliveryInv(s, recorded, a, turn, ending, c.proposes, c.stored);
    } else if !c.succeeds {
      AfterDeliveryInv(s, s, a, turn, ending, c.proposes, c.stored);
    } else {
      DeliveryMovesInv(s, ContinueDelivery(s, a, turn, ending, stage, c), a, turn, ending, stage,
                       if stage == SendingText then PushingFace else PushingCaption);
    }
  }

  /** The state between `arbiter.complete()` and the catch-up turn. */
  function Completed(s: Sys, a: Agent): Sys {
    s.(slot := s.slot.Complete(), log := s.log.(releases := s.log.releases + 1, holder := HeldBy(a)))
  }

  lemma CompletedIsReady(s: Sys, a: Agent)
    requires Inv(s) && s.loop.At(a).AwaitReap? && NoWorker(s) && s.fence.current == None
    requires s.slot.pending != [] && s.log.holder == HeldBy(a)
    ensures ReadyToOpen(Completed(s, a), a, OwnerBatch(s.slot.pending))
  {
    SameLogsOk(s, Completed(s, a));
    assert forall b :: b != a ==> !s.loop.At(b).Owns();
  }

  lemma ReleaseOpens(s: Sys, a: Agent, ending: Ending, newId: TurnId)
    requires FenceBounded(s) && ending != Reply && s.slot.pending != []
    ensures FenceBounded(Completed(s, a))
    ensures ReleaseSlot(s, a, ending, newId) == OpenTurn(Completed(s, a), a, OwnerBatch(s.slot.pending), newId)
  {
  }

  /** The release that goes straight on to a catch-up turn. */
  lemma ReleaseAndOpenInv(s: Sys, a: Agent, turn: TurnId, ending: Ending, newId: TurnId)
    requires Inv(s) && s.loop.At(a).AwaitReap? && NoWorker(s) && s.fence.current == None
    requires s.Fresh(newId) && ending != Reply && s.slot.pending != [] && s.log.holder == HeldBy(a)
    ensures Inv(ReleaseSlot(s, a, ending, newId))
  {
    assert FenceBounded(s) && FenceBounded(Completed(s, a));
    CompletedIsReady(s, a);
    hide *;
    ReleaseOpens(s, a, ending, newId);
    OpenTurnInv(Completed(s, a), a, OwnerBatch(s.slot.pending), newId);
  }

  /** The release that ends, or goes on to publish the event first. */
  lemma ReleaseAndMoveInv(s: Sys, a: Agent, turn: TurnId, ending: Ending, newId: TurnId)
    requires Inv(s) && s.loop.At(a).AwaitReap? && NoWorker(s) && s.fence.current == None
    requires (ending == Reply || s.slot.pending == []) && s.log.holder == HeldBy(a)
    ensures Inv(ReleaseSlot(s, a, ending, newId))
  {
    assert FenceBounded(s);
    hide LogOk, FenceOk;
    var t := ReleaseSlot(s, a, ending, newId);
    assert forall b :: b != a ==> t.loop.At(b) == s.loop.At(b);
    assert t.loop.At(a).Owns() <==> s.slot.pending != [];
    SameLogsOk(s, t);
  }

  lemma ReleaseSlotInv(s: Sys, a: Agent, turn: TurnId, ending: Ending, task: Option<TurnId>, newId: TurnId)
    requires Inv(s) && s.loop.At(a) == AwaitReap(turn, ending, task)
    requires ReapFinished(s, task) && s.Fresh(newId)
    ensures Inv(ReleaseSlot(s, a, ending, newId))
  {
    assert s.loop.At(a).Owns() && OwnerOk(s, s.loop.At(a));
    assert NoWorker(s) && FenceBounded(s);
    hide Inv, ReleaseSlot;
    if ending != Reply && s.slot.pending != [] {
      ReleaseAndOpenInv(s, a, turn, ending, newId);
    } else {
      ReleaseAndMoveInv(s, a, turn, ending, newId);
    }
  }

  lemma EmitInv(s: Sys, a: Agent, next: Option<seq<string>>, newId: TurnId)
    requires Inv(s) && s.loop.At(a) == Emit(next) && s.Fresh(newId)
    ensures next.Some? ==> Inv(OpenTurn(s, a, OwnerBatch(next.value), newId))
  {
    if next.Some? {
      assert s.loop.At(a).Owns();
      OpenTurnInv(s, a, OwnerBatch(next.value), newId);
    }
  }

  /** A task that owns nothing moves between positions that own nothing. */
  lemma BystanderMovesInv(s: Sys, a: Agent, pc: Pc)
    requires Inv(s) && !s.loop.At(a).Owns() && !pc.Owns()
    ensures Inv(MoveTo(s, a, pc))
  {
    var t := MoveTo(s, a, pc);
    assert t.loop.At(a) == pc && forall b :: b != a ==> t.loop.At(b) == s.loop.At(b);
    assert forall id :: Ended(t, id) <==> Ended(s, id);
    assert forall id :: (Recorded(t, id) <==> Recorded(s, id)) && (Applied(t, id) <==> Applied(s, id));
  }

  lemma StartFaceInv(s: Sys, a: Agent, turn: TurnId, job: Job)
    requires Inv(s) && s.loop.At(a) == StartFace(turn, job)
    ensures Inv(MoveTo(s, a, StartCaption(turn, job)))
  {
    var t := MoveTo(s, a, StartCaption(turn, job));
    assert s.loop.At(a).Owns();
    assert t.loop.At(a) == StartCaption(turn, job) && forall b :: b != a ==> t.loop.At(b) == s.loop.At(b);
    assert forall id :: Ended(t, id) <==> Ended(s, id);
    OwnerMovesInv(s, t, a);
  }

  lemma ProposeInv(s: Sys, a: Agent, turn: TurnId)
    requires Inv(s) && s.loop.At(a) == Propose(turn)
    ensures Inv(BeginAwait(s, a, turn, Reply))
  {
    assert s.loop.At(a).Owns();
    BeginAwaitInv(s, s, a, turn, Reply);
  }

  lemma ContinueInv(s: Sys, a: Agent, c: Choice)
    requires Inv(s) && Enabled(s, Continue(a, c))
    ensures Inv(ContinueTask(s, a, c))
  {
    hide Inv, SpawnTurn, ContinueDelivery, BeginAwait, ReleaseSlot, OpenTurn, MoveTo;
    match s.loop.At(a)
    case Resting =>
    case Chatting => BystanderMovesInv(s, a, Resting);
    case StartFace(turn, job) => StartFaceInv(s, a, turn, job);
    case StartCaption(turn, job) =>
      if c.succeeds { SpawnSucceedsInv(s, a, turn, job); } else { SpawnFailsInv(s, a, turn, job); }
    case Deliver(turn, ending, stage) => ContinueDeliveryInv(s, a, turn, ending, stage, c);
    case Propose(turn) => ProposeInv(s, a, turn);
    case AwaitReap(turn, ending, task) => ReleaseSlotInv(s, a, turn, ending, task, c.newId);
    case Emit(next) =>
      if next.None? { BystanderMovesInv(s, a, Resting); } else { EmitInv(s, a, next, c.newId); }
  }

  predicate IsWorkerStep(step: Step) {
    step.ReapStarts? || step.ReapEnds? || step.WorkerExits?
  }

  lemma WorkerStepHolder(s: Sys, step: Step)
    requires FenceBounded(s) && HolderOk(s) && Enabled(s, step) && IsWorkerStep(step)
    ensures HolderOk(Next(s, step))
  {
    var t := Next(s, step);
    assert forall b :: t.loop.At(b) == s.loop.At(b);
    if s.log.holder.HeldBy? {
      assert s.loop.At(s.log.holder.agent).Owns();
    }
  }

  /** The worker's own transitions and its reap's: nothing else moves. */
  lemma WorkerStepInv(s: Sys, step: Step)
    requires Inv(s) && Enabled(s, step) && IsWorkerStep(step)
    ensures Inv(Next(s, step))
  {
    assert FenceBounded(s);
    GaveUpAreDone(s, step);
    hide HolderOk, LogOk, FenceOk, Enabled, Conserved, Next;
    WorkerStepHolder(s, step);
    WorkerStepLog(s, step);
    WorkerStepConserves(s, step);
  }

  lemma WorkerStepConserves(s: Sys, step: Step)
    requires FenceBounded(s) && Conserved(s) && Enabled(s, step) && IsWorkerStep(step)
    ensures Conserved(Next(s, step))
  {
    assert forall b :: Next(s, step).loop.At(b) == s.loop.At(b);
    hide Flatten, CarriedBy;
  }

  lemma WorkerStepLog(s: Sys, step: Step)
    requires LogOk(s) && FenceOk(s) && Enabled(s, step) && IsWorkerStep(step)
    requires forall t :: t in Next(s, step).log.gaveUp ==> t in Next(s, step).loop.reaps && Next(s, step).loop.reaps[t] == Done
    ensures LogOk(Next(s, step)) && FenceOk(Next(s, step))
  {
    assert FenceBounded(s);
    hide LogOk, FenceOk;
    SameLogsOk(s, Next(s, step));
  }

  lemma GaveUpAreDone(s: Sys, step: Step)
    requires Inv(s) && Enabled(s, step) && IsWorkerStep(step)
    ensures forall t :: t in Next(s, step).log.gaveUp ==> t in Next(s, step).loop.reaps && Next(s, step).loop.reaps[t] == Done
  {
    if s.log.holder.HeldBy? {
      assert s.loop.At(s.log.holder.agent).Owns();
    }
  }

  lemma OwnerMessageInv(s: Sys, text: string, newId: TurnId)
    requires Inv(s) && Enabled(s, OwnerMessage(text, newId))
    ensures Inv(Next(s, OwnerMessage(text, newId)))
  {
    var heard := s.(slot := s.slot.Submit(text), log := s.log.(submitted := s.log.submitted + [text]));
    SameLogsOk(s, heard);
    hide LogOk, FenceOk, Ended, Recorded, Applied;
    if !s.slot.reserved {
      OpenTurnInv(heard, Consumer, OwnerBatch([text]), newId);
    }
  }

  lemma DispatchInv(s: Sys, prompt: string, marker: Option<string>, spendRecorded: bool, newId: TurnId)
    requires Inv(s) && Enabled(s, DispatchJob(prompt, marker, spendRecorded, newId))
    ensures Inv(Next(s, DispatchJob(prompt, marker, spendRecorded, newId)))
  {
    var taken := s.(slot := s.slot.Submit(prompt));
    assert forall id :: Ended(taken, id) <==> Ended(s, id);
    if spendRecorded {
      OpenTurnInv(taken, Scheduler, SelfDriven(prompt, marker), newId);
    } else {
      var t := Next(s, DispatchJob(prompt, marker, spendRecorded, newId));
      assert forall id :: Ended(t, id) <==> Ended(s, id);
    }
  }

  lemma ApprovalTapInv(s: Sys, newId: TurnId)
    requires Inv(s) && Enabled(s, ApprovalTap(newId))
    ensures Inv(Next(s, ApprovalTap(newId)))
  {
    var taken := s.(slot := s.slot.Submit("[tool approval]"));
    assert forall id :: Ended(taken, id) <==> Ended(s, id);
    OpenTurnInv(taken, Consumer, Resumed, newId);
  }

  lemma PushMoodFaceInv(s: Sys, a: Agent)
    requires Inv(s) && Enabled(s, PushMoodFace(a))
    ensures Inv(Next(s, PushMoodFace(a)))
  {
    var pushed := s.(core := s.core.(face := MoodFace));
    assert forall id :: Ended(pushed, id) <==> Ended(s, id);
    assert Inv(pushed);
    BystanderMovesInv(pushed, a, Chatting);
  }

  /** The invariant is kept by every step of every task. */
  lemma StepKeepsInv(s: Sys, step: Step)
    requires Inv(s) && Enabled(s, step)
    ensures Inv(Next(s, step))
  {
    assert FenceBounded(s);
    match step {
      case OwnerMessage(text, newId) => OwnerMessageInv(s, text, newId);
      case ApprovalTap(newId) => ApprovalTapInv(s, newId);
      case ResultArrives(turn, ok) => AdmitResultInv(s, turn, ok);
      case DispatchJob(prompt, marker, spendRecorded, newId) => DispatchInv(s, prompt, marker, spendRecorded, newId);
      case PushMoodFace(a) => PushMoodFaceInv(s, a);
      case StartChat(a) => BystanderMovesInv(s, a, Chatting);
      case Continue(a, c) => ContinueInv(s, a, c);
      case WatcherWakes(turn) => WakeWatcherInv(s, turn);
      case ReapStarts(_) => WorkerStepInv(s, step);
      case ReapEnds(_, _) => WorkerStepInv(s, step);
      case WorkerExits(_) => WorkerStepInv(s, step);
    }
    hide Inv, ContinueTask, WakeWatcher, AdmitResult;
  }
}
