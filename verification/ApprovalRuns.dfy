/** Parked calls end to end: what the lifecycle parks, what the taps settle, and what the resumed workers
    execute. */
module ApprovalRuns {
  import opened Options
  import opened TurnFencing
  import opened Lifecycle
  import opened LifecycleInvariant
  import LifecycleTheorems
  import opened Conversation
  import opened ToolLoop
  import opened Worker
  import Approvals

  // ---- a turn parks once ----

  /** The turns under which calls are parked, in order. */
  function Parkings(events: seq<Approvals.Event>): seq<TurnId>
    decreases |events|
  {
    if events == [] then []
    else
      var n := |events| - 1;
      Parkings(events[..n]) + if events[n].ParkCall? then [events[n].turn] else []
  }

  /** `part` is `whole` with some elements left out. */
  predicate LeavesOut<T(==)>(part: seq<T>, whole: seq<T>)
    decreases |whole|
  {
    if whole == [] then part == []
    else
      var m, n := |part| - 1, |whole| - 1;
      LeavesOut(part, whole[..n]) || (part != [] && part[m] == whole[n] && LeavesOut(part[..m], whole[..n]))
  }

  lemma {:induction false} PartIsOfTheWhole<T>(part: seq<T>, whole: seq<T>)
    requires LeavesOut(part, whole)
    ensures forall x :: x in part ==> x in whole
    decreases |whole|
  {
    if whole != [] {
      var m, n := |part| - 1, |whole| - 1;
      if LeavesOut(part, whole[..n]) {
        PartIsOfTheWhole(part, whole[..n]);
      } else {
        PartIsOfTheWhole(part[..m], whole[..n]);
        assert part == part[..m] + [part[m]];
      }
    }
  }

  lemma {:induction false} ParkingIsListed(events: seq<Approvals.Event>, j: nat)
    requires j < |events| && events[j].ParkCall?
    ensures events[j].turn in Parkings(events)
    decreases |events|
  {
    if j < |events| - 1 { ParkingIsListed(events[..|events| - 1], j); }
  }

  /** Parkings that follow a list without repetitions never park a turn twice. */
  lemma {:induction false} FollowingParksOnce(events: seq<Approvals.Event>, applied: seq<TurnId>)
    requires LeavesOut(Parkings(events), applied)
    requires forall j, k :: 0 <= j < k < |applied| ==> applied[j] != applied[k]
    ensures Approvals.ParksOnce(events)
    decreases |applied|, |events|
  {
    if events != [] {
      var n := |events| - 1;
      var before := events[..n];
      if !events[n].ParkCall? {
        assert Parkings(events) == Parkings(before);
        FollowingParksOnce(before, applied);
      } else if applied != [] && LeavesOut(Parkings(events), applied[..|applied| - 1]) {
        FollowingParksOnce(events, applied[..|applied| - 1]);
      } else {
        var m := |applied| - 1;
        var p := Parkings(events);
        assert p[..|p| - 1] == Parkings(before) && p[|p| - 1] == events[n].turn;
        FollowingParksOnce(before, applied[..m]);
        forall j | 0 <= j < n && events[j].ParkCall? ensures events[j].turn != events[n].turn {
          ParkingIsListed(before, j);
          PartIsOfTheWhole(Parkings(before), applied[..m]);
          var x :| 0 <= x < m && applied[..m][x] == events[j].turn;
        }
      }
    }
  }

  /** In every reachable state of the lifecycle: if each parking was done while a turn's ops were applied, at
      most one each time, then no turn is parked twice. */
  lemma LifecycleParksOnce(s: Sys, events: seq<Approvals.Event>)
    requires LifecycleTheorems.Reachable(s) && LeavesOut(Parkings(events), s.log.applied)
    ensures Approvals.ParksOnce(events)
  {
    LifecycleTheorems.TurnsEndOnce(s);
    FollowingParksOnce(events, s.log.applied);
  }

  // ---- a parked call is executed at most once ----

  /** What surrounds the worker that a settled tap starts: its loop's world, and what the call returns. */
  datatype Resumption = Resumption(w: World, outcome: ToolOutcome)

  /** How often what was parked, or anything risky besides, is carried out on behalf of one settled tap: the
      pending call, whatever the resumed worker's registry says of it, the risky calls of that worker's loop, or
      core's own change of the directive. */
  function Executions(e: Approvals.Settled, r: Resumption): nat {
    match e.fate
    case Resumed(approved) =>
      var pause, d := Pause(e.item.call, "", e.item.messages), Decision(approved, r.outcome);
      |ResolvedCall(r.w.registry, pause.call, d)|
      + RiskyRuns(r.w.registry, RunFrom(r.w, 0, ResumeMessages(r.w.registry, pause, d), []).executed)
    case DirectiveApplied => 1
    case DirectiveDeclined => 0
    case ResumeLost => 0
  }

  /** Over all settled taps of a run, on one turn. */
  function ExecutionsOf(settled: seq<Approvals.Settled>, resumptions: nat -> Resumption, turn: TurnId): nat
    decreases |settled|
  {
    if settled == [] then 0
    else
      var n := |settled| - 1;
      ExecutionsOf(settled[..n], resumptions, turn)
      + if settled[n].turn == turn then Executions(settled[n], resumptions(n)) else 0
  }

  /** These are all the executions of the resumed run. */
  lemma ResumedRunExecutes(w: World, pause: Pause, d: Decision)
    ensures ResumeRun(w, pause, d).executed
         == ResolvedCall(w.registry, pause.call, d) + RunFrom(w, 0, ResumeMessages(w.registry, pause, d), []).executed
  {
  }

  lemma {:induction false} OnlyOnApproval(e: Approvals.Settled, r: Resumption)
    ensures Executions(e, r) == if Approvals.Runs(e.fate) then 1 else 0
  {
    if e.fate.Resumed? {
      var pause, d := Pause(e.item.call, "", e.item.messages), Decision(e.fate.approved, r.outcome);
      FreshTurnExecutesNone(r.w, ResumeMessages(r.w.registry, pause, d));
    }
    hide RunFrom, RiskyRuns, ResumeMessages;
  }

  lemma {:induction false} ExecutionsAddUp(settled: seq<Approvals.Settled>, resumptions: nat -> Resumption, turn: TurnId)
    requires forall i, j :: 0 <= i < j < |settled| ==> settled[i].turn != settled[j].turn
    ensures (forall i :: 0 <= i < |settled| ==> settled[i].turn != turn) ==> ExecutionsOf(settled, resumptions, turn) == 0
    ensures forall i :: 0 <= i < |settled| && settled[i].turn == turn ==>
              ExecutionsOf(settled, resumptions, turn) == Executions(settled[i], resumptions(i))
    decreases |settled|
  {
    hide Executions;
    if settled != [] {
      ExecutionsAddUp(settled[..|settled| - 1], resumptions, turn);
    }
  }

  /** An approving tap on the turn, strictly before the expiry of what was parked under it. */
  ghost predicate TimelyApproval(events: seq<Approvals.Event>, turn: TurnId) {
    exists t: nat, k: nat ::
      k < t < |events| && events[t].Tap? && events[t].turn == turn && events[t].approved
      && events[k].ParkCall? && events[k].turn == turn && events[t].now < events[k].now + Approvals.APPROVAL_TTL
  }

  /** The whole chain: for any reachable lifecycle, any run of parking, pruning and tapping over the turns it
      parked, and whatever the resumed workers meet, what is parked under a turn is carried out at most once -
      and only if the owner approved it in time. No fresh turn carries out a risky call at all. */
  lemma ParkedCallsExecuteAtMostOnce(s: Sys, events: seq<Approvals.Event>, resumptions: nat -> Resumption, turn: TurnId)
    requires LifecycleTheorems.Reachable(s) && LeavesOut(Parkings(events), s.log.applied)
    requires Approvals.Dated(events)
    ensures var n := ExecutionsOf(Approvals.After(events).settled, resumptions, turn);
            n <= 1 && (n == 1 ==> TimelyApproval(events, turn))
  {
    LifecycleParksOnce(s, events);
    hide LifecycleTheorems.Reachable, LeavesOut, Approvals.ParksOnce, Approvals.After;
    Approvals.ParkedCallsRunAtMostOnce(events);
    SettledExecuteAtMostOnce(events, Approvals.After(events).settled, resumptions, turn);
  }

  lemma SettledExecuteAtMostOnce(events: seq<Approvals.Event>, settled: seq<Approvals.Settled>,
                                 resumptions: nat -> Resumption, turn: TurnId)
    requires forall i, j :: 0 <= i < j < |settled| ==> settled[i].turn != settled[j].turn
    requires forall i :: 0 <= i < |settled| ==> Approvals.SettledExplained(events, settled[i])
    ensures var n := ExecutionsOf(settled, resumptions, turn);
            n <= 1 && (n == 1 ==> TimelyApproval(events, turn))
  {
    ExecutionsAddUp(settled, resumptions, turn);
    hide ExecutionsOf, Executions, Approvals.SettledExplained, TimelyApproval;
    if i :| 0 <= i < |settled| && settled[i].turn == turn {
      OnlyOnApproval(settled[i], resumptions(i));
      if Approvals.Runs(settled[i].fate) { SettledIsTimely(events, settled[i]); }
    }
  }

  lemma SettledIsTimely(events: seq<Approvals.Event>, e: Approvals.Settled)
    requires Approvals.SettledExplained(events, e) && Approvals.Runs(e.fate)
    ensures TimelyApproval(events, e.turn)
  {
    var k: nat :| Approvals.ParkedBefore(events, e.turn, e.item, k) && k < e.tap
                  && events[e.tap].now < events[k].now + Approvals.APPROVAL_TTL;
  }

  /** What was settled under a turn decides how often it is carried out: once when its tap approved it and, unless
      core itself carries it out, a worker was spawned; never otherwise. */
  lemma SettledExecutesExactly(events: seq<Approvals.Event>, resumptions: nat -> Resumption, e: Approvals.Settled)
    requires Approvals.Dated(events) && Approvals.ParksOnce(events) && e in Approvals.After(events).settled
    ensures e.tap < |events| && events[e.tap].Tap?
    ensures var t, n := events[e.tap], ExecutionsOf(Approvals.After(events).settled, resumptions, e.turn);
            n == if t.approved && (e.item.call.name == Approvals.DIRECTIVE || t.spawned) then 1 else 0
  {
    hide Approvals.After, Approvals.ParksOnce, Approvals.Dated, ExecutionsOf, Executions, Approvals.Runs;
    Approvals.ParkedCallsRunAtMostOnce(events);
    Approvals.SettledRunsExactly(events, e);
    ExecutionsAddUp(Approvals.After(events).settled, resumptions, e.turn);
    var i :| 0 <= i < |Approvals.After(events).settled| && Approvals.After(events).settled[i] == e;
    OnlyOnApproval(e, resumptions(i));
  }

  /** A call that a turn parked, and that the next tap on the turn approves in time, is carried out exactly once,
      whatever the resumed worker meets. */
  lemma TimelyApprovalExecutesOnce(s: Sys, events: seq<Approvals.Event>, k: nat, tap: Approvals.Event,
                                   resumptions: nat -> Resumption)
    requires LifecycleTheorems.Reachable(s) && LeavesOut(Parkings(events + [tap]), s.log.applied)
    requires Approvals.ApprovedInTime(events, k, tap)
    ensures Approvals.Dated(events + [tap])
            && ExecutionsOf(Approvals.After(events + [tap]).settled, resumptions, tap.turn) == 1
  {
    var turn, item := tap.turn, events[k].item;
    hide *;
    LifecycleParksOnce(s, events + [tap]);
    Approvals.TimelyApprovalRuns(events, k, tap);
    LastExecutes(events + [tap], resumptions, turn, item, |events|);
  }

  lemma LastExecutes(events: seq<Approvals.Event>, resumptions: nat -> Resumption, turn: TurnId,
                     item: Approvals.Parked, tap: nat)
    requires Approvals.Dated(events) && Approvals.ParksOnce(events)
    requires Approvals.LastRuns(Approvals.After(events).settled, turn, item, tap)
    ensures ExecutionsOf(Approvals.After(events).settled, resumptions, turn) == 1
  {
    hide Approvals.After, Approvals.ParksOnce, Approvals.Dated, ExecutionsOf, Executions, Approvals.Runs;
    Approvals.ParkedCallsRunAtMostOnce(events);
    ExecutionsAddUp(Approvals.After(events).settled, resumptions, turn);
    var i := |Approvals.After(events).settled| - 1;
    OnlyOnApproval(Approvals.After(events).settled[i], resumptions(i));
  }

  lemma {:induction false} FreshTurnExecutesNone(w: World, messages: seq<Message>)
    ensures RiskyRuns(w.registry, RunFrom(w, 0, messages, []).executed) == 0
  {
    LoopNeverRunsRisky(w, 0, messages, []);
    NoRiskyRuns(w.registry, RunFrom(w, 0, messages, []).executed);
    hide RunFrom, RiskyRuns;
  }

  // ---- approvals that no loop asked for ----

  /** A reply's ops block can hold an approval request of its own. Core parks it like a pause of the loop, with
      the conversation it names - none - and the resumed run's first Job is then a lone tool message. */
  lemma WrittenApprovalResumesUnpaired(w: World, prompt: string, call: ToolCall, ownerPresent: bool,
                                       resumed: World, d: Decision)
    requires var first := w.rounds(0);
             && first.remaining >= 2.0 && first.completion.ok && first.completion.calls == []
             && w.parse(first.completion.payload).1 == [RequestApproval(call, "", [])]
    requires resumed.rounds(0).remaining >= 2.0
    ensures var run := RunFrom(w, 0, [User(prompt)], []);
            && run.pause.None?
            && Approvals.FirstStored(Approvals.Capped(run.result.ops), ownerPresent, _ => true, 0)
                 == Some(Approvals.Parked([], call))
    ensures var run := ResumeRun(resumed, Pause(call, "", []), d);
            run.jobs != [] && run.jobs[0] == ResumeMessages(resumed.registry, Pause(call, "", []), d)
            && !WellPaired(run.jobs[0])
  {
    var run := RunFrom(w, 0, [User(prompt)], []);
    assert run.result.ops == [RequestApproval(call, "", [])];
    var pause := Pause(call, "", []);
    ResumeRestoresPairing(resumed.registry, pause, d);
    FirstJobIsTheStart(resumed, ResumeMessages(resumed.registry, pause, d));
    assert [] + RunFrom(resumed, 0, ResumeMessages(resumed.registry, pause, d), []).jobs
        == RunFrom(resumed, 0, ResumeMessages(resumed.registry, pause, d), []).jobs;
  }
}
