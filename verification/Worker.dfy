/** The worker's loops as they run, and chains of paused and resumed turns. */
module Worker {
  import opened Options
  import opened Conversation
  import opened ToolLoop

  /** A run after earlier passes that sent `jobs` and executed `executed`. */
  function Following(jobs: seq<seq<Message>>, rounds: nat, executed: seq<Execution>, rest: LoopRun): LoopRun {
    rest.(jobs := jobs + rest.jobs, rounds := rounds + rest.rounds, executed := executed + rest.executed)
  }

  lemma FailingAppend(registry: Registry, a: seq<Execution>, b: seq<Execution>)
    ensures Failing(registry, a + b) == Failing(registry, a) + Failing(registry, b)
  {
    assert forall e :: e in a + b <==> e in a || e in b;
  }

  predicate Strikes(registry: Registry, e: Execution) {
    !e.outcome.ok && e.call.name in registry && registry[e.call.name].selfCoded
  }

  lemma OneMoreExecution(registry: Registry, executed: seq<Execution>, e: Execution)
    ensures Replies(executed + [e]) == Replies(executed) + [ToolReply(e.outcome.content, e.call.id)]
    ensures PersonaOps(executed + [e]) == PersonaOps(executed) + PersonaOp(e)
    ensures Failing(registry, executed + [e])
         == Failing(registry, executed) + (if Strikes(registry, e) then {e.call.name} else {})
  {
    assert (executed + [e])[..|executed|] == executed;
    FailingAppend(registry, executed, [e]);
    assert forall x :: x in [e] <==> x == e;
  }

  lemma AllExecuted(registry: Registry, calls: seq<ToolCall>, outcomes: nat -> ToolOutcome, executed: seq<Execution>)
    requires |executed| == |calls|
    requires forall j :: 0 <= j < |calls| ==> executed[j] == Execute(registry, calls[j], outcomes(j))
    ensures executed == ExecuteAll(registry, calls, outcomes)
  {
  }

  lemma NothingExecuted(registry: Registry)
    ensures PersonaOps([]) == [] && Failing(registry, []) == {} && Replies([]) == []
  {
  }

  /** Execute the calls of one completion in order, collecting replies, persona ops and failures. */
  method ExecuteCalls(registry: Registry, calls: seq<ToolCall>, outcomes: nat -> ToolOutcome,
                      personaBefore: seq<Op>, failuresBefore: set<string>)
    returns (executed: seq<Execution>, replies: seq<Message>, persona: seq<Op>, failures: set<string>)
    ensures executed == ExecuteAll(registry, calls, outcomes) && replies == Replies(executed)
    ensures persona == personaBefore + PersonaOps(executed)
    ensures failures == failuresBefore + Failing(registry, executed)
  {
    hide PersonaOps, Failing, Execute, Replies, ExecuteAll, PersonaOp, Strikes;
    executed, replies, persona, failures := [], [], personaBefore, failuresBefore;
    NothingExecuted(registry);
    for k := 0 to |calls|
      invariant |executed| == k && forall j :: 0 <= j < k ==> executed[j] == Execute(registry, calls[j], outcomes(j))
      invariant replies == Replies(executed)
      invariant persona == personaBefore + PersonaOps(executed)
      invariant failures == failuresBefore + Failing(registry, executed)
    {
      var e := Execute(registry, calls[k], outcomes(k));
      OneMoreExecution(registry, executed, e);
      executed := executed + [e];
      replies := replies + [ToolReply(e.outcome.content, e.call.id)];
      persona := persona + PersonaOp(e);
      if Strikes(registry, e) {
        failures := failures + {e.call.name};
      }
    }
    AllExecuted(registry, calls, outcomes, executed);
  }

  lemma FollowingStep(jobs: seq<seq<Message>>, rounds: nat, executed: seq<Execution>,
                      messages: seq<Message>, more: seq<Execution>, rest: LoopRun)
    ensures Following(jobs, rounds, executed, Prepend(rest, messages, more))
         == Following(jobs + [messages], rounds + 1, executed + more, rest)
  {
    assert jobs + ([messages] + rest.jobs) == jobs + [messages] + rest.jobs;
    assert executed + (more + rest.executed) == executed + more + rest.executed;
  }

  /** One pass of the loop's body: it ends the run with `last`, or executes only free calls and goes on. */
  method OnePass(w: World, i: nat, messages: seq<Message>, persona: seq<Op>, failuresBefore: set<string>)
    returns (last: Option<LoopRun>, more: seq<Execution>, messagesNow: seq<Message>, personaNow: seq<Op>, failures: set<string>)
    requires i <= MAX_TOOL_EXECUTIONS
    ensures last.Some? ==> last.value == RunFrom(w, i, messages, persona) && last.value.executed == more
    ensures last.None? ==>
              RunFrom(w, i, messages, persona) == Prepend(RunFrom(w, i + 1, messagesNow, personaNow), messages, more)
    ensures failures == failuresBefore + Failing(w.registry, more)
  {
    more, messagesNow, personaNow, failures := [], messages, persona, failuresBefore;
    var round := w.rounds(i);
    var comp := round.completion;
    if round.remaining < 2.0 {
      last := Some(LoopRun(Reply(SHORT_ON_TIME, persona), [], 0, [], [], None));
      return;
    }
    if !comp.ok {
      last := Some(LoopRun(Result(false, "", comp.error, []), [messages], 0, [], [], None));
      return;
    }
    if comp.calls == [] {
      var (payload, ops) := w.parse(comp.payload);
      last := Some(LoopRun(Reply(payload, persona + ops), [messages], 0, [], ops, None));
      return;
    }
    if i >= MAX_TOOL_EXECUTIONS {
      last := Some(LoopRun(Reply(TOO_MANY_STEPS, persona), [messages], 0, [], [], None));
      return;
    }
    var risky := FirstRisky(w.registry, comp.calls);
    var replies;
    if risky.Some? {
      var k := risky.value;
      more, replies, personaNow, failures := ExecuteCalls(w.registry, comp.calls[..k], round.outcomes, persona, failuresBefore);
      var paused := messages + [Assistant(comp.payload, comp.calls[..k + 1])] + replies;
      var pause := Pause(comp.calls[k], w.summarize(comp.calls[k]), paused);
      var ops := [RequestApproval(pause.call, pause.summary, pause.messages)] + personaNow;
      last := Some(LoopRun(Reply(AskApproval(pause.summary), ops), [messages], 1, more, [], Some(pause)));
      return;
    }
    more, replies, personaNow, failures := ExecuteCalls(w.registry, comp.calls, round.outcomes, persona, failuresBefore);
    messagesNow := messages + [Assistant(comp.payload, comp.calls)] + replies;
    last := None;
  }

  lemma StruckIsFailing(registry: Registry, executed: seq<Execution>)
    ensures forall name :: name in Failing(registry, executed) <==> Struck(registry, executed, name)
  {
  }

  lemma Exhausted(w: World, messages: seq<Message>, persona: seq<Op>)
    ensures RunFrom(w, MAX_TOOL_EXECUTIONS + 1, messages, persona)
         == LoopRun(Reply(TOO_MANY_STEPS, persona), [], 0, [], [], None)
  {
  }

  /** The self-coded tools that failed in a run. */
  ghost predicate Struck(registry: Registry, executed: seq<Execution>, name: string) {
    exists e :: e in executed && e.call.name == name && !e.outcome.ok && name in registry && registry[name].selfCoded
  }

  /** `_agentic_loop`: every exit returns what the specification says, and strikes exactly the failing
      self-coded tools. */
  method AgenticLoop(w: World, start: seq<Message>, failuresBefore: set<string>)
    returns (run: LoopRun, failures: set<string>)
    ensures run == RunFrom(w, 0, start, [])
    ensures failures == failuresBefore + Failing(w.registry, run.executed)
    ensures forall name :: name in failures <==> name in failuresBefore || Struck(w.registry, run.executed, name)
  {
    hide RunFrom, LastPass;
    var messages, persona, jobs, rounds, executed := start, [], [], 0, [];
    failures := failuresBefore;
    for iteration := 0 to MAX_TOOL_EXECUTIONS + 1
      invariant Following(jobs, rounds, executed, RunFrom(w, iteration, messages, persona)) == RunFrom(w, 0, start, [])
      invariant failures == failuresBefore + Failing(w.registry, executed)
    {
      var last, more, messagesNow, personaNow, failuresNow := OnePass(w, iteration, messages, persona, failures);
      FailingAppend(w.registry, executed, more);
      failures := failuresNow;
      if last.Some? {
        StruckIsFailing(w.registry, executed + more);
        return Following(jobs, rounds, executed, last.value), failures;
      }
      FollowingStep(jobs, rounds, executed, messages, more, RunFrom(w, iteration + 1, messagesNow, personaNow));
      jobs, rounds, executed := jobs + [messages], rounds + 1, executed + more;
      messages, persona := messagesNow, personaNow;
    }
    Exhausted(w, messages, persona);
    assert executed + [] == executed;
    StruckIsFailing(w.registry, executed);
    return Following(jobs, rounds, executed, LoopRun(Reply(TOO_MANY_STEPS, persona), [], 0, [], [], None)), failures;
  }

  // ---- resumption ----

  /** The owner's decision on a pause, and what the approved tool then returns. */
  datatype Decision = Decision(approved: bool, outcome: ToolOutcome)

  const DENIED: string := "denied by owner"

  function ResolvedCall(registry: Registry, call: ToolCall, d: Decision): seq<Execution> {
    if d.approved then [Execute(registry, call, d.outcome)] else []
  }

  function ResumeMessages(registry: Registry, pause: Pause, d: Decision): seq<Message> {
    pause.messages +
    [ToolReply(if d.approved then Execute(registry, pause.call, d.outcome).outcome.content else DENIED, pause.call.id)]
  }

  function ResumeRun(w: World, pause: Pause, d: Decision): LoopRun {
    Following([], 0, ResolvedCall(w.registry, pause.call, d), RunFrom(w, 0, ResumeMessages(w.registry, pause, d), []))
  }

  /** `_resume_loop`: the pending call runs only on approval, once, before the loop goes on. */
  method ResumeLoop(w: World, pause: Pause, d: Decision, failuresBefore: set<string>)
    returns (run: LoopRun, failures: set<string>)
    ensures run == ResumeRun(w, pause, d)
    ensures failures == failuresBefore + Failing(w.registry, run.executed)
    ensures forall name :: name in failures <==> name in failuresBefore || Struck(w.registry, run.executed, name)
  {
    var reply := DENIED;
    var resolved: seq<Execution> := [];
    failures := failuresBefore;
    if d.approved {
      var e := Execute(w.registry, pause.call, d.outcome);
      if !e.outcome.ok && e.call.name in w.registry && w.registry[e.call.name].selfCoded {
        failures := failures + {e.call.name};
      }
      reply := e.outcome.content;
      resolved := [e];
    }
    ghost var before := failures;
    var messages := pause.messages + [ToolReply(reply, pause.call.id)];
    run, failures := AgenticLoop(w, messages, failures);
    FailingAppend(w.registry, resolved, run.executed);
    StruckIsFailing(w.registry, resolved + run.executed);
    run := run.(executed := resolved + run.executed);
  }

  /** Approved or denied, a resume leaves the conversation well paired if and only if the pause left exactly
      its own call unanswered. */
  lemma ResumeRestoresPairing(registry: Registry, pause: Pause, d: Decision)
    ensures WellPaired(ResumeMessages(registry, pause, d)) <==> AwaitsOnly(pause.messages, pause.call)
  {
    var reply := ResumeMessages(registry, pause, d)[|pause.messages|];
    ScanAppend(pause.messages, [reply], []);
    assert [reply][1..] == [];
    if Scan(pause.messages, []).Some? {
      var open := Scan(pause.messages, []).value;
      assert Scan([reply], open) == if open != [] && open[0] == pause.call.id then Some(open[1..]) else None;
      assert open != [] && open[1..] == [] ==> open == [open[0]];
      assert [pause.call.id][1..] == [];
    }
  }

  /** So all Jobs of a resumed run - when it sends any - are well paired if and only if the pause was so. */
  lemma ResumedJobsPairExactly(w: World, pause: Pause, d: Decision)
    requires ResumeRun(w, pause, d).jobs != []
    ensures SendsOnlyPaired(ResumeRun(w, pause, d)) <==> AwaitsOnly(pause.messages, pause.call)
  {
    var run, start := ResumeRun(w, pause, d), ResumeMessages(w.registry, pause, d);
    ResumeRestoresPairing(w.registry, pause, d);
    FirstJobIsTheStart(w, start);
    assert run.jobs == RunFrom(w, 0, start, []).jobs;
    if AwaitsOnly(pause.messages, pause.call) {
      ResumeKeepsPairing(w, pause, d);
    } else {
      assert !WellPaired(run.jobs[0]);
    }
  }

  lemma FirstJobIsTheStart(w: World, messages: seq<Message>)
    requires RunFrom(w, 0, messages, []).jobs != []
    ensures RunFrom(w, 0, messages, []).jobs[0] == messages
  {
  }

  /** A resumed run sends first what the pause left, and then what became of its call: what the approved tool
      returned, that there is no such tool, or that the owner denied it. */
  lemma ResumeAnswersTheCall(w: World, pause: Pause, d: Decision)
    ensures var run := ResumeRun(w, pause, d);
            run.jobs != [] ==>
              |run.jobs[0]| == |pause.messages| + 1 && run.jobs[0][..|pause.messages|] == pause.messages
              && run.jobs[0][|pause.messages|] ==
                 ToolReply(if !d.approved then "denied by owner"
                           else if pause.call.name in w.registry then d.outcome.content else UnknownTool(pause.call.name),
                           pause.call.id)
    ensures var run := ResumeRun(w, pause, d);
            var outcome := if pause.call.name in w.registry then d.outcome else ToolOutcome(false, UnknownTool(pause.call.name));
            d.approved ==> run.executed != [] && run.executed[0] == Execution(pause.call, outcome)
  {
    var start := ResumeMessages(w.registry, pause, d);
    if ResumeRun(w, pause, d).jobs != [] {
      FirstJobIsTheStart(w, start);
      assert [] + RunFrom(w, 0, start, []).jobs == RunFrom(w, 0, start, []).jobs;
    }
    hide RunFrom;
  }

  /** One resumption in a chain: its world, and the owner's decision. */
  datatype Link = Link(w: World, d: Decision)

  /** The runs of a turn and of the resumptions that its pauses lead to. */
  function Chain(first: LoopRun, links: seq<Link>): seq<LoopRun>
    decreases |links|
  {
    if links == [] || first.pause.None? then [first]
    else [first] + Chain(ResumeRun(links[0].w, first.pause.value, links[0].d), links[1..])
  }

  ghost predicate SendsOnlyPaired(run: LoopRun) {
    forall k :: 0 <= k < |run.jobs| ==> WellPaired(run.jobs[k])
  }

  lemma ResumeKeepsPairing(w: World, pause: Pause, d: Decision)
    requires AwaitsOnly(pause.messages, pause.call)
    ensures var run := ResumeRun(w, pause, d);
            && SendsOnlyPaired(run) && |run.jobs| <= 7 && run.rounds <= 6
            && (run.pause.Some? ==> AwaitsOnly(run.pause.value.messages, run.pause.value.call))
  {
    var start := ResumeMessages(w.registry, pause, d);
    ResumeRestoresPairing(w.registry, pause, d);
    LoopKeepsPairing(w, 0, start, []);
    LoopIsBounded(w, 0, start, []);
    assert [] + RunFrom(w, 0, start, []).jobs == RunFrom(w, 0, start, []).jobs;
  }

  lemma {:induction false} ChainKeepsPairing(first: LoopRun, links: seq<Link>)
    requires SendsOnlyPaired(first) && |first.jobs| <= 7 && first.rounds <= 6
    requires first.pause.Some? ==> AwaitsOnly(first.pause.value.messages, first.pause.value.call)
    ensures forall k :: 0 <= k < |Chain(first, links)| ==>
              var run := Chain(first, links)[k];
              SendsOnlyPaired(run) && |run.jobs| <= 7 && run.rounds <= 6
    decreases |links|
  {
    if links != [] && first.pause.Some? {
      ResumeKeepsPairing(links[0].w, first.pause.value, links[0].d);
      ChainKeepsPairing(ResumeRun(links[0].w, first.pause.value, links[0].d), links[1..]);
    }
  }

  /** From a fresh owner prompt, through any chain of loop-made pauses, decisions and resumptions, every Job is
      well paired, and each run sends at most 7 Jobs and executes at most 6 rounds. */
  lemma EveryJobIsPaired(w: World, prompt: string, links: seq<Link>)
    ensures var runs := Chain(RunFrom(w, 0, [User(prompt)], []), links);
            forall k :: 0 <= k < |runs| ==> SendsOnlyPaired(runs[k]) && |runs[k].jobs| <= 7 && runs[k].rounds <= 6
  {
    var start := [User(prompt)];
    assert start[1..] == [];
    assert WellPaired(start);
    LoopKeepsPairing(w, 0, start, []);
    LoopIsBounded(w, 0, start, []);
    ChainKeepsPairing(RunFrom(w, 0, start, []), links);
  }

  function RiskyRuns(registry: Registry, executed: seq<Execution>): nat {
    if executed == [] then 0
    else RiskyRuns(registry, executed[..|executed| - 1]) + (if IsRisky(registry, executed[|executed| - 1].call) then 1 else 0)
  }

  lemma {:induction false} NoRiskyRuns(registry: Registry, executed: seq<Execution>)
    requires forall k :: 0 <= k < |executed| ==> !IsRisky(registry, executed[k].call)
    ensures RiskyRuns(registry, executed) == 0
    decreases |executed|
  {
    if executed != [] { NoRiskyRuns(registry, executed[..|executed| - 1]); }
  }

  lemma {:induction false} RiskyRunsOfFirst(registry: Registry, e: Execution, rest: seq<Execution>)
    ensures RiskyRuns(registry, [e] + rest) == (if IsRisky(registry, e.call) then 1 else 0) + RiskyRuns(registry, rest)
    decreases |rest|
  {
    if rest == [] {
      assert ([e] + rest)[..0] == [];
    } else {
      assert ([e] + rest)[..|rest|] == [e] + rest[..|rest| - 1];
      RiskyRunsOfFirst(registry, e, rest[..|rest| - 1]);
    }
  }

  /** A fresh turn executes no risky call; a resumed one executes exactly the approved pending call. */
  lemma RiskyCallsRunOnlyWhenApproved(w: World, pause: Pause, d: Decision)
    ensures var run := ResumeRun(w, pause, d);
            RiskyRuns(w.registry, run.executed) == if d.approved && IsRisky(w.registry, pause.call) then 1 else 0
  {
    var start := ResumeMessages(w.registry, pause, d);
    var rest := RunFrom(w, 0, start, []).executed;
    LoopNeverRunsRisky(w, 0, start, []);
    NoRiskyRuns(w.registry, rest);
    if d.approved {
      RiskyRunsOfFirst(w.registry, Execute(w.registry, pause.call, d.outcome), rest);
    } else {
      assert [] + rest == rest;
    }
  }
}
