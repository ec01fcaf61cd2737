/** The worker's bounded tool loop, its pause on a risky call, and the resumption of a paused turn. */
module ToolLoop {
  import opened Options
  import opened Conversation

  const MAX_TOOL_EXECUTIONS: nat := 6

  datatype Tier = FreeTier | RiskyTier

  datatype ToolSpec = ToolSpec(tier: Tier, selfCoded: bool)

  type Registry = map<string, ToolSpec>

  datatype ToolOutcome = ToolOutcome(ok: bool, content: string)

  datatype Completion = Completion(ok: bool, error: string, payload: string, calls: seq<ToolCall>)

  datatype Op =
    | RequestApproval(call: ToolCall, summary: string, messages: seq<Message>)
    | Rewrite(tool: string, content: string)
    | RewriteDirective(content: string)
    | OtherOp(text: string)

  /** What one pass of the loop meets: the time left, the broker's answer, and what each tool returns. */
  datatype Round = Round(remaining: real, completion: Completion, outcomes: nat -> ToolOutcome)

  /** The worker's surroundings; `parse` is the parser of a final reply, `summarize` the approval text. */
  datatype World = World(registry: Registry, rounds: nat -> Round,
                         parse: string -> (string, seq<Op>), summarize: ToolCall -> string)

  datatype Result = Result(ok: bool, payload: string, error: string, ops: seq<Op>)

  datatype Execution = Execution(call: ToolCall, outcome: ToolOutcome)

  datatype Pause = Pause(call: ToolCall, summary: string, messages: seq<Message>)

  /** A run of the loop: its Result, and what it did on the way. */
  datatype LoopRun = LoopRun(result: Result, jobs: seq<seq<Message>>, rounds: nat, executed: seq<Execution>,
                             parsed: seq<Op>, pause: Option<Pause>)

  predicate IsRisky(registry: Registry, call: ToolCall) {
    call.name in registry && registry[call.name].tier == RiskyTier
  }

  /** What the model reads for a tool that is not there. */
  function UnknownTool(name: string): string {
    "unknown tool: '" + name + "'"
  }

  /** `execute_tool`: an unknown tool is a failed result. */
  function Execute(registry: Registry, call: ToolCall, outcome: ToolOutcome): Execution {
    Execution(call, if call.name in registry then outcome else ToolOutcome(false, UnknownTool(call.name)))
  }

  function ExecuteAll(registry: Registry, calls: seq<ToolCall>, outcomes: nat -> ToolOutcome): (es: seq<Execution>)
    ensures |es| == |calls|
    ensures forall k :: 0 <= k < |calls| ==> es[k] == Execute(registry, calls[k], outcomes(k))
  {
    seq(|calls|, k requires 0 <= k < |calls| => Execute(registry, calls[k], outcomes(k)))
  }

  function Replies(executed: seq<Execution>): (ms: seq<Message>)
    ensures |ms| == |executed|
    ensures forall k :: 0 <= k < |ms| ==> ms[k] == ToolReply(executed[k].outcome.content, executed[k].call.id)
  {
    seq(|executed|, k requires 0 <= k < |executed| => ToolReply(executed[k].outcome.content, executed[k].call.id))
  }

  const PERSONA_TOOLS: set<string> := {"rewrite_soul", "rewrite_identity", "rewrite_user", "rewrite_about"}

  function PersonaOp(e: Execution): seq<Op> {
    if e.call.name in PERSONA_TOOLS && e.outcome.ok
    then [Rewrite(e.call.name, if "content" in e.call.args then e.call.args["content"] else "")]
    else []
  }

  /** One op per successful persona call, in execution order. */
  function PersonaOps(executed: seq<Execution>): seq<Op> {
    if executed == [] then [] else PersonaOps(executed[..|executed| - 1]) + PersonaOp(executed[|executed| - 1])
  }

  function FirstRisky(registry: Registry, calls: seq<ToolCall>): (k: Option<nat>)
    ensures k.None? ==> forall i :: 0 <= i < |calls| ==> !IsRisky(registry, calls[i])
    ensures k.Some? ==> k.value < |calls| && IsRisky(registry, calls[k.value])
    ensures k.Some? ==> forall i :: 0 <= i < k.value ==> !IsRisky(registry, calls[i])
  {
    if calls == [] then None
    else if IsRisky(registry, calls[0]) then Some(0)
    else
      var rest := FirstRisky(registry, calls[1..]);
      assert forall i :: 1 <= i < |calls| ==> calls[i] == calls[1..][i - 1];
      if rest.None? then None else Some(rest.value + 1)
  }

  function Reply(payload: string, ops: seq<Op>): Result {
    Result(true, payload, "", ops)
  }

  const SHORT_ON_TIME: string := "I'm running short on time — let me answer directly."
  const TOO_MANY_STEPS: string := "I've used too many steps. Let me try a different approach."

  function AskApproval(summary: string): string {
    "I'd like to run `" + summary + "` — approve?"
  }

  function PauseOp(pause: Option<Pause>): seq<Op> {
    if pause.None? then [] else [RequestApproval(pause.value.call, pause.value.summary, pause.value.messages)]
  }

  /** One earlier pass that only executed free calls. */
  function Prepend(run: LoopRun, messages: seq<Message>, executed: seq<Execution>): LoopRun {
    run.(jobs := [messages] + run.jobs, rounds := run.rounds + 1, executed := executed + run.executed)
  }

  /** The pass executes free calls only, and another pass follows. */
  predicate Continues(w: World, i: nat) {
    i < MAX_TOOL_EXECUTIONS && w.rounds(i).remaining >= 2.0 && w.rounds(i).completion.ok
    && w.rounds(i).completion.calls != [] && FirstRisky(w.registry, w.rounds(i).completion.calls).None?
  }

  function FreeExecutions(w: World, i: nat): seq<Execution> {
    ExecuteAll(w.registry, w.rounds(i).completion.calls, w.rounds(i).outcomes)
  }

  function Longer(w: World, i: nat, messages: seq<Message>): seq<Message> {
    messages + [Assistant(w.rounds(i).completion.payload, w.rounds(i).completion.calls)] + Replies(FreeExecutions(w, i))
  }

  /** A pass that pauses on the risky call at `k`, after executing the free calls before it. */
  function PausingPass(w: World, round: Round, k: nat, messages: seq<Message>, persona: seq<Op>): LoopRun
    requires k < |round.completion.calls|
  {
    var calls := round.completion.calls;
    var executed := ExecuteAll(w.registry, calls[..k], round.outcomes);
    var paused := messages + [Assistant(round.completion.payload, calls[..k + 1])] + Replies(executed);
    var pause := Pause(calls[k], w.summarize(calls[k]), paused);
    LoopRun(Reply(AskApproval(pause.summary), PauseOp(Some(pause)) + (persona + PersonaOps(executed))),
            [messages], 1, executed, [], Some(pause))
  }

  /** A pass that ends the run. */
  function LastPass(w: World, i: nat, messages: seq<Message>, persona: seq<Op>): LoopRun {
    if i > MAX_TOOL_EXECUTIONS then LoopRun(Reply(TOO_MANY_STEPS, persona), [], 0, [], [], None)
    else
      var round := w.rounds(i);
      var comp := round.completion;
      if round.remaining < 2.0 then
        LoopRun(Reply(SHORT_ON_TIME, persona), [], 0, [], [], None)
      else if !comp.ok then
        LoopRun(Result(false, "", comp.error, []), [messages], 0, [], [], None)
      else if comp.calls == [] then
        var (payload, ops) := w.parse(comp.payload);
        LoopRun(Reply(payload, persona + ops), [messages], 0, [], ops, None)
      else match (if i < MAX_TOOL_EXECUTIONS then FirstRisky(w.registry, comp.calls) else None)
        case Some(k) => PausingPass(w, round, k, messages, persona)
        case None => LoopRun(Reply(TOO_MANY_STEPS, persona), [messages], 0, [], [], None)
  }

  /** The loop from its `i`-th pass on, with the conversation and the persona ops so far. */
  function RunFrom(w: World, i: nat, messages: seq<Message>, persona: seq<Op>): LoopRun
    requires i <= MAX_TOOL_EXECUTIONS + 1
    decreases MAX_TOOL_EXECUTIONS + 1 - i, |messages|
  {
    if Continues(w, i) then
      var executed := FreeExecutions(w, i);
      Prepend(RunFrom(w, i + 1, Longer(w, i, messages), persona + PersonaOps(executed)), messages, executed)
    else LastPass(w, i, messages, persona)
  }

  /** The failing self-coded tools: `_record_tool_failure` over the executions. */
  function Failing(registry: Registry, executed: seq<Execution>): set<string> {
    set e | e in executed && !e.outcome.ok && e.call.name in registry && registry[e.call.name].selfCoded :: e.call.name
  }

  // ---- pairing ----

  lemma {:induction false} RepliesAnswer(executed: seq<Execution>, ids: seq<string>)
    requires |executed| <= |ids|
    requires forall k :: 0 <= k < |executed| ==> executed[k].call.id == ids[k]
    ensures Scan(Replies(executed), ids) == Some(ids[|executed|..])
    decreases |executed|
  {
    if executed != [] {
      assert Replies(executed)[1..] == Replies(executed[1..]);
      RepliesAnswer(executed[1..], ids[1..]);
      assert ids[1..][|executed| - 1..] == ids[|executed|..];
    }
  }

  /** Asking for `calls` and answering the first of them leaves exactly the others open. */
  lemma AskAndAnswer(messages: seq<Message>, payload: string, calls: seq<ToolCall>, executed: seq<Execution>)
    requires WellPaired(messages) && |executed| <= |calls|
    requires forall k :: 0 <= k < |executed| ==> executed[k].call == calls[k]
    ensures Scan(messages + [Assistant(payload, calls)] + Replies(executed), []) == Some(Ids(calls)[|executed|..])
  {
    var asked := messages + [Assistant(payload, calls)];
    ScanAppend(messages, [Assistant(payload, calls)], []);
    assert [Assistant(payload, calls)][1..] == [];
    ScanAppend(asked, Replies(executed), []);
    RepliesAnswer(executed, Ids(calls));
  }

  ghost predicate PairedRun(run: LoopRun) {
    && (forall k :: 0 <= k < |run.jobs| ==> WellPaired(run.jobs[k]))
    && (run.pause.Some? ==> AwaitsOnly(run.pause.value.messages, run.pause.value.call))
  }

  lemma PausingPassPairs(w: World, round: Round, k: nat, messages: seq<Message>, persona: seq<Op>)
    requires k < |round.completion.calls| && WellPaired(messages)
    ensures PairedRun(PausingPass(w, round, k, messages, persona))
  {
    var calls := round.completion.calls;
    AskAndAnswer(messages, round.completion.payload, calls[..k + 1], ExecuteAll(w.registry, calls[..k], round.outcomes));
    assert Ids(calls[..k + 1])[k..] == [calls[k].id];
  }

  lemma LastPassPairs(w: World, i: nat, messages: seq<Message>, persona: seq<Op>)
    requires WellPaired(messages)
    ensures PairedRun(LastPass(w, i, messages, persona))
  {
    if i < MAX_TOOL_EXECUTIONS {
      var risky := FirstRisky(w.registry, w.rounds(i).completion.calls);
      if risky.Some? {
        PausingPassPairs(w, w.rounds(i), risky.value, messages, persona);
      }
    }
  }

  lemma LongerPairs(w: World, i: nat, messages: seq<Message>)
    requires WellPaired(messages)
    ensures WellPaired(Longer(w, i, messages))
  {
    var calls := w.rounds(i).completion.calls;
    AskAndAnswer(messages, w.rounds(i).completion.payload, calls, FreeExecutions(w, i));
    assert Ids(calls)[|calls|..] == [];
  }

  /** Every Job's conversation is well paired; a pause leaves exactly its risky call unanswered. */
  lemma {:induction false} LoopKeepsPairing(w: World, i: nat, messages: seq<Message>, persona: seq<Op>)
    requires i <= MAX_TOOL_EXECUTIONS + 1 && WellPaired(messages)
    ensures PairedRun(RunFrom(w, i, messages, persona))
    decreases MAX_TOOL_EXECUTIONS + 1 - i
  {
    if Continues(w, i) {
      LongerPairs(w, i, messages);
      LoopKeepsPairing(w, i + 1, Longer(w, i, messages), persona + PersonaOps(FreeExecutions(w, i)));
    } else {
      LastPassPairs(w, i, messages, persona);
    }
  }

  // ---- bounds and effects ----

  lemma LastPassIsBounded(w: World, i: nat, messages: seq<Message>, persona: seq<Op>)
    ensures |LastPass(w, i, messages, persona).jobs| <= if i <= MAX_TOOL_EXECUTIONS then 1 else 0
    ensures LastPass(w, i, messages, persona).rounds <= if i < MAX_TOOL_EXECUTIONS then 1 else 0
  {
  }

  lemma {:induction false} LoopIsBounded(w: World, i: nat, messages: seq<Message>, persona: seq<Op>)
    requires i <= MAX_TOOL_EXECUTIONS + 1
    ensures |RunFrom(w, i, messages, persona).jobs| <= MAX_TOOL_EXECUTIONS + 1 - i
    ensures RunFrom(w, i, messages, persona).rounds <= if i <= MAX_TOOL_EXECUTIONS then MAX_TOOL_EXECUTIONS - i else 0
    decreases MAX_TOOL_EXECUTIONS + 1 - i
  {
    hide LastPass;
    LastPassIsBounded(w, i, messages, persona);
    if Continues(w, i) {
      LoopIsBounded(w, i + 1, Longer(w, i, messages), persona + PersonaOps(FreeExecutions(w, i)));
    }
  }

  ghost predicate RunsFreeOnly(registry: Registry, run: LoopRun) {
    && (forall k :: 0 <= k < |run.executed| ==> !IsRisky(registry, run.executed[k].call))
    && (run.pause.Some? ==>
          IsRisky(registry, run.pause.value.call) && run.result.ok && PauseOp(run.pause) <= run.result.ops)
  }

  lemma PausingPassRunsFree(w: World, round: Round, k: nat, messages: seq<Message>, persona: seq<Op>)
    requires FirstRisky(w.registry, round.completion.calls) == Some(k)
    ensures RunsFreeOnly(w.registry, PausingPass(w, round, k, messages, persona))
  {
  }

  lemma LastPassRunsFree(w: World, i: nat, messages: seq<Message>, persona: seq<Op>)
    ensures RunsFreeOnly(w.registry, LastPass(w, i, messages, persona))
  {
    if i <= MAX_TOOL_EXECUTIONS && FirstRisky(w.registry, w.rounds(i).completion.calls).Some? {
      PausingPassRunsFree(w, w.rounds(i), FirstRisky(w.registry, w.rounds(i).completion.calls).value, messages, persona);
    }
    hide PausingPass, FirstRisky;
  }

  lemma FreeExecutionsAreFree(w: World, i: nat)
    requires Continues(w, i)
    ensures forall k :: 0 <= k < |FreeExecutions(w, i)| ==> !IsRisky(w.registry, FreeExecutions(w, i)[k].call)
  {
    hide IsRisky;
  }

  lemma PrependRunsFree(registry: Registry, rest: LoopRun, messages: seq<Message>, executed: seq<Execution>)
    requires RunsFreeOnly(registry, rest)
    requires forall k :: 0 <= k < |executed| ==> !IsRisky(registry, executed[k].call)
    ensures RunsFreeOnly(registry, Prepend(rest, messages, executed))
  {
    hide IsRisky, PauseOp;
  }

  /** The loop never executes a risky call; the call it pauses on is risky and heads the ops. */
  lemma {:induction false} LoopNeverRunsRisky(w: World, i: nat, messages: seq<Message>, persona: seq<Op>)
    requires i <= MAX_TOOL_EXECUTIONS + 1
    ensures RunsFreeOnly(w.registry, RunFrom(w, i, messages, persona))
    decreases MAX_TOOL_EXECUTIONS + 1 - i
  {
    hide LastPass, IsRisky, FreeExecutions, RunsFreeOnly;
    if Continues(w, i) {
      var executed, more := FreeExecutions(w, i), persona + PersonaOps(FreeExecutions(w, i));
      LoopNeverRunsRisky(w, i + 1, Longer(w, i, messages), more);
      FreeExecutionsAreFree(w, i);
      PrependRunsFree(w.registry, RunFrom(w, i + 1, Longer(w, i, messages), more), messages, executed);
    } else {
      LastPassRunsFree(w, i, messages, persona);
    }
  }

  lemma {:induction false} PersonaOpsAppend(a: seq<Execution>, b: seq<Execution>)
    ensures PersonaOps(a + b) == PersonaOps(a) + PersonaOps(b)
    decreases |b|
  {
    if b == [] {
      assert a + b == a;
    } else {
      assert (a + b)[..|a + b| - 1] == a + b[..|b| - 1];
      PersonaOpsAppend(a, b[..|b| - 1]);
    }
  }

  lemma MiddleRegroups<T>(a: seq<T>, b: seq<T>, c: seq<T>, d: seq<T>, e: seq<T>)
    ensures a + (b + c + d) + e == a + (b + (c + d)) + e
  {
    assert b + c + d == b + (c + d);
  }

  function OpsInOrder(run: LoopRun, persona: seq<Op>): seq<Op> {
    PauseOp(run.pause) + (persona + PersonaOps(run.executed)) + run.parsed
  }

  lemma LastPassOps(w: World, i: nat, messages: seq<Message>, persona: seq<Op>)
    ensures var run := LastPass(w, i, messages, persona);
            run.result.ok ==> run.result.ops == OpsInOrder(run, persona)
  {
    var run := LastPass(w, i, messages, persona);
    if run.pause.None? {
      assert run.executed == [];
      assert persona + [] == persona;
    }
  }

  lemma PrependedOps(rest: LoopRun, messages: seq<Message>, executed: seq<Execution>, persona: seq<Op>)
    requires rest.result.ok ==> rest.result.ops == OpsInOrder(rest, persona + PersonaOps(executed))
    ensures var run := Prepend(rest, messages, executed); run.result.ok ==> run.result.ops == OpsInOrder(run, persona)
  {
    PersonaOpsAppend(executed, rest.executed);
    MiddleRegroups(PauseOp(rest.pause), persona, PersonaOps(executed), PersonaOps(rest.executed), rest.parsed);
  }

  /** An ok Result carries one op per successful persona call, in order, between the approval request
      and the ops parsed from the reply. */
  lemma {:induction false} PersonaEditsArriveOnce(w: World, i: nat, messages: seq<Message>, persona: seq<Op>)
    requires i <= MAX_TOOL_EXECUTIONS + 1
    ensures var run := RunFrom(w, i, messages, persona);
            run.result.ok ==> run.result.ops == OpsInOrder(run, persona)
    decreases MAX_TOOL_EXECUTIONS + 1 - i
  {
    hide LastPass, OpsInOrder, PersonaOps;
    if Continues(w, i) {
      var executed := FreeExecutions(w, i);
      PersonaEditsArriveOnce(w, i + 1, Longer(w, i, messages), persona + PersonaOps(executed));
      PrependedOps(RunFrom(w, i + 1, Longer(w, i, messages), persona + PersonaOps(executed)), messages, executed, persona);
    } else {
      LastPassOps(w, i, messages, persona);
    }
  }

  // ---- what the model and core get to see ----

  /** What a tool message says: what the tool returned, or that there is no such tool. */
  ghost predicate Answers(registry: Registry, call: ToolCall, outcome: ToolOutcome, m: Message) {
    && m.ToolReply? && m.callId == call.id
    && m.content == if call.name in registry then outcome.content else UnknownTool(call.name)
  }

  /** `after` is `before`, then the assistant message asking for `calls`, then the answers to the first of them. */
  ghost predicate Extends(registry: Registry, before: seq<Message>, payload: string, calls: seq<ToolCall>,
                          outcomes: nat -> ToolOutcome, answered: nat, after: seq<Message>)
    requires answered <= |calls|
  {
    && |after| == |before| + 1 + answered && after[..|before|] == before
    && after[|before|] == Assistant(payload, calls)
    && forall k :: 0 <= k < answered ==> Answers(registry, calls[k], outcomes(k), after[|before| + 1 + k])
  }

  lemma ExtendsByReplies(registry: Registry, before: seq<Message>, payload: string, calls: seq<ToolCall>,
                         outcomes: nat -> ToolOutcome, answered: nat)
    requires answered <= |calls|
    ensures Extends(registry, before, payload, calls, outcomes, answered,
                    before + [Assistant(payload, calls)] + Replies(ExecuteAll(registry, calls[..answered], outcomes)))
  {
  }

  /** The pass goes on to another: there is time, the broker answered with calls, all of them free. */
  ghost predicate GoesOn(w: World, i: nat) {
    var round := w.rounds(i);
    && i < MAX_TOOL_EXECUTIONS && round.remaining >= 2.0 && round.completion.ok && round.completion.calls != []
    && forall k :: 0 <= k < |round.completion.calls| ==> !IsRisky(w.registry, round.completion.calls[k])
  }

  lemma GoesOnContinues(w: World, i: nat)
    ensures GoesOn(w, i) <==> Continues(w, i)
  {
  }

  /** Each Job after the first is the one before it with that pass's calls and what they returned. */
  lemma {:induction false} JobsCarryTheAnswers(w: World, i: nat, messages: seq<Message>, persona: seq<Op>, k: nat)
    requires i <= MAX_TOOL_EXECUTIONS + 1
    ensures var jobs := RunFrom(w, i, messages, persona).jobs;
            && (k == 0 && jobs != [] ==> jobs[0] == messages)
            && (k + 1 < |jobs| ==>
                  var comp := w.rounds(i + k).completion;
                  GoesOn(w, i + k)
                  && Extends(w.registry, jobs[k], comp.payload, comp.calls, w.rounds(i + k).outcomes, |comp.calls|, jobs[k + 1]))
    decreases MAX_TOOL_EXECUTIONS + 1 - i
  {
    hide LastPass, Extends;
    LastPassIsBounded(w, i, messages, persona);
    LastPassJob(w, i, messages, persona);
    GoesOnContinues(w, i);
    if Continues(w, i) {
      var more := persona + PersonaOps(FreeExecutions(w, i));
      var comp := w.rounds(i).completion;
      assert comp.calls[..|comp.calls|] == comp.calls;
      ExtendsByReplies(w.registry, messages, comp.payload, comp.calls, w.rounds(i).outcomes, |comp.calls|);
      hide GoesOn, Longer, FreeExecutions;
      JobsCarryTheAnswers(w, i + 1, Longer(w, i, messages), more, if k == 0 then 0 else k - 1);
      assert Longer(w, i, messages)
          == messages + [Assistant(comp.payload, comp.calls)] + Replies(ExecuteAll(w.registry, comp.calls, w.rounds(i).outcomes))
        by { LongerIs(w, i, messages); }
    }
  }

  lemma LongerIs(w: World, i: nat, messages: seq<Message>)
    ensures var comp := w.rounds(i).completion;
            Longer(w, i, messages)
              == messages + [Assistant(comp.payload, comp.calls)] + Replies(ExecuteAll(w.registry, comp.calls, w.rounds(i).outcomes))
  {
  }

  lemma LastPassJob(w: World, i: nat, messages: seq<Message>, persona: seq<Op>)
    ensures var jobs := LastPass(w, i, messages, persona).jobs; jobs != [] ==> jobs[0] == messages
  {
  }

  /** What a pass made of its first `n` calls. */
  ghost function CallsMade(w: World, i: nat, n: nat): seq<Execution>
    requires n <= |w.rounds(i).completion.calls|
  {
    seq(n, k requires 0 <= k < n =>
      var call := w.rounds(i).completion.calls[k];
      Execution(call, if call.name in w.registry then w.rounds(i).outcomes(k) else ToolOutcome(false, UnknownTool(call.name))))
  }

  /** What all passes from `i` up to `n` made. */
  ghost function AllMade(w: World, i: nat, n: nat): seq<Execution>
    decreases n - i
  {
    if i >= n then [] else CallsMade(w, i, |w.rounds(i).completion.calls|) + AllMade(w, i + 1, n)
  }

  /** The run's last pass is the `n`-th: why it ends there, with what result, after which executions. */
  ghost predicate EndsAs(w: World, from: nat, n: nat, run: LoopRun) {
    var round := w.rounds(n);
    var calls := round.completion.calls;
    if round.remaining < 2.0 then
      run.result.ok && run.result.payload == SHORT_ON_TIME && |run.jobs| == n - from
      && run.pause.None? && run.executed == AllMade(w, from, n)
    else if !round.completion.ok then
      run.result == Result(false, "", round.completion.error, []) && |run.jobs| == n - from + 1
      && run.pause.None? && run.executed == AllMade(w, from, n)
    else if calls == [] then
      run.result.ok && (run.result.payload, run.parsed) == w.parse(round.completion.payload) && |run.jobs| == n - from + 1
      && run.pause.None? && run.executed == AllMade(w, from, n)
    else if n == MAX_TOOL_EXECUTIONS then
      run.result.ok && run.result.payload == TOO_MANY_STEPS && |run.jobs| == n - from + 1
      && run.pause.None? && run.executed == AllMade(w, from, n)
    else
      exists k: nat :: k < |calls| && PausesOn(w, from, n, k, run)
  }

  /** The run pauses on the first risky call, the `k`-th of the `n`-th pass: the calls before it are made and
      answered, it is kept and asked for, the calls after it are dropped. */
  ghost predicate PausesOn(w: World, from: nat, n: nat, k: nat, run: LoopRun)
    requires k < |w.rounds(n).completion.calls|
  {
    var round := w.rounds(n);
    var calls := round.completion.calls;
    && IsRisky(w.registry, calls[k]) && (forall j :: 0 <= j < k ==> !IsRisky(w.registry, calls[j]))
    && run.result.ok && from <= n && |run.jobs| == n - from + 1
    && run.executed == AllMade(w, from, n) + CallsMade(w, n, k)
    && run.pause.Some? && run.pause.value.call == calls[k] && run.pause.value.summary == w.summarize(calls[k])
    && run.result.payload == "I'd like to run `" + w.summarize(calls[k]) + "` — approve?"
    && Extends(w.registry, run.jobs[n - from], round.completion.payload, calls[..k + 1], round.outcomes, k, run.pause.value.messages)
  }

  lemma MadeIsExecuted(w: World, i: nat, n: nat)
    requires n <= |w.rounds(i).completion.calls|
    ensures CallsMade(w, i, n) == ExecuteAll(w.registry, w.rounds(i).completion.calls[..n], w.rounds(i).outcomes)
  {
  }

  lemma PausingPassFields(w: World, round: Round, k: nat, messages: seq<Message>, persona: seq<Op>)
    requires k < |round.completion.calls|
    ensures var run, calls := PausingPass(w, round, k, messages, persona), round.completion.calls;
            && run.result.ok && run.jobs == [messages] && run.executed == ExecuteAll(w.registry, calls[..k], round.outcomes)
            && run.pause.Some? && run.pause.value.call == calls[k] && run.pause.value.summary == w.summarize(calls[k])
            && run.result.payload == AskApproval(w.summarize(calls[k]))
            && run.pause.value.messages == messages + [Assistant(round.completion.payload, calls[..k + 1])] + Replies(run.executed)
  {
    hide ExecuteAll, Replies, PersonaOps, PauseOp, AskApproval;
  }

  lemma PausingPassEnds(w: World, i: nat, messages: seq<Message>, persona: seq<Op>, k: nat)
    requires i < MAX_TOOL_EXECUTIONS && FirstRisky(w.registry, w.rounds(i).completion.calls) == Some(k)
    ensures PausesOn(w, i, i, k, PausingPass(w, w.rounds(i), k, messages, persona))
  {
    hide CallsMade, ExecuteAll, Replies, Extends, FirstRisky, IsRisky, PausingPass;
    var round := w.rounds(i);
    var calls := round.completion.calls;
    assert AllMade(w, i, i) == [];
    hide AllMade;
    PausingPassFields(w, round, k, messages, persona);
    MadeIsExecuted(w, i, k);
    assert [] + CallsMade(w, i, k) == CallsMade(w, i, k);
    assert calls[..k + 1][..k] == calls[..k];
    ExtendsByReplies(w.registry, messages, round.completion.payload, calls[..k + 1], round.outcomes, k);
  }

  lemma LastPassEnds(w: World, i: nat, messages: seq<Message>, persona: seq<Op>)
    requires i <= MAX_TOOL_EXECUTIONS && !GoesOn(w, i)
    ensures EndsAs(w, i, i, LastPass(w, i, messages, persona))
  {
    GoesOnContinues(w, i);
    var risky := FirstRisky(w.registry, w.rounds(i).completion.calls);
    if i < MAX_TOOL_EXECUTIONS && risky.Some? {
      PausingPassEnds(w, i, messages, persona, risky.value);
    }
    hide PausingPass, PausesOn, FirstRisky, GoesOn;
  }

  lemma {:induction false} PausesOnPrepended(w: World, i: nat, n: nat, k: nat, rest: LoopRun, messages: seq<Message>)
    requires i < n && k < |w.rounds(n).completion.calls| && PausesOn(w, i + 1, n, k, rest)
    ensures PausesOn(w, i, n, k, Prepend(rest, messages, CallsMade(w, i, |w.rounds(i).completion.calls|)))
  {
    var made := CallsMade(w, i, |w.rounds(i).completion.calls|);
    assert AllMade(w, i, n) == made + AllMade(w, i + 1, n);
    hide AllMade, Extends, CallsMade, IsRisky;
    assert made + (AllMade(w, i + 1, n) + CallsMade(w, n, k)) == made + AllMade(w, i + 1, n) + CallsMade(w, n, k);
    assert ([messages] + rest.jobs)[n - i] == rest.jobs[n - i - 1];
  }

  lemma {:induction false} EndsAsPrepended(w: World, i: nat, n: nat, rest: LoopRun, messages: seq<Message>)
    requires i < n && EndsAs(w, i + 1, n, rest)
    ensures EndsAs(w, i, n, Prepend(rest, messages, CallsMade(w, i, |w.rounds(i).completion.calls|)))
  {
    var made := CallsMade(w, i, |w.rounds(i).completion.calls|);
    assert AllMade(w, i, n) == made + AllMade(w, i + 1, n);
    hide AllMade, Extends, CallsMade, IsRisky, PausesOn;
    var later, calls := i + 1, w.rounds(n).completion.calls;
    if k: nat :| k < |calls| && PausesOn(w, later, n, k, rest) {
      PausesOnPrepended(w, i, n, k, rest, messages);
    }
  }

  /** A run goes on as long as it may and ends at the first pass that may not, in the way that pass says. */
  lemma {:induction false} LoopEndsExactly(w: World, i: nat, messages: seq<Message>, persona: seq<Op>) returns (n: nat)
    requires i <= MAX_TOOL_EXECUTIONS
    ensures i <= n <= MAX_TOOL_EXECUTIONS && !GoesOn(w, n) && forall m :: i <= m < n ==> GoesOn(w, m)
    ensures EndsAs(w, i, n, RunFrom(w, i, messages, persona))
    decreases MAX_TOOL_EXECUTIONS - i
  {
    hide LastPass, EndsAs;
    GoesOnContinues(w, i);
    if GoesOn(w, i) {
      MadeIsExecuted(w, i, |w.rounds(i).completion.calls|);
      assert w.rounds(i).completion.calls[..|w.rounds(i).completion.calls|] == w.rounds(i).completion.calls;
      hide GoesOn;
      n := LoopEndsExactly(w, i + 1, Longer(w, i, messages), persona + PersonaOps(FreeExecutions(w, i)));
      EndsAsPrepended(w, i, n, RunFrom(w, i + 1, Longer(w, i, messages), persona + PersonaOps(FreeExecutions(w, i))), messages);
    } else {
      n := i;
      LastPassEnds(w, i, messages, persona);
    }
  }

  lemma {:induction false} EditIsAnOp(executed: seq<Execution>, e: Execution)
    requires e in executed && e.call.name in {"rewrite_soul", "rewrite_identity", "rewrite_user", "rewrite_about"} && e.outcome.ok
    ensures Rewrite(e.call.name, if "content" in e.call.args then e.call.args["content"] else "") in PersonaOps(executed)
    decreases |executed|
  {
    var n := |executed| - 1;
    if e != executed[n] {
      assert e in executed[..n];
      EditIsAnOp(executed[..n], e);
    }
  }

  /** Every successful persona call of an ok run is among its ops, with the call's content. */
  lemma EveryEditArrives(w: World, messages: seq<Message>, e: Execution)
    requires var run := RunFrom(w, 0, messages, []); run.result.ok && e in run.executed
    requires e.call.name in {"rewrite_soul", "rewrite_identity", "rewrite_user", "rewrite_about"} && e.outcome.ok
    ensures Rewrite(e.call.name, if "content" in e.call.args then e.call.args["content"] else "")
         in RunFrom(w, 0, messages, []).result.ops
  {
    PersonaEditsArriveOnce(w, 0, messages, []);
    EditIsAnOp(RunFrom(w, 0, messages, []).executed, e);
    hide RunFrom, PersonaOps;
  }
}
