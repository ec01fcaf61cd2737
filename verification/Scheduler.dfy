/** The named-job scheduler: cadences, ticks, and what holds over whole runs of ticks. */
module Scheduling {
  import opened Options
  import opened Clock
  import opened Power

  function Scaled(period: real, scale: real): real {
    period * scale
  }

  datatype Cadence =
    | Interval(period: real)
    | Idle(period: real)
    | Daily(at: real)
    | QuietHours(inner: Cadence, start: real, end: real)
  {
    /** What the constructors accept. */
    predicate Valid() {
      match this
      case Interval(period) => period > 0.0
      case Idle(period) => period > 0.0
      case Daily(at) => 0.0 <= at < SECONDS_PER_DAY
      case QuietHours(inner, start, end) =>
        inner.Valid() && 0.0 <= start < SECONDS_PER_DAY && 0.0 <= end < SECONDS_PER_DAY && start != end
    }

    predicate IsDue(r: Reading, lastRun: Option<real>, lastInteraction: Option<real>, scale: real) {
      match this
      case Interval(period) => lastRun.None? || r.now - lastRun.value >= Scaled(period, scale)
      case Idle(period) =>
        lastInteraction.Some? && !(r.now - lastInteraction.value < Scaled(period, scale))
        && (lastRun.None? || lastRun.value <= lastInteraction.value)
      case Daily(at) =>
        !(r.UtcTime() < at) && (lastRun.None? || Reading(lastRun.value, 0.0).UtcDay() < r.UtcDay())
      case QuietHours(inner, start, end) =>
        !InQuiet(start, end, r.LocalTime()) && inner.IsDue(r, lastRun, lastInteraction, scale)
    }

    /** The cadence under any quiet hours. */
    function Base(): Cadence {
      if QuietHours? then inner.Base() else this
    }

    /** Outside every quiet window around the cadence. */
    predicate Awake(r: Reading) {
      QuietHours? ==> !InQuiet(start, end, r.LocalTime()) && inner.Awake(r)
    }
  }

  predicate InQuiet(start: real, end: real, t: real) {
    if start < end then start <= t < end else t >= start || t < end
  }

  /** Seconds from `start` forward to `t` on the clock face. */
  function Forward(start: real, t: real): real {
    if t >= start then t - start else t - start + SECONDS_PER_DAY
  }

  /** The quiet test is membership of the arc from start to end, whether or not it crosses midnight. */
  lemma QuietIsTheArc(start: real, end: real, t: real)
    requires 0.0 <= start < SECONDS_PER_DAY && 0.0 <= end < SECONDS_PER_DAY && 0.0 <= t < SECONDS_PER_DAY
    requires start != end
    ensures InQuiet(start, end, t) <==> Forward(start, t) < Forward(start, end)
  {
  }

  lemma LocalTimeIsOnTheClock(r: Reading)
    ensures 0.0 <= r.LocalTime() < SECONDS_PER_DAY
  {
    var x := (r.now + r.offset) / SECONDS_PER_DAY;
    assert x.Floor as real <= x < x.Floor as real + 1.0;
  }

  datatype Tier = Reflex | Turn

  datatype Job = Job(name: string, cadence: Cadence, tier: Tier, cost: nat, essential: bool)

  datatype Action = RunReflex(name: string) | SkipTurn(name: string) | DispatchTurn(name: string)

  type LastRuns = map<string, real>

  function LastOf(runs: LastRuns, name: string): Option<real> {
    if name in runs then Some(runs[name]) else None
  }

  /** One tick's inputs; a power read that raises counts as lively. */
  datatype Tick = Tick(r: Reading, lastInteraction: Option<real>, power: Option<PowerState>)

  function LevelAt(policy: Policy, tick: Tick): Level {
    if tick.power.None? then Lively else policy.LevelOf(tick.power.value)
  }

  predicate DueAt(job: Job, runs: LastRuns, tick: Tick, scale: real) {
    job.cadence.IsDue(tick.r, LastOf(runs, job.name), tick.lastInteraction, scale)
  }

  function Due(jobs: seq<Job>, runs: LastRuns, tick: Tick, scale: real): (due: seq<Job>)
    ensures forall job :: job in due <==> job in jobs && DueAt(job, runs, tick, scale)
  {
    if jobs == [] then []
    else
      assert forall job :: job in jobs <==> job == jobs[0] || job in jobs[1..];
      (if DueAt(jobs[0], runs, tick, scale) then [jobs[0]] else []) + Due(jobs[1..], runs, tick, scale)
  }

  function MarkAll(runs: LastRuns, due: seq<Job>, now: real): LastRuns
    decreases |due|
  {
    if due == [] then runs else MarkAll(runs, due[..|due| - 1], now)[due[|due| - 1].name := now]
  }

  predicate Named(due: seq<Job>, name: string) {
    exists k :: 0 <= k < |due| && due[k].name == name
  }

  /** Exactly the due jobs are marked, with the tick's time. */
  lemma {:induction false} MarksTheDue(runs: LastRuns, due: seq<Job>, now: real, name: string)
    ensures LastOf(MarkAll(runs, due, now), name) == if Named(due, name) then Some(now) else LastOf(runs, name)
    decreases |due|
  {
    if due != [] {
      var n := |due| - 1;
      MarksTheDue(runs, due[..n], now, name);
      assert Named(due, name) <==> Named(due[..n], name) || due[n].name == name;
    }
  }

  function ActionFor(policy: Policy, level: Level, job: Job): Action {
    if job.tier == Reflex then RunReflex(job.name)
    else if policy.Skips(level, job.essential) then SkipTurn(job.name)
    else DispatchTurn(job.name)
  }

  function Actions(policy: Policy, level: Level, due: seq<Job>): (actions: seq<Action>)
    ensures |actions| == |due| && forall k :: 0 <= k < |due| ==> actions[k] == ActionFor(policy, level, due[k])
  {
    seq(|due|, k requires 0 <= k < |due| => ActionFor(policy, level, due[k]))
  }

  function TickRuns(policy: Policy, jobs: seq<Job>, runs: LastRuns, tick: Tick): LastRuns {
    MarkAll(runs, Due(jobs, runs, tick, policy.CadenceScale(LevelAt(policy, tick))), tick.r.now)
  }

  lemma MarkOneMore(runs: LastRuns, due: seq<Job>, k: nat, now: real)
    requires k < |due|
    ensures MarkAll(runs, due[..k + 1], now) == MarkAll(runs, due[..k], now)[due[k].name := now]
  {
    assert due[..k + 1][..k] == due[..k];
  }

  lemma ActOneMore(policy: Policy, level: Level, due: seq<Job>, k: nat)
    requires k < |due|
    ensures Actions(policy, level, due[..k + 1]) == Actions(policy, level, due[..k]) + [ActionFor(policy, level, due[k])]
  {
    hide ActionFor;
  }

  class Scheduler {
    var jobs: seq<Job>
    var lastRun: LastRuns
    const policy: Policy

    constructor (policy: Policy)
      ensures jobs == [] && lastRun == map[] && this.policy == policy
    {
      jobs, lastRun := [], map[];
      this.policy := policy;
    }

    ghost predicate Valid()
      reads this
    {
      forall j, k :: 0 <= j < k < |jobs| ==> jobs[j].name != jobs[k].name
    }

    /** A duplicate name is refused. */
    method Register(job: Job) returns (accepted: bool)
      requires Valid()
      modifies this`jobs
      ensures Valid()
      ensures accepted <==> forall k :: 0 <= k < |old(jobs)| ==> old(jobs)[k].name != job.name
      ensures jobs == if accepted then old(jobs) + [job] else old(jobs)
    {
      for k := 0 to |jobs|
        invariant jobs == old(jobs)
        invariant forall j :: 0 <= j < k ==> jobs[j].name != job.name
      {
        if jobs[k].name == job.name {
          return false;
        }
      }
      jobs := jobs + [job];
      return true;
    }

    method MarkRan(name: string, when: real)
      modifies this`lastRun
      ensures lastRun == old(lastRun)[name := when]
    {
      lastRun := lastRun[name := when];
    }

    /** One pass: every due job is marked before it runs, is skipped or is dispatched. */
    method RunTick(tick: Tick) returns (actions: seq<Action>)
      modifies this`lastRun
      ensures lastRun == TickRuns(policy, jobs, old(lastRun), tick)
      ensures var level := LevelAt(policy, tick);
              actions == Actions(policy, level, Due(jobs, old(lastRun), tick, policy.CadenceScale(level)))
    {
      var level := LevelAt(policy, tick);
      var due := Due(jobs, lastRun, tick, policy.CadenceScale(level));
      actions := [];
      hide Due, LevelAt, ActionFor, Actions;
      for k := 0 to |due|
        invariant lastRun == MarkAll(old(lastRun), due[..k], tick.r.now)
        invariant actions == Actions(policy, level, due[..k])
      {
        MarkOneMore(old(lastRun), due, k, tick.r.now);
        ActOneMore(policy, level, due, k);
        lastRun := lastRun[due[k].name := tick.r.now];
        actions := actions + [ActionFor(policy, level, due[k])];
      }
      assert due[..|due|] == due;
    }
  }

  // ---- runs of ticks ----

  function RunsAfter(policy: Policy, jobs: seq<Job>, start: LastRuns, ticks: seq<Tick>): LastRuns
    decreases |ticks|
  {
    if ticks == [] then start
    else TickRuns(policy, jobs, RunsAfter(policy, jobs, start, ticks[..|ticks| - 1]), ticks[|ticks| - 1])
  }

  function ScaleAt(policy: Policy, tick: Tick): real {
    policy.CadenceScale(LevelAt(policy, tick))
  }

  /** The job is due, and so fires, at the `k`-th tick of the run. */
  predicate Fires(policy: Policy, jobs: seq<Job>, start: LastRuns, ticks: seq<Tick>, k: nat, job: Job)
    requires k < |ticks|
  {
    job in jobs && DueAt(job, RunsAfter(policy, jobs, start, ticks[..k]), ticks[k], ScaleAt(policy, ticks[k]))
  }

  ghost predicate ClockForward(ticks: seq<Tick>) {
    forall j, k :: 0 <= j <= k < |ticks| ==> ticks[j].r.now <= ticks[k].r.now
  }

  lemma FiringIsMarked(policy: Policy, jobs: seq<Job>, runs: LastRuns, tick: Tick, job: Job)
    requires job in jobs && DueAt(job, runs, tick, ScaleAt(policy, tick))
    ensures LastOf(TickRuns(policy, jobs, runs, tick), job.name) == Some(tick.r.now)
  {
    var due := Due(jobs, runs, tick, ScaleAt(policy, tick));
    MarksTheDue(runs, due, tick.r.now, job.name);
    assert job in due;
  }

  lemma TicksOnlyAdvance(policy: Policy, jobs: seq<Job>, runs: LastRuns, tick: Tick, name: string)
    ensures var last := LastOf(TickRuns(policy, jobs, runs, tick), name);
            last == Some(tick.r.now) || last == LastOf(runs, name)
  {
    MarksTheDue(runs, Due(jobs, runs, tick, ScaleAt(policy, tick)), tick.r.now, name);
  }

  lemma {:induction false} FiringIsRemembered(policy: Policy, jobs: seq<Job>, start: LastRuns, ticks: seq<Tick>, i: nat, job: Job)
    requires ClockForward(ticks) && i < |ticks| && Fires(policy, jobs, start, ticks, i, job)
    ensures var last := LastOf(RunsAfter(policy, jobs, start, ticks), job.name);
            last.Some? && ticks[i].r.now <= last.value
    decreases |ticks|
  {
    hide TickRuns, DueAt, LastOf;
    var n := |ticks| - 1;
    var before := RunsAfter(policy, jobs, start, ticks[..n]);
    if i < n {
      assert ticks[..n][..i] == ticks[..i];
      FiringIsRemembered(policy, jobs, start, ticks[..n], i, job);
      TicksOnlyAdvance(policy, jobs, before, ticks[n], job.name);
    } else {
      FiringIsMarked(policy, jobs, before, ticks[n], job);
    }
  }

  lemma {:induction false} DueMeansBaseDue(c: Cadence, r: Reading, last: Option<real>, interaction: Option<real>, scale: real)
    ensures c.IsDue(r, last, interaction, scale) <==> c.Awake(r) && c.Base().IsDue(r, last, interaction, scale)
  {
    if c.QuietHours? { DueMeansBaseDue(c.inner, r, last, interaction, scale); }
  }

  /** The owner's local time lies on none of the arcs from a window's start to its end. */
  ghost predicate OffEveryArc(c: Cadence, localTime: real) {
    c.QuietHours? ==> Forward(c.start, localTime) >= Forward(c.start, c.end) && OffEveryArc(c.inner, localTime)
  }

  lemma {:induction false} AwakeIsOffEveryArc(c: Cadence, r: Reading)
    requires c.Valid()
    ensures c.Awake(r) <==> OffEveryArc(c, r.LocalTime())
  {
    if c.QuietHours? {
      LocalTimeIsOnTheClock(r);
      QuietIsTheArc(c.start, c.end, r.LocalTime());
      AwakeIsOffEveryArc(c.inner, r);
    }
  }

  /** A job under quiet hours never fires inside any of their windows, across midnight or not. */
  lemma NeverInQuietHours(policy: Policy, jobs: seq<Job>, start: LastRuns, ticks: seq<Tick>, k: nat, job: Job)
    requires job.cadence.Valid() && k < |ticks| && Fires(policy, jobs, start, ticks, k, job)
    ensures OffEveryArc(job.cadence, ticks[k].r.LocalTime())
  {
    DueMeansBaseDue(job.cadence, ticks[k].r, LastOf(RunsAfter(policy, jobs, start, ticks[..k]), job.name),
                    ticks[k].lastInteraction, ScaleAt(policy, ticks[k]));
    hide Reading.LocalTime, RunsAfter, Fires;
    AwakeIsOffEveryArc(job.cadence, ticks[k].r);
  }

  /** How far after an earlier firing a cadence may fire again. */
  ghost predicate Spaced(c: Cadence, earlier: Reading, later: Tick, scale: real) {
    match c.Base()
    case Interval(period) => later.r.now - earlier.now >= Scaled(period, scale)
    case Idle(period) =>
      later.lastInteraction.Some? && earlier.now <= later.lastInteraction.value <= later.r.now - Scaled(period, scale)
    case Daily(_) => earlier.UtcDay() < later.r.UtcDay()
    case QuietHours(_, _, _) => true
  }

  lemma DueAgainIsSpaced(c: Cadence, earlier: Reading, later: Tick, last: real, scale: real)
    requires earlier.now <= last && c.IsDue(later.r, Some(last), later.lastInteraction, scale)
    ensures Spaced(c, earlier, later, scale)
  {
    DueMeansBaseDue(c, later.r, Some(last), later.lastInteraction, scale);
    UtcDayGrows(earlier, Reading(last, 0.0));
    hide Reading.UtcDay, Reading.UtcTime, Cadence.Awake;
  }

  /** Any two firings of a job: at least period times scale apart for an interval, with an owner
      interaction between them and long enough ago for an idle job, on different dates for a daily one. */
  lemma FiringsAreSpaced(policy: Policy, jobs: seq<Job>, start: LastRuns, ticks: seq<Tick>, i: nat, k: nat, job: Job)
    requires ClockForward(ticks) && i < k < |ticks|
    requires Fires(policy, jobs, start, ticks, i, job) && Fires(policy, jobs, start, ticks, k, job)
    ensures Spaced(job.cadence, ticks[i].r, ticks[k], ScaleAt(policy, ticks[k]))
  {
    var before := ticks[..k];
    assert before[..i] == ticks[..i];
    FiringIsRemembered(policy, jobs, start, before, i, job);
    hide RunsAfter, ScaleAt, Spaced, Cadence.IsDue;
    var last := LastOf(RunsAfter(policy, jobs, start, before), job.name);
    DueAgainIsSpaced(job.cadence, ticks[i].r, ticks[k], last.value, ScaleAt(policy, ticks[k]));
  }

  // ---- backoff only removes work ----

  lemma LongerScaled(period: real, s: real, t: real)
    requires period > 0.0 && s <= t
    ensures Scaled(period, s) <= Scaled(period, t)
  {
    assert period * (t - s) >= 0.0;
  }

  lemma IntervalIsAntitone(period: real, r: Reading, last: Option<real>, interaction: Option<real>, s: real, t: real)
    requires period > 0.0 && s <= t
    ensures Interval(period).IsDue(r, last, interaction, t) ==> Interval(period).IsDue(r, last, interaction, s)
    ensures Idle(period).IsDue(r, last, interaction, t) ==> Idle(period).IsDue(r, last, interaction, s)
  {
    LongerScaled(period, s, t);
    hide Scaled;
  }

  lemma {:induction false} DueIsAntitone(c: Cadence, r: Reading, last: Option<real>, interaction: Option<real>, s: real, t: real)
    requires c.Valid() && s <= t && c.IsDue(r, last, interaction, t)
    ensures c.IsDue(r, last, interaction, s)
  {
    match c
    case Interval(period) => IntervalIsAntitone(period, r, last, interaction, s, t);
    case Idle(period) => IntervalIsAntitone(period, r, last, interaction, s, t);
    case Daily(_) =>
    case QuietHours(inner, _, _) => DueIsAntitone(inner, r, last, interaction, s, t);
  }

  predicate DispatchedAt(policy: Policy, job: Job, runs: LastRuns, tick: Tick, level: Level) {
    job.tier == Turn && DueAt(job, runs, tick, policy.CadenceScale(level)) && !policy.Skips(level, job.essential)
  }

  /** From any state and at any time, what is due, and what is dispatched, at a deeper level is due, and
      dispatched, at a shallower one. */
  lemma DeeperOnlyRemoves(policy: Policy, job: Job, runs: LastRuns, tick: Tick, shallow: Level, deep: Level)
    requires policy.Valid() && job.cadence.Valid() && shallow.Depth() <= deep.Depth()
    ensures DueAt(job, runs, tick, policy.CadenceScale(deep)) ==> DueAt(job, runs, tick, policy.CadenceScale(shallow))
    ensures DispatchedAt(policy, job, runs, tick, deep) ==> DispatchedAt(policy, job, runs, tick, shallow)
  {
    if DueAt(job, runs, tick, policy.CadenceScale(deep)) {
      DueIsAntitone(job.cadence, tick.r, LastOf(runs, job.name), tick.lastInteraction,
                    policy.CadenceScale(shallow), policy.CadenceScale(deep));
    }
  }

  /** So running on a poorer source of power only removes work, in every state and at every time. */
  lemma PoorerPowerOnlyRemoves(policy: Policy, job: Job, runs: LastRuns, tick: Tick, p: PowerState, q: PowerState)
    requires policy.Valid() && job.cadence.Valid() && NoRicher(p, q)
    ensures var poorer, richer := tick.(power := Some(p)), tick.(power := Some(q));
            && (DueAt(job, runs, poorer, ScaleAt(policy, poorer)) ==> DueAt(job, runs, richer, ScaleAt(policy, richer)))
            && (DispatchedAt(policy, job, runs, poorer, LevelAt(policy, poorer)) ==>
                  DispatchedAt(policy, job, runs, richer, LevelAt(policy, richer)))
  {
    LevelFollowsPower(policy, p, q);
    DeeperOnlyRemoves(policy, job, runs, tick, policy.LevelOf(q), policy.LevelOf(p));
  }

  /** What a tick does with a due job: a reflex always runs, a turn is dispatched exactly as its level allows. */
  lemma DueJobsAct(policy: Policy, jobs: seq<Job>, runs: LastRuns, tick: Tick, job: Job)
    requires job in jobs && DueAt(job, runs, tick, ScaleAt(policy, tick))
    ensures var level := LevelAt(policy, tick);
            var actions := Actions(policy, level, Due(jobs, runs, tick, policy.CadenceScale(level)));
            && (job.tier == Reflex ==> RunReflex(job.name) in actions)
            && (DispatchedAt(policy, job, runs, tick, level) ==> DispatchTurn(job.name) in actions)
  {
    var level := LevelAt(policy, tick);
    var due := Due(jobs, runs, tick, policy.CadenceScale(level));
    var k :| 0 <= k < |due| && due[k] == job;
    assert Actions(policy, level, due)[k] == ActionFor(policy, level, job);
  }

  // ---- exactly when a job fires, and what a tick does ----

  ghost predicate UniqueNames(jobs: seq<Job>) {
    forall j, k :: 0 <= j < k < |jobs| ==> jobs[j].name != jobs[k].name
  }

  ghost predicate NoneFires(policy: Policy, jobs: seq<Job>, start: LastRuns, ticks: seq<Tick>, from: nat, to: nat, job: Job)
    requires to <= |ticks|
  {
    forall j :: from <= j < to ==> !Fires(policy, jobs, start, ticks, j, job)
  }

  /** When the job last ran before tick `k`: at the latest tick of the run at which it fired, or else as known when
      the run started. */
  ghost predicate LastRan(policy: Policy, jobs: seq<Job>, start: LastRuns, ticks: seq<Tick>, k: nat, job: Job,
                          last: Option<real>)
    requires k <= |ticks|
  {
    || (last == LastOf(start, job.name) && NoneFires(policy, jobs, start, ticks, 0, k, job))
    || exists j: nat :: j < k && last == Some(ticks[j].r.now) && Fires(policy, jobs, start, ticks, j, job)
                        && NoneFires(policy, jobs, start, ticks, j + 1, k, job)
  }

  lemma MarkedIfDue(policy: Policy, jobs: seq<Job>, runs: LastRuns, tick: Tick, job: Job)
    requires UniqueNames(jobs) && job in jobs
    ensures LastOf(TickRuns(policy, jobs, runs, tick), job.name)
         == if DueAt(job, runs, tick, ScaleAt(policy, tick)) then Some(tick.r.now) else LastOf(runs, job.name)
  {
    var due := Due(jobs, runs, tick, ScaleAt(policy, tick));
    MarksTheDue(runs, due, tick.r.now, job.name);
    hide DueAt, Due, MarkAll, LastOf;
    if Named(due, job.name) {
      var k :| 0 <= k < |due| && due[k].name == job.name;
      assert due[k] in jobs;
    }
  }

  lemma OneMoreTick(policy: Policy, jobs: seq<Job>, start: LastRuns, ticks: seq<Tick>, k: nat, job: Job, last: Option<real>)
    requires k < |ticks| && LastRan(policy, jobs, start, ticks, k, job, last)
    ensures LastRan(policy, jobs, start, ticks, k + 1, job,
                    if Fires(policy, jobs, start, ticks, k, job) then Some(ticks[k].r.now) else last)
  {
    hide Fires, LastOf;
    if Fires(policy, jobs, start, ticks, k, job) {
      assert NoneFires(policy, jobs, start, ticks, k + 1, k + 1, job);
    }
  }

  lemma {:induction false} MarkIsTheLastRun(policy: Policy, jobs: seq<Job>, start: LastRuns, ticks: seq<Tick>, k: nat, job: Job)
    requires UniqueNames(jobs) && job in jobs && k <= |ticks|
    ensures LastRan(policy, jobs, start, ticks, k, job, LastOf(RunsAfter(policy, jobs, start, ticks[..k]), job.name))
    decreases k
  {
    hide TickRuns, DueAt, LastOf, ScaleAt, UniqueNames;
    if k > 0 {
      hide LastRan;
      var runs := RunsAfter(policy, jobs, start, ticks[..k - 1]);
      assert ticks[..k][..k - 1] == ticks[..k - 1];
      MarkIsTheLastRun(policy, jobs, start, ticks, k - 1, job);
      MarkedIfDue(policy, jobs, runs, ticks[k - 1], job);
      OneMoreTick(policy, jobs, start, ticks, k - 1, job, LastOf(runs, job.name));
    }
  }

  /** What a power reading stretches every period by. */
  function Stretch(policy: Policy, power: Option<PowerState>): real {
    if power.None? || !power.value.onBattery then 1.0
    else if power.value.charge.None? || power.value.charge.value >= policy.lowChargeThreshold then policy.easedScale
    else policy.lowScale
  }

  /** The time has come, as the cadence under any quiet hours has it: the stretched period is over since the last
      run; or since the owner's last word, to which the job has not run yet; or the hour of day is reached, on a
      later date than that of the last run. */
  predicate TimeHasCome(c: Cadence, tick: Tick, last: Option<real>, stretch: real) {
    var now, word := tick.r.now, tick.lastInteraction;
    match c.Base()
    case Interval(period) => last.Some? ==> last.value + Scaled(period, stretch) <= now
    case Idle(period) => word.Some? && word.value + Scaled(period, stretch) <= now && (last.Some? ==> last.value <= word.value)
    case Daily(at) => at <= tick.r.UtcTime() && (last.Some? ==> Reading(last.value, 0.0).UtcDay() < tick.r.UtcDay())
    case QuietHours(_, _, _) => false
  }

  lemma {:induction false} BaseIsNotQuiet(c: Cadence)
    ensures !c.Base().QuietHours?
  {
    if c.QuietHours? { BaseIsNotQuiet(c.inner); }
  }

  lemma BaseDueExactly(policy: Policy, c: Cadence, tick: Tick, last: Option<real>)
    ensures c.Base().IsDue(tick.r, last, tick.lastInteraction, ScaleAt(policy, tick))
       <==> TimeHasCome(c, tick, last, Stretch(policy, tick.power))
  {
    BaseIsNotQuiet(c);
    assert ScaleAt(policy, tick) == Stretch(policy, tick.power);
    hide Cadence.Base, ScaleAt, Stretch, Scaled, Reading.UtcTime, Reading.UtcDay;
  }

  /** A registered job fires at a tick of a run if and only if the owner's time lies on none of its quiet arcs and
      its time has come, counted from its last run and stretched by the power reading. */
  lemma FiresExactly(policy: Policy, jobs: seq<Job>, start: LastRuns, ticks: seq<Tick>, k: nat, job: Job)
    returns (last: Option<real>)
    requires UniqueNames(jobs) && job in jobs && job.cadence.Valid() && k < |ticks|
    ensures LastRan(policy, jobs, start, ticks, k, job, last)
    ensures Fires(policy, jobs, start, ticks, k, job) <==>
              && OffEveryArc(job.cadence, ticks[k].r.LocalTime())
              && TimeHasCome(job.cadence, ticks[k], last, Stretch(policy, ticks[k].power))
  {
    hide RunsAfter, LastOf, LastRan, Cadence.Base, Cadence.Awake, Cadence.IsDue, OffEveryArc, Reading.LocalTime,
         UniqueNames, TimeHasCome, ScaleAt, Stretch;
    last := LastOf(RunsAfter(policy, jobs, start, ticks[..k]), job.name);
    MarkIsTheLastRun(policy, jobs, start, ticks, k, job);
    AwakeIsOffEveryArc(job.cadence, ticks[k].r);
    DueMeansBaseDue(job.cadence, ticks[k].r, last, ticks[k].lastInteraction, ScaleAt(policy, ticks[k]));
    BaseDueExactly(policy, job.cadence, ticks[k], last);
  }

  /** The power reading lets no turn job start, or none but the essential ones. */
  predicate HeldBack(policy: Policy, power: Option<PowerState>, essential: bool) {
    power.Some? && power.value.onBattery
    && (!essential || (power.value.charge.Some? && power.value.charge.value < policy.lowChargeThreshold))
  }

  ghost predicate StandsBefore(jobs: seq<Job>, x: Job, y: Job) {
    exists a, b :: 0 <= a < b < |jobs| && jobs[a] == x && jobs[b] == y
  }

  lemma StandsBeforeLater(jobs: seq<Job>, x: Job, y: Job)
    requires jobs != [] && StandsBefore(jobs[1..], x, y)
    ensures StandsBefore(jobs, x, y)
  {
    var a, b :| 0 <= a < b < |jobs[1..]| && jobs[1..][a] == x && jobs[1..][b] == y;
    assert jobs[a + 1] == x && jobs[b + 1] == y;
  }

  lemma FirstStandsBefore(jobs: seq<Job>, y: Job)
    requires jobs != [] && y in jobs[1..]
    ensures StandsBefore(jobs, jobs[0], y)
  {
    var b :| 0 <= b < |jobs[1..]| && jobs[1..][b] == y;
    assert jobs[0] == jobs[0] && jobs[b + 1] == y;
  }

  lemma DueSplits(jobs: seq<Job>, runs: LastRuns, tick: Tick, scale: real)
    ensures var due := Due(jobs, runs, tick, scale);
            due != [] ==> jobs != [] && (due == Due(jobs[1..], runs, tick, scale)
                                         || due == [jobs[0]] + Due(jobs[1..], runs, tick, scale))
  {
    hide DueAt;
  }

  lemma {:induction false} DueInOrder(jobs: seq<Job>, runs: LastRuns, tick: Tick, scale: real, j: nat, k: nat)
    requires j < k < |Due(jobs, runs, tick, scale)|
    ensures StandsBefore(jobs, Due(jobs, runs, tick, scale)[j], Due(jobs, runs, tick, scale)[k])
    decreases |jobs|
  {
    DueSplits(jobs, runs, tick, scale);
    hide Due, StandsBefore;
    var rest, due := Due(jobs[1..], runs, tick, scale), Due(jobs, runs, tick, scale);
    var n := |due| - |rest|;
    assert due[k] == rest[k - n] && rest[k - n] in rest;
    if j < n {
      FirstStandsBefore(jobs, due[k]);
    } else {
      DueInOrder(jobs[1..], runs, tick, scale, j - n, k - n);
      StandsBeforeLater(jobs, due[j], due[k]);
    }
  }

  /** A tick acts at most once on each job, in the order of registration. */
  lemma TickActsInOrder(policy: Policy, jobs: seq<Job>, runs: LastRuns, tick: Tick, j: nat, k: nat)
    returns (a: nat, b: nat)
    requires var level := LevelAt(policy, tick);
             j < k < |Actions(policy, level, Due(jobs, runs, tick, policy.CadenceScale(level)))|
    ensures var level := LevelAt(policy, tick);
            var actions := Actions(policy, level, Due(jobs, runs, tick, policy.CadenceScale(level)));
            a < b < |jobs| && jobs[a].name == actions[j].name && jobs[b].name == actions[k].name
  {
    var level := LevelAt(policy, tick);
    var due := Due(jobs, runs, tick, policy.CadenceScale(level));
    hide LevelAt, Due, Policy.CadenceScale;
    DueInOrder(jobs, runs, tick, policy.CadenceScale(level), j, k);
    a, b :| a < b < |jobs| && jobs[a] == due[j] && jobs[b] == due[k];
  }

  /** What it does with a job is decided by the job's tier and the power reading. */
  lemma TickActsExactly(policy: Policy, jobs: seq<Job>, runs: LastRuns, tick: Tick, job: Job)
    requires UniqueNames(jobs) && job in jobs
    ensures var level := LevelAt(policy, tick);
            var actions := Actions(policy, level, Due(jobs, runs, tick, policy.CadenceScale(level)));
            var fires, held := DueAt(job, runs, tick, ScaleAt(policy, tick)), HeldBack(policy, tick.power, job.essential);
            && (RunReflex(job.name) in actions <==> fires && job.tier == Reflex)
            && (DispatchTurn(job.name) in actions <==> fires && job.tier == Turn && !held)
            && (SkipTurn(job.name) in actions <==> fires && job.tier == Turn && held)
  {
    var level := LevelAt(policy, tick);
    assert policy.Skips(level, job.essential) <==> HeldBack(policy, tick.power, job.essential);
    hide LevelAt, DueAt, Due, Policy.CadenceScale, Policy.Skips, HeldBack;
    var due := Due(jobs, runs, tick, policy.CadenceScale(level));
    var actions := Actions(policy, level, due);
    assert job in due <==> DueAt(job, runs, tick, policy.CadenceScale(level));
    forall k | 0 <= k < |actions| && actions[k].name == job.name ensures due[k] == job {
      SameNameSameJob(jobs, due[k], job);
    }
    if k :| 0 <= k < |due| && due[k] == job {
      assert actions[k] == ActionFor(policy, level, job);
    }
  }

  lemma SameNameSameJob(jobs: seq<Job>, x: Job, y: Job)
    requires UniqueNames(jobs) && x in jobs && y in jobs && x.name == y.name
    ensures x == y
  {
  }
}
