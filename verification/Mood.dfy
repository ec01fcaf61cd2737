/** Mood: the reflex drift, the nudges, and what holds over any mix of them. */
module Mood {
  import opened Options

  const DRIFT_RATE: real := 0.1
  const EPSILON: real := 0.001
  const IDLE_SETTLE_AFTER: real := 300.0
  const RESTING_VALENCE: real := 0.0
  const RESTING_ENERGY: real := 0.5

  datatype Feeling = Feeling(valence: real, arousal: real, energy: real) {
    predicate InRange() {
      -1.0 <= valence <= 1.0 && -1.0 <= arousal <= 1.0 && 0.0 <= energy <= 1.0
    }
  }

  function Clamp(x: real, lo: real, hi: real): real {
    if x < lo then lo else if x > hi then hi else x
  }

  function Abs(x: real): real {
    if x < 0.0 then -x else x
  }

  function Toward(current: real, target: real, lo: real, hi: real): real {
    Clamp(current + (target - current) * DRIFT_RATE, lo, hi)
  }

  /** One axis of a reflex tick: a step toward the target, unless the step is too small to count. */
  function Drift(current: real, target: real, lo: real, hi: real): real {
    var next := Toward(current, target, lo, hi);
    if Abs(next - current) > EPSILON then next else current
  }

  function ArousalTarget(hour: nat): real {
    if hour >= 22 || hour < 6 then -0.5 else if 10 <= hour < 16 then 0.5 else 0.0
  }

  /** `compute_reflex_patch` applied: arousal always drifts, valence and energy settle when idle. */
  function ReflexTick(f: Feeling, hour: nat, idle: Option<real>): Feeling {
    var settles := idle.Some? && idle.value >= IDLE_SETTLE_AFTER;
    Feeling(if settles then Drift(f.valence, RESTING_VALENCE, -1.0, 1.0) else f.valence,
            Drift(f.arousal, ArousalTarget(hour), -1.0, 1.0),
            if settles then Drift(f.energy, RESTING_ENERGY, 0.0, 1.0) else f.energy)
  }

  datatype Kind = NudgePositive | NudgeNegative | NudgeExcited | NudgeCalm | OtherEvent

  function Delta(kind: Kind): Option<(real, real)> {
    match kind
    case NudgePositive => Some((0.3, 0.0))
    case NudgeNegative => Some((-0.3, 0.0))
    case NudgeExcited => Some((0.1, 0.3))
    case NudgeCalm => Some((0.0, -0.3))
    case OtherEvent => None
  }

  /** `compute_nudge_patch` applied; `None` when it moves nothing. */
  function NudgePatch(kind: Kind, f: Feeling): Option<Feeling> {
    var delta := Delta(kind);
    if delta.None? then None
    else
      var moved := f.(valence := Clamp(f.valence + delta.value.0, -1.0, 1.0),
                      arousal := Clamp(f.arousal + delta.value.1, -1.0, 1.0));
      if moved == f then None else Some(moved)
  }

  /** The debounce ledger beside the feeling. */
  datatype Heart = Heart(feeling: Feeling, lastNudge: map<Kind, real>)

  /** `_handle_nudge`: a nudge that would move something, at least the cooldown after the last one of
      its kind that did. */
  predicate Applies(h: Heart, kind: Kind, now: real, cooldown: real) {
    NudgePatch(kind, h.feeling).Some? && (kind in h.lastNudge ==> now - h.lastNudge[kind] >= cooldown)
  }

  function Nudge(h: Heart, kind: Kind, now: real, cooldown: real): Heart {
    if Applies(h, kind, now, cooldown)
    then Heart(NudgePatch(kind, h.feeling).value, h.lastNudge[kind := now])
    else h
  }

  class Affect {
    var valence: real
    var arousal: real
    var energy: real
    var lastNudge: map<Kind, real>
    const cooldown: real

    function View(): Heart
      reads this
    {
      Heart(Feeling(valence, arousal, energy), lastNudge)
    }

    constructor (f: Feeling, cooldown: real)
      ensures View() == Heart(f, map[]) && this.cooldown == cooldown
    {
      valence, arousal, energy := f.valence, f.arousal, f.energy;
      lastNudge := map[];
      this.cooldown := cooldown;
    }

    method HandleNudge(kind: Kind, now: real)
      modifies this
      ensures View() == Nudge(old(View()), kind, now, cooldown)
      ensures old(View().feeling.InRange()) ==> View().feeling.InRange()
    {
      var patch := NudgePatch(kind, Feeling(valence, arousal, energy));
      if patch.None? {
        return;
      }
      if kind in lastNudge && now - lastNudge[kind] < cooldown {
        return;
      }
      lastNudge := lastNudge[kind := now];
      valence, arousal := patch.value.valence, patch.value.arousal;
    }

    method RunReflex(hour: nat, idle: Option<real>)
      modifies this
      ensures View() == old(View()).(feeling := ReflexTick(old(View().feeling), hour, idle))
      ensures old(View().feeling.InRange()) ==> View().feeling.InRange()
    {
      if View().feeling.InRange() {
        ReflexStaysInRange(View().feeling, hour, idle);
      }
      var next := ReflexTick(Feeling(valence, arousal, energy), hour, idle);
      if next != Feeling(valence, arousal, energy) {
        valence, arousal, energy := next.valence, next.arousal, next.energy;
      }
    }
  }

  // ---- one step ----

  /** A step in range shrinks the distance by the factor 0.9 and keeps its side: it never overshoots. */
  lemma StepShrinks(current: real, target: real, lo: real, hi: real)
    requires lo <= current <= hi && lo <= target <= hi
    ensures Toward(current, target, lo, hi) - target == 0.9 * (current - target)
    ensures lo <= Toward(current, target, lo, hi) <= hi
  {
    assert current + (target - current) * DRIFT_RATE == target + 0.9 * (current - target);
  }

  lemma DriftStaysBetween(current: real, target: real, lo: real, hi: real)
    requires lo <= current <= hi && lo <= target <= hi
    ensures var next := Drift(current, target, lo, hi);
            (current <= next <= target || target <= next <= current) && lo <= next <= hi
  {
    StepShrinks(current, target, lo, hi);
  }

  lemma ReflexStaysInRange(f: Feeling, hour: nat, idle: Option<real>)
    requires f.InRange()
    ensures ReflexTick(f, hour, idle).InRange()
  {
    DriftStaysBetween(f.arousal, ArousalTarget(hour), -1.0, 1.0);
    DriftStaysBetween(f.valence, RESTING_VALENCE, -1.0, 1.0);
    DriftStaysBetween(f.energy, RESTING_ENERGY, 0.0, 1.0);
  }

  /** At rest means within ten epsilons of the target: exactly then the tick proposes nothing. */
  lemma RestIsNearTarget(current: real, target: real, lo: real, hi: real)
    requires lo <= current <= hi && lo <= target <= hi
    ensures Drift(current, target, lo, hi) == current <==> Abs(current - target) <= 10.0 * EPSILON
  {
    StepShrinks(current, target, lo, hi);
  }

  // ---- whole runs ----

  datatype Beat = NudgeBeat(kind: Kind, now: real) | ReflexBeat(hour: nat, idle: Option<real>)

  function Beats(h: Heart, cooldown: real, beats: seq<Beat>): Heart
    decreases |beats|
  {
    if beats == [] then h
    else
      var before := Beats(h, cooldown, beats[..|beats| - 1]);
      match beats[|beats| - 1]
      case NudgeBeat(kind, now) => Nudge(before, kind, now, cooldown)
      case ReflexBeat(hour, idle) => before.(feeling := ReflexTick(before.feeling, hour, idle))
  }

  /** Over any mix of nudges and reflex ticks the feeling stays in range. */
  lemma {:induction false} FeelingStaysInRange(h: Heart, cooldown: real, beats: seq<Beat>)
    requires h.feeling.InRange()
    ensures Beats(h, cooldown, beats).feeling.InRange()
    decreases |beats|
  {
    if beats != [] {
      var n := |beats| - 1;
      FeelingStaysInRange(h, cooldown, beats[..n]);
      if beats[n].ReflexBeat? {
        ReflexStaysInRange(Beats(h, cooldown, beats[..n]).feeling, beats[n].hour, beats[n].idle);
      }
    }
  }

  predicate AppliedAt(h: Heart, cooldown: real, beats: seq<Beat>, k: nat)
    requires k < |beats|
  {
    beats[k].NudgeBeat? && Applies(Beats(h, cooldown, beats[..k]), beats[k].kind, beats[k].now, cooldown)
  }

  lemma {:induction false} NudgeIsRemembered(h: Heart, cooldown: real, beats: seq<Beat>, j: nat)
    requires j < |beats| && AppliedAt(h, cooldown, beats, j) && cooldown >= 0.0
    ensures var last := Beats(h, cooldown, beats).lastNudge;
            beats[j].kind in last && beats[j].now <= last[beats[j].kind]
    decreases |beats|
  {
    var n := |beats| - 1;
    if j < n {
      assert beats[..n][..j] == beats[..j];
      NudgeIsRemembered(h, cooldown, beats[..n], j);
    }
  }

  /** A flood of one affect moves the mood at most once per cooldown, whatever the clock does. */
  lemma NudgesAreDebounced(h: Heart, cooldown: real, beats: seq<Beat>, j: nat, k: nat)
    requires cooldown >= 0.0 && j < k < |beats|
    requires AppliedAt(h, cooldown, beats, j) && AppliedAt(h, cooldown, beats, k) && beats[j].kind == beats[k].kind
    ensures beats[k].now - beats[j].now >= cooldown
  {
    assert beats[..k][..j] == beats[..j];
    NudgeIsRemembered(h, cooldown, beats[..k], j);
  }

  // ---- coming to rest ----

  /** `n` reflex ticks of one axis under a fixed target. */
  function Drifted(current: real, target: real, n: nat): real
    decreases n
  {
    if n == 0 then current else Drift(Drifted(current, target, n - 1), target, -1.0, 1.0)
  }

  function Pow9(n: nat): real {
    if n == 0 then 1.0 else 0.9 * Pow9(n - 1)
  }

  lemma {:induction false} Pow9Adds(m: nat, n: nat)
    ensures Pow9(m + n) == Pow9(m) * Pow9(n)
    decreases n
  {
    if n > 0 {
      Pow9Adds(m, n - 1);
      assert Pow9(m) * (0.9 * Pow9(n - 1)) == 0.9 * (Pow9(m) * Pow9(n - 1));
    }
  }

  /** Either the axis has rested, or `n` ticks have shrunk its distance by 0.9 to the `n`. */
  ghost predicate ShrunkOrRested(start: real, now: real, target: real, n: nat) {
    && -1.0 <= now <= 1.0
    && (now - target == Pow9(n) * (start - target) || Abs(now - target) <= 10.0 * EPSILON)
  }

  lemma OneMoreTick(start: real, now: real, target: real, n: nat)
    requires -1.0 <= target <= 1.0 && ShrunkOrRested(start, now, target, n)
    ensures ShrunkOrRested(start, Drift(now, target, -1.0, 1.0), target, n + 1)
  {
    DriftStaysBetween(now, target, -1.0, 1.0);
    StepShrinks(now, target, -1.0, 1.0);
    RestIsNearTarget(now, target, -1.0, 1.0);
    Scale(Pow9(n), start - target);
    hide Toward;
  }

  lemma Scale(p: real, gap: real)
    ensures 0.9 * (p * gap) == 0.9 * p * gap
  {
  }

  lemma {:induction false} DistanceAfter(current: real, target: real, n: nat)
    requires -1.0 <= current <= 1.0 && -1.0 <= target <= 1.0
    ensures ShrunkOrRested(current, Drifted(current, target, n), target, n)
    decreases n
  {
    if n > 0 {
      DistanceAfter(current, target, n - 1);
      hide ShrunkOrRested, Drift;
      OneMoreTick(current, Drifted(current, target, n - 1), target, n - 1);
    }
  }

  /** 0.9 to the 48 first brings the widest distance, 1.5, within ten epsilons. */
  lemma Pow9Bounds()
    ensures 0.0 < 1.5 * Pow9(48) <= 10.0 * EPSILON < 1.5 * Pow9(47)
  {
    Powers();
    hide Pow9;
    assert 0.43046 <= Pow9(8) <= 0.43047;
    assert 0.185296 <= Pow9(16) <= 0.185305;
    assert 0.034334 <= Pow9(32) <= 0.034338;
    assert 0.014779 <= Pow9(40) <= 0.014783;
    assert 0.009696 <= Pow9(44) <= 0.0097;
    assert 0.0078537 <= Pow9(46) <= 0.007857;
  }

  lemma Powers()
    ensures Pow9(4) == 0.6561
    ensures Pow9(8) == Pow9(4) * Pow9(4) && Pow9(16) == Pow9(8) * Pow9(8) && Pow9(32) == Pow9(16) * Pow9(16)
    ensures Pow9(40) == Pow9(32) * Pow9(8) && Pow9(44) == Pow9(40) * Pow9(4) && Pow9(46) == Pow9(44) * 0.81
    ensures Pow9(47) == Pow9(46) * 0.9 && Pow9(48) == Pow9(47) * 0.9
  {
    assert Pow9(1) == 0.9 && Pow9(2) == 0.81 && Pow9(4) == 0.6561;
    hide Pow9;
    Pow9Adds(4, 4);
    Pow9Adds(8, 8);
    Pow9Adds(16, 16);
    Pow9Adds(32, 8);
    Pow9Adds(40, 4);
    Pow9Adds(44, 2);
    Pow9Adds(46, 1);
    Pow9Adds(47, 1);
  }

  /** Under a fixed time of day, arousal is at rest after at most 48 ticks, from any start in range. */
  lemma ArousalComesToRest(arousal: real, hour: nat)
    requires -1.0 <= arousal <= 1.0
    ensures var target := ArousalTarget(hour);
            var settled := Drifted(arousal, target, 48);
            Abs(settled - target) <= 10.0 * EPSILON && Drift(settled, target, -1.0, 1.0) == settled
  {
    var target := ArousalTarget(hour);
    hide Drifted, Drift;
    AxisRests(arousal, target, 48);
    RestIsNearTarget(Drifted(arousal, target, 48), target, -1.0, 1.0);
  }

  lemma WithinWidest(p: real, gap: real)
    requires 0.0 < p && -1.5 <= gap <= 1.5
    ensures Abs(p * gap) <= 1.5 * p
  {
    assert p * gap <= p * 1.5 && p * gap >= p * -1.5;
  }

  /** And 48 is needed: from the far end the 48th tick still moves. */
  lemma FortyEightIsTight()
    ensures Drifted(-1.0, 0.5, 48) != Drifted(-1.0, 0.5, 47)
  {
    var x := Drifted(-1.0, 0.5, 47);
    assert Drifted(-1.0, 0.5, 48) == Drift(x, 0.5, -1.0, 1.0);
    StillMoving(47);
    Pow9Bounds();
    hide Drifted, Pow9, Drift;
    RestIsNearTarget(x, 0.5, -1.0, 1.0);
  }

  lemma {:induction false} StillMoving(n: nat)
    requires n <= 47
    ensures Drifted(-1.0, 0.5, n) - 0.5 == Pow9(n) * -1.5
    decreases n
  {
    if n > 0 {
      StillMoving(n - 1);
      Pow9Bounds();
      Pow9Falls(n - 1, 47);
      DistanceAfter(-1.0, 0.5, n - 1);
      RestIsNearTarget(Drifted(-1.0, 0.5, n - 1), 0.5, -1.0, 1.0);
      StepShrinks(Drifted(-1.0, 0.5, n - 1), 0.5, -1.0, 1.0);
    }
  }

  lemma {:induction false} Pow9Falls(m: nat, n: nat)
    requires m <= n
    ensures 0.0 < Pow9(n) <= Pow9(m)
    decreases n
  {
    if m < n { Pow9Falls(m, n - 1); }
    else if n > 0 { Pow9Falls(n - 1, n - 1); }
  }

  // ---- the whole feeling at rest ----

  /** Where arousal is drawn to at an hour: up in the middle of the day, down at night, level in between. */
  predicate AimsAt(hour: nat, target: real) {
    if 10 <= hour < 16 then target == 0.5
    else if 6 <= hour < 22 then target == 0.0
    else target == -0.5
  }

  /** Reflex ticks only, all drawing arousal to the same target. */
  ghost predicate Ticks(beats: seq<Beat>, target: real) {
    forall k :: 0 <= k < |beats| ==> beats[k].ReflexBeat? && AimsAt(beats[k].hour, target)
  }

  /** The owner has been away for as long as it takes to settle, at every tick; or at none. */
  ghost predicate Away(beats: seq<Beat>) {
    forall k :: 0 <= k < |beats| ==> beats[k].ReflexBeat? && beats[k].idle.Some? && beats[k].idle.value >= IDLE_SETTLE_AFTER
  }

  ghost predicate Present(beats: seq<Beat>) {
    forall k :: 0 <= k < |beats| ==> beats[k].ReflexBeat? && (beats[k].idle.Some? ==> beats[k].idle.value < IDLE_SETTLE_AFTER)
  }

  /** The range of energy is as good as the wider one: its steps stay within it. */
  lemma NarrowerRange(current: real, target: real)
    requires 0.0 <= current <= 1.0 && 0.0 <= target <= 1.0
    ensures Drift(current, target, 0.0, 1.0) == Drift(current, target, -1.0, 1.0)
  {
    StepShrinks(current, target, 0.0, 1.0);
    StepShrinks(current, target, -1.0, 1.0);
  }

  lemma {:induction false} AxesDrift(h: Heart, cooldown: real, beats: seq<Beat>, target: real)
    requires h.feeling.InRange() && Ticks(beats, target)
    ensures var f, g, n := h.feeling, Beats(h, cooldown, beats).feeling, |beats|;
            && g.arousal == Drifted(f.arousal, target, n)
            && (Away(beats) ==> g.valence == Drifted(f.valence, RESTING_VALENCE, n)
                                && g.energy == Drifted(f.energy, RESTING_ENERGY, n))
            && (Present(beats) ==> g.valence == f.valence && g.energy == f.energy)
    decreases |beats|
  {
    if beats != [] {
      var n := |beats| - 1;
      AxesDrift(h, cooldown, beats[..n], target);
      FeelingStaysInRange(h, cooldown, beats[..n]);
      var before := Beats(h, cooldown, beats[..n]).feeling;
      NarrowerRange(before.energy, RESTING_ENERGY);
      hide Drift;
    }
  }

  lemma AxisRests(current: real, target: real, n: nat)
    requires -1.0 <= current <= 1.0 && -1.0 <= target <= 1.0 && -1.5 <= current - target <= 1.5 && n >= 48
    ensures Abs(Drifted(current, target, n) - target) <= 0.01
  {
    hide Drifted, Pow9;
    DistanceAfter(current, target, n);
    Pow9Bounds();
    Pow9Falls(48, n);
    hide ShrunkOrRested;
    ShrunkIsNear(current, Drifted(current, target, n), target, n);
  }

  lemma ShrunkIsNear(start: real, now: real, target: real, n: nat)
    requires ShrunkOrRested(start, now, target, n) && -1.5 <= start - target <= 1.5 && 0.0 < 1.5 * Pow9(n) <= 0.01
    ensures Abs(now - target) <= 0.01
  {
    hide Pow9, Abs;
    var p, gap := Pow9(n), start - target;
    WithinWidest(p, gap);
    if now - target == p * gap {
      assert Abs(now - target) <= 1.5 * p;
    }
  }

  /** Undisturbed for 48 ticks, arousal rests at what the hour asks for. Valence and energy settle with it while the
      owner is away, and stand still while not. */
  lemma FeelingComesToRest(h: Heart, cooldown: real, beats: seq<Beat>, target: real)
    requires h.feeling.InRange() && |beats| >= 48 && Ticks(beats, target)
    ensures var f, g := h.feeling, Beats(h, cooldown, beats).feeling;
            && Abs(g.arousal - target) <= 0.01
            && (Away(beats) ==> Abs(g.valence) <= 0.01 && Abs(g.energy - 0.5) <= 0.01)
            && (Present(beats) ==> g.valence == f.valence && g.energy == f.energy)
  {
    hide Beats, Drifted, Away, Present, Abs;
    var f, n := h.feeling, |beats|;
    assert AimsAt(beats[0].hour, target);
    hide Ticks, AimsAt;
    AxesDrift(h, cooldown, beats, target);
    AxisRests(f.arousal, target, n);
    AxisRests(f.valence, RESTING_VALENCE, n);
    AxisRests(f.energy, RESTING_ENERGY, n);
  }

  // ---- exactly which nudges move the mood, and where to ----

  /** A nudge of this kind has room to move the feeling: it pushes against no bound. */
  predicate HasRoom(kind: Kind, f: Feeling) {
    match kind
    case NudgePositive => f.valence < 1.0
    case NudgeNegative => f.valence > -1.0
    case NudgeExcited => f.valence < 1.0 || f.arousal < 1.0
    case NudgeCalm => f.arousal > -1.0
    case OtherEvent => false
  }

  /** How far a nudge of this kind takes the feeling, up to the bounds. */
  predicate Nudged(kind: Kind, f: Feeling, g: Feeling) {
    && g.energy == f.energy
    && match kind
       case NudgePositive => g.arousal == f.arousal && g.valence == if f.valence + 0.3 > 1.0 then 1.0 else f.valence + 0.3
       case NudgeNegative => g.arousal == f.arousal && g.valence == if f.valence - 0.3 < -1.0 then -1.0 else f.valence - 0.3
       case NudgeExcited =>
         && g.valence == (if f.valence + 0.1 > 1.0 then 1.0 else f.valence + 0.1)
         && g.arousal == (if f.arousal + 0.3 > 1.0 then 1.0 else f.arousal + 0.3)
       case NudgeCalm => g.valence == f.valence && g.arousal == if f.arousal - 0.3 < -1.0 then -1.0 else f.arousal - 0.3
       case OtherEvent => g.valence == f.valence && g.arousal == f.arousal
  }

  function LedgerOf(h: Heart, kind: Kind): Option<real> {
    if kind in h.lastNudge then Some(h.lastNudge[kind]) else None
  }

  /** When a nudge of the kind last moved the mood, before beat `k`: as the run has it, or else its start. */
  ghost predicate LastApplied(h: Heart, cooldown: real, beats: seq<Beat>, k: nat, kind: Kind, last: Option<real>)
    requires k <= |beats|
  {
    || (last == LedgerOf(h, kind) && NoneApplied(h, cooldown, beats, 0, k, kind))
    || exists j: nat :: j < k && AppliedAt(h, cooldown, beats, j) && beats[j].kind == kind && last == Some(beats[j].now)
                        && NoneApplied(h, cooldown, beats, j + 1, k, kind)
  }

  ghost predicate NoneApplied(h: Heart, cooldown: real, beats: seq<Beat>, from: nat, to: nat, kind: Kind)
    requires to <= |beats|
  {
    forall j :: from <= j < to && AppliedAt(h, cooldown, beats, j) ==> beats[j].kind != kind
  }

  lemma OneMoreBeat(h: Heart, cooldown: real, beats: seq<Beat>, k: nat, kind: Kind, last: Option<real>)
    requires k < |beats| && LastApplied(h, cooldown, beats, k, kind, last)
    ensures LastApplied(h, cooldown, beats, k + 1, kind,
              if AppliedAt(h, cooldown, beats, k) && beats[k].kind == kind then Some(beats[k].now) else last)
  {
    hide Applies;
    if AppliedAt(h, cooldown, beats, k) && beats[k].kind == kind {
      assert NoneApplied(h, cooldown, beats, k + 1, k + 1, kind);
    }
  }

  lemma LedgerStep(h: Heart, cooldown: real, beats: seq<Beat>, k: nat, kind: Kind)
    requires k < |beats|
    ensures var before := LedgerOf(Beats(h, cooldown, beats[..k]), kind);
            LedgerOf(Beats(h, cooldown, beats[..k + 1]), kind)
              == if AppliedAt(h, cooldown, beats, k) && beats[k].kind == kind then Some(beats[k].now) else before
  {
    assert beats[..k + 1][..k] == beats[..k];
    hide NudgePatch, ReflexTick;
  }

  lemma {:induction false} LedgerIsTheLast(h: Heart, cooldown: real, beats: seq<Beat>, k: nat, kind: Kind)
    requires k <= |beats|
    ensures LastApplied(h, cooldown, beats, k, kind, LedgerOf(Beats(h, cooldown, beats[..k]), kind))
    decreases k
  {
    hide AppliedAt, Nudge, ReflexTick;
    if k > 0 {
      LedgerIsTheLast(h, cooldown, beats, k - 1, kind);
      LedgerStep(h, cooldown, beats, k - 1, kind);
      hide LastApplied, Beats, LedgerOf;
      OneMoreBeat(h, cooldown, beats, k - 1, kind, LedgerOf(Beats(h, cooldown, beats[..k - 1]), kind));
    }
  }

  /** Over any mix of beats: a nudge moves the mood if and only if it has room to, and the cooldown is over since the
      last one of its kind that did. It then moves it by its own amounts, and otherwise not at all. */
  lemma NudgesMoveExactly(h: Heart, cooldown: real, beats: seq<Beat>, k: nat) returns (last: Option<real>)
    requires h.feeling.InRange() && k < |beats| && beats[k].NudgeBeat?
    ensures LastApplied(h, cooldown, beats, k, beats[k].kind, last)
    ensures var kind, now := beats[k].kind, beats[k].now;
            var f, g := Beats(h, cooldown, beats[..k]).feeling, Beats(h, cooldown, beats[..k + 1]).feeling;
            if HasRoom(kind, f) && (last.None? || now - last.value >= cooldown)
            then AppliedAt(h, cooldown, beats, k) && Nudged(kind, f, g)
            else !AppliedAt(h, cooldown, beats, k) && g == f
  {
    assert beats[..k + 1][..k] == beats[..k];
    var before, kind := Beats(h, cooldown, beats[..k]), beats[k].kind;
    FeelingStaysInRange(h, cooldown, beats[..k]);
    LedgerIsTheLast(h, cooldown, beats, k, kind);
    last := LedgerOf(before, kind);
    hide LastApplied;
    NudgeIsExact(before.feeling, kind);
    hide NudgePatch, HasRoom, Nudged;
  }

  lemma NudgeIsExact(f: Feeling, kind: Kind)
    requires f.InRange()
    ensures NudgePatch(kind, f).Some? <==> HasRoom(kind, f)
    ensures NudgePatch(kind, f).Some? ==> Nudged(kind, f, NudgePatch(kind, f).value)
  {
  }
}
