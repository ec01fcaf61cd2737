/** The display compositor: latest-wins intake, coalescing render loop, in any interleaving. */
module Display {
  import opened Options

  datatype Region = FaceRegion | StatusBarRegion | CaptionRegion | BatteryRegion

  datatype Snapshot = Snapshot(region: Region, seqNo: int, face: string)

  /** `pending` is the dict of staged snapshots in insertion order; `batch` what the render loop took and
      has not drawn; `drawn` and `newest` are history: what was drawn, and the last accepted per region. */
  datatype Panel = Panel(latest: map<Region, int>, pending: seq<Snapshot>, signal: bool, batch: seq<Snapshot>,
                         drawn: seq<Snapshot>, newest: map<Region, Snapshot>)

  const BLANK: Panel := Panel(map[], [], false, [], [], map[])

  /** `pending[snap.region] = snap` on an insertion-ordered dict. */
  function Stage(pending: seq<Snapshot>, snap: Snapshot): seq<Snapshot> {
    if pending == [] then [snap]
    else if pending[0].region == snap.region then [snap] + pending[1..]
    else [pending[0]] + Stage(pending[1..], snap)
  }

  predicate IsNewer(latest: map<Region, int>, snap: Snapshot) {
    snap.seqNo > if snap.region in latest then latest[snap.region] else -1
  }

  function Intake(p: Panel, snap: Snapshot): Panel {
    if !IsNewer(p.latest, snap) then p
    else p.(latest := p.latest[snap.region := snap.seqNo], pending := Stage(p.pending, snap), signal := true,
            newest := p.newest[snap.region := snap])
  }

  /** The render loop wakes: it clears the signal and takes all that is staged. */
  function Take(p: Panel): Panel {
    p.(signal := false, batch := p.pending, pending := [])
  }

  function Draw(p: Panel): Panel
    requires p.batch != []
  {
    p.(drawn := p.drawn + [p.batch[0]], batch := p.batch[1..])
  }

  datatype Step = Arrives(snap: Snapshot) | Wakes | Draws

  predicate Enabled(p: Panel, step: Step) {
    match step
    case Arrives(_) => true
    case Wakes => p.signal && p.batch == []
    case Draws => p.batch != []
  }

  function Next(p: Panel, step: Step): Panel
    requires Enabled(p, step)
  {
    match step
    case Arrives(snap) => Intake(p, snap)
    case Wakes => Take(p)
    case Draws => Draw(p)
  }

  class Compositor {
    var latestSeq: map<Region, int>
    var pending: seq<Snapshot>
    var signal: bool
    var batch: seq<Snapshot>
    ghost var drawn: seq<Snapshot>
    ghost var newest: map<Region, Snapshot>

    ghost function View(): Panel
      reads this
    {
      Panel(latestSeq, pending, signal, batch, drawn, newest)
    }

    constructor ()
      ensures View() == BLANK
    {
      latestSeq, pending, signal, batch := map[], [], false, [];
      drawn, newest := [], map[];
    }

    /** One turn of `_intake_loop`. */
    method AcceptSnapshot(snap: Snapshot)
      modifies this
      ensures View() == Next(old(View()), Arrives(snap))
    {
      var last := if snap.region in latestSeq then latestSeq[snap.region] else -1;
      if snap.seqNo <= last {
        return;
      }
      latestSeq := latestSeq[snap.region := snap.seqNo];
      pending := Stage(pending, snap);
      newest := newest[snap.region := snap];
      signal := true;
    }

    /** `_render_loop` from its wake-up to its first render. */
    method TakeBatch()
      requires signal && batch == []
      modifies this
      ensures View() == Next(old(View()), Wakes)
    {
      signal := false;
      batch := pending;
      pending := [];
    }

    /** One finished render. */
    method DrawNext() returns (snap: Snapshot)
      requires batch != []
      modifies this
      ensures View() == Next(old(View()), Draws) && snap == old(batch)[0]
    {
      snap := batch[0];
      batch := batch[1..];
      drawn := drawn + [snap];
    }
  }

  // ---- the invariant ----

  predicate OnePerRegion(snaps: seq<Snapshot>) {
    forall i, j :: 0 <= i < j < |snaps| ==> snaps[i].region != snaps[j].region
  }

  predicate RisingPerRegion(snaps: seq<Snapshot>) {
    forall i, j :: 0 <= i < j < |snaps| && snaps[i].region == snaps[j].region ==> snaps[i].seqNo < snaps[j].seqNo
  }

  /** Whatever `earlier` holds of a region is older than what `later` holds of it. */
  predicate Precedes(earlier: seq<Snapshot>, later: seq<Snapshot>) {
    forall x, y :: x in earlier && y in later && x.region == y.region ==> x.seqNo < y.seqNo
  }

  function LastDrawn(drawn: seq<Snapshot>, region: Region): Option<Snapshot>
    decreases |drawn|
  {
    if drawn == [] then None
    else if drawn[|drawn| - 1].region == region then Some(drawn[|drawn| - 1])
    else LastDrawn(drawn[..|drawn| - 1], region)
  }

  ghost predicate NewestIsUnderWay(p: Panel, region: Region)
    requires region in p.newest
  {
    || p.newest[region] in p.pending
    || p.newest[region] in p.batch
    || LastDrawn(p.drawn, region) == Some(p.newest[region])
  }

  ghost predicate NoneAbove(snaps: seq<Snapshot>, newest: map<Region, Snapshot>) {
    forall x :: x in snaps ==> x.region in newest && x.seqNo <= newest[x.region].seqNo
  }

  /** What is drawn is older than what the render loop holds, and that older than what is staged. */
  ghost predicate Ordered(p: Panel) {
    && OnePerRegion(p.pending) && OnePerRegion(p.batch) && RisingPerRegion(p.drawn)
    && Precedes(p.drawn, p.batch) && Precedes(p.drawn, p.pending) && Precedes(p.batch, p.pending)
  }

  /** `latest` holds exactly the numbers of the newest snapshots. */
  ghost predicate Recorded(latest: map<Region, int>, newest: map<Region, Snapshot>) {
    && (forall r :: r in latest <==> r in newest)
    && (forall r :: r in newest ==> newest[r].region == r && latest[r] == newest[r].seqNo)
  }

  ghost predicate Bounded(p: Panel) {
    && Recorded(p.latest, p.newest)
    && NoneAbove(p.pending, p.newest) && NoneAbove(p.batch, p.newest) && NoneAbove(p.drawn, p.newest)
  }

  ghost predicate Inv(p: Panel) {
    && (p.pending != [] ==> p.signal)
    && Ordered(p)
    && Bounded(p)
    && (forall r :: r in p.newest ==> NewestIsUnderWay(p, r))
  }

  lemma {:induction false} StageHolds(pending: seq<Snapshot>, snap: Snapshot)
    requires OnePerRegion(pending)
    ensures OnePerRegion(Stage(pending, snap))
    ensures forall x :: x in Stage(pending, snap) <==> x == snap || (x in pending && x.region != snap.region)
  {
    if pending != [] {
      assert forall x :: x in pending <==> x == pending[0] || x in pending[1..];
      if pending[0].region != snap.region {
        StageHolds(pending[1..], snap);
      }
    }
  }

  /** A snapshot takes the place of the staged one of its region, or else the last place. */
  lemma {:induction false} StageKeepsPlaces(pending: seq<Snapshot>, snap: Snapshot, i: nat)
    requires i <= |pending| && (i < |pending| ==> pending[i].region == snap.region)
    requires forall j :: 0 <= j < i ==> pending[j].region != snap.region
    ensures Stage(pending, snap) == pending[..i] + [snap] + (if i < |pending| then pending[i + 1..] else [])
    decreases i
  {
    if i > 0 { StageKeepsPlaces(pending[1..], snap, i - 1); }
  }

  lemma IntakeKeepsOrder(p: Panel, snap: Snapshot)
    requires Ordered(p) && Bounded(p) && IsNewer(p.latest, snap)
    ensures Ordered(Intake(p, snap))
  {
    StageHolds(p.pending, snap);
    NewIsAbove(p, p.drawn, snap);
    NewIsAbove(p, p.batch, snap);
    hide OnePerRegion, RisingPerRegion, IsNewer, Stage, Bounded;
  }

  lemma NewIsAbove(p: Panel, snaps: seq<Snapshot>, snap: Snapshot)
    requires Bounded(p) && IsNewer(p.latest, snap) && NoneAbove(snaps, p.newest)
    ensures forall x :: x in snaps && x.region == snap.region ==> x.seqNo < snap.seqNo
  {
  }

  lemma BoundsRise(snaps: seq<Snapshot>, newest: map<Region, Snapshot>, snap: Snapshot)
    requires forall x :: x in snaps ==> x == snap || (x.region in newest && x.seqNo <= newest[x.region].seqNo)
    requires snap.region in newest ==> newest[snap.region].seqNo < snap.seqNo
    ensures NoneAbove(snaps, newest[snap.region := snap])
  {
  }

  lemma IntakeKeepsBounds(p: Panel, snap: Snapshot)
    requires OnePerRegion(p.pending) && Bounded(p) && IsNewer(p.latest, snap)
    ensures Bounded(Intake(p, snap))
  {
    StageHolds(p.pending, snap);
    hide OnePerRegion, Stage;
    assert Recorded(Intake(p, snap).latest, Intake(p, snap).newest);
    assert snap.region in p.newest ==> p.newest[snap.region].seqNo < snap.seqNo;
    hide Recorded, IsNewer;
    BoundsRise(p.drawn, p.newest, snap);
    BoundsRise(p.batch, p.newest, snap);
    BoundsRise(Stage(p.pending, snap), p.newest, snap);
    hide NoneAbove;
  }

  lemma IntakeInv(p: Panel, snap: Snapshot)
    requires Inv(p) && IsNewer(p.latest, snap)
    ensures Inv(Intake(p, snap))
  {
    IntakeKeepsOrder(p, snap);
    IntakeKeepsBounds(p, snap);
    StageHolds(p.pending, snap);
    hide Ordered, Bounded, IsNewer, Stage, LastDrawn, OnePerRegion;
    var q := Intake(p, snap);
    forall r | r in q.newest ensures NewestIsUnderWay(q, r) {
      if r != snap.region {
        assert NewestIsUnderWay(p, r);
        assert p.newest[r].region == r by { RegionOfNewest(p, r); }
      }
    }
  }

  lemma RegionOfNewest(p: Panel, r: Region)
    requires Bounded(p) && r in p.newest
    ensures p.newest[r].region == r && r in p.latest && p.latest[r] == p.newest[r].seqNo
  {
  }

  lemma TakeInv(p: Panel)
    requires Inv(p) && p.batch == []
    ensures Inv(Take(p))
  {
    var q := Take(p);
    forall r | r in q.newest ensures NewestIsUnderWay(q, r) {
      assert NewestIsUnderWay(p, r);
    }
  }

  lemma RisingAppend(drawn: seq<Snapshot>, x: Snapshot)
    requires RisingPerRegion(drawn)
    requires forall y :: y in drawn && y.region == x.region ==> y.seqNo < x.seqNo
    ensures RisingPerRegion(drawn + [x])
  {
  }

  lemma TailIsApart(batch: seq<Snapshot>)
    requires OnePerRegion(batch) && batch != []
    ensures OnePerRegion(batch[1..])
    ensures forall y :: y in batch[1..] ==> y in batch && y.region != batch[0].region
  {
  }

  lemma PrecedesAppend(drawn: seq<Snapshot>, x: Snapshot, later: seq<Snapshot>)
    requires Precedes(drawn, later)
    requires forall y :: y in later && x.region == y.region ==> x.seqNo < y.seqNo
    ensures Precedes(drawn + [x], later)
  {
    assert forall y :: y in drawn + [x] <==> y in drawn || y == x;
  }

  lemma DrawKeepsOrder(p: Panel)
    requires Ordered(p) && p.batch != []
    ensures Ordered(Draw(p))
  {
    var x := p.batch[0];
    assert x in p.batch;
    TailIsApart(p.batch);
    RisingAppend(p.drawn, x);
    assert Precedes(p.drawn, p.batch[1..]) && Precedes(p.batch[1..], p.pending);
    PrecedesAppend(p.drawn, x, p.batch[1..]);
    PrecedesAppend(p.drawn, x, p.pending);
    hide OnePerRegion, RisingPerRegion, Precedes;
  }

  lemma DrawKeepsBounds(p: Panel)
    requires Bounded(p) && p.batch != []
    ensures Bounded(Draw(p))
  {
    assert p.batch[0] in p.batch;
    assert forall y :: y in p.batch[1..] ==> y in p.batch;
    assert forall y :: y in p.drawn + [p.batch[0]] <==> y in p.drawn || y == p.batch[0];
  }

  lemma DrawInv(p: Panel)
    requires Inv(p) && p.batch != []
    ensures Inv(Draw(p))
  {
    DrawKeepsOrder(p);
    DrawKeepsBounds(p);
    var q := Draw(p);
    forall r | r in q.newest ensures NewestIsUnderWay(q, r) {
      assert NewestIsUnderWay(p, r);
      RegionOfNewest(p, r);
      DrawnNewest(p, r);
    }
    hide Ordered, Bounded, NewestIsUnderWay;
  }

  /** Drawing a region's batched snapshot cannot hide a newer one already drawn. */
  lemma DrawnNewest(p: Panel, r: Region)
    requires Precedes(p.drawn, p.batch) && NoneAbove(p.batch, p.newest)
    requires p.batch != [] && r in p.newest && p.newest[r].region == r && NewestIsUnderWay(p, r)
    ensures NewestIsUnderWay(Draw(p), r)
  {
    var q, x := Draw(p), p.batch[0];
    assert x in p.batch;
    assert q.drawn[..|p.drawn|] == p.drawn;
    LastDrawnAppend(p.drawn, x, r);
    hide LastDrawn;
    if p.newest[r] in p.batch {
      assert p.newest[r] == x || p.newest[r] in q.batch;
    }
    LastDrawnIsDrawn(p.drawn, r);
    assert x.region == r ==> p.newest[r] !in p.drawn;
  }

  lemma LastDrawnAppend(drawn: seq<Snapshot>, x: Snapshot, r: Region)
    ensures LastDrawn(drawn + [x], r) == if x.region == r then Some(x) else LastDrawn(drawn, r)
  {
    assert (drawn + [x])[..|drawn|] == drawn;
  }

  lemma {:induction false} LastDrawnIsDrawn(drawn: seq<Snapshot>, region: Region)
    ensures LastDrawn(drawn, region).Some? ==> LastDrawn(drawn, region).value in drawn
    decreases |drawn|
  {
    if drawn != [] { LastDrawnIsDrawn(drawn[..|drawn| - 1], region); }
  }

  lemma StepKeepsInv(p: Panel, step: Step)
    requires Inv(p) && Enabled(p, step)
    ensures Inv(Next(p, step))
  {
    match step
    case Arrives(snap) => if IsNewer(p.latest, snap) { IntakeInv(p, snap); }
    case Wakes => TakeInv(p);
    case Draws => DrawInv(p);
  }

  // ---- runs ----

  ghost predicate Possible(p: Panel, steps: seq<Step>)
    decreases |steps|
  {
    steps == [] || (Enabled(p, steps[0]) && Possible(Next(p, steps[0]), steps[1..]))
  }

  function After(p: Panel, steps: seq<Step>): Panel
    requires Possible(p, steps)
    decreases |steps|
  {
    if steps == [] then p else After(Next(p, steps[0]), steps[1..])
  }

  lemma {:induction false} RunsKeepInv(p: Panel, steps: seq<Step>)
    requires Inv(p) && Possible(p, steps)
    ensures Inv(After(p, steps))
    decreases |steps|
  {
    if steps != [] {
      StepKeepsInv(p, steps[0]);
      RunsKeepInv(Next(p, steps[0]), steps[1..]);
    }
  }

  /** The higher-numbered of what was best so far and what a step brings in, counting from 0 up. */
  function Higher(best: Option<Snapshot>, step: Step, region: Region): Option<Snapshot> {
    if step.Arrives? && step.snap.region == region && step.snap.seqNo > (if best.Some? then best.value.seqNo else -1)
    then Some(step.snap) else best
  }

  /** The highest-numbered snapshot of a region among those that arrived. */
  function Highest(steps: seq<Step>, region: Region): Option<Snapshot>
    decreases |steps|
  {
    if steps == [] then None else Higher(Highest(steps[..|steps| - 1], region), steps[|steps| - 1], region)
  }

  function NewestOf(p: Panel, region: Region): Option<Snapshot> {
    if region in p.newest then Some(p.newest[region]) else None
  }

  lemma NewestStep(p: Panel, step: Step, region: Region)
    requires Bounded(p) && Enabled(p, step)
    ensures NewestOf(Next(p, step), region) == Higher(NewestOf(p, region), step, region)
  {
    hide NoneAbove, Stage;
  }

  lemma {:induction false} AfterAppend(p: Panel, steps: seq<Step>, step: Step)
    requires Possible(p, steps + [step])
    ensures Possible(p, steps) && Enabled(After(p, steps), step)
    ensures After(p, steps + [step]) == Next(After(p, steps), step)
    decreases |steps|
  {
    if steps != [] {
      assert (steps + [step])[1..] == steps[1..] + [step];
      AfterAppend(Next(p, steps[0]), steps[1..], step);
    }
  }

  /** The panel's record is exact: per region the newest accepted is the highest that ever arrived. */
  lemma {:induction false} NewestIsHighest(steps: seq<Step>, region: Region)
    requires Possible(BLANK, steps)
    ensures var p := After(BLANK, steps);
            Highest(steps, region) == NewestOf(p, region)
    decreases |steps|
  {
    if steps != [] {
      var n := |steps| - 1;
      assert steps == steps[..n] + [steps[n]];
      AfterAppend(BLANK, steps[..n], steps[n]);
      NewestIsHighest(steps[..n], region);
      RunsKeepInv(BLANK, steps[..n]);
      NewestStep(After(BLANK, steps[..n]), steps[n], region);
      hide Inv, Bounded, Stage, Possible, After, Next, Higher, Enabled, NewestOf;
    }
  }

  ghost predicate AtRest(p: Panel) {
    !p.signal && p.batch == []
  }

  lemma {:induction false} LastDrawnInRegion(drawn: seq<Snapshot>, region: Region)
    ensures LastDrawn(drawn, region).Some? ==> LastDrawn(drawn, region).value.region == region
    decreases |drawn|
  {
    if drawn != [] { LastDrawnInRegion(drawn[..|drawn| - 1], region); }
  }

  /** Nothing staged, taken or signalled: then the newest of every region is the one on screen. */
  lemma RestShowsNewest(p: Panel, region: Region)
    requires Inv(p) && AtRest(p)
    ensures LastDrawn(p.drawn, region) == NewestOf(p, region)
  {
    LastDrawnIsDrawn(p.drawn, region);
    LastDrawnInRegion(p.drawn, region);
    if region in p.newest { assert NewestIsUnderWay(p, region); }
  }

  /** For any arrivals, at any render speed: drawn numbers rise in each region, one snapshot per region is
      staged, staged work has its signal set - and whenever the render loop rests, the last drawn of each
      region is the highest that arrived. */
  lemma ShowsTheNewest(steps: seq<Step>)
    requires Possible(BLANK, steps)
    ensures var p := After(BLANK, steps);
            && RisingPerRegion(p.drawn) && OnePerRegion(p.pending) && (p.pending != [] ==> p.signal)
            && (AtRest(p) ==> forall r :: LastDrawn(p.drawn, r) == Highest(steps, r))
  {
    RunsKeepInv(BLANK, steps);
    var p := After(BLANK, steps);
    if AtRest(p) {
      forall r ensures LastDrawn(p.drawn, r) == Highest(steps, r) {
        NewestIsHighest(steps, r);
        RestShowsNewest(p, r);
      }
    }
  }

  // ---- coming to rest ----

  /** How many steps the render loop still has before it: the batch in hand, then one wake-up and what it takes. */
  function Work(p: Panel): nat {
    |p.batch| + if p.signal then 1 + |p.pending| else 0
  }

  ghost predicate Quiet(steps: seq<Step>) {
    forall k :: 0 <= k < |steps| ==> !steps[k].Arrives?
  }

  lemma StepIsWork(p: Panel, step: Step)
    requires Enabled(p, step) && !step.Arrives? && (p.pending != [] ==> p.signal)
    ensures Work(Next(p, step)) == Work(p) - 1 && (Next(p, step).pending != [] ==> Next(p, step).signal)
  {
  }

  /** While nothing arrives, each step of the render loop is one of those before it. */
  lemma {:induction false} QuietRunsWork(p: Panel, steps: seq<Step>)
    requires Possible(p, steps) && Quiet(steps) && (p.pending != [] ==> p.signal)
    ensures |steps| + Work(After(p, steps)) == Work(p)
    decreases |steps|
  {
    if steps != [] {
      StepIsWork(p, steps[0]);
      hide Work, Enabled, Next;
      QuietRunsWork(Next(p, steps[0]), steps[1..]);
    }
  }

  /** What the render loop does when nothing more arrives. */
  function Rendering(p: Panel): (steps: seq<Step>)
    requires p.pending != [] ==> p.signal
    decreases Work(p)
  {
    if p.batch != [] then [Draws] + Rendering(Draw(p))
    else if p.signal then [Wakes] + Rendering(Take(p))
    else []
  }

  lemma {:induction false} RenderingRests(p: Panel)
    requires p.pending != [] ==> p.signal
    ensures Possible(p, Rendering(p)) && Quiet(Rendering(p)) && AtRest(After(p, Rendering(p)))
    decreases Work(p)
  {
    if p.batch != [] {
      RenderingRests(Draw(p));
      FirstStep(p, Draws, Rendering(Draw(p)));
    } else if p.signal {
      RenderingRests(Take(p));
      FirstStep(p, Wakes, Rendering(Take(p)));
    }
  }

  lemma FirstStep(p: Panel, step: Step, later: seq<Step>)
    requires Enabled(p, step) && !step.Arrives? && Possible(Next(p, step), later) && Quiet(later)
    ensures Possible(p, [step] + later) && Quiet([step] + later)
    ensures After(p, [step] + later) == After(Next(p, step), later)
  {
    assert ([step] + later)[1..] == later;
  }

  lemma {:induction false} AfterJoin(p: Panel, steps: seq<Step>, more: seq<Step>)
    requires Possible(p, steps) && Possible(After(p, steps), more)
    ensures Possible(p, steps + more) && After(p, steps + more) == After(After(p, steps), more)
    decreases |steps|
  {
    if steps == [] {
      assert steps + more == more;
    } else {
      assert (steps + more)[1..] == steps[1..] + more && (steps + more)[0] == steps[0];
      AfterJoin(Next(p, steps[0]), steps[1..], more);
    }
  }

  lemma {:induction false} QuietBringsNothing(steps: seq<Step>, more: seq<Step>, region: Region)
    requires Quiet(more)
    ensures Highest(steps + more, region) == Highest(steps, region)
    decreases |more|
  {
    if more == [] {
      assert steps + more == steps;
    } else {
      var n := |more| - 1;
      assert (steps + more)[..|steps + more| - 1] == steps + more[..n];
      QuietBringsNothing(steps, more[..n], region);
    }
  }

  /** Once arrivals stop, the render loop rests after exactly the work before it, with the highest-numbered snapshot
      that ever arrived on screen in each region. Whatever it did until then, it gets there. */
  lemma ComesToRest(steps: seq<Step>, more: seq<Step>)
    requires Possible(BLANK, steps) && Possible(After(BLANK, steps), more) && Quiet(more)
    ensures var p, q := After(BLANK, steps), After(After(BLANK, steps), more);
            && |more| <= Work(p) && (|more| == Work(p) <==> AtRest(q))
            && (|more| == Work(p) ==> forall r :: LastDrawn(q.drawn, r) == Highest(steps, r))
            && (q.pending != [] ==> q.signal) && Possible(q, Rendering(q)) && Quiet(Rendering(q))
            && AtRest(After(q, Rendering(q)))
  {
    var p, q := After(BLANK, steps), After(After(BLANK, steps), more);
    AfterJoin(BLANK, steps, more);
    ShowsTheNewest(steps);
    ShowsTheNewest(steps + more);
    QuietRunsWork(p, more);
    RenderingRests(q);
    assert AtRest(q) <==> Work(q) == 0;
    hide Possible, After, LastDrawn, RisingPerRegion, OnePerRegion, Rendering, Highest;
    forall r ensures AtRest(q) ==> LastDrawn(q.drawn, r) == Highest(steps, r) {
      QuietBringsNothing(steps, more, r);
    }
  }
}
