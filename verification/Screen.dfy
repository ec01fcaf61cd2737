/** Core's face pushes end to end: numbered by core, carried in order, shown by the display. */
module Screen {
  import opened Options
  import opened Display

  /** Core's `_seq` and `_last_face`, the snapshots on their way in order, and the display. */
  datatype World = World(seqNo: nat, lastFace: Option<string>, channel: seq<Snapshot>, panel: Panel)

  const START: World := World(0, None, [], BLANK)

  /** Only core pushes the face; plugins number their own regions themselves. */
  datatype Move =
    | PushFace(face: string)
    | PushCaption(text: string)
    | PluginDraws(snap: Snapshot)
    | Delivers
    | Shows(step: Step)

  predicate CanMove(w: World, move: Move) {
    match move
    case PluginDraws(snap) => snap.region != FaceRegion
    case Delivers => w.channel != []
    case Shows(step) => !step.Arrives? && Enabled(w.panel, step)
    case _ => true
  }

  function Moved(w: World, move: Move): World
    requires CanMove(w, move)
  {
    match move
    case PushFace(face) =>
      w.(seqNo := w.seqNo + 1, lastFace := Some(face),
         channel := w.channel + [Snapshot(FaceRegion, w.seqNo + 1, face)])
    case PushCaption(text) =>
      w.(seqNo := w.seqNo + 1, channel := w.channel + [Snapshot(CaptionRegion, w.seqNo + 1, text)])
    case PluginDraws(snap) => w.(channel := w.channel + [snap])
    case Delivers => w.(channel := w.channel[1..], panel := Next(w.panel, Arrives(w.channel[0])))
    case Shows(step) => w.(panel := Next(w.panel, step))
  }

  /** Core's end of the line: `_seq`, `_last_face` and what it has handed to the bus. */
  class FacePusher {
    var seqNo: nat
    var lastFace: Option<string>
    ghost var channel: seq<Snapshot>

    constructor ()
      ensures View(BLANK) == START
    {
      seqNo, lastFace, channel := 0, None, [];
    }

    ghost function View(panel: Panel): World
      reads this
    {
      World(seqNo, lastFace, channel, panel)
    }

    method NextSeq() returns (n: nat)
      modifies this`seqNo
      ensures n == seqNo == old(seqNo) + 1
    {
      seqNo := seqNo + 1;
      return seqNo;
    }

    method PushFaceToken(face: string)
      modifies this
      ensures forall panel :: View(panel) == Moved(old(View(panel)), PushFace(face))
    {
      lastFace := Some(face);
      var n := NextSeq();
      channel := channel + [Snapshot(FaceRegion, n, face)];
    }

    method PushCaptionText(text: string)
      modifies this
      ensures forall panel :: View(panel) == Moved(old(View(panel)), PushCaption(text))
    {
      var n := NextSeq();
      channel := channel + [Snapshot(CaptionRegion, n, text)];
    }
  }

  ghost predicate Possible(w: World, moves: seq<Move>)
    decreases |moves|
  {
    moves == [] || (CanMove(w, moves[0]) && Possible(Moved(w, moves[0]), moves[1..]))
  }

  function After(w: World, moves: seq<Move>): World
    requires Possible(w, moves)
    decreases |moves|
  {
    if moves == [] then w else After(Moved(w, moves[0]), moves[1..])
  }

  /** The last face core pushed: on its way, or else the newest the display accepted. */
  function LatestFace(w: World): Option<Snapshot> {
    var travelling := LastDrawn(w.channel, FaceRegion);
    if travelling.Some? then travelling else NewestOf(w.panel, FaceRegion)
  }

  /** Faces travel in rising order, all above what the display has seen and none above core's counter. */
  ghost predicate FacesRise(channel: seq<Snapshot>, seen: int, seqNo: nat) {
    && -1 <= seen <= seqNo
    && (forall i :: 0 <= i < |channel| && channel[i].region == FaceRegion ==> seen < channel[i].seqNo <= seqNo)
    && (forall i, j :: 0 <= i < j < |channel| && channel[i].region == FaceRegion && channel[j].region == FaceRegion
          ==> channel[i].seqNo < channel[j].seqNo)
  }

  function Seen(p: Panel): int {
    if FaceRegion in p.latest then p.latest[FaceRegion] else -1
  }

  ghost predicate InOrder(w: World) {
    && Inv(w.panel)
    && FacesRise(w.channel, Seen(w.panel), w.seqNo)
    && w.lastFace == (if LatestFace(w).Some? then Some(LatestFace(w).value.face) else None)
  }

  lemma FacesRiseAppend(channel: seq<Snapshot>, seen: int, seqNo: nat, snap: Snapshot, upTo: nat)
    requires FacesRise(channel, seen, seqNo) && seqNo <= upTo
    requires snap.region == FaceRegion ==> seqNo < snap.seqNo <= upTo
    ensures FacesRise(channel + [snap], seen, upTo)
  {
  }

  lemma FacesRiseRest(channel: seq<Snapshot>, seen: int, seqNo: nat)
    requires FacesRise(channel, seen, seqNo) && channel != []
    ensures FacesRise(channel[1..], if channel[0].region == FaceRegion then channel[0].seqNo else seen, seqNo)
  {
  }

  lemma {:induction false} LastDrawnRest(snaps: seq<Snapshot>, region: Region)
    requires snaps != []
    ensures LastDrawn(snaps, region) ==
            if LastDrawn(snaps[1..], region).Some? then LastDrawn(snaps[1..], region)
            else if snaps[0].region == region then Some(snaps[0]) else None
    decreases |snaps|
  {
    var n := |snaps| - 1;
    if n > 0 {
      assert snaps[1..][..n - 1] == snaps[..n][1..];
      LastDrawnRest(snaps[..n], region);
    }
  }

  lemma PushKeepsOrder(w: World, move: Move)
    requires InOrder(w) && CanMove(w, move) && !move.Delivers? && !move.Shows?
    ensures InOrder(Moved(w, move))
  {
    var v := Moved(w, move);
    var snap := v.channel[|w.channel|];
    assert v.channel == w.channel + [snap];
    FacesRiseAppend(w.channel, Seen(w.panel), w.seqNo, snap, v.seqNo);
    LastDrawnAppend(w.channel, snap, FaceRegion);
    hide FacesRise, Inv, LastDrawn;
  }

  lemma SeenIsNewest(p: Panel)
    requires Inv(p)
    ensures Seen(p) == if NewestOf(p, FaceRegion).Some? then NewestOf(p, FaceRegion).value.seqNo else -1
  {
    hide Ordered, NoneAbove, NewestIsUnderWay;
  }

  lemma DeliveryKeepsOrder(w: World)
    requires InOrder(w) && w.channel != []
    ensures InOrder(Moved(w, Delivers))
  {
    var snap := w.channel[0];
    StepKeepsInv(w.panel, Arrives(snap));
    NewestStep(w.panel, Arrives(snap), FaceRegion);
    SeenIsNewest(w.panel);
    SeenIsNewest(Next(w.panel, Arrives(snap)));
    FacesRiseRest(w.channel, Seen(w.panel), w.seqNo);
    LastDrawnRest(w.channel, FaceRegion);
    assert snap.region == FaceRegion ==> Seen(w.panel) < snap.seqNo;
    hide Inv, LastDrawn, Next, NewestOf, Seen, FacesRise;
  }

  lemma ShowKeepsOrder(w: World, step: Step)
    requires InOrder(w) && CanMove(w, Shows(step))
    ensures InOrder(Moved(w, Shows(step)))
  {
    StepKeepsInv(w.panel, step);
    hide Inv, LastDrawn, FacesRise;
  }

  lemma {:induction false} RunsStayInOrder(w: World, moves: seq<Move>)
    requires InOrder(w) && Possible(w, moves)
    ensures InOrder(After(w, moves))
    decreases |moves|
  {
    if moves != [] {
      match moves[0] {
        case Delivers => DeliveryKeepsOrder(w);
        case Shows(step) => ShowKeepsOrder(w, step);
        case _ => PushKeepsOrder(w, moves[0]);
      }
      RunsStayInOrder(Moved(w, moves[0]), moves[1..]);
    }
  }

  /** Whatever core pushed, whatever plugins drew and however slowly the panel drew it: once no face is on
      its way and the display rests, the face on screen is core's `_last_face`. */
  lemma ScreenShowsLastFace(moves: seq<Move>)
    requires Possible(START, moves)
    requires LastDrawn(After(START, moves).channel, FaceRegion) == None && AtRest(After(START, moves).panel)
    ensures var w := After(START, moves);
            var shown := LastDrawn(w.panel.drawn, FaceRegion);
            w.lastFace == if shown.Some? then Some(shown.value.face) else None
  {
    RunsStayInOrder(START, moves);
    RestShowsNewest(After(START, moves).panel, FaceRegion);
  }
}
