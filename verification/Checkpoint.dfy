/** The persistent personality state: sparse patches, and a checkpoint that survives a crash at any step. */
module Checkpoint {
  import opened Options

  /** A field's value. Nothing checks its type when it is set; ints and whole floats are one number. */
  datatype Value = Number(number: real) | Text(text: string) | Null | Other

  datatype Mood = Mood(valence: Value, arousal: Value)
  datatype TurnBudget = TurnBudget(date: Value, turnsUsed: Value, lastTurnAt: Value)
  datatype PersonalityState = PersonalityState(mood: Mood, energy: Value, lastInteraction: Value, budget: TurnBudget)

  const DEFAULTS: PersonalityState :=
    PersonalityState(Mood(Number(0.0), Number(0.0)), Number(0.5), Null, TurnBudget(Text(""), Number(0.0), Null))

  // ---- patches ----

  const WRITABLE_PATHS: set<string> := {
    "mood.valence", "mood.arousal", "energy", "last_interaction",
    "budget.date", "budget.turns_used", "budget.last_turn_at"
  }

  /** The value has the type its field declares, so that a file holding it decodes. */
  predicate Fits(path: string, value: Value) {
    if path in {"mood.valence", "mood.arousal", "energy"} then value.Number?
    else if path == "budget.turns_used" then value.Number? && value.number == value.number.Floor as real
    else if path == "budget.date" then value.Text?
    else value.Text? || value.Null?
  }

  function Get(s: PersonalityState, path: string): Value {
    if path == "mood.valence" then s.mood.valence
    else if path == "mood.arousal" then s.mood.arousal
    else if path == "energy" then s.energy
    else if path == "last_interaction" then s.lastInteraction
    else if path == "budget.date" then s.budget.date
    else if path == "budget.turns_used" then s.budget.turnsUsed
    else s.budget.lastTurnAt
  }

  function Set(s: PersonalityState, path: string, value: Value): PersonalityState
    requires path in WRITABLE_PATHS
  {
    if path == "mood.valence" then s.(mood := s.mood.(valence := value))
    else if path == "mood.arousal" then s.(mood := s.mood.(arousal := value))
    else if path == "energy" then s.(energy := value)
    else if path == "last_interaction" then s.(lastInteraction := value)
    else if path == "budget.date" then s.(budget := s.budget.(date := value))
    else if path == "budget.turns_used" then s.(budget := s.budget.(turnsUsed := value))
    else s.(budget := s.budget.(lastTurnAt := value))
  }

  /** Every field has its declared type. */
  predicate Decodes(s: PersonalityState) {
    forall path :: path in WRITABLE_PATHS ==> Fits(path, Get(s, path))
  }

  /** A dict in iteration order: each key once. */
  type Patch = p: seq<(string, Value)> | forall i, j :: 0 <= i < j < |p| ==> p[i].0 != p[j].0

  predicate AllWritable(patch: seq<(string, Value)>) {
    forall i :: 0 <= i < |patch| ==> patch[i].0 in WRITABLE_PATHS
  }

  predicate WellTyped(patch: seq<(string, Value)>) {
    forall i :: 0 <= i < |patch| ==> Fits(patch[i].0, patch[i].1)
  }

  function SetAll(s: PersonalityState, patch: seq<(string, Value)>): PersonalityState
    requires AllWritable(patch)
    decreases |patch|
  {
    if patch == [] then s
    else
      var n := |patch| - 1;
      Set(SetAll(s, patch[..n]), patch[n].0, patch[n].1)
  }

  lemma SetThenGet(s: PersonalityState, path: string, value: Value, other: string)
    requires path in WRITABLE_PATHS && other in WRITABLE_PATHS
    ensures Get(Set(s, path, value), other) == if other == path then value else Get(s, other)
  {
  }

  /** After a patch each path reads what the patch gave it, and every other path what it was. */
  lemma {:induction false} PatchSetsExactly(s: PersonalityState, patch: Patch, path: string)
    requires AllWritable(patch) && path in WRITABLE_PATHS
    ensures forall i :: 0 <= i < |patch| && patch[i].0 == path ==> Get(SetAll(s, patch), path) == patch[i].1
    ensures (forall i :: 0 <= i < |patch| ==> patch[i].0 != path) ==> Get(SetAll(s, patch), path) == Get(s, path)
    decreases |patch|
  {
    hide Get, Set;
    if patch != [] {
      var n := |patch| - 1;
      PatchSetsExactly(s, patch[..n], path);
      SetThenGet(SetAll(s, patch[..n]), patch[n].0, patch[n].1, path);
    }
  }

  /** Well-typed patches keep a state loadable. */
  lemma {:induction false} WellTypedKeepsDecodable(s: PersonalityState, patch: Patch)
    requires Decodes(s) && AllWritable(patch) && WellTyped(patch)
    ensures Decodes(SetAll(s, patch))
  {
    hide Get, Fits, SetAll;
    forall path | path in WRITABLE_PATHS ensures Fits(path, Get(SetAll(s, patch), path)) {
      PatchSetsExactly(s, patch, path);
      if forall i :: 0 <= i < |patch| ==> patch[i].0 != path {
        assert Fits(path, Get(s, path));
      }
    }
  }

  /** Which states decode: those whose floats are numbers, whose count is a whole one, whose date is a text, and
      whose two stamps are texts or missing. */
  lemma DecodesExactly(s: PersonalityState)
    ensures Decodes(s) <==>
              && s.mood.valence.Number? && s.mood.arousal.Number? && s.energy.Number?
              && s.budget.turnsUsed.Number? && s.budget.turnsUsed.number == s.budget.turnsUsed.number.Floor as real
              && s.budget.date.Text?
              && (s.lastInteraction.Text? || s.lastInteraction.Null?)
              && (s.budget.lastTurnAt.Text? || s.budget.lastTurnAt.Null?)
  {
    assert Decodes(s) <==>
      && Fits("mood.valence", s.mood.valence) && Fits("mood.arousal", s.mood.arousal) && Fits("energy", s.energy)
      && Fits("last_interaction", s.lastInteraction) && Fits("budget.date", s.budget.date)
      && Fits("budget.turns_used", s.budget.turnsUsed) && Fits("budget.last_turn_at", s.budget.lastTurnAt);
  }

  lemma DefaultsDecode()
    ensures Decodes(DEFAULTS)
  {
  }

  // ---- the disk ----

  /** What a file holds: a whole encoded state, or bytes that decode to none (empty, torn, foreign). */
  datatype Content = Image(state: PersonalityState) | Garbage

  datatype File = File(content: Content, synced: bool)

  /** `main` is what the checkpoint path names now; `behind` what it may name again after a power cut,
      until the directory itself reaches the disk. */
  datatype Disk = Disk(main: Option<File>, behind: set<Option<File>>, temps: map<nat, File>)

  /** What a file holding an encoded state loads as. */
  function Reloaded(s: PersonalityState): PersonalityState {
    if Decodes(s) then s else DEFAULTS
  }

  /** What loading gives when the file can be read: without one, or with one that does not decode, the
      defaults. */
  function Loaded(main: Option<File>): PersonalityState {
    if main.Some? && main.value.content.Image? then Reloaded(main.value.content.state) else DEFAULTS
  }

  function MakeTemp(d: Disk, name: nat): Disk {
    d.(temps := d.temps[name := File(Garbage, true)])
  }

  function WriteTemp(d: Disk, name: nat, content: Content): Disk {
    d.(temps := d.temps[name := File(content, false)])
  }

  function SyncTemp(d: Disk, name: nat): Disk
    requires name in d.temps
  {
    d.(temps := d.temps[name := d.temps[name].(synced := true)])
  }

  function ReplaceMain(d: Disk, name: nat): Disk
    requires name in d.temps
  {
    Disk(Some(d.temps[name]), d.behind + {d.main}, d.temps - {name})
  }

  function Unlink(d: Disk, name: nat): Disk {
    d.(temps := d.temps - {name})
  }

  /** Where `checkpoint` stands; the temp file's name goes with it. */
  datatype Phase = Idle | Made(name: nat) | Written(name: nat) | Synced(name: nat) | Replaced(name: nat)

  /** The process, and the disk that outlives it. `astray` is history: the last load failed to read a file
      that holds something else, or the last state saved does not decode. */
  datatype World = World(ram: PersonalityState, dirty: bool, phase: Phase, disk: Disk, astray: bool)

  /** A restart says whether the file could be read. */
  datatype Step =
    | Patches(patch: Patch)
    | Makes(name: nat)
    | WritesPart
    | Writes
    | Syncs
    | Replaces
    | Clears
    | Fails(unlinked: bool)
    | DirectorySettles
    | Crashes(readable: bool)
    | PowerCut(main: Option<File>, torn: Content, readable: bool)

  predicate Enabled(w: World, step: Step) {
    match step
    case Patches(_) => w.phase.Idle?
    case Makes(name) => w.phase.Idle? && name !in w.disk.temps
    case WritesPart => w.phase.Made?
    case Writes => w.phase.Made?
    case Syncs => w.phase.Written? && w.phase.name in w.disk.temps
    case Replaces => w.phase.Synced? && w.phase.name in w.disk.temps
    case Clears => w.phase.Replaced?
    case Fails(_) => !w.phase.Idle?
    case DirectorySettles => true
    case Crashes(_) => true
    case PowerCut(main, _, _) => main in w.disk.behind + {w.disk.main}
  }

  /** `load` in a new process: a file that is there but cannot be read counts as the defaults. */
  function Restart(disk: Disk, readable: bool): World {
    World(if readable then Loaded(disk.main) else DEFAULTS, false, Idle, disk, !readable && Loaded(disk.main) != DEFAULTS)
  }

  /** What a file holds after the power failed: unsynced bytes may be anything. */
  function Surviving(main: Option<File>, torn: Content): Option<File> {
    if main.Some? && !main.value.synced then Some(File(torn, true)) else main
  }

  function Next(w: World, step: Step): World
    requires Enabled(w, step)
  {
    match step
    case Patches(patch) =>
      if AllWritable(patch) then w.(ram := SetAll(w.ram, patch), dirty := w.dirty || patch != []) else w
    case Makes(name) => w.(phase := Made(name), disk := MakeTemp(w.disk, name))
    case WritesPart => w.(disk := WriteTemp(w.disk, w.phase.name, Garbage))
    case Writes => w.(phase := Written(w.phase.name), disk := WriteTemp(w.disk, w.phase.name, Image(w.ram)))
    case Syncs => w.(phase := Synced(w.phase.name), disk := SyncTemp(w.disk, w.phase.name))
    case Replaces =>
      w.(phase := Replaced(w.phase.name), disk := ReplaceMain(w.disk, w.phase.name), astray := !Decodes(w.ram))
    case Clears => w.(phase := Idle, dirty := false)
    case Fails(unlinked) => w.(phase := Idle, disk := if unlinked then Unlink(w.disk, w.phase.name) else w.disk)
    case DirectorySettles => w.(disk := w.disk.(behind := {}))
    case Crashes(readable) => Restart(w.disk, readable)
    case PowerCut(main, torn, readable) => Restart(Disk(Surviving(main, torn), {}, w.disk.temps), readable)
  }

  /** `PersistentState`, over a disk of its own. */
  class PersistentState {
    var state: PersonalityState
    var dirty: bool
    var disk: Disk

    constructor Load(found: Disk, readable: bool)
      ensures state == (if readable then Loaded(found.main) else DEFAULTS) && !dirty && disk == found
    {
      dirty, disk := false, found;
      if readable && found.main.Some? && found.main.value.content.Image? && Decodes(found.main.value.content.state) {
        state := found.main.value.content.state;
      } else {
        state := DEFAULTS;
      }
    }

    /** Every key is checked before any field is set: an unknown path changes nothing. */
    method ApplyPatch(patch: Patch) returns (ok: bool)
      modifies this`state, this`dirty
      ensures ok == AllWritable(patch)
      ensures ok ==> state == SetAll(old(state), patch) && dirty == (old(dirty) || patch != [])
      ensures !ok ==> state == old(state) && dirty == old(dirty)
    {
      for i := 0 to |patch|
        invariant AllWritable(patch[..i])
      {
        if patch[i].0 !in WRITABLE_PATHS {
          return false;
        }
      }
      assert patch[..|patch|] == patch;
      for i := 0 to |patch|
        invariant state == SetAll(old(state), patch[..i]) && dirty == old(dirty)
      {
        assert patch[..i + 1][..i] == patch[..i];
        state := Set(state, patch[i].0, patch[i].1);
      }
      if patch != [] {
        dirty := true;
      }
      return true;
    }

    /** `failing` is the phase in which the operating system raises, if it does. A failure leaves the path
        and the dirty flag as they were, and at most the temp file behind. */
    method WriteCheckpoint(name: nat, failing: Option<Phase>, unlinked: bool) returns (ok: bool)
      requires name !in disk.temps
      modifies this`dirty, this`disk
      ensures ok <==> failing !in {Some(Made(name)), Some(Written(name)), Some(Synced(name))}
      ensures ok ==> !dirty && disk.main == Some(File(Image(state), true)) && Loaded(disk.main) == Reloaded(state)
      ensures !ok ==> dirty == old(dirty) && disk.main == old(disk.main)
      ensures disk.behind == if ok then old(disk.behind) + {old(disk.main)} else old(disk.behind)
      ensures ok || unlinked ==> disk.temps == old(disk.temps)
      ensures disk.temps - {name} == old(disk.temps)
    {
      ghost var temps := disk.temps;
      disk := MakeTemp(disk, name);
      assert disk.temps - {name} == temps;
      ok := failing != Some(Made(name));
      if ok {
        disk := WriteTemp(disk, name, Image(state));
        assert disk.temps - {name} == temps;
        ok := failing != Some(Written(name));
      }
      if ok {
        disk := SyncTemp(disk, name);
        assert disk.temps - {name} == temps;
        ok := failing != Some(Synced(name));
      }
      if !ok {
        if unlinked {
          disk := Unlink(disk, name);
        }
        return;
      }
      disk := ReplaceMain(disk, name);
      dirty := false;
    }
  }

  // ---- the invariant ----

  ghost predicate IsSynced(main: Option<File>) {
    main.Some? ==> main.value.synced
  }

  /** The temp file holds what its phase says; the path never names unsynced bytes; clean means saved
      unless the two have gone astray. */
  ghost predicate Inv(w: World) {
    && IsSynced(w.disk.main) && (forall f :: f in w.disk.behind ==> IsSynced(f))
    && (w.phase.Made? ==> w.phase.name in w.disk.temps)
    && (w.phase.Written? ==> w.phase.name in w.disk.temps && w.disk.temps[w.phase.name].content == Image(w.ram))
    && (w.phase.Synced? ==> w.phase.name in w.disk.temps && w.disk.temps[w.phase.name] == File(Image(w.ram), true))
    && (w.phase.Replaced? ==> w.disk.main == Some(File(Image(w.ram), true)) && w.astray == !Decodes(w.ram))
    && (!w.dirty ==> (w.astray <==> Loaded(w.disk.main) != w.ram))
  }

  lemma StepKeepsInv(w: World, step: Step)
    requires Inv(w) && Enabled(w, step)
    ensures Inv(Next(w, step))
  {
    DefaultsDecode();
    assert step.Patches? && step.patch == [] ==> SetAll(w.ram, step.patch) == w.ram;
    hide Decodes, SetAll, AllWritable;
  }

  ghost predicate Possible(w: World, steps: seq<Step>)
    decreases |steps|
  {
    steps == [] || (Enabled(w, steps[0]) && Possible(Next(w, steps[0]), steps[1..]))
  }

  function After(w: World, steps: seq<Step>): World
    requires Possible(w, steps)
    decreases |steps|
  {
    if steps == [] then w else After(Next(w, steps[0]), steps[1..])
  }

  lemma {:induction false} RunsKeepInv(w: World, steps: seq<Step>)
    requires Inv(w) && Possible(w, steps)
    ensures Inv(After(w, steps))
    decreases |steps|
  {
    if steps != [] {
      StepKeepsInv(w, steps[0]);
      RunsKeepInv(Next(w, steps[0]), steps[1..]);
    }
  }

  /** In every run from a first start, readable or not: while the state is not dirty, loading now would
      return exactly it, if and only if the two have not gone astray. */
  lemma CleanMeansSaved(disk: Disk, readable: bool, steps: seq<Step>)
    requires IsSynced(disk.main) && disk.behind == {} && Possible(Restart(disk, readable), steps)
    ensures var w := After(Restart(disk, readable), steps);
            !w.dirty ==> (Restart(w.disk, true).ram == w.ram <==> !w.astray)
  {
    hide Decodes;
    RunsKeepInv(Restart(disk, readable), steps);
  }

  /** Loads that read the file, and patches of the declared types. */
  predicate Orderly(step: Step) {
    && (step.Crashes? || step.PowerCut? ==> step.readable)
    && (step.Patches? ==> WellTyped(step.patch))
  }

  /** While every load reads the file and every patch is well typed, a state that is not dirty is what
      loading now would return - before, during and after every checkpoint, failed or cut short. */
  lemma {:induction false} OrderlyRunsStaySaved(w: World, steps: seq<Step>)
    requires Inv(w) && Decodes(w.ram) && !w.astray && Possible(w, steps)
    requires forall k :: 0 <= k < |steps| ==> Orderly(steps[k])
    ensures var v := After(w, steps);
            !v.astray && Decodes(v.ram) && (!v.dirty ==> Restart(v.disk, true).ram == v.ram)
    decreases |steps|
  {
    if steps != [] {
      assert Orderly(steps[0]);
      StepKeepsInv(w, steps[0]);
      OrderlyStep(w, steps[0]);
      hide Inv, Next, Decodes, Enabled;
      OrderlyRunsStaySaved(Next(w, steps[0]), steps[1..]);
    }
  }

  lemma OrderlyStep(w: World, step: Step)
    requires Inv(w) && Decodes(w.ram) && !w.astray && Enabled(w, step) && Orderly(step)
    ensures !Next(w, step).astray && Decodes(Next(w, step).ram)
  {
    DefaultsDecode();
    if step.Patches? && AllWritable(step.patch) { WellTypedKeepsDecodable(w.ram, step.patch); }
    hide Decodes, SetAll, WellTyped;
  }

  /** At a load itself: the clean state it leaves is the saved one if and only if the file was read, or holds
      nothing but the defaults. */
  lemma LoadIsFaithful(disk: Disk, readable: bool)
    ensures !Restart(disk, readable).dirty
    ensures Restart(disk, true).ram == Restart(disk, readable).ram <==> readable || Loaded(disk.main) == DEFAULTS
  {
  }

  /** A load that could not read costs the saved state: the next patch and checkpoint write over it. */
  lemma UnreadLoadOverwrites(disk: Disk, patch: Patch, name: nat)
    requires AllWritable(patch) && patch != [] && name !in disk.temps
    ensures var w := Restart(disk, false);
            var patched := Next(w, Patches(patch));
            && Possible(patched, WholeCheckpoint(name))
            && After(patched, WholeCheckpoint(name)).disk.main == Some(File(Image(SetAll(DEFAULTS, patch)), true))
  {
    hide SetAll, Decodes;
    WholeCheckpointSaves(Next(Restart(disk, false), Patches(patch)), name);
  }

  // ---- crashes ----

  /** The steps of one checkpoint, and of the system beneath it. */
  predicate OfOneCheckpoint(step: Step) {
    step.WritesPart? || step.Writes? || step.Syncs? || step.Replaces? || step.DirectorySettles?
  }

  /** `before` is the world in which the checkpoint began. */
  ghost predicate OldOrNew(before: World, w: World) {
    && w.ram == before.ram
    && w.disk.behind <= before.disk.behind + {before.disk.main}
    && w.disk.main == (if w.phase.Replaced? then Some(File(Image(before.ram), true)) else before.disk.main)
  }

  lemma {:induction false} CheckpointStaysOldOrNew(before: World, w: World, steps: seq<Step>)
    requires Inv(w) && OldOrNew(before, w) && !w.phase.Idle? && Possible(w, steps)
    requires forall i :: 0 <= i < |steps| ==> OfOneCheckpoint(steps[i])
    ensures OldOrNew(before, After(w, steps)) && Inv(After(w, steps))
    decreases |steps|
  {
    hide Decodes;
    if steps != [] {
      assert OfOneCheckpoint(steps[0]);
      StepKeepsInv(w, steps[0]);
      CheckpointStaysOldOrNew(before, Next(w, steps[0]), steps[1..]);
    }
  }

  /** The path never names unsynced bytes, so a power cut tears nothing. */
  lemma PowerCutTearsNothing(w: World, main: Option<File>, torn: Content)
    requires Inv(w) && Enabled(w, PowerCut(main, torn, true))
    ensures Next(w, PowerCut(main, torn, true)).ram == Loaded(main)
  {
    hide Decodes;
  }

  /** The states the path may load at some later time: now, or once the power has failed. */
  ghost function Survivors(w: World): set<PersonalityState> {
    {Loaded(w.disk.main)} + set f | f in w.disk.behind :: Loaded(f)
  }

  lemma PowerCutFindsASurvivor(w: World, main: Option<File>, torn: Content)
    requires Inv(w) && Enabled(w, PowerCut(main, torn, true))
    ensures Next(w, PowerCut(main, torn, true)).ram in Survivors(w)
  {
    PowerCutTearsNothing(w, main, torn);
    hide Inv, Next, Loaded;
  }

  lemma SurvivorsAreOldOrNew(before: World, w: World)
    requires OldOrNew(before, w)
    ensures Survivors(w) <= Survivors(before) + {Reloaded(before.ram)}
  {
    assert Loaded(Some(File(Image(before.ram), true))) == Reloaded(before.ram);
    hide Loaded, Reloaded;
  }

  /** A process killed at any step of a checkpoint restarts with the last saved state or the new one, whole;
      and after a power cut with one of those or an earlier saved state whose renaming had not settled. */
  lemma CheckpointIsAtomic(before: World, name: nat, steps: seq<Step>)
    requires Inv(before) && Enabled(before, Makes(name)) && Possible(Next(before, Makes(name)), steps)
    requires forall i :: 0 <= i < |steps| ==> OfOneCheckpoint(steps[i])
    ensures var w := After(Next(before, Makes(name)), steps);
            && Next(w, Crashes(true)).ram == (if w.phase.Replaced? then Reloaded(before.ram) else Loaded(before.disk.main))
            && forall main, torn :: Enabled(w, PowerCut(main, torn, true)) ==>
                 Next(w, PowerCut(main, torn, true)).ram in Survivors(before) + {Reloaded(before.ram)}
  {
    var made := Next(before, Makes(name));
    StepKeepsInv(before, Makes(name));
    assert OldOrNew(before, made);
    hide Inv, Reloaded;
    CheckpointStaysOldOrNew(before, made, steps);
    var w := After(made, steps);
    hide After, Possible;
    KillLoadsOldOrNew(before, w);
    hide Next, Survivors, Enabled, Loaded, OldOrNew;
    forall main, torn | Enabled(w, PowerCut(main, torn, true))
      ensures Next(w, PowerCut(main, torn, true)).ram in Survivors(before) + {Reloaded(before.ram)}
    {
      PowerCutFindsASurvivor(w, main, torn);
      SurvivorsAreOldOrNew(before, w);
    }
  }

  lemma KillLoadsOldOrNew(before: World, w: World)
    requires OldOrNew(before, w)
    ensures Next(w, Crashes(true)).ram == if w.phase.Replaced? then Reloaded(before.ram) else Loaded(before.disk.main)
  {
    assert Loaded(Some(File(Image(before.ram), true))) == Reloaded(before.ram);
    hide Reloaded;
  }

  // ---- power cuts after a finished checkpoint ----

  function WholeCheckpoint(name: nat): seq<Step> {
    [Makes(name), Writes, Syncs, Replaces, Clears]
  }

  /** An undisturbed checkpoint saves the state, clears the flag and leaves no temp file. */
  lemma WholeCheckpointSaves(w: World, name: nat)
    requires w.phase.Idle? && name !in w.disk.temps
    ensures Possible(w, WholeCheckpoint(name))
    ensures After(w, WholeCheckpoint(name)) ==
            World(w.ram, false, Idle, Disk(Some(File(Image(w.ram), true)), w.disk.behind + {w.disk.main}, w.disk.temps),
                  !Decodes(w.ram))
  {
    hide Decodes;
    var made := Next(w, Makes(name));
    var written := Next(made, Writes);
    var synced := Next(written, Syncs);
    var replaced := Next(synced, Replaces);
    assert replaced.disk.temps == w.disk.temps;
    assert After(replaced, [Clears]) == Next(replaced, Clears);
    assert [Replaces, Clears][1..] == [Clears];
    assert [Syncs, Replaces, Clears][1..] == [Replaces, Clears];
    assert [Writes, Syncs, Replaces, Clears][1..] == [Syncs, Replaces, Clears];
    assert WholeCheckpoint(name)[1..] == [Writes, Syncs, Replaces, Clears];
  }

  /** Whatever name the power cut falls back to, the restart finds `state`. */
  ghost predicate SurvivesPowerCut(w: World, state: PersonalityState) {
    forall main, torn :: Enabled(w, PowerCut(main, torn, true)) ==> Next(w, PowerCut(main, torn, true)).ram == state
  }

  lemma SurvivalByNames(w: World, state: PersonalityState)
    requires Inv(w)
    ensures SurvivesPowerCut(w, state) <==> Loaded(w.disk.main) == state && forall f :: f in w.disk.behind ==> Loaded(f) == state
  {
    forall main, torn | Enabled(w, PowerCut(main, torn, true)) ensures Next(w, PowerCut(main, torn, true)).ram == Loaded(main) {
      PowerCutTearsNothing(w, main, torn);
    }
    assert Enabled(w, PowerCut(w.disk.main, Garbage, true));
    assert forall f :: f in w.disk.behind ==> Enabled(w, PowerCut(f, Garbage, true));
    hide Inv, Next, Loaded;
  }

  /** Known before the call: a power cut after a finished checkpoint is sure to bring back what it saved if
      and only if the state decodes and everything the path already named loads as that very state - so a
      checkpoint that changes anything is not safe when it returns. */
  lemma FinishedCheckpointSurvives(w: World, name: nat)
    requires Inv(w) && w.phase.Idle? && name !in w.disk.temps
    ensures Possible(w, WholeCheckpoint(name))
    ensures SurvivesPowerCut(After(w, WholeCheckpoint(name)), w.ram) <==>
              Decodes(w.ram) && Loaded(w.disk.main) == w.ram && forall f :: f in w.disk.behind ==> Loaded(f) == w.ram
  {
    WholeCheckpointSaves(w, name);
    var v := After(w, WholeCheckpoint(name));
    RunsKeepInv(w, WholeCheckpoint(name));
    SurvivalByNames(v, w.ram);
    DefaultsDecode();
    assert Loaded(v.disk.main) == w.ram <==> Decodes(w.ram);
    hide Inv, After, Possible, Loaded, Decodes, SurvivesPowerCut;
  }

  /** Once the directory has settled it is safe exactly when the state decodes. */
  lemma SettledCheckpointSurvives(w: World, name: nat)
    requires Inv(w) && w.phase.Idle? && name !in w.disk.temps
    ensures Possible(w, WholeCheckpoint(name))
    ensures SurvivesPowerCut(Next(After(w, WholeCheckpoint(name)), DirectorySettles), w.ram) <==> Decodes(w.ram)
  {
    WholeCheckpointSaves(w, name);
    var v := After(w, WholeCheckpoint(name));
    RunsKeepInv(w, WholeCheckpoint(name));
    StepKeepsInv(v, DirectorySettles);
    var settled := Next(v, DirectorySettles);
    SurvivalByNames(settled, w.ram);
    DefaultsDecode();
    assert Loaded(settled.disk.main) == w.ram <==> Decodes(w.ram);
    hide Inv, After, Possible, Loaded, Decodes, SurvivesPowerCut;
  }

  /** The first checkpoint ever: clean and finished, and a power cut brings back the defaults. */
  lemma FinishedCheckpointMayBeUndone(name: nat)
    ensures var start := World(DEFAULTS.(energy := Number(1.0)), true, Idle, Disk(None, {}, map[]), false);
            && Inv(start) && Possible(start, WholeCheckpoint(name))
            && var w := After(start, WholeCheckpoint(name));
            && !w.dirty && w.phase.Idle?
            && Enabled(w, PowerCut(None, Garbage, true)) && Next(w, PowerCut(None, Garbage, true)).ram != w.ram
  {
    WholeCheckpointSaves(World(DEFAULTS.(energy := Number(1.0)), true, Idle, Disk(None, {}, map[]), false), name);
  }
}
