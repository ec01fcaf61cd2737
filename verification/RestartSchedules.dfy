/** Exactly when the daily cap survives restarts: a condition on the schedule alone. */
module RestartSchedules {
  import opened Options
  import opened Clock
  import opened Budget
  import opened Restarts

  /** What is known of a run before anything is proposed: when the gate will be asked, when the ledger is saved,
      when the process dies and whether the file can then be read. */
  datatype Slot = At(r: Reading) | Save | Crash(readable: bool)

  /** The events are proposals at the schedule's readings, at costs a job may have, and its saves and crashes. */
  predicate FillsSlot(e: Event, slot: Slot) {
    match slot
    case At(r) => e.Proposes? && e.p.at == r && e.p.cost >= 1
    case Save => e == Checkpoints
    case Crash(readable) => e == Crashes(readable)
  }

  ghost predicate Fills(events: seq<Event>, slots: seq<Slot>) {
    |events| == |slots| && forall k :: 0 <= k < |slots| ==> FillsSlot(events[k], slots[k])
  }

  /** Which readings the ledger in memory, and the one on disk, still know of. */
  datatype Memory = Memory(kept: seq<nat>, saved: seq<nat>)

  function MemoryOf(slots: seq<Slot>): Memory
    decreases |slots|
  {
    if slots == [] then Memory([], [])
    else
      var n := |slots| - 1;
      var before := MemoryOf(slots[..n]);
      match slots[n]
      case At(_) => before.(kept := before.kept + [n])
      case Save => before.(saved := before.kept)
      case Crash(readable) => before.(kept := if readable then before.saved else [])
  }

  /** Each remembered reading was remembered together with exactly those before it. */
  ghost predicate Historic(slots: seq<Slot>, idxs: seq<nat>) {
    forall x :: 0 <= x < |idxs| ==>
      idxs[x] < |slots| && slots[idxs[x]].At? && MemoryOf(slots[..idxs[x]]).kept == idxs[..x]
  }

  lemma {:induction false} HistoricGrows(slots: seq<Slot>, n: nat, idxs: seq<nat>)
    requires n <= |slots| && Historic(slots[..n], idxs)
    ensures Historic(slots, idxs)
  {
    hide MemoryOf;
    forall x | 0 <= x < |idxs|
      ensures idxs[x] < |slots| && slots[idxs[x]].At? && MemoryOf(slots[..idxs[x]]).kept == idxs[..x]
    {
      assert slots[..n][..idxs[x]] == slots[..idxs[x]];
    }
  }

  lemma {:induction false} HistoricAppend(slots: seq<Slot>, idxs: seq<nat>)
    requires slots != [] && slots[|slots| - 1].At?
    requires Historic(slots, idxs) && MemoryOf(slots[..|slots| - 1]).kept == idxs
    ensures Historic(slots, idxs + [|slots| - 1])
  {
    hide MemoryOf;
    var n, longer := |slots| - 1, idxs + [|slots| - 1];
    forall x | 0 <= x < |longer|
      ensures longer[x] < |slots| && slots[longer[x]].At? && MemoryOf(slots[..longer[x]]).kept == longer[..x]
    {
      assert longer[..x] == idxs[..x];
      if x == |idxs| { assert idxs[..x] == idxs && longer[x] == n; }
    }
  }

  lemma {:induction false} MemoryIsHistoric(slots: seq<Slot>)
    ensures Historic(slots, MemoryOf(slots).kept) && Historic(slots, MemoryOf(slots).saved)
    decreases |slots|
  {
    if slots != [] {
      var n := |slots| - 1;
      var before := MemoryOf(slots[..n]);
      MemoryIsHistoric(slots[..n]);
      hide Historic;
      HistoricGrows(slots, n, before.kept);
      HistoricGrows(slots, n, before.saved);
      if slots[n].At? { HistoricAppend(slots, before.kept); }
      assert Historic(slots, []) by { NothingIsHistoric(slots); }
    }
  }

  lemma NothingIsHistoric(slots: seq<Slot>)
    ensures Historic(slots, [])
  {
  }

  ghost predicate Rising(idxs: seq<nat>) {
    forall x, y :: 0 <= x < y < |idxs| ==> idxs[x] < idxs[y]
  }

  lemma {:induction false} HistoricRises(slots: seq<Slot>, idxs: seq<nat>)
    requires Historic(slots, idxs)
    ensures Rising(idxs)
  {
    forall x, y | 0 <= x < y < |idxs| ensures idxs[x] < idxs[y] {
      MemoryIsHistoric(slots[..idxs[y]]);
      assert idxs[..y][x] == idxs[x];
    }
  }

  // ---- the books, by index ----

  ghost predicate AreProposals(events: seq<Event>, idxs: seq<nat>) {
    forall x :: 0 <= x < |idxs| ==> idxs[x] < |events| && events[idxs[x]].Proposes?
  }

  ghost function Picked(events: seq<Event>, idxs: seq<nat>): (ps: seq<Proposal>)
    requires AreProposals(events, idxs)
    ensures |ps| == |idxs| && forall x :: 0 <= x < |idxs| ==> ps[x] == events[idxs[x]].p
  {
    seq(|idxs|, x requires 0 <= x < |idxs| => events[idxs[x]].p)
  }

  lemma {:induction false} HistoricArePicked(events: seq<Event>, slots: seq<Slot>, idxs: seq<nat>)
    requires Fills(events, slots) && Historic(slots, idxs)
    ensures AreProposals(events, idxs)
  {
    hide MemoryOf;
    forall x | 0 <= x < |idxs| ensures idxs[x] < |events| && events[idxs[x]].Proposes? {
      assert FillsSlot(events[idxs[x]], slots[idxs[x]]);
    }
  }

  lemma {:induction false} FillsPrefix(events: seq<Event>, slots: seq<Slot>, n: nat)
    requires Fills(events, slots) && n <= |slots|
    ensures Fills(events[..n], slots[..n])
  {
    hide FillsSlot;
  }

  /** The books keep exactly the remembered readings' proposals. */
  lemma {:induction false} KeptIsPicked(gate: Gate, events: seq<Event>, slots: seq<Slot>)
    requires Fills(events, slots)
    ensures var b, m := After(gate, events), MemoryOf(slots);
            && AreProposals(events, m.kept) && AreProposals(events, m.saved)
            && b.kept == Picked(events, m.kept) && b.savedKept == Picked(events, m.saved)
    decreases |events|
  {
    MemoryIsHistoric(slots);
    HistoricArePicked(events, slots, MemoryOf(slots).kept);
    HistoricArePicked(events, slots, MemoryOf(slots).saved);
    if events != [] {
      var n := |events| - 1;
      FillsPrefix(events, slots, n);
      KeptIsPicked(gate, events[..n], slots[..n]);
      assert FillsSlot(events[n], slots[n]);
      hide Historic, Fills, Spend;
    }
  }

  /** What one event admits of a day. */
  function AdmittedBy(gate: Gate, events: seq<Event>, i: nat, day: int): int {
    if i < |events| && events[i].Proposes? && Admits(gate, After(gate, events[..i]).ram, events[i].p)
       && events[i].p.at.LocalDay() == day
    then events[i].p.cost else 0
  }

  function SumOf(gate: Gate, events: seq<Event>, idxs: seq<nat>, day: int): int
    decreases |idxs|
  {
    if idxs == [] then 0
    else SumOf(gate, events, idxs[..|idxs| - 1], day) + AdmittedBy(gate, events, idxs[|idxs| - 1], day)
  }

  lemma {:induction false} SumOfPrefix(gate: Gate, events: seq<Event>, n: nat, idxs: seq<nat>, day: int)
    requires n <= |events| && forall x :: 0 <= x < |idxs| ==> idxs[x] < n
    ensures SumOf(gate, events[..n], idxs, day) == SumOf(gate, events, idxs, day)
    decreases |idxs|
  {
    hide After, Admits, Reading.LocalDay;
    if idxs != [] {
      var i := idxs[|idxs| - 1];
      assert events[..n][..i] == events[..i] && events[..n][i] == events[i];
      SumOfPrefix(gate, events, n, idxs[..|idxs| - 1], day);
    }
  }

  lemma {:induction false} SumOfAppend(gate: Gate, events: seq<Event>, idxs: seq<nat>, i: nat, day: int)
    ensures SumOf(gate, events, idxs + [i], day) == SumOf(gate, events, idxs, day) + AdmittedBy(gate, events, i, day)
  {
    hide AdmittedBy;
    assert (idxs + [i])[..|idxs|] == idxs;
  }

  lemma {:induction false} MemoryIsInside(slots: seq<Slot>)
    ensures var m := MemoryOf(slots);
            && (forall x :: 0 <= x < |m.kept| ==> m.kept[x] < |slots|)
            && (forall x :: 0 <= x < |m.saved| ==> m.saved[x] < |slots|)
  {
    MemoryIsHistoric(slots);
    hide MemoryOf;
  }

  /** What the kept proposals admit by themselves is what their events admitted in the run. */
  ghost predicate SumsAgree(gate: Gate, events: seq<Event>, ps: seq<Proposal>, idxs: seq<nat>, day: int) {
    AdmittedOn(gate, NEVER_SPENT, ps, day) == SumOf(gate, events, idxs, day)
  }

  lemma {:induction false} SumsAgreeOnward(gate: Gate, events: seq<Event>, n: nat, ps: seq<Proposal>, idxs: seq<nat>, day: int)
    requires n <= |events| && SumsAgree(gate, events[..n], ps, idxs, day)
    requires forall x :: 0 <= x < |idxs| ==> idxs[x] < n
    ensures SumsAgree(gate, events, ps, idxs, day)
  {
    hide SumOf, AdmittedOn;
    SumOfPrefix(gate, events, n, idxs, day);
  }

  lemma {:induction false} SumsAgreeAppend(gate: Gate, events: seq<Event>, b: Books, idxs: seq<nat>, day: int)
    requires events != [] && events[|events| - 1].Proposes? && b == After(gate, events[..|events| - 1])
    requires SumsAgree(gate, events, b.kept, idxs, day)
    ensures SumsAgree(gate, events, b.kept + [events[|events| - 1].p], idxs + [|events| - 1], day)
  {
    var n := |events| - 1;
    hide SumOf, AdmittedOn, After, SpendAll, Admits, RunDays, Reading.LocalDay, Admitted, Lost;
    BooksBalance(gate, events[..n], day);
    OneMore(gate, NEVER_SPENT, b.kept, events[n].p, day);
    SumOfAppend(gate, events, idxs, n, day);
  }

  lemma NothingAgrees(gate: Gate, events: seq<Event>, day: int)
    ensures SumsAgree(gate, events, [], [], day)
  {
    NothingSpent(gate, day);
  }

  lemma {:induction false} KeptSums(gate: Gate, events: seq<Event>, slots: seq<Slot>, day: int)
    requires Fills(events, slots)
    ensures SumsAgree(gate, events, After(gate, events).kept, MemoryOf(slots).kept, day)
    ensures SumsAgree(gate, events, After(gate, events).savedKept, MemoryOf(slots).saved, day)
    decreases |events|
  {
    hide SumsAgree;
    NothingAgrees(gate, events, day);
    if events != [] {
      var n := |events| - 1;
      var b, m := After(gate, events[..n]), MemoryOf(slots[..n]);
      MemoryIsInside(slots[..n]);
      FillsPrefix(events, slots, n);
      KeptSums(gate, events[..n], slots[..n], day);
      SumsAgreeOnward(gate, events, n, b.kept, m.kept, day);
      SumsAgreeOnward(gate, events, n, b.savedKept, m.saved, day);
      assert FillsSlot(events[n], slots[n]);
      if slots[n].At? { SumsAgreeAppend(gate, events, b, m.kept, day); }
      hide Fills, Spend;
    }
  }

  /** A rising list of indices that misses nothing admitted sums up to everything admitted. */
  lemma {:induction false} SumCovers(gate: Gate, events: seq<Event>, idxs: seq<nat>, k: nat, day: int)
    requires k <= |events| && Rising(idxs) && forall x :: 0 <= x < |idxs| ==> idxs[x] < k
    requires forall i: nat :: i < k && AdmittedBy(gate, events, i, day) != 0 ==> i in idxs
    ensures SumOf(gate, events, idxs, day) == Admitted(gate, events[..k], day)
    decreases k
  {
    if k > 0 {
      assert events[..k][..k - 1] == events[..k - 1];
      assert Admitted(gate, events[..k], day) == Admitted(gate, events[..k - 1], day) + AdmittedBy(gate, events, k - 1, day);
      hide AdmittedBy, Admitted;
      var m := |idxs| - 1;
      if idxs != [] && idxs[m] == k - 1 {
        assert forall i :: i in idxs && i < k - 1 ==> i in idxs[..m];
        SumCovers(gate, events, idxs[..m], k - 1, day);
      } else {
        assert k - 1 !in idxs by { LastIsGreatest(idxs, k - 1); }
        SumCovers(gate, events, idxs, k - 1, day);
      }
    }
  }

  lemma LastIsGreatest(idxs: seq<nat>, top: nat)
    requires Rising(idxs) && (forall x :: 0 <= x < |idxs| ==> idxs[x] <= top)
    requires idxs == [] || idxs[|idxs| - 1] != top
    ensures top !in idxs
  {
  }

  // ---- the condition ----

  function DayAt(slots: seq<Slot>, i: nat): int {
    if i < |slots| && slots[i].At? then slots[i].r.LocalDay() else 0
  }

  function DaysAt(slots: seq<Slot>, idxs: seq<nat>): (days: seq<int>)
    ensures |days| == |idxs| && forall x :: 0 <= x < |idxs| ==> days[x] == DayAt(slots, idxs[x])
  {
    seq(|idxs|, x requires 0 <= x < |idxs| => DayAt(slots, idxs[x]))
  }

  /** When the gate is asked at `k`, the ledger still knows of every earlier reading of that day, and of no day
      that was left and is returned to. */
  ghost predicate Remembers(slots: seq<Slot>, k: nat)
    requires k < |slots|
  {
    var kept := MemoryOf(slots[..k]).kept;
    && (forall i: nat :: i < k && slots[i].At? && DayAt(slots, i) == DayAt(slots, k) ==> i in kept)
    && NoReturn(DaysAt(slots, kept) + [DayAt(slots, k)])
  }

  ghost predicate RemembersAlways(slots: seq<Slot>) {
    forall k: nat :: k < |slots| && slots[k].At? ==> Remembers(slots, k)
  }

  ghost predicate CapSurvives(gate: Gate, slots: seq<Slot>) {
    forall events :: Fills(events, slots) ==> NeverOverAcross(gate, events)
  }

  ghost predicate NeverOverAcross(gate: Gate, events: seq<Event>) {
    forall day :: Admitted(gate, events, day) <= gate.dailyTurnBudget
  }

  ghost predicate ReadingsSpaced(slots: seq<Slot>, cooldown: real) {
    forall i, k :: 0 <= i < k < |slots| && slots[i].At? && slots[k].At? ==> slots[k].r.now - slots[i].r.now >= cooldown
  }

  // ---- it suffices ----

  lemma {:induction false} RemembersPrefix(slots: seq<Slot>, n: nat)
    requires RemembersAlways(slots) && n <= |slots|
    ensures RemembersAlways(slots[..n])
  {
    forall k: nat | k < n && slots[k].At? ensures Remembers(slots[..n], k) {
      assert slots[..n][..k] == slots[..k];
      assert Remembers(slots, k);
      MemoryIsInside(slots[..k]);
      assert DaysAt(slots[..n], MemoryOf(slots[..k]).kept) == DaysAt(slots, MemoryOf(slots[..k]).kept);
      hide MemoryOf, NoReturn;
    }
  }

  /** Nothing admitted of the day before `k` is forgotten. */
  lemma {:induction false} RememberedIsAll(gate: Gate, events: seq<Event>, slots: seq<Slot>, k: nat)
    requires Fills(events, slots) && k < |slots| && Remembers(slots, k)
    ensures SumOf(gate, events[..k], MemoryOf(slots[..k]).kept, DayAt(slots, k)) == Admitted(gate, events[..k], DayAt(slots, k))
  {
    var kept, day := MemoryOf(slots[..k]).kept, DayAt(slots, k);
    MemoryIsInside(slots[..k]);
    MemoryIsHistoric(slots[..k]);
    hide MemoryOf, SumOf, Admitted, After, Admits;
    HistoricRises(slots[..k], kept);
    forall i: nat | i < k && AdmittedBy(gate, events[..k], i, day) != 0 ensures i in kept {
      assert FillsSlot(events[i], slots[i]);
    }
    hide AdmittedBy, Historic, Fills, Remembers;
    assert events[..k][..k] == events[..k];
    SumCovers(gate, events[..k], kept, k, day);
  }

  /** What is admitted of a day before `k` is all behind the ledger that the gate sees at `k`. */
  lemma {:induction false} LedgerSeesTheDay(gate: Gate, events: seq<Event>, slots: seq<Slot>, k: nat)
    requires Fills(events, slots) && k < |slots| && slots[k].At? && Remembers(slots, k)
    ensures UsedOn(After(gate, events[..k]).ram, DayAt(slots, k)) == Admitted(gate, events[..k], DayAt(slots, k))
  {
    var b, day := After(gate, events[..k]), DayAt(slots, k);
    assert NoReturn(DaysAt(slots, MemoryOf(slots[..k]).kept) + [day]);
    RememberedIsAll(gate, events, slots, k);
    FillsPrefix(events, slots, k);
    hide Remembers, MemoryOf, After, SumOf, Fills, SpendAll, AdmittedOn, Admitted, DaysAt, DayAt, RunDays, NoReturn, Lost;
    KeptDaysAreTheirs(gate, events[..k], slots, k);
    BooksBalance(gate, events[..k], day);
    KeptSums(gate, events[..k], slots[..k], day);
    LedgerKnowsToday(gate, NEVER_SPENT, b.kept, day);
  }

  /** The kept proposals' days are those of their readings. */
  lemma {:induction false} KeptDaysAreTheirs(gate: Gate, events: seq<Event>, slots: seq<Slot>, k: nat)
    requires k <= |slots| && Fills(events, slots[..k])
    ensures RunDays(NEVER_SPENT, After(gate, events).kept) == DaysAt(slots, MemoryOf(slots[..k]).kept)
  {
    KeptIsPicked(gate, events, slots[..k]);
    MemoryIsHistoric(slots[..k]);
    var kept := MemoryOf(slots[..k]).kept;
    forall x | 0 <= x < |kept| ensures events[kept[x]].p.at.LocalDay() == DayAt(slots, kept[x]) {
      assert FillsSlot(events[kept[x]], slots[..k][kept[x]]);
    }
    hide MemoryOf, After, Historic, Fills;
  }

  lemma {:induction false} RememberedNeverOver(gate: Gate, events: seq<Event>, slots: seq<Slot>, day: int)
    requires gate.Valid() && Fills(events, slots) && RemembersAlways(slots)
    ensures Admitted(gate, events, day) <= gate.dailyTurnBudget
    decreases |events|
  {
    if events != [] {
      var n := |events| - 1;
      assert FillsSlot(events[n], slots[n]);
      FillsPrefix(events, slots, n);
      RemembersPrefix(slots, n);
      RememberedNeverOver(gate, events[..n], slots[..n], day);
      if slots[n].At? {
        assert Remembers(slots, n);
        assert events[n].Proposes?;
        LedgerSeesTheDay(gate, events, slots, n);
      }
      hide Remembers, RemembersAlways, Fills, After;
    }
  }

  // ---- it is needed ----

  /** Full-budget proposals throughout; only the chosen ones are recorded. */
  function Spree(slots: seq<Slot>, budget: int, chosen: set<nat>): seq<Event> {
    seq(|slots|, k requires 0 <= k < |slots| =>
      match slots[k]
      case At(r) => Proposes(Proposal(r, budget, k in chosen))
      case Save => Checkpoints
      case Crash(readable) => Crashes(readable))
  }

  lemma {:induction false} SpreeFills(slots: seq<Slot>, budget: int, chosen: set<nat>)
    requires budget >= 1
    ensures Fills(Spree(slots, budget, chosen), slots)
  {
  }

  /** The ledger that the gate sees at `k` is that of the remembered proposals. */
  lemma {:induction false} LedgerAt(gate: Gate, events: seq<Event>, slots: seq<Slot>, k: nat)
    requires Fills(events, slots) && k <= |slots|
    ensures AreProposals(events, MemoryOf(slots[..k]).kept)
    ensures After(gate, events[..k]).ram == SpendAll(gate, NEVER_SPENT, Picked(events, MemoryOf(slots[..k]).kept))
  {
    var kept := MemoryOf(slots[..k]).kept;
    FillsPrefix(events, slots, k);
    KeptIsPicked(gate, events[..k], slots[..k]);
    BooksBalance(gate, events[..k], 0);
    hide MemoryOf, After, Fills, SpendAll, AdmittedOn, Admitted, Lost;
    assert Picked(events, kept) == Picked(events[..k], kept);
  }

  /** The remembered proposals of a spree: full budget each, recorded where chosen. */
  lemma {:induction false} SpreePicks(slots: seq<Slot>, budget: int, chosen: set<nat>, idxs: seq<nat>)
    requires AreProposals(Spree(slots, budget, chosen), idxs)
    ensures var ps := Picked(Spree(slots, budget, chosen), idxs);
            forall x :: 0 <= x < |ps| ==>
              idxs[x] < |slots| && slots[idxs[x]].At? && ps[x] == Proposal(slots[idxs[x]].r, budget, idxs[x] in chosen)
  {
  }

  /** The chosen proposal at `k`, with no other chosen one remembered, is admitted in full. */
  lemma {:induction false} FirstIsAdmitted(gate: Gate, slots: seq<Slot>, chosen: set<nat>, k: nat)
    requires gate.Valid() && k < |slots| && slots[k].At? && k in chosen
    requires forall i :: i in MemoryOf(slots[..k]).kept ==> i !in chosen
    ensures AdmittedBy(gate, Spree(slots, gate.dailyTurnBudget, chosen), k, DayAt(slots, k)) == gate.dailyTurnBudget
  {
    hide SpendAll, MemoryOf, After, Fills, Reading.LocalDay;
    var events, kept := Spree(slots, gate.dailyTurnBudget, chosen), MemoryOf(slots[..k]).kept;
    SpreeFills(slots, gate.dailyTurnBudget, chosen);
    LedgerAt(gate, events, slots, k);
    SpreePicks(slots, gate.dailyTurnBudget, chosen, kept);
    var ps := Picked(events, kept);
    assert forall x :: 0 <= x < |ps| ==> kept[x] in kept && !ps[x].recorded;
    assert ps[..0] == [] && ps[..|ps|] == ps;
    NothingSpent(gate, 0);
    NothingBetween(gate, ps, 0, |ps|);
  }

  lemma {:induction false} TwoAdmittedAdd(gate: Gate, events: seq<Event>, i: nat, k: nat, day: int)
    requires i < k < |events| && forall x :: 0 <= x < |events| && events[x].Proposes? ==> events[x].p.cost >= 1
    ensures Admitted(gate, events, day) >= AdmittedBy(gate, events, i, day) + AdmittedBy(gate, events, k, day)
    decreases |events|
  {
    var n := |events| - 1;
    EarlierIsTheSame(gate, events, n, i, day);
    if k < n {
      EarlierIsTheSame(gate, events, n, k, day);
      TwoAdmittedAdd(gate, events[..n], i, k, day);
    } else {
      OneAdmittedAdds(gate, events[..n], i, day);
    }
    hide After, Admits, Reading.LocalDay;
  }

  lemma {:induction false} OneAdmittedAdds(gate: Gate, events: seq<Event>, i: nat, day: int)
    requires i < |events| && forall x :: 0 <= x < |events| && events[x].Proposes? ==> events[x].p.cost >= 1
    ensures Admitted(gate, events, day) >= AdmittedBy(gate, events, i, day)
    decreases |events|
  {
    var n := |events| - 1;
    if i < n {
      EarlierIsTheSame(gate, events, n, i, day);
      OneAdmittedAdds(gate, events[..n], i, day);
    } else {
      AdmittedIsNoDebt(gate, events[..n], day);
    }
    hide After, Admits, Reading.LocalDay;
  }

  lemma {:induction false} AdmittedIsNoDebt(gate: Gate, events: seq<Event>, day: int)
    requires forall x :: 0 <= x < |events| && events[x].Proposes? ==> events[x].p.cost >= 1
    ensures Admitted(gate, events, day) >= 0
    decreases |events|
  {
    hide After, Admits, Reading.LocalDay;
    if events != [] { AdmittedIsNoDebt(gate, events[..|events| - 1], day); }
  }

  lemma EarlierIsTheSame(gate: Gate, events: seq<Event>, n: nat, i: nat, day: int)
    requires i < n <= |events|
    ensures AdmittedBy(gate, events[..n], i, day) == AdmittedBy(gate, events, i, day)
  {
    assert events[..n][..i] == events[..i];
    hide After, Admits;
  }

  /** A forgotten reading of the day: its budget is spent again. */
  lemma {:induction false} ForgottenOverspends(gate: Gate, slots: seq<Slot>, i: nat, k: nat)
    requires gate.Valid() && i < k < |slots| && slots[i].At? && slots[k].At? && DayAt(slots, i) == DayAt(slots, k)
    requires i !in MemoryOf(slots[..k]).kept
    ensures !CapSurvives(gate, slots)
  {
    var chosen := {i, k};
    var events, day := Spree(slots, gate.dailyTurnBudget, chosen), DayAt(slots, k);
    MemoryIsInside(slots[..i]);
    MemoryIsInside(slots[..k]);
    hide MemoryOf, DayAt;
    FirstIsAdmitted(gate, slots, chosen, i);
    FirstIsAdmitted(gate, slots, chosen, k);
    TwiceIsOver(gate, slots, chosen, i, k, day);
  }

  lemma {:induction false} TwiceIsOver(gate: Gate, slots: seq<Slot>, chosen: set<nat>, i: nat, k: nat, day: int)
    requires gate.Valid() && i < k < |slots|
    requires var events := Spree(slots, gate.dailyTurnBudget, chosen);
             AdmittedBy(gate, events, i, day) == gate.dailyTurnBudget == AdmittedBy(gate, events, k, day)
    ensures !CapSurvives(gate, slots)
  {
    var events := Spree(slots, gate.dailyTurnBudget, chosen);
    SpreeFills(slots, gate.dailyTurnBudget, chosen);
    TwoAdmittedAdd(gate, events, i, k, day);
    hide Fills, AdmittedBy, Admitted, Spree;
    assert !NeverOverAcross(gate, events);
  }

  /** The ledger after two remembered proposals, the chosen ones at positions `a` and `b`. */
  lemma {:induction false} LedgerAfterTwo(gate: Gate, ps: seq<Proposal>, a: nat, b: nat)
    requires gate.Valid() && a < b < |ps|
    requires forall x :: 0 <= x < |ps| ==> ps[x].cost == gate.dailyTurnBudget && (ps[x].recorded <==> x == a || x == b)
    requires ps[a].at.LocalDay() != ps[b].at.LocalDay() && ps[b].at.now - ps[a].at.now >= gate.turnCooldown
    ensures SpendAll(gate, NEVER_SPENT, ps[..a]) == NEVER_SPENT
    ensures SpendAll(gate, NEVER_SPENT, ps[..b]) == Ledger(Some(ps[a].at.LocalDay()), gate.dailyTurnBudget, StampAt(ps[a].at.now))
    ensures SpendAll(gate, NEVER_SPENT, ps) == Ledger(Some(ps[b].at.LocalDay()), gate.dailyTurnBudget, StampAt(ps[b].at.now))
  {
    NothingSpent(gate, 0);
    assert ps[..0] == [] && ps[..|ps|] == ps;
    hide SpendAll, AdmittedAt, Reading.LocalDay;
    NothingBetween(gate, ps, 0, a);
    NextSpend(gate, ps, 0, NEVER_SPENT, a);
    NothingBetween(gate, ps, a + 1, b);
    NextSpend(gate, ps, a + 1, Ledger(Some(ps[a].at.LocalDay()), gate.dailyTurnBudget, StampAt(ps[a].at.now)), b);
    NothingBetween(gate, ps, b + 1, |ps|);
  }

  /** A day left and returned to in what is remembered at `k`: its budget is spent again. */
  lemma {:induction false} ReturnedOverspends(gate: Gate, slots: seq<Slot>, k: nat, a: nat, b: nat)
    requires gate.Valid() && ReadingsSpaced(slots, gate.turnCooldown) && k < |slots| && slots[k].At?
    requires var kept := MemoryOf(slots[..k]).kept;
             a < b < |kept| && DayAt(slots, kept[a]) == DayAt(slots, k) != DayAt(slots, kept[b])
    ensures !CapSurvives(gate, slots)
  {
    var kept := MemoryOf(slots[..k]).kept;
    MemoryIsHistoric(slots[..k]);
    MemoryIsInside(slots[..k]);
    HistoricRises(slots[..k], kept);
    var i, j := kept[a], kept[b];
    assert slots[..k][..i] == slots[..i] && slots[..k][i] == slots[i] && slots[..k][j] == slots[j];
    assert MemoryOf(slots[..i]).kept == kept[..a];
    var chosen := {i, j, k};
    assert forall x :: x in kept[..a] ==> x !in chosen by {
      forall x: nat | x < a ensures kept[x] !in chosen { }
    }
    hide MemoryOf, Historic;
    FirstIsAdmitted(gate, slots, chosen, i);
    LastIsAdmitted(gate, slots, chosen, k, a, b);
    TwiceIsOver(gate, slots, chosen, i, k, DayAt(slots, k));
  }

  lemma {:induction false} LastIsAdmitted(gate: Gate, slots: seq<Slot>, chosen: set<nat>, k: nat, a: nat, b: nat)
    requires gate.Valid() && ReadingsSpaced(slots, gate.turnCooldown) && k < |slots| && slots[k].At?
    requires var kept := MemoryOf(slots[..k]).kept;
             && Rising(kept) && (forall x :: 0 <= x < |kept| ==> kept[x] < k && slots[kept[x]].At?)
             && a < b < |kept| && chosen == {kept[a], kept[b], k}
             && DayAt(slots, kept[a]) == DayAt(slots, k) != DayAt(slots, kept[b])
    ensures AdmittedBy(gate, Spree(slots, gate.dailyTurnBudget, chosen), k, DayAt(slots, k)) == gate.dailyTurnBudget
  {
    hide MemoryOf, After, Fills, SpendAll, Reading.LocalDay;
    var events, kept := Spree(slots, gate.dailyTurnBudget, chosen), MemoryOf(slots[..k]).kept;
    SpreeFills(slots, gate.dailyTurnBudget, chosen);
    LedgerAt(gate, events, slots, k);
    SpreePicks(slots, gate.dailyTurnBudget, chosen, kept);
    var ps := Picked(events, kept);
    forall x | 0 <= x < |ps| ensures ps[x].recorded <==> x == a || x == b {
      assert kept[x] != k;
    }
    assert ps[b].at.now - ps[a].at.now >= gate.turnCooldown && slots[k].r.now - ps[b].at.now >= gate.turnCooldown;
    hide ReadingsSpaced, Rising;
    LedgerAfterTwo(gate, ps, a, b);
    assert events[k] == Proposes(Proposal(slots[k].r, gate.dailyTurnBudget, true));
    hide Spree;
  }

  /** What was remembered at a remembered reading. */
  lemma {:induction false} KeptAtKept(slots: seq<Slot>, k: nat, z: nat)
    requires k <= |slots| && z < |MemoryOf(slots[..k]).kept|
    ensures var kept := MemoryOf(slots[..k]).kept;
            kept[z] < k && slots[kept[z]].At? && MemoryOf(slots[..kept[z]]).kept == kept[..z]
  {
    MemoryIsHistoric(slots[..k]);
    var kept := MemoryOf(slots[..k]).kept;
    assert slots[..k][..kept[z]] == slots[..kept[z]] && slots[..k][kept[z]] == slots[kept[z]];
  }

  lemma {:induction false} ForgetfulOverspends(gate: Gate, slots: seq<Slot>, k: nat)
    requires gate.Valid() && ReadingsSpaced(slots, gate.turnCooldown)
    requires k < |slots| && slots[k].At? && !Remembers(slots, k)
    ensures !CapSurvives(gate, slots)
  {
    var kept := MemoryOf(slots[..k]).kept;
    if i: nat :| i < k && slots[i].At? && DayAt(slots, i) == DayAt(slots, k) && i !in kept {
      ForgottenOverspends(gate, slots, i, k);
    } else {
      hide CapSurvives, MemoryOf, Historic;
      var days := DaysAt(slots, kept) + [DayAt(slots, k)];
      var x, y, z :| 0 <= x < y < z < |days| && days[x] == days[z] && days[y] != days[x];
      if z == |kept| {
        ReturnedOverspends(gate, slots, k, x, y);
      } else {
        KeptAtKept(slots, k, z);
        ReturnedOverspends(gate, slots, kept[z], x, y);
      }
    }
  }

  /** For every valid gate and every schedule whose readings are at least the cooldown apart: whatever is
      proposed, no local date is ever overspent, if and only if at every reading the ledger still knows of all
      earlier readings of that date, and the dates it knows of are not left and returned to. */
  lemma CapSurvivesExactly(gate: Gate, slots: seq<Slot>)
    requires gate.Valid() && ReadingsSpaced(slots, gate.turnCooldown)
    ensures CapSurvives(gate, slots) <==> RemembersAlways(slots)
  {
    if RemembersAlways(slots) {
      forall events | Fills(events, slots) ensures NeverOverAcross(gate, events) {
        forall day ensures Admitted(gate, events, day) <= gate.dailyTurnBudget {
          RememberedNeverOver(gate, events, slots, day);
        }
      }
    } else {
      var k: nat :| k < |slots| && slots[k].At? && !Remembers(slots, k);
      ForgetfulOverspends(gate, slots, k);
    }
  }

  // ---- schedules that save in time ----

  /** All readings of a schedule. */
  function Readings(slots: seq<Slot>): seq<nat>
    decreases |slots|
  {
    if slots == [] then []
    else Readings(slots[..|slots| - 1]) + if slots[|slots| - 1].At? then [|slots| - 1] else []
  }

  /** Every reading has been followed by a save. */
  ghost predicate AllSaved(slots: seq<Slot>) {
    forall i :: 0 <= i < |slots| && slots[i].At? ==> exists s :: i < s < |slots| && slots[s].Save?
  }

  /** The process dies only with everything saved, and finds the file readable. */
  ghost predicate SavesInTime(slots: seq<Slot>) {
    forall c :: 0 <= c < |slots| && slots[c].Crash? ==> slots[c].readable && AllSaved(slots[..c])
  }

  lemma {:induction false} SavesInTimePrefix(slots: seq<Slot>, n: nat)
    requires SavesInTime(slots) && n <= |slots|
    ensures SavesInTime(slots[..n])
  {
    hide AllSaved;
    forall c | 0 <= c < n && slots[..n][c].Crash? ensures slots[..n][c].readable && AllSaved(slots[..n][..c]) {
      assert slots[..n][..c] == slots[..c];
    }
  }

  lemma {:induction false} AllIsRemembered(slots: seq<Slot>)
    requires SavesInTime(slots)
    ensures MemoryOf(slots).kept == Readings(slots)
    ensures AllSaved(slots) ==> MemoryOf(slots).saved == Readings(slots)
    decreases |slots|
  {
    if slots != [] {
      var n := |slots| - 1;
      SavesInTimePrefix(slots, n);
      AllIsRemembered(slots[..n]);
      assert slots[n].At? ==> !AllSaved(slots);
      hide AllSaved;
    }
  }

  lemma {:induction false} ReadingsAreAll(slots: seq<Slot>)
    ensures forall i: nat :: i in Readings(slots) <==> i < |slots| && slots[i].At?
    decreases |slots|
  {
    if slots != [] {
      var n := |slots| - 1;
      ReadingsAreAll(slots[..n]);
      var before, all := Readings(slots[..n]), Readings(slots);
      assert all == before + if slots[n].At? then [n] else [];
      hide Readings;
      assert forall i: nat :: i in all <==> i in before || (i == n && slots[n].At?);
    }
  }

  /** The readings before the `z`-th are the first `z`. */
  lemma {:induction false} ReadingsBefore(slots: seq<Slot>, z: nat)
    requires z < |Readings(slots)|
    ensures var all := Readings(slots); all[z] < |slots| && slots[all[z]].At? && Readings(slots[..all[z]]) == all[..z]
    decreases |slots|
  {
    var n := |slots| - 1;
    var before, all := Readings(slots[..n]), Readings(slots);
    if z < |before| {
      ReadingsBefore(slots[..n], z);
      assert slots[..n][..all[z]] == slots[..all[z]] && before[..z] == all[..z];
    } else {
      assert all[..z] == before;
    }
  }

  /** With saves in time a restart changes nothing: the cap is safe if and only if the dates of the readings are
      not left and returned to, as without any restart, and nothing is ever lost. */
  lemma SafeCrashesLoseNothing(gate: Gate, slots: seq<Slot>)
    requires gate.Valid() && ReadingsSpaced(slots, gate.turnCooldown) && SavesInTime(slots)
    ensures CapSurvives(gate, slots) <==> NoReturn(DaysAt(slots, Readings(slots)))
    ensures forall events, day :: Fills(events, slots) ==> Lost(gate, events, day) == 0
  {
    CapSurvivesExactly(gate, slots);
    InTimeRemembers(slots);
    forall events, day | Fills(events, slots) ensures Lost(gate, events, day) == 0 {
      NothingIsLost(gate, events, slots, day);
    }
  }

  lemma {:induction false} NoReturnByPrefixes(days: seq<int>)
    ensures NoReturn(days) <==> forall z: nat :: z < |days| ==> NoReturn(days[..z] + [days[z]])
  {
    if NoReturn(days) {
      forall z: nat | z < |days| ensures NoReturn(days[..z] + [days[z]]) {
        assert days[..z] + [days[z]] == days[..z + 1];
        NoReturnPrefix(days, z + 1);
      }
    } else {
      var x, y, z :| 0 <= x < y < z < |days| && days[x] == days[z] && days[y] != days[x];
      var past := days[..z] + [days[z]];
      assert past[x] == days[x] && past[y] == days[y] && past[z] == days[z];
    }
  }

  lemma {:induction false} InTimeRemembers(slots: seq<Slot>)
    requires SavesInTime(slots)
    ensures RemembersAlways(slots) <==> NoReturn(DaysAt(slots, Readings(slots)))
  {
    var all := Readings(slots);
    var days := DaysAt(slots, all);
    ReadingsAreAll(slots);
    hide Readings, NoReturn, Remembers, SavesInTime, DayAt;
    NoReturnByPrefixes(days);
    forall z: nat | z < |all|
      ensures all[z] < |slots| && slots[all[z]].At? && (Remembers(slots, all[z]) <==> NoReturn(days[..z] + [days[z]]))
    {
      RemembersItsPast(slots, z);
    }
    if RemembersAlways(slots) {
      forall z: nat | z < |days| ensures NoReturn(days[..z] + [days[z]]) {
        assert Remembers(slots, all[z]);
      }
    }
    if NoReturn(days) {
      forall k: nat | k < |slots| && slots[k].At? ensures Remembers(slots, k) {
        assert k in all;
        var z :| 0 <= z < |all| && all[z] == k;
      }
    }
  }

  lemma {:induction false} RemembersItsPast(slots: seq<Slot>, z: nat)
    requires SavesInTime(slots) && z < |Readings(slots)|
    ensures var all := Readings(slots);
            all[z] < |slots| && slots[all[z]].At? &&
            (Remembers(slots, all[z]) <==> NoReturn(DaysAt(slots, all)[..z] + [DaysAt(slots, all)[z]]))
  {
    var all := Readings(slots);
    ReadingsBefore(slots, z);
    var k := all[z];
    SavesInTimePrefix(slots, k);
    AllIsRemembered(slots[..k]);
    ReadingsAreAll(slots[..k]);
    assert DaysAt(slots, all[..z]) == DaysAt(slots, all)[..z];
    hide Readings, MemoryOf, NoReturn, SavesInTime, DayAt;
  }

  lemma {:induction false} NothingIsLost(gate: Gate, events: seq<Event>, slots: seq<Slot>, day: int)
    requires SavesInTime(slots) && Fills(events, slots)
    ensures Lost(gate, events, day) == 0
    decreases |events|
  {
    if events != [] {
      var n := |events| - 1;
      assert FillsSlot(events[n], slots[n]);
      FillsPrefix(events, slots, n);
      SavesInTimePrefix(slots, n);
      NothingIsLost(gate, events[..n], slots[..n], day);
      KeptIsPicked(gate, events[..n], slots[..n]);
      AllIsRemembered(slots[..n]);
      hide MemoryOf, Readings, AllSaved, AdmittedOn, After, Fills;
    }
  }
}
