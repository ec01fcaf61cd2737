/** The daily cap across restarts: the ledger is checkpointed now and then, and a crash brings back the last
    checkpoint. */
module Restarts {
  import opened Options
  import opened Clock
  import opened Budget

  /** A crash restarts the process; the checkpoint may then be unreadable, which loads a ledger never spent. */
  datatype Event = Proposes(p: Proposal) | Checkpoints | Crashes(readable: bool)

  /** The ledger in memory and the one on disk; the proposals behind each; what crashes have undone. */
  datatype Books = Books(ram: Ledger, saved: Ledger, kept: seq<Proposal>, savedKept: seq<Proposal>)

  const FIRST_RUN: Books := Books(NEVER_SPENT, NEVER_SPENT, [], [])

  /** A finished checkpoint saves exactly the state in memory, and a load returns exactly what was saved. */
  function Next(gate: Gate, b: Books, e: Event): Books {
    match e
    case Proposes(p) => b.(ram := Spend(gate, b.ram, p), kept := b.kept + [p])
    case Checkpoints => b.(saved := b.ram, savedKept := b.kept)
    case Crashes(readable) =>
      if readable then b.(ram := b.saved, kept := b.savedKept) else b.(ram := NEVER_SPENT, kept := [])
  }

  function After(gate: Gate, events: seq<Event>): Books
    decreases |events|
  {
    if events == [] then FIRST_RUN else Next(gate, After(gate, events[..|events| - 1]), events[|events| - 1])
  }

  /** The cost of all turns admitted on a day, by any process of the run. */
  function Admitted(gate: Gate, events: seq<Event>, day: int): int
    decreases |events|
  {
    if events == [] then 0
    else
      var n := |events| - 1;
      var e := events[n];
      Admitted(gate, events[..n], day)
      + if e.Proposes? && Admits(gate, After(gate, events[..n]).ram, e.p) && e.p.at.LocalDay() == day then e.p.cost else 0
  }

  /** What an event undoes of a day's admissions, beside what it admits. */
  function Undone(gate: Gate, b: Books, e: Event, day: int): int {
    if e.Crashes? then AdmittedOn(gate, NEVER_SPENT, b.kept, day) - AdmittedOn(gate, NEVER_SPENT, Next(gate, b, e).kept, day)
    else 0
  }

  /** What crashes have undone. */
  function Lost(gate: Gate, events: seq<Event>, day: int): int
    decreases |events|
  {
    if events == [] then 0
    else
      var n := |events| - 1;
      Lost(gate, events[..n], day) + Undone(gate, After(gate, events[..n]), events[n], day)
  }

  function EventDays(events: seq<Event>): seq<int>
    decreases |events|
  {
    if events == [] then []
    else
      var n := |events| - 1;
      EventDays(events[..n]) + if events[n].Proposes? then [events[n].p.at.LocalDay()] else []
  }

  /** Both ledgers are those of an uninterrupted run of the proposals behind them. */
  ghost predicate Kept(gate: Gate, b: Books) {
    b.ram == SpendAll(gate, NEVER_SPENT, b.kept) && b.saved == SpendAll(gate, NEVER_SPENT, b.savedKept)
  }

  lemma NothingSpent(gate: Gate, day: int)
    ensures SpendAll(gate, NEVER_SPENT, []) == NEVER_SPENT && AdmittedOn(gate, NEVER_SPENT, [], day) == 0
  {
  }

  lemma {:induction false} BooksStep(gate: Gate, b: Books, e: Event, day: int)
    requires Kept(gate, b)
    ensures var c := Next(gate, b, e);
            && Kept(gate, c)
            && AdmittedOn(gate, NEVER_SPENT, c.kept, day) == AdmittedOn(gate, NEVER_SPENT, b.kept, day) - Undone(gate, b, e, day)
                 + (if e.Proposes? && Admits(gate, b.ram, e.p) && e.p.at.LocalDay() == day then e.p.cost else 0)
  {
    hide SpendAll, AdmittedOn, Admits, RunDays, Reading.LocalDay, Spend;
    NothingSpent(gate, day);
    if e.Proposes? {
      OneMore(gate, NEVER_SPENT, b.kept, e.p, day);
    }
  }

  /** And together with what was lost they account for everything admitted. */
  lemma {:induction false} BooksBalance(gate: Gate, events: seq<Event>, day: int)
    ensures var b := After(gate, events);
            && Kept(gate, b)
            && Admitted(gate, events, day) == AdmittedOn(gate, NEVER_SPENT, b.kept, day) + Lost(gate, events, day)
    decreases |events|
  {
    hide SpendAll, AdmittedOn, Admits, Reading.LocalDay, Next, Undone;
    NothingSpent(gate, day);
    if events != [] {
      var n := |events| - 1;
      BooksBalance(gate, events[..n], day);
      BooksStep(gate, After(gate, events[..n]), events[n], day);
    }
  }

  /** The kept proposals are some of those made, in order: their dates return only if the run's do. */
  lemma {:induction false} KeptDaysDoNotReturn(gate: Gate, events: seq<Event>, later: seq<int>)
    requires NoReturn(EventDays(events) + later)
    ensures var b := After(gate, events);
            NoReturn(RunDays(NEVER_SPENT, b.kept) + later) && NoReturn(RunDays(NEVER_SPENT, b.savedKept) + later)
    decreases |events|
  {
    if events != [] {
      var n := |events| - 1;
      var b, e := After(gate, events[..n]), events[n];
      var before := EventDays(events[..n]);
      if e.Proposes? {
        var d := [e.p.at.LocalDay()];
        assert EventDays(events) + later == before + (d + later);
        KeptDaysDoNotReturn(gate, events[..n], d + later);
        OneMore(gate, NEVER_SPENT, b.kept, e.p, 0);
        assert RunDays(NEVER_SPENT, b.kept + [e.p]) + later == RunDays(NEVER_SPENT, b.kept) + (d + later);
        assert before + (d + later) == before + d + later;
        NoReturnDrop(before, d, later);
        KeptDaysDoNotReturn(gate, events[..n], later);
      } else {
        assert EventDays(events) == before;
        KeptDaysDoNotReturn(gate, events[..n], later);
        NoDaysReturn(before, later);
      }
    } else {
      assert EventDays(events) + later == later && RunDays(NEVER_SPENT, []) + later == later;
    }
  }

  /** A ledger never spent brings no dates. */
  lemma NoDaysReturn(before: seq<int>, later: seq<int>)
    requires NoReturn(before + later)
    ensures NoReturn(RunDays(NEVER_SPENT, []) + later)
  {
    assert [] + before + later == before + later && [] + later == later && RunDays(NEVER_SPENT, []) == [];
    NoReturnDrop([], before, later);
  }

  /** Across any checkpoints and crashes a day is overspent by at most what crashes undid on it, and the
      ledger falls short of the day's admissions by exactly that. */
  lemma OverspendIsWhatCrashesUndid(gate: Gate, events: seq<Event>, day: int)
    requires gate.Valid() && NoReturn(EventDays(events))
    ensures Admitted(gate, events, day) <= gate.dailyTurnBudget + Lost(gate, events, day)
    ensures var l := After(gate, events).ram;
            l.date == Some(day) ==>
              l.turnsUsed == Admitted(gate, events, day) - Lost(gate, events, day)
  {
    assert EventDays(events) + [] == EventDays(events);
    var b := After(gate, events);
    KeptDaysDoNotReturn(gate, events, []);
    assert RunDays(NEVER_SPENT, b.kept) + [] == RunDays(NEVER_SPENT, b.kept);
    BooksBalance(gate, events, day);
    hide After, Admitted, Lost, NoReturn, EventDays;
    DailyCapHolds(gate, NEVER_SPENT, b.kept, day);
    LedgerIsExact(gate, NEVER_SPENT, b.kept, day);
  }

  lemma {:induction false} EventStep(gate: Gate, events: seq<Event>, e: Event, day: int)
    ensures var b := After(gate, events);
            && After(gate, events + [e]) == Next(gate, b, e)
            && Admitted(gate, events + [e], day) == Admitted(gate, events, day)
                 + (if e.Proposes? && Admits(gate, b.ram, e.p) && e.p.at.LocalDay() == day then e.p.cost else 0)
            && Lost(gate, events + [e], day) == Lost(gate, events, day)
                 + Undone(gate, b, e, day)
  {
    assert (events + [e])[..|events|] == events;
    hide Undone, Admits;
  }

  /** And it is undone in earnest: two admissions on one day, the first right after a checkpoint and lost to a
      crash, count together against nothing. */
  lemma {:induction false} LostAdmissionRepeats(gate: Gate, events: seq<Event>, p: Proposal, q: Proposal)
    requires var b := After(gate, events);
             b.ram == b.saved && b.kept == b.savedKept && Admits(gate, b.ram, p) && Admits(gate, b.ram, q)
    requires p.at.LocalDay() == q.at.LocalDay()
    ensures var day, longer := p.at.LocalDay(), events + [Proposes(p)] + [Crashes(true)] + [Proposes(q)];
            && Admitted(gate, longer, day) == Admitted(gate, events, day) + p.cost + q.cost
            && Lost(gate, longer, day) == Lost(gate, events, day) + p.cost
  {
    var b, day := After(gate, events), p.at.LocalDay();
    BooksBalance(gate, events, day);
    OneMore(gate, NEVER_SPENT, b.kept, p, day);
    EventStep(gate, events, Proposes(p), day);
    EventStep(gate, events + [Proposes(p)], Crashes(true), day);
    EventStep(gate, events + [Proposes(p)] + [Crashes(true)], Proposes(q), day);
    hide After, Admitted, Lost, SpendAll, AdmittedOn, Admits, Reading.LocalDay, RunDays;
  }

  /** On the first day ever, for any valid gate: the whole budget, a crash before the next checkpoint, and at any
      later reading of the same day the whole budget again. */
  lemma {:induction false} CrashSpendsTwice(gate: Gate, first: Reading, later: Reading)
    requires gate.Valid() && first.now < later.now && first.LocalDay() == later.LocalDay()
    ensures var full := (r: Reading) => Proposes(Proposal(r, gate.dailyTurnBudget, true));
            Admitted(gate, [full(first), Crashes(true), full(later)], first.LocalDay()) == 2 * gate.dailyTurnBudget
  {
    var none: seq<Event> := [];
    var p, q := Proposal(first, gate.dailyTurnBudget, true), Proposal(later, gate.dailyTurnBudget, true);
    assert After(gate, none) == FIRST_RUN && Admitted(gate, none, first.LocalDay()) == 0;
    hide After, Admitted, Lost, Reading.LocalDay;
    LostAdmissionRepeats(gate, none, p, q);
    assert none + [Proposes(p)] + [Crashes(true)] + [Proposes(q)] == [Proposes(p), Crashes(true), Proposes(q)];
  }
}
