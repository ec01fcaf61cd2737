/** The spend gate for self-driven turns: a daily budget and a cooldown, over whole runs. */
module Budget {
  import opened Options
  import opened Clock

  /** The persisted ledger. No date means never spent; a stamp may be unusable text. */
  datatype Stamp = NoStamp | UnusableStamp | StampAt(time: real)

  datatype Ledger = Ledger(date: Option<int>, turnsUsed: int, lastTurnAt: Stamp)

  datatype Decision = Admit | Defer | Skip

  /** The gate's configuration; its constructor rejects non-positive values. */
  datatype Gate = Gate(dailyTurnBudget: int, turnCooldown: real) {
    predicate Valid() {
      dailyTurnBudget > 0 && turnCooldown > 0.0
    }

    function UsedToday(ledger: Ledger, r: Reading): int {
      if ledger.date == Some(r.LocalDay()) then ledger.turnsUsed else 0
    }

    /** Seconds since the stamp; none for a missing, unusable or future one. */
    static function SecondsSince(stamp: Stamp, now: real): Option<real> {
      if stamp.StampAt? && now - stamp.time >= 0.0 then Some(now - stamp.time) else None
    }

    function Evaluate(ledger: Ledger, r: Reading, cost: int): Decision {
      if UsedToday(ledger, r) + cost > dailyTurnBudget then Skip
      else
        var since := SecondsSince(ledger.lastTurnAt, r.now);
        if since.Some? && since.value < turnCooldown then Defer else Admit
    }

    function AdmissionPatch(ledger: Ledger, r: Reading, cost: int): Ledger {
      Ledger(Some(r.LocalDay()), UsedToday(ledger, r) + cost, StampAt(r.now))
    }
  }

  /** One proposal reaching the gate with the slot free: when, at what cost, and whether recording the
      spend succeeds. */
  datatype Proposal = Proposal(at: Reading, cost: int, recorded: bool)

  /** An admission: a recorded spend, after which the turn is started. */
  predicate Admits(gate: Gate, ledger: Ledger, p: Proposal) {
    gate.Evaluate(ledger, p.at, p.cost) == Admit && p.recorded
  }

  function Spend(gate: Gate, ledger: Ledger, p: Proposal): Ledger {
    if Admits(gate, ledger, p) then gate.AdmissionPatch(ledger, p.at, p.cost) else ledger
  }

  function SpendAll(gate: Gate, start: Ledger, ps: seq<Proposal>): Ledger
    decreases |ps|
  {
    if ps == [] then start else Spend(gate, SpendAll(gate, start, ps[..|ps| - 1]), ps[|ps| - 1])
  }

  /** The proposal at `k` is admitted in the run. */
  predicate AdmittedAt(gate: Gate, start: Ledger, ps: seq<Proposal>, k: nat)
    requires k < |ps|
  {
    Admits(gate, SpendAll(gate, start, ps[..k]), ps[k])
  }

  /** The total cost of the turns admitted on a local day: an account of the run, not of the ledger. */
  function AdmittedOn(gate: Gate, start: Ledger, ps: seq<Proposal>, day: int): int
    decreases |ps|
  {
    if ps == [] then 0
    else
      var n := |ps| - 1;
      AdmittedOn(gate, start, ps[..n], day)
      + if AdmittedAt(gate, start, ps, n) && ps[n].at.LocalDay() == day then ps[n].cost else 0
  }

  // ---- what is asked of the clock ----

  ghost predicate ClockForward(ps: seq<Proposal>) {
    forall j, k :: 0 <= j <= k < |ps| ==> ps[j].at.now <= ps[k].at.now
  }

  /** No day comes back once another has come between. */
  ghost predicate NoReturn(days: seq<int>) {
    forall i, j, k :: 0 <= i < j < k < |days| && days[i] == days[k] ==> days[j] == days[i]
  }

  function DaysOf(ps: seq<Proposal>): (days: seq<int>)
    ensures |days| == |ps| && forall k :: 0 <= k < |ps| ==> days[k] == ps[k].at.LocalDay()
  {
    seq(|ps|, k requires 0 <= k < |ps| => ps[k].at.LocalDay())
  }

  /** The local dates of a run: the ledger's own, then those of the proposals. */
  function RunDays(start: Ledger, ps: seq<Proposal>): seq<int> {
    (if start.date.Some? then [start.date.value] else []) + DaysOf(ps)
  }

  function UsedOn(ledger: Ledger, day: int): int {
    if ledger.date == Some(day) then ledger.turnsUsed else 0
  }

  lemma OneMore(gate: Gate, start: Ledger, ps: seq<Proposal>, p: Proposal, day: int)
    ensures SpendAll(gate, start, ps + [p]) == Spend(gate, SpendAll(gate, start, ps), p)
    ensures AdmittedOn(gate, start, ps + [p], day) == AdmittedOn(gate, start, ps, day)
              + if Admits(gate, SpendAll(gate, start, ps), p) && p.at.LocalDay() == day then p.cost else 0
    ensures RunDays(start, ps + [p]) == RunDays(start, ps) + [p.at.LocalDay()]
  {
    assert (ps + [p])[..|ps|] == ps;
    assert DaysOf(ps + [p]) == DaysOf(ps) + [p.at.LocalDay()];
  }

  // ---- the daily cap ----

  lemma NoReturnDrop(before: seq<int>, dropped: seq<int>, after: seq<int>)
    requires NoReturn(before + dropped + after)
    ensures NoReturn(before + after)
  {
    var short, long := before + after, before + dropped + after;
    forall i, j, k | 0 <= i < j < k < |short| && short[i] == short[k] ensures short[j] == short[i] {
      var a := if i < |before| then i else i + |dropped|;
      var b := if j < |before| then j else j + |dropped|;
      var c := if k < |before| then k else k + |dropped|;
      assert long[a] == short[i] && long[b] == short[j] && long[c] == short[k];
    }
  }

  lemma {:induction false} LedgerDateIsOfTheRun(gate: Gate, start: Ledger, ps: seq<Proposal>)
    ensures var l := SpendAll(gate, start, ps); l.date.Some? ==> l.date.value in RunDays(start, ps)
    decreases |ps|
  {
    if ps != [] {
      var n := |ps| - 1;
      assert ps == ps[..n] + [ps[n]];
      LedgerDateIsOfTheRun(gate, start, ps[..n]);
      OneMore(gate, start, ps[..n], ps[n], 0);
      assert forall d :: d in RunDays(start, ps) <==> d in RunDays(start, ps[..n]) || d == ps[n].at.LocalDay();
      hide RunDays, SpendAll;
    }
  }

  lemma NoDayBetween(days: seq<int>, d: int, last: int)
    requires NoReturn(days + [d] + [last]) && last in days
    ensures d == last
  {
    var all := days + [d] + [last];
    var i :| 0 <= i < |days| && days[i] == last;
    assert all[i] == last && all[|days|] == d && all[|days| + 1] == last;
  }

  /** On a day that may still come the gate sees exactly what was used on it. */
  lemma {:induction false} LedgerKnowsToday(gate: Gate, start: Ledger, ps: seq<Proposal>, day: int)
    requires NoReturn(RunDays(start, ps) + [day])
    ensures UsedOn(SpendAll(gate, start, ps), day) == UsedOn(start, day) + AdmittedOn(gate, start, ps, day)
    decreases |ps|
  {
    if ps != [] {
      var n := |ps| - 1;
      var before, p := ps[..n], ps[n];
      assert ps == before + [p];
      OneMore(gate, start, before, p, day);
      NoReturnDrop(RunDays(start, before), [p.at.LocalDay()], [day]);
      LedgerKnowsToday(gate, start, before, day);
      LedgerDateIsOfTheRun(gate, start, before);
      if p.at.LocalDay() != day && SpendAll(gate, start, before).date == Some(day) {
        NoDayBetween(RunDays(start, before), p.at.LocalDay(), day);
        assert false;
      }
      hide RunDays, SpendAll, AdmittedOn, NoReturn, Reading.LocalDay;
    }
  }

  lemma NoReturnPrefix(days: seq<int>, n: nat)
    requires NoReturn(days) && n <= |days|
    ensures NoReturn(days[..n])
  {
  }

  /** The ledger is exact: for its own day it is what the run started with plus what the run admitted. */
  lemma {:induction false} LedgerIsExact(gate: Gate, start: Ledger, ps: seq<Proposal>, day: int)
    requires NoReturn(RunDays(start, ps))
    ensures var l := SpendAll(gate, start, ps);
            l.date == Some(day) ==> l.turnsUsed == UsedOn(start, day) + AdmittedOn(gate, start, ps, day)
    decreases |ps|
  {
    if ps != [] {
      var n := |ps| - 1;
      var before, p := ps[..n], ps[n];
      assert ps == before + [p];
      OneMore(gate, start, before, p, day);
      LedgerKnowsToday(gate, start, before, p.at.LocalDay());
      NoReturnPrefix(RunDays(start, ps), |RunDays(start, before)|);
      assert RunDays(start, ps)[..|RunDays(start, before)|] == RunDays(start, before);
      LedgerIsExact(gate, start, before, day);
      hide RunDays, SpendAll, AdmittedOn, NoReturn, Reading.LocalDay;
    }
  }

  /** The daily cap holds over the whole run, on every local day, whatever the clock does within a day. */
  lemma {:induction false} DailyCapHolds(gate: Gate, start: Ledger, ps: seq<Proposal>, day: int)
    requires NoReturn(RunDays(start, ps)) && UsedOn(start, day) <= gate.dailyTurnBudget
    ensures UsedOn(start, day) + AdmittedOn(gate, start, ps, day) <= gate.dailyTurnBudget
    decreases |ps|
  {
    if ps != [] {
      var n := |ps| - 1;
      var before, p := ps[..n], ps[n];
      assert ps == before + [p];
      OneMore(gate, start, before, p, day);
      LedgerKnowsToday(gate, start, before, p.at.LocalDay());
      NoReturnPrefix(RunDays(start, ps), |RunDays(start, before)|);
      assert RunDays(start, ps)[..|RunDays(start, before)|] == RunDays(start, before);
      DailyCapHolds(gate, start, before, day);
      hide RunDays, SpendAll, AdmittedOn, NoReturn, Reading.LocalDay;
    }
  }

  // ---- the cooldown ----

  /** After an admission at `j` the stamp lies between it and any later proposal. */
  lemma {:induction false} StampIsBetween(gate: Gate, start: Ledger, ps: seq<Proposal>, j: nat, later: real)
    requires ClockForward(ps) && j < |ps| && AdmittedAt(gate, start, ps, j)
    requires forall k :: 0 <= k < |ps| ==> ps[k].at.now <= later
    ensures var l := SpendAll(gate, start, ps);
            l.lastTurnAt.StampAt? && ps[j].at.now <= l.lastTurnAt.time <= later
    decreases |ps|
  {
    hide Reading.LocalDay, Gate.UsedToday;
    var n := |ps| - 1;
    if j < n {
      assert ps[..n][..j] == ps[..j];
      StampIsBetween(gate, start, ps[..n], j, later);
    }
  }

  /** Any two admissions are at least the cooldown apart, also across a day's rollover, whatever ledger the
      run started with. */
  lemma {:induction false} CooldownHolds(gate: Gate, start: Ledger, ps: seq<Proposal>, j: nat, k: nat)
    requires ClockForward(ps) && j < k < |ps|
    requires AdmittedAt(gate, start, ps, j) && AdmittedAt(gate, start, ps, k)
    ensures ps[k].at.now - ps[j].at.now >= gate.turnCooldown
  {
    assert ps[..k][..j] == ps[..j];
    StampIsBetween(gate, start, ps[..k], j, ps[k].at.now);
    hide SpendAll, Gate.UsedToday, Reading.LocalDay;
  }

  /** A stamp in the future - the clock was set back - never defers; the next admission replaces it. */
  lemma FutureStampRecovers(gate: Gate, ledger: Ledger, p: Proposal)
    requires ledger.lastTurnAt.StampAt? && ledger.lastTurnAt.time > p.at.now
    ensures gate.Evaluate(ledger, p.at, p.cost) != Defer
    ensures Admits(gate, ledger, p) ==> Spend(gate, ledger, p).lastTurnAt == StampAt(p.at.now)
  {
  }

  // ---- exactly what is admitted ----

  /** The latest admission of a run. */
  ghost predicate IsLatest(gate: Gate, start: Ledger, ps: seq<Proposal>, j: nat) {
    && j < |ps| && AdmittedAt(gate, start, ps, j)
    && forall x :: j < x < |ps| ==> !AdmittedAt(gate, start, ps, x)
  }

  ghost predicate NoneAdmitted(gate: Gate, start: Ledger, ps: seq<Proposal>) {
    forall x :: 0 <= x < |ps| ==> !AdmittedAt(gate, start, ps, x)
  }

  /** `now` is at least the cooldown after `earlier`, or before it. */
  predicate Clear(gate: Gate, earlier: real, now: real) {
    now < earlier || now - earlier >= gate.turnCooldown
  }

  /** The cooldown since the latest admission is over; since the stamp the run started with, when there is none. */
  ghost predicate CooledDown(gate: Gate, start: Ledger, ps: seq<Proposal>, now: real) {
    && (forall j: nat :: IsLatest(gate, start, ps, j) ==> Clear(gate, ps[j].at.now, now))
    && (NoneAdmitted(gate, start, ps) && start.lastTurnAt.StampAt? ==> Clear(gate, start.lastTurnAt.time, now))
  }

  lemma PrefixAdmits(gate: Gate, start: Ledger, ps: seq<Proposal>, n: nat)
    requires n <= |ps|
    ensures forall x :: 0 <= x < n ==> (AdmittedAt(gate, start, ps[..n], x) <==> AdmittedAt(gate, start, ps, x))
  {
    hide Admits, SpendAll;
    assert forall x :: 0 <= x < n ==> ps[..n][..x] == ps[..x];
  }

  lemma LatestBefore(gate: Gate, start: Ledger, ps: seq<Proposal>, n: nat, j: nat)
    requires |ps| == n + 1 && !AdmittedAt(gate, start, ps, n)
    ensures IsLatest(gate, start, ps[..n], j) <==> IsLatest(gate, start, ps, j)
    ensures NoneAdmitted(gate, start, ps[..n]) <==> NoneAdmitted(gate, start, ps)
  {
    PrefixAdmits(gate, start, ps, n);
    hide AdmittedAt;
  }

  ghost predicate StampFits(gate: Gate, start: Ledger, ps: seq<Proposal>) {
    var stamp := SpendAll(gate, start, ps).lastTurnAt;
    if NoneAdmitted(gate, start, ps) then stamp == start.lastTurnAt
    else exists j: nat :: IsLatest(gate, start, ps, j) && stamp == StampAt(ps[j].at.now)
  }

  lemma {:induction false} StampIsTheLatest(gate: Gate, start: Ledger, ps: seq<Proposal>)
    ensures StampFits(gate, start, ps)
    decreases |ps|
  {
    if ps != [] {
      var n := |ps| - 1;
      StampIsTheLatest(gate, start, ps[..n]);
      if AdmittedAt(gate, start, ps, n) {
        assert IsLatest(gate, start, ps, n);
        hide Gate.UsedToday, Reading.LocalDay;
      } else {
        assert SpendAll(gate, start, ps) == SpendAll(gate, start, ps[..n]);
        hide SpendAll, AdmittedAt, IsLatest, NoneAdmitted;
        StampStays(gate, start, ps, n);
      }
    }
  }

  lemma StampStays(gate: Gate, start: Ledger, ps: seq<Proposal>, n: nat)
    requires |ps| == n + 1 && !AdmittedAt(gate, start, ps, n) && StampFits(gate, start, ps[..n])
    requires SpendAll(gate, start, ps) == SpendAll(gate, start, ps[..n])
    ensures StampFits(gate, start, ps)
  {
    var before := ps[..n];
    LatestBefore(gate, start, ps, n, 0);
    hide SpendAll, AdmittedAt, NoneAdmitted;
    if !NoneAdmitted(gate, start, before) {
      var j: nat :| IsLatest(gate, start, before, j) && SpendAll(gate, start, before).lastTurnAt == StampAt(before[j].at.now);
      LatestBefore(gate, start, ps, n, j);
    }
  }

  lemma LatestIsOne(gate: Gate, start: Ledger, ps: seq<Proposal>, i: nat, j: nat)
    requires IsLatest(gate, start, ps, i) && IsLatest(gate, start, ps, j)
    ensures i == j && !NoneAdmitted(gate, start, ps)
  {
    hide AdmittedAt;
  }

  lemma StampDecides(gate: Gate, start: Ledger, ps: seq<Proposal>, now: real)
    ensures var since := Gate.SecondsSince(SpendAll(gate, start, ps).lastTurnAt, now);
            since.Some? && since.value < gate.turnCooldown <==> !CooledDown(gate, start, ps, now)
  {
    StampIsTheLatest(gate, start, ps);
    hide SpendAll, IsLatest, NoneAdmitted;
    if j: nat :| IsLatest(gate, start, ps, j) {
      forall i: nat | IsLatest(gate, start, ps, i) ensures i == j && !NoneAdmitted(gate, start, ps) {
        LatestIsOne(gate, start, ps, i, j);
      }
    }
  }

  /** Over any run, forwards or backwards in time, that never returns to a date it left: a proposal is admitted if
      and only if its spend is recorded, the day's budget still has room for its cost, and the cooldown since the
      latest admission is over. */
  lemma AdmittedExactly(gate: Gate, start: Ledger, ps: seq<Proposal>, k: nat)
    requires k < |ps| && NoReturn(RunDays(start, ps[..k]) + [ps[k].at.LocalDay()])
    ensures var before, p, day := ps[..k], ps[k], ps[k].at.LocalDay();
            AdmittedAt(gate, start, ps, k) <==>
              && p.recorded
              && UsedOn(start, day) + AdmittedOn(gate, start, before, day) + p.cost <= gate.dailyTurnBudget
              && CooledDown(gate, start, before, p.at.now)
  {
    var before, p := ps[..k], ps[k];
    LedgerKnowsToday(gate, start, before, p.at.LocalDay());
    StampDecides(gate, start, before, p.at.now);
    hide SpendAll, CooledDown, NoReturn, RunDays, Reading.LocalDay, AdmittedOn;
  }

  // ---- exactly when the cap holds ----

  const NEVER_SPENT: Ledger := Ledger(None, 0, NoStamp)

  /** Proposals at these readings, at costs a job may have. */
  ghost predicate Scheduled(ps: seq<Proposal>, rs: seq<Reading>) {
    |ps| == |rs| && forall k :: 0 <= k < |rs| ==> ps[k].at == rs[k] && ps[k].cost >= 1
  }

  function LocalDays(rs: seq<Reading>): (days: seq<int>)
    ensures |days| == |rs| && forall k :: 0 <= k < |rs| ==> days[k] == rs[k].LocalDay()
  {
    seq(|rs|, k requires 0 <= k < |rs| => rs[k].LocalDay())
  }

  /** Readings at least the cooldown apart. */
  ghost predicate SpacedBy(rs: seq<Reading>, cooldown: real) {
    forall j, k :: 0 <= j < k < |rs| ==> rs[k].now - rs[j].now >= cooldown
  }

  ghost predicate NeverOver(gate: Gate, ps: seq<Proposal>) {
    forall day :: AdmittedOn(gate, NEVER_SPENT, ps, day) <= gate.dailyTurnBudget
  }

  /** Whatever is proposed at these readings, at whatever cost, no day is overspent. */
  ghost predicate CapHoldsAt(gate: Gate, rs: seq<Reading>) {
    forall ps :: Scheduled(ps, rs) ==> NeverOver(gate, ps)
  }

  /** Three full-budget proposals; nothing else is recorded. */
  function Spree(rs: seq<Reading>, budget: int, i: nat, j: nat, k: nat): seq<Proposal> {
    seq(|rs|, x requires 0 <= x < |rs| => Proposal(rs[x], budget, x == i || x == j || x == k))
  }

  /** Between two recorded proposals the ledger stands still. */
  lemma {:induction false} NothingBetween(gate: Gate, ps: seq<Proposal>, m: nat, n: nat)
    requires m <= n <= |ps| && forall x :: m <= x < n ==> !ps[x].recorded
    ensures SpendAll(gate, NEVER_SPENT, ps[..n]) == SpendAll(gate, NEVER_SPENT, ps[..m])
    decreases n
  {
    if m != n {
      assert ps[..n] == ps[..n - 1] + [ps[n - 1]];
      OneMore(gate, NEVER_SPENT, ps[..n - 1], ps[n - 1], 0);
      NothingBetween(gate, ps, m, n - 1);
    }
  }

  lemma FullSpend(gate: Gate, ps: seq<Proposal>, x: nat)
    requires x < |ps| && ps[x].recorded && ps[x].cost == gate.dailyTurnBudget
    requires gate.UsedToday(SpendAll(gate, NEVER_SPENT, ps[..x]), ps[x].at) == 0
    requires var l := SpendAll(gate, NEVER_SPENT, ps[..x]);
             l.lastTurnAt.StampAt? ==> ps[x].at.now - l.lastTurnAt.time >= gate.turnCooldown
    ensures AdmittedAt(gate, NEVER_SPENT, ps, x)
    ensures SpendAll(gate, NEVER_SPENT, ps[..x + 1])
         == Ledger(Some(ps[x].at.LocalDay()), gate.dailyTurnBudget, StampAt(ps[x].at.now))
  {
    assert ps[..x + 1] == ps[..x] + [ps[x]];
    OneMore(gate, NEVER_SPENT, ps[..x], ps[x], 0);
    hide SpendAll, Reading.LocalDay;
  }

  /** A full-budget proposal at `x`, the next recorded one after `l` was reached, is admitted. */
  lemma NextSpend(gate: Gate, ps: seq<Proposal>, m: nat, l: Ledger, x: nat)
    requires m <= x < |ps| && SpendAll(gate, NEVER_SPENT, ps[..m]) == l
    requires (forall y :: m <= y < x ==> !ps[y].recorded) && ps[x].recorded && ps[x].cost == gate.dailyTurnBudget
    requires gate.UsedToday(l, ps[x].at) == 0
    requires l.lastTurnAt.StampAt? ==> ps[x].at.now - l.lastTurnAt.time >= gate.turnCooldown
    ensures AdmittedAt(gate, NEVER_SPENT, ps, x)
    ensures SpendAll(gate, NEVER_SPENT, ps[..x + 1])
         == Ledger(Some(ps[x].at.LocalDay()), gate.dailyTurnBudget, StampAt(ps[x].at.now))
  {
    hide SpendAll, Admits, Reading.LocalDay, Gate.UsedToday;
    NothingBetween(gate, ps, m, x);
    FullSpend(gate, ps, x);
  }

  lemma SpreeIsAdmitted(gate: Gate, rs: seq<Reading>, i: nat, j: nat, k: nat)
    requires gate.Valid() && SpacedBy(rs, gate.turnCooldown) && i < j < k < |rs|
    requires rs[i].LocalDay() == rs[k].LocalDay() != rs[j].LocalDay()
    ensures var ps := Spree(rs, gate.dailyTurnBudget, i, j, k);
            AdmittedAt(gate, NEVER_SPENT, ps, i) && AdmittedAt(gate, NEVER_SPENT, ps, k)
  {
    var ps, full := Spree(rs, gate.dailyTurnBudget, i, j, k), gate.dailyTurnBudget;
    assert ps[..0] == [] && SpendAll(gate, NEVER_SPENT, []) == NEVER_SPENT;
    hide SpendAll, AdmittedAt, Reading.LocalDay;
    NextSpend(gate, ps, 0, NEVER_SPENT, i);
    NextSpend(gate, ps, i + 1, Ledger(Some(rs[i].LocalDay()), full, StampAt(rs[i].now)), j);
    NextSpend(gate, ps, j + 1, Ledger(Some(rs[j].LocalDay()), full, StampAt(rs[j].now)), k);
  }

  lemma {:induction false} TwoAdmissionsAdd(gate: Gate, ps: seq<Proposal>, i: nat, k: nat, day: int)
    requires i < k < |ps| && forall x :: 0 <= x < |ps| ==> ps[x].cost >= 1
    requires AdmittedAt(gate, NEVER_SPENT, ps, i) && AdmittedAt(gate, NEVER_SPENT, ps, k)
    requires ps[i].at.LocalDay() == ps[k].at.LocalDay() == day
    ensures AdmittedOn(gate, NEVER_SPENT, ps, day) >= ps[i].cost + ps[k].cost
    decreases |ps|
  {
    var n := |ps| - 1;
    hide SpendAll, Admits, Reading.LocalDay;
    if k < n {
      assert ps[..n][..i] == ps[..i] && ps[..n][..k] == ps[..k];
      TwoAdmissionsAdd(gate, ps[..n], i, k, day);
    } else {
      assert ps[..n][..i] == ps[..i];
      OneAdmissionAdds(gate, ps[..n], i, day);
    }
  }

  lemma {:induction false} OneAdmissionAdds(gate: Gate, ps: seq<Proposal>, i: nat, day: int)
    requires i < |ps| && forall x :: 0 <= x < |ps| ==> ps[x].cost >= 1
    requires AdmittedAt(gate, NEVER_SPENT, ps, i) && ps[i].at.LocalDay() == day
    ensures AdmittedOn(gate, NEVER_SPENT, ps, day) >= ps[i].cost
    decreases |ps|
  {
    var n := |ps| - 1;
    hide SpendAll, Admits, Reading.LocalDay;
    if i < n {
      assert ps[..n][..i] == ps[..i];
      OneAdmissionAdds(gate, ps[..n], i, day);
    } else {
      AdmittedIsNotNegative(gate, ps[..n], day);
    }
  }

  lemma {:induction false} AdmittedIsNotNegative(gate: Gate, ps: seq<Proposal>, day: int)
    requires forall x :: 0 <= x < |ps| ==> ps[x].cost >= 1
    ensures AdmittedOn(gate, NEVER_SPENT, ps, day) >= 0
    decreases |ps|
  {
    if ps != [] { AdmittedIsNotNegative(gate, ps[..|ps| - 1], day); }
  }

  /** For every valid gate and every schedule of readings at least its cooldown apart, the cap is safe
      against all proposals if and only if no local date is left and returned to. */
  lemma CapHoldsExactly(gate: Gate, rs: seq<Reading>)
    requires gate.Valid() && SpacedBy(rs, gate.turnCooldown)
    ensures CapHoldsAt(gate, rs) <==> NoReturn(LocalDays(rs))
  {
    if NoReturn(LocalDays(rs)) {
      forall ps | Scheduled(ps, rs) ensures NeverOver(gate, ps) {
        assert RunDays(NEVER_SPENT, ps) == LocalDays(rs);
        forall day ensures AdmittedOn(gate, NEVER_SPENT, ps, day) <= gate.dailyTurnBudget {
          DailyCapHolds(gate, NEVER_SPENT, ps, day);
        }
      }
    } else {
      ReturnOverspends(gate, rs);
    }
  }

  lemma ReturnOverspends(gate: Gate, rs: seq<Reading>)
    requires gate.Valid() && SpacedBy(rs, gate.turnCooldown) && !NoReturn(LocalDays(rs))
    ensures !CapHoldsAt(gate, rs)
  {
    var days := LocalDays(rs);
    var i, j, k :| 0 <= i < j < k < |days| && days[i] == days[k] && days[j] != days[i];
    var ps := Spree(rs, gate.dailyTurnBudget, i, j, k);
    SpreeIsAdmitted(gate, rs, i, j, k);
    hide AdmittedAt, Reading.LocalDay;
    TwoAdmissionsAdd(gate, ps, i, k, days[i]);
    assert Scheduled(ps, rs) && !NeverOver(gate, ps);
  }

  /** Such a schedule, well within what travel does: noon in one zone, half an hour later the next date
      fourteen hours east, and back. Every gate with the default cooldown or less spends twice its budget. */
  lemma MovingDateOverspends(gate: Gate)
    requires gate.Valid() && gate.turnCooldown <= 1800.0
    ensures var on := (now: real, offset: real) => Proposal(Reading(now, offset), gate.dailyTurnBudget, true);
            AdmittedOn(gate, NEVER_SPENT, [on(50000.0, 0.0), on(51800.0, 50400.0), on(53600.0, 0.0)], 0)
              == 2 * gate.dailyTurnBudget
  {
    var full := gate.dailyTurnBudget;
    var a, b, c := Proposal(Reading(50000.0, 0.0), full, true), Proposal(Reading(51800.0, 50400.0), full, true),
                   Proposal(Reading(53600.0, 0.0), full, true);
    assert a.at.LocalDay() == 0 && b.at.LocalDay() == 1 && c.at.LocalDay() == 0;
    assert AdmittedOn(gate, NEVER_SPENT, [], 0) == 0 && SpendAll(gate, NEVER_SPENT, []) == NEVER_SPENT;
    hide SpendAll, AdmittedOn, Reading.LocalDay, RunDays;
    assert [] + [a] == [a];
    OneMore(gate, NEVER_SPENT, [], a, 0);
    var first := Ledger(Some(0), full, StampAt(50000.0));
    assert Spend(gate, NEVER_SPENT, a) == first;
    assert [a] + [b] == [a, b];
    OneMore(gate, NEVER_SPENT, [a], b, 0);
    var second := Ledger(Some(1), full, StampAt(51800.0));
    assert Spend(gate, first, b) == second;
    assert [a, b] + [c] == [a, b, c];
    OneMore(gate, NEVER_SPENT, [a, b], c, 0);
    assert Admits(gate, second, c);
  }
}
