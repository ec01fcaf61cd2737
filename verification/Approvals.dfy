/** Parked approvals: what a turn parks, how a tap consumes it, and what may then run. */
module Approvals {
  import opened Options
  import opened Timestamps
  import opened Conversation
  import opened ToolLoop
  import opened TurnFencing
  import opened Text

  /** One hour, in microseconds. */
  const APPROVAL_TTL: nat := 3_600_000_000
  const MAX_PROPOSED_OPS: nat := 16
  const DIRECTIVE: string := "rewrite_directive"

  /** The resumable state: the decoded `(messages, call)` blob. */
  datatype Parked = Parked(messages: seq<Message>, call: ToolCall)

  /** A row of a table of parked things; the expiry is a stored timestamp. */
  datatype Row<T> = Row(expires: string, item: T)

  type Table<T> = map<TurnId, Row<T>>

  // ---- the tables ----

  /** `INSERT OR REPLACE` with `expires_at` = now + ttl; past year 9999 the addition raises and nothing
      is stored. */
  function Park<T>(table: Table<T>, turn: TurnId, item: T, now: nat): Table<T> {
    var expires := now + APPROVAL_TTL;
    if Representable(expires) then table[turn := Row(IsoAt(expires), item)] else table
  }

  /** Read, decide expiry and delete in one transaction: the row is consumed either way. */
  function Take<T>(table: Table<T>, turn: TurnId, now: nat): (Option<T>, Table<T>)
    requires Representable(now)
  {
    if turn !in table then (None, table)
    else (if NotAfter(table[turn].expires, IsoAt(now)) then None else Some(table[turn].item), table - {turn})
  }

  function Prune<T>(table: Table<T>, now: nat): Table<T>
    requires Representable(now)
  {
    map turn | turn in table && !NotAfter(table[turn].expires, IsoAt(now)) :: table[turn]
  }

  /** Every row was parked at some instant, and expires one ttl later. */
  ghost predicate ParkedAt<T>(table: Table<T>, turn: TurnId, now: nat)
    requires turn in table
  {
    var expires := now + APPROVAL_TTL;
    Representable(expires) && table[turn].expires == IsoAt(expires)
  }

  /** Taking and pruning compare strings, and thereby decide exactly "strictly before expiry". */
  lemma ExpiryIsExact<T>(table: Table<T>, turn: TurnId, parked: nat, now: nat)
    requires turn in table && ParkedAt(table, turn, parked) && Representable(now)
    ensures Take(table, turn, now).0.Some? <==> now < parked + APPROVAL_TTL
    ensures turn in Prune(table, now) <==> now < parked + APPROVAL_TTL
    ensures turn !in Take(table, turn, now).1
  {
    ExpiryTestIsExact(parked + APPROVAL_TTL, now);
  }

  class HistoryStore {
    var approvals: Table<Parked>
    var promotions: Table<string>

    constructor ()
      ensures approvals == map[] && promotions == map[]
    {
      approvals, promotions := map[], map[];
    }

    method ParkApproval(turn: TurnId, item: Parked, now: nat)
      modifies this`approvals
      ensures approvals == Park(old(approvals), turn, item, now)
    {
      var expires := now + APPROVAL_TTL;
      if Representable(expires) {
        approvals := approvals[turn := Row(IsoAt(expires), item)];
      }
    }

    method TakeApproval(turn: TurnId, now: nat) returns (item: Option<Parked>)
      requires Representable(now)
      modifies this`approvals
      ensures (item, approvals) == Take(old(approvals), turn, now)
    {
      if turn !in approvals {
        return None;
      }
      var row := approvals[turn];
      var expired := NotAfter(row.expires, IsoAt(now));
      approvals := approvals - {turn};
      return if expired then None else Some(row.item);
    }

    method PruneExpiredApprovals(now: nat)
      requires Representable(now)
      modifies this`approvals
      ensures approvals == Prune(old(approvals), now)
    {
      approvals := approvals - (set turn | turn in approvals && NotAfter(approvals[turn].expires, IsoAt(now)));
    }

    method TakePromotion(turn: TurnId, now: nat) returns (tool: Option<string>)
      requires Representable(now)
      modifies this`promotions
      ensures (tool, promotions) == Take(old(promotions), turn, now)
    {
      if turn !in promotions {
        return None;
      }
      var row := promotions[turn];
      var expired := NotAfter(row.expires, IsoAt(now));
      promotions := promotions - {turn};
      return if expired then None else Some(row.item);
    }

    /** `_handle_approval_decision`: a promotion first, then an idle slot, then the parked call, which is
        dropped when its state no longer decodes. */
    method HandleDecision(turn: TurnId, approved: bool, now: nat, idle: bool, decodes: bool, spawned: bool)
      returns (settled: seq<Settled>)
      requires Representable(now)
      modifies this
      ensures Store(approvals, promotions, settled)
           == Step(Store(old(approvals), old(promotions), []), Tap(turn, approved, now, idle, decodes, spawned), 0)
    {
      var tool := TakePromotion(turn, now);
      if tool.Some? || !idle {
        return [];
      }
      var item := TakeApproval(turn, now);
      if item.None? || !decodes {
        return [];
      }
      return [Settled(turn, item.value, Settle(item.value, approved, spawned), 0)];
    }

    /** The parking part of `_apply_proposed_ops`: the first op within the cap that asks for approval and
        whose write succeeds is parked; one that raised leaves the place to a later op. */
    method ApplyProposedOps(ops: seq<Op>, turn: TurnId, ownerPresent: bool, stores: nat -> bool, now: nat)
      modifies this`approvals
      ensures approvals == match FirstStored(Capped(ops), ownerPresent, stores, 0)
                           case Some(item) => Park(old(approvals), turn, item, now)
                           case None => old(approvals)
    {
      var capped := Capped(ops);
      var parked := false;
      for k := 0 to |capped|
        invariant !parked ==> approvals == old(approvals)
        invariant !parked ==> !Representable(now + APPROVAL_TTL)
                              || FirstStored(capped, ownerPresent, stores, 0) == FirstStored(capped, ownerPresent, stores, k)
        invariant parked ==> FirstStored(capped, ownerPresent, stores, 0).Some?
                             && approvals == Park(old(approvals), turn, FirstStored(capped, ownerPresent, stores, 0).value, now)
      {
        var asks := Asks(capped[k], ownerPresent);
        if asks.Some? && !parked && stores(k) {
          ParkApproval(turn, asks.value, now);
          parked := Representable(now + APPROVAL_TTL);
        }
      }
    }
  }

  // ---- what a turn parks ----

  function Capped(ops: seq<Op>): seq<Op> {
    if |ops| > MAX_PROPOSED_OPS then ops[..MAX_PROPOSED_OPS] else ops
  }

  predicate IsBlank(text: string) {
    Strip(text) == []
  }

  /** What an op parks; a directive change only on an owner-present turn, and never a blank one. */
  function Asks(op: Op, ownerPresent: bool): Option<Parked> {
    match op
    case RequestApproval(call, _, messages) => Some(Parked(messages, call))
    case RewriteDirective(content) =>
      if ownerPresent && !IsBlank(content) then Some(Parked([], ToolCall("directive", DIRECTIVE, map["content" := content])))
      else None
    case Rewrite(_, _) => None
    case OtherOp(_) => None
  }

  /** From the `i`-th op on, the first that asks and whose write succeeds. */
  function FirstStored(ops: seq<Op>, ownerPresent: bool, stores: nat -> bool, i: nat): Option<Parked>
    decreases |ops| - i
  {
    if i >= |ops| then None
    else if Asks(ops[i], ownerPresent).Some? && stores(i) then Asks(ops[i], ownerPresent)
    else FirstStored(ops, ownerPresent, stores, i + 1)
  }

  /** `_handle_result` tags the reply for Approve/Deny when any op, capped or not, may need it. */
  predicate TagsReply(ops: seq<Op>, ownerPresent: bool) {
    exists k :: 0 <= k < |ops| && (ops[k].RequestApproval? || (ops[k].RewriteDirective? && ownerPresent))
  }

  lemma {:induction false} FirstStoredFinds(ops: seq<Op>, ownerPresent: bool, stores: nat -> bool, i: nat)
    ensures FirstStored(ops, ownerPresent, stores, i).Some? <==>
              exists k: nat :: i <= k < |ops| && Asks(ops[k], ownerPresent).Some? && stores(k)
    decreases |ops| - i
  {
    if i < |ops| { FirstStoredFinds(ops, ownerPresent, stores, i + 1); }
  }

  /** What is parked is what the first such op asks for: a call with its conversation, or the directive. */
  lemma {:induction false} FirstStoredIs(ops: seq<Op>, ownerPresent: bool, stores: nat -> bool, i: nat, k: nat)
    requires i <= k < |ops| && stores(k) && Asks(ops[k], ownerPresent).Some?
    requires forall j :: i <= j < k ==> !(Asks(ops[j], ownerPresent).Some? && stores(j))
    ensures var item := FirstStored(ops, ownerPresent, stores, i);
            && (ops[k].RequestApproval? ==> item == Some(Parked(ops[k].messages, ops[k].call)))
            && (ops[k].RewriteDirective? ==>
                  item == Some(Parked([], ToolCall("directive", DIRECTIVE, map["content" := ops[k].content]))))
            && (ops[k].RequestApproval? || (ops[k].RewriteDirective? && ownerPresent && !IsBlank(ops[k].content)))
    decreases k - i
  {
    hide IsBlank;
    if i < k { FirstStoredIs(ops, ownerPresent, stores, i + 1, k); }
  }

  /** Whatever is parked, the reply was tagged for approval. */
  lemma ParkedIsTagged(ops: seq<Op>, ownerPresent: bool, stores: nat -> bool)
    requires FirstStored(Capped(ops), ownerPresent, stores, 0).Some?
    ensures TagsReply(ops, ownerPresent)
  {
    FirstStoredFinds(Capped(ops), ownerPresent, stores, 0);
    var k: nat :| k < |Capped(ops)| && Asks(Capped(ops)[k], ownerPresent).Some?;
    assert ops[k] == Capped(ops)[k];
  }

  /** A tagged reply may have parked nothing, even when every write succeeds: for an op past the cap, or for a
      blank directive. Its tap then finds nothing. */
  lemma TaggedMayNotBeParked(call: ToolCall)
    ensures var late := seq(16, _ => OtherOp("")) + [RequestApproval(call, "", [])];
            TagsReply(late, true) && FirstStored(Capped(late), true, _ => true, 0).None?
    ensures TagsReply([RewriteDirective(" ")], true)
            && FirstStored(Capped([RewriteDirective(" ")]), true, _ => true, 0).None?
  {
    var late := seq(16, _ => OtherOp("")) + [RequestApproval(call, "", [])];
    assert late[16].RequestApproval?;
    FirstStoredFinds(Capped(late), true, _ => true, 0);
    assert [RewriteDirective(" ")][0].RewriteDirective?;
    FirstStoredFinds(Capped([RewriteDirective(" ")]), true, _ => true, 0);
  }

  /** Tagged and parked agree exactly when some asking op is within the cap, is no blank directive, and is
      written. */
  lemma TaggedIsParkedExactly(ops: seq<Op>, ownerPresent: bool, stores: nat -> bool)
    requires TagsReply(ops, ownerPresent)
    ensures FirstStored(Capped(ops), ownerPresent, stores, 0).Some? <==>
              exists k: nat :: k < |ops| && k < MAX_PROPOSED_OPS && stores(k) &&
                (ops[k].RequestApproval? || (ops[k].RewriteDirective? && ownerPresent && !IsBlank(ops[k].content)))
  {
    FirstStoredFinds(Capped(ops), ownerPresent, stores, 0);
    assert forall k :: 0 <= k < |Capped(ops)| ==> Capped(ops)[k] == ops[k];
    hide FirstStored, IsBlank;
  }

  /** A pause of the tool loop is parked, when its write succeeds, with exactly its conversation and call. */
  lemma LoopPauseIsParked(w: World, messages: seq<Message>, ownerPresent: bool, stores: nat -> bool)
    requires RunFrom(w, 0, messages, []).pause.Some? && stores(0)
    ensures var run := RunFrom(w, 0, messages, []);
            FirstStored(Capped(run.result.ops), ownerPresent, stores, 0)
              == Some(Parked(run.pause.value.messages, run.pause.value.call))
  {
    LoopNeverRunsRisky(w, 0, messages, []);
    var run := RunFrom(w, 0, messages, []);
    assert run.result.ops[0] == PauseOp(run.pause)[0];
    hide RunFrom;
  }

  // ---- runs of parking, pruning and tapping ----

  datatype Event =
    | ParkCall(turn: TurnId, item: Parked, now: nat)
    | ParkTool(turn: TurnId, tool: string, now: nat)
    | PruneAll(now: nat)
    | Tap(turn: TurnId, approved: bool, now: nat, idle: bool, decodes: bool, spawned: bool)

  /** How a taken call was settled. */
  datatype Fate = Resumed(approved: bool) | DirectiveApplied | DirectiveDeclined | ResumeLost

  datatype Settled = Settled(turn: TurnId, item: Parked, fate: Fate, tap: nat)

  datatype Store = Store(approvals: Table<Parked>, promotions: Table<string>, settled: seq<Settled>)

  const EMPTY: Store := Store(map[], map[], [])

  function Settle(item: Parked, approved: bool, spawned: bool): Fate {
    if item.call.name == DIRECTIVE then (if approved then DirectiveApplied else DirectiveDeclined)
    else if spawned then Resumed(approved) else ResumeLost
  }

  /** The parked call runs: in the resumed worker, or in core for a directive. */
  predicate Runs(fate: Fate) {
    fate == DirectiveApplied || fate == Resumed(true)
  }

  /** One event; `clock` counts the events before it. A tap settles a promotion first, waits for an idle
      slot otherwise, and only then consumes the parked call, settling it if its state decodes. */
  function Step(s: Store, e: Event, clock: nat): Store
    requires Representable(e.now)
  {
    match e
    case ParkCall(turn, item, now) => s.(approvals := Park(s.approvals, turn, item, now))
    case ParkTool(turn, tool, now) => s.(promotions := Park(s.promotions, turn, tool, now))
    case PruneAll(now) => s.(approvals := Prune(s.approvals, now), promotions := Prune(s.promotions, now))
    case Tap(turn, approved, now, idle, decodes, spawned) =>
      var (tool, promotions) := Take(s.promotions, turn, now);
      if tool.Some? || !idle then s.(promotions := promotions)
      else
        var (item, approvals) := Take(s.approvals, turn, now);
        var consumed := s.(promotions := promotions, approvals := approvals);
        if item.None? || !decodes then consumed
        else consumed.(settled := s.settled + [Settled(turn, item.value, Settle(item.value, approved, spawned), clock)])
  }

  ghost predicate Dated(events: seq<Event>) {
    forall k :: 0 <= k < |events| ==> Representable(events[k].now)
  }

  function After(events: seq<Event>): Store
    requires Dated(events)
    decreases |events|
  {
    if events == [] then EMPTY
    else Step(After(events[..|events| - 1]), events[|events| - 1], |events| - 1)
  }

  /** Each turn parks at most one call: its Result is accepted once, and its ops park once. */
  ghost predicate ParksOnce(events: seq<Event>) {
    forall j, k :: 0 <= j < k < |events| && events[j].ParkCall? && events[k].ParkCall? ==> events[j].turn != events[k].turn
  }

  ghost predicate ParkedBefore(events: seq<Event>, turn: TurnId, item: Parked, k: nat) {
    k < |events| && events[k].ParkCall? && events[k].turn == turn && events[k].item == item
  }

  /** A row in the table comes from its parking. */
  ghost predicate RowExplained(events: seq<Event>, s: Store, turn: TurnId)
    requires turn in s.approvals
  {
    exists k: nat :: ParkedBefore(events, turn, s.approvals[turn].item, k) && ParkedAt(s.approvals, turn, events[k].now)
  }

  /** What a tap makes of the call it took: a directive is applied or declined; any other call goes, with the
      owner's answer, to a resumed worker - or is lost with a failed fork. */
  ghost predicate FateFits(call: ToolCall, tap: Event, fate: Fate)
    requires tap.Tap?
  {
    match fate
    case DirectiveApplied => call.name == DIRECTIVE && tap.approved
    case DirectiveDeclined => call.name == DIRECTIVE && !tap.approved
    case Resumed(approved) => call.name != DIRECTIVE && tap.spawned && approved == tap.approved
    case ResumeLost => call.name != DIRECTIVE && !tap.spawned
  }

  /** A settled call was parked before a tap on its turn that came strictly before expiry, and met the fate of
      that tap. */
  ghost predicate SettledExplained(events: seq<Event>, e: Settled) {
    && e.tap < |events| && events[e.tap].Tap? && events[e.tap].turn == e.turn
    && FateFits(e.item.call, events[e.tap], e.fate)
    && exists k: nat :: ParkedBefore(events, e.turn, e.item, k) && k < e.tap
                        && events[e.tap].now < events[k].now + APPROVAL_TTL
  }

  ghost predicate StoreOk(events: seq<Event>, s: Store) {
    && (forall turn :: turn in s.approvals ==> RowExplained(events, s, turn))
    && (forall i :: 0 <= i < |s.settled| ==> s.settled[i].turn !in s.approvals && SettledExplained(events, s.settled[i]))
    && (forall i, j :: 0 <= i < j < |s.settled| ==> s.settled[i].turn != s.settled[j].turn)
  }

  lemma RowStaysExplained(events: seq<Event>, more: Event, s: Store, t: Store, turn: TurnId)
    requires turn in s.approvals && RowExplained(events, s, turn)
    requires turn in t.approvals && t.approvals[turn] == s.approvals[turn]
    ensures RowExplained(events + [more], t, turn)
  {
    hide Representable, IsoAt, At;
    var k: nat :| ParkedBefore(events, turn, s.approvals[turn].item, k) && ParkedAt(s.approvals, turn, events[k].now);
    assert ParkedBefore(events + [more], turn, t.approvals[turn].item, k);
  }

  lemma SettledStaysExplained(events: seq<Event>, more: Event, e: Settled)
    requires SettledExplained(events, e)
    ensures SettledExplained(events + [more], e)
  {
    var k: nat :| ParkedBefore(events, e.turn, e.item, k) && k < e.tap && events[e.tap].now < events[k].now + APPROVAL_TTL;
    assert ParkedBefore(events + [more], e.turn, e.item, k);
  }

  /** Events that only remove rows, or touch no call. */
  lemma ShrinkingOk(events: seq<Event>, more: Event, s: Store, t: Store)
    requires StoreOk(events, s) && t.settled == s.settled
    requires forall turn :: turn in t.approvals ==> turn in s.approvals && t.approvals[turn] == s.approvals[turn]
    ensures StoreOk(events + [more], t)
  {
    forall turn | turn in t.approvals ensures RowExplained(events + [more], t, turn) {
      RowStaysExplained(events, more, s, t, turn);
    }
    forall i | 0 <= i < |t.settled| ensures SettledExplained(events + [more], t.settled[i]) {
      SettledStaysExplained(events, more, s.settled[i]);
    }
  }

  /** A settled turn was parked earlier, so it is not parked again. */
  lemma NotParkedAgain(events: seq<Event>, more: Event, s: Store, i: nat)
    requires StoreOk(events, s) && ParksOnce(events + [more]) && more.ParkCall? && i < |s.settled|
    ensures s.settled[i].turn != more.turn
  {
    var e := s.settled[i];
    assert SettledExplained(events, e);
    var k: nat :| ParkedBefore(events, e.turn, e.item, k);
    assert (events + [more])[k] == events[k] && (events + [more])[|events|] == more;
  }

  lemma ParkOk(events: seq<Event>, more: Event, s: Store)
    requires StoreOk(events, s) && ParksOnce(events + [more]) && more.ParkCall? && Representable(more.now)
    ensures StoreOk(events + [more], Step(s, more, |events|))
  {
    var t := Step(s, more, |events|);
    forall turn | turn in t.approvals ensures RowExplained(events + [more], t, turn) {
      if turn in s.approvals && t.approvals[turn] == s.approvals[turn] {
        RowStaysExplained(events, more, s, t, turn);
      } else {
        assert ParkedBefore(events + [more], turn, more.item, |events|) && ParkedAt(t.approvals, turn, more.now);
      }
    }
    forall i | 0 <= i < |t.settled|
      ensures t.settled[i].turn !in t.approvals && SettledExplained(events + [more], t.settled[i])
    {
      SettledStaysExplained(events, more, s.settled[i]);
      NotParkedAgain(events, more, s, i);
    }
  }

  /** A tap that finds its call finds it parked, and strictly before expiry. */
  lemma TakenIsExplained(events: seq<Event>, s: Store, turn: TurnId, now: nat)
    requires StoreOk(events, s) && Representable(now) && Take(s.approvals, turn, now).0.Some?
    ensures exists k: nat :: ParkedBefore(events, turn, s.approvals[turn].item, k)
                             && now < events[k].now + APPROVAL_TTL
  {
    assert RowExplained(events, s, turn);
    var k: nat :| ParkedBefore(events, turn, s.approvals[turn].item, k) && ParkedAt(s.approvals, turn, events[k].now);
    ExpiryIsExact(s.approvals, turn, events[k].now, now);
  }

  lemma TapIsExplained(events: seq<Event>, more: Event, s: Store)
    requires StoreOk(events, s) && more.Tap? && Representable(more.now) && Take(s.approvals, more.turn, more.now).0.Some?
    ensures SettledExplained(events + [more],
              Settled(more.turn, s.approvals[more.turn].item,
                      Settle(s.approvals[more.turn].item, more.approved, more.spawned), |events|))
  {
    var item := s.approvals[more.turn].item;
    TakenIsExplained(events, s, more.turn, more.now);
    var k: nat :| ParkedBefore(events, more.turn, item, k) && more.now < events[k].now + APPROVAL_TTL;
    TakenCallIsExplained(events, more, item, k);
  }

  lemma TakenCallIsExplained(events: seq<Event>, more: Event, item: Parked, k: nat)
    requires more.Tap? && ParkedBefore(events, more.turn, item, k) && more.now < events[k].now + APPROVAL_TTL
    ensures SettledExplained(events + [more],
              Settled(more.turn, item, Settle(item, more.approved, more.spawned), |events|))
  {
    var all := events + [more];
    assert all[k] == events[k] && all[|events|] == more;
    assert ParkedBefore(all, more.turn, item, k);
  }

  lemma TapOk(events: seq<Event>, more: Event, s: Store)
    requires StoreOk(events, s) && more.Tap? && Representable(more.now)
    ensures StoreOk(events + [more], Step(s, more, |events|))
  {
    hide NotAfter, IsoAt, Representable, ParkedAt, SettledExplained, RowExplained;
    var t := Step(s, more, |events|);
    ShrinkingOk(events, more, s, t.(settled := s.settled));
    if t.settled != s.settled {
      TapIsExplained(events, more, s);
      forall turn | turn in t.approvals ensures RowExplained(events + [more], t, turn) {
        RowStaysExplained(events, more, s, t, turn);
      }
    }
  }

  lemma {:induction false} AfterIsOk(events: seq<Event>)
    requires Dated(events) && ParksOnce(events)
    ensures StoreOk(events, After(events))
    decreases |events|
  {
    if events != [] {
      var n := |events| - 1;
      var earlier, more := events[..n], events[n];
      assert events == earlier + [more];
      AfterIsOk(earlier);
      match more
      case ParkCall(_, _, _) => ParkOk(earlier, more, After(earlier));
      case ParkTool(_, _, _) => ShrinkingOk(earlier, more, After(earlier), After(events));
      case PruneAll(_) => ShrinkingOk(earlier, more, After(earlier), After(events));
      case Tap(_, _, _, _, _, _) => TapOk(earlier, more, After(earlier));
    }
  }

  /** Over any run of parking, pruning and tapping, each parked call is settled at most once - so it
      runs at most once, and never after a denial settled it - and it runs only for an approving tap on
      its own turn that came strictly before its expiry. */
  lemma ParkedCallsRunAtMostOnce(events: seq<Event>)
    requires Dated(events) && ParksOnce(events)
    ensures forall i, j :: 0 <= i < j < |After(events).settled| ==> After(events).settled[i].turn != After(events).settled[j].turn
    ensures forall i :: 0 <= i < |After(events).settled| ==> SettledExplained(events, After(events).settled[i])
  {
    AfterIsOk(events);
  }

  /** So what was settled runs if and only if its tap approved it and, unless core itself carries it out, a worker
      was spawned. */
  lemma SettledRunsExactly(events: seq<Event>, e: Settled)
    requires Dated(events) && ParksOnce(events) && e in After(events).settled
    ensures e.tap < |events| && events[e.tap].Tap?
    ensures var t := events[e.tap]; Runs(e.fate) <==> t.approved && (e.item.call.name == DIRECTIVE || t.spawned)
  {
    ParkedCallsRunAtMostOnce(events);
    hide After;
    assert SettledExplained(events, e);
  }

  /** When exactly a tap settles its call: on an idle slot, with no live promotion parked under the same turn,
      strictly before expiry, and with a state that decodes. The row stays exactly when the tap never got
      to it. */
  lemma TimelyTapSettles(s: Store, tap: Event, parked: nat, clock: nat)
    requires tap.Tap? && Representable(tap.now)
    requires tap.turn in s.approvals && ParkedAt(s.approvals, tap.turn, parked)
    ensures tap.idle && Take(s.promotions, tap.turn, tap.now).0.None? && tap.decodes && tap.now < parked + APPROVAL_TTL <==>
              Step(s, tap, clock).settled == s.settled +
                [Settled(tap.turn, s.approvals[tap.turn].item,
                         Settle(s.approvals[tap.turn].item, tap.approved, tap.spawned), clock)]
    ensures tap.turn in Step(s, tap, clock).approvals <==>
              !tap.idle || Take(s.promotions, tap.turn, tap.now).0.Some?
  {
    ExpiryIsExact(s.approvals, tap.turn, parked, tap.now);
    TakenItem(s.approvals, tap.turn, tap.now);
    hide Before, NotAfter, IsoAt, At, Representable, ParkedAt, Settle, Take;
  }

  lemma TakenItem<T>(table: Table<T>, turn: TurnId, now: nat)
    requires turn in table && Representable(now)
    ensures Take(table, turn, now).0.Some? ==> Take(table, turn, now).0.value == table[turn].item
  {
  }

  // ---- a timely approval is carried out ----

  /** The event leaves the call parked under the turn at `parked` in place. */
  ghost predicate LeavesParked(e: Event, turn: TurnId, parked: nat) {
    match e
    case ParkCall(t, _, _) => t != turn
    case ParkTool(_, _, _) => true
    case PruneAll(now) => now < parked + APPROVAL_TTL
    case Tap(t, _, _, _, _, _) => t != turn
  }

  ghost predicate IsParked(s: Store, turn: TurnId, item: Parked, parked: nat) {
    turn in s.approvals && s.approvals[turn].item == item && ParkedAt(s.approvals, turn, parked)
  }

  lemma StaysParked(s: Store, e: Event, clock: nat, turn: TurnId, item: Parked, parked: nat)
    requires Representable(e.now) && IsParked(s, turn, item, parked) && LeavesParked(e, turn, parked)
    ensures IsParked(Step(s, e, clock), turn, item, parked)
  {
    hide Representable, NotAfter, IsoAt, At, Before, Settle, ParkedAt;
    ExpiryIsExact(s.approvals, turn, parked, e.now);
    SameRow(s.approvals, Step(s, e, clock).approvals, turn, parked);
  }

  lemma SameRow<T>(table: Table<T>, other: Table<T>, turn: TurnId, parked: nat)
    requires turn in table && turn in other && other[turn] == table[turn] && ParkedAt(table, turn, parked)
    ensures ParkedAt(other, turn, parked)
  {
    hide Representable, IsoAt;
  }

  lemma JustParked(s: Store, turn: TurnId, item: Parked, now: nat, clock: nat)
    requires Representable(now) && Representable(now + APPROVAL_TTL)
    ensures IsParked(Step(s, ParkCall(turn, item, now), clock), turn, item, now)
  {
    hide Representable, IsoAt, At;
  }

  /** A parked call stays parked until a tap on its turn or its expiry. */
  lemma {:induction false} ParkedUntilTapped(events: seq<Event>, k: nat)
    requires Dated(events) && k < |events| && events[k].ParkCall? && Representable(events[k].now + APPROVAL_TTL)
    requires forall j :: k < j < |events| ==> LeavesParked(events[j], events[k].turn, events[k].now)
    ensures IsParked(After(events), events[k].turn, events[k].item, events[k].now)
    decreases |events|
  {
    var n := |events| - 1;
    hide IsParked, LeavesParked, Representable, Step;
    if k == n {
      JustParked(After(events[..n]), events[k].turn, events[k].item, events[k].now, n);
      assert events[k] == ParkCall(events[k].turn, events[k].item, events[k].now);
    } else {
      ParkedUntilTapped(events[..n], k);
      StaysParked(After(events[..n]), events[n], n, events[k].turn, events[k].item, events[k].now);
    }
  }

  /** The tap approves a call that can be carried out: on an idle slot, its state decodable and, unless it is a
      directive, its worker spawned. */
  ghost predicate Approves(tap: Event, call: ToolCall) {
    tap.Tap? && tap.approved && tap.idle && tap.decodes && (call.name == DIRECTIVE || tap.spawned)
  }

  /** The last thing settled is this call, under this turn and by this tap, and it runs. */
  ghost predicate LastRuns(settled: seq<Settled>, turn: TurnId, item: Parked, tap: nat) {
    settled != [] && var e := settled[|settled| - 1]; e.turn == turn && e.item == item && e.tap == tap && Runs(e.fate)
  }

  lemma ApprovingTapRuns(s: Store, tap: Event, item: Parked, parked: nat, clock: nat)
    requires Representable(tap.now) && Approves(tap, item.call) && IsParked(s, tap.turn, item, parked)
    requires tap.now < parked + APPROVAL_TTL && Take(s.promotions, tap.turn, tap.now).0.None?
    ensures LastRuns(Step(s, tap, clock).settled, tap.turn, item, clock)
  {
    hide Representable, Take, ParkedAt, Step;
    TimelyTapSettles(s, tap, parked, clock);
  }

  /** The call parked at `k` is approved by the next tap on its turn, in time and with no live promotion in the
      way. */
  ghost predicate ApprovedInTime(events: seq<Event>, k: nat, tap: Event) {
    && Dated(events) && Representable(tap.now)
    && k < |events| && events[k].ParkCall? && Representable(events[k].now + APPROVAL_TTL)
    && (forall j :: k < j < |events| ==> LeavesParked(events[j], events[k].turn, events[k].now))
    && Approves(tap, events[k].item.call) && tap.turn == events[k].turn && tap.now < events[k].now + APPROVAL_TTL
    && Take(After(events).promotions, tap.turn, tap.now).0.None?
  }

  /** From parking to carrying out: a call approved in time is settled by that tap, and runs. */
  lemma {:induction false} TimelyApprovalRuns(events: seq<Event>, k: nat, tap: Event)
    requires ApprovedInTime(events, k, tap)
    ensures Dated(events + [tap]) && LastRuns(After(events + [tap]).settled, tap.turn, events[k].item, |events|)
  {
    hide After, LeavesParked, Representable, Take, ParkedAt, Approves, Step, LastRuns, IsParked;
    ParkedUntilTapped(events, k);
    ApprovingTapRuns(After(events), tap, events[k].item, events[k].now, |events|);
    AfterMore(events, tap);
  }

  lemma AfterMore(events: seq<Event>, e: Event)
    requires Dated(events) && Representable(e.now)
    ensures Dated(events + [e]) && After(events + [e]) == Step(After(events), e, |events|)
  {
    hide Step, Representable;
    assert (events + [e])[..|events|] == events && (events + [e])[|events|] == e;
  }
}
