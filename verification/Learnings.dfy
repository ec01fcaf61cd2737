/** The learnings table against its event log. */
module Learnings {
  import opened Options
  import opened Text

  datatype Status = Pending | Promoted | Pruned

  /** What the dream may resolve a learning to. */
  type Verdict = s: Status | s != Pending witness Promoted

  /** A row; its id is its position plus one, since rows are never deleted. */
  datatype Row = Row(key: Option<string>, observation: string, count: nat, status: Status, firstSeen: int, lastSeen: int)

  datatype Event =
    | Captured(observation: string, patternKey: Option<string>, at: int)
    | Resolved(id: int, verdict: Verdict)

  /** A blank key is no key. */
  function KeyOf(patternKey: Option<string>): Option<string> {
    if patternKey.None? || Strip(patternKey.value) == [] then None else Some(Strip(patternKey.value))
  }

  function Find(rows: seq<Row>, key: Option<string>): (i: nat)
    ensures i <= |rows| && (i < |rows| ==> rows[i].key == key) && forall j :: 0 <= j < i ==> rows[j].key != key
  {
    if rows == [] || rows[0].key == key then 0 else 1 + Find(rows[1..], key)
  }

  /** The insert that folds into the row of the same key; rows without a key never conflict. */
  function Upsert(rows: seq<Row>, key: Option<string>, observation: string, now: int): seq<Row> {
    var i := Find(rows, key);
    if key.Some? && i < |rows|
    then rows[i := rows[i].(count := rows[i].count + 1, lastSeen := now, status := Pending)]
    else rows + [Row(key, observation, 1, Pending, now, now)]
  }

  function Capture(rows: seq<Row>, observation: string, patternKey: Option<string>, now: int): seq<Row> {
    if Strip(observation) == [] then rows else Upsert(rows, KeyOf(patternKey), Strip(observation), now)
  }

  function Resolve(rows: seq<Row>, id: int, verdict: Verdict): seq<Row> {
    if 1 <= id <= |rows| && rows[id - 1].status == Pending then rows[id - 1 := rows[id - 1].(status := verdict)] else rows
  }

  function Apply(rows: seq<Row>, e: Event): seq<Row> {
    match e
    case Captured(observation, key, at) => Capture(rows, observation, key, at)
    case Resolved(id, verdict) => Resolve(rows, id, verdict)
  }

  /** The table after a log of events. */
  function Replay(events: seq<Event>): seq<Row>
    decreases |events|
  {
    if events == [] then [] else Apply(Replay(events[..|events| - 1]), events[|events| - 1])
  }

  // ---- the dream's reading list ----

  /** `ORDER BY recurrence_count DESC, id ASC`. */
  predicate Outranks(rows: seq<Row>, a: nat, b: nat)
    requires 1 <= a <= |rows| && 1 <= b <= |rows|
  {
    rows[a - 1].count > rows[b - 1].count || (rows[a - 1].count == rows[b - 1].count && a < b)
  }

  predicate IsPending(rows: seq<Row>, id: int) {
    1 <= id <= |rows| && rows[id - 1].status == Pending
  }

  predicate Ranked(rows: seq<Row>, ids: seq<nat>) {
    && (forall i :: 0 <= i < |ids| ==> IsPending(rows, ids[i]))
    && (forall i, j :: 0 <= i < j < |ids| ==> Outranks(rows, ids[i], ids[j]))
  }

  function Place(rows: seq<Row>, ids: seq<nat>, id: nat): (placed: seq<nat>)
    requires Ranked(rows, ids) && IsPending(rows, id) && id !in ids
    ensures Ranked(rows, placed) && forall x :: x in placed <==> x == id || x in ids
  {
    if ids == [] || Outranks(rows, id, ids[0]) then [id] + ids
    else
      var rest := Place(rows, ids[1..], id);
      assert forall x :: x in ids <==> x == ids[0] || x in ids[1..];
      assert forall i :: 0 <= i < |rest| ==> Outranks(rows, ids[0], rest[i]) by {
        assert forall i :: 0 <= i < |rest| ==> rest[i] in rest;
      }
      [ids[0]] + rest
  }

  /** The pending ids up to `upTo`, in rank order. */
  function RankedUpTo(rows: seq<Row>, upTo: nat): (ids: seq<nat>)
    requires upTo <= |rows|
    ensures Ranked(rows, ids) && forall x :: x in ids <==> IsPending(rows, x) && x <= upTo
  {
    if upTo == 0 then []
    else
      var before := RankedUpTo(rows, upTo - 1);
      if rows[upTo - 1].status == Pending then Place(rows, before, upTo) else before
  }

  /** A negative SQL limit is no limit. */
  function PendingIds(rows: seq<Row>, limit: int): seq<nat> {
    var ids := RankedUpTo(rows, |rows|);
    if 0 <= limit < |ids| then ids[..limit] else ids
  }

  /** The list is the top of the ranking: in order, all pending, and what it leaves out is outranked by all
      of it and left out only because the list is full. */
  lemma {:induction false} PendingListIsTheTop(rows: seq<Row>, limit: int)
    ensures var ids := PendingIds(rows, limit);
            && Ranked(rows, ids) && (0 <= limit ==> |ids| <= limit)
            && forall x :: IsPending(rows, x) && x !in ids ==>
                 |ids| == limit && forall i :: 0 <= i < |ids| ==> Outranks(rows, ids[i], x)
  {
    var all, ids := RankedUpTo(rows, |rows|), PendingIds(rows, limit);
    forall x | IsPending(rows, x) && x !in ids
      ensures |ids| == limit && forall i :: 0 <= i < |ids| ==> Outranks(rows, ids[i], x)
    {
      assert x in all;
      var at :| 0 <= at < |all| && all[at] == x;
      assert forall i :: 0 <= i < |ids| ==> ids[i] == all[i] && ids[i] in ids;
    }
  }

  class LearningsTable {
    var rows: seq<Row>

    constructor ()
      ensures rows == Replay([])
    {
      rows := [];
    }

    /** One atomic statement; afterwards the table is the replay of the longer log. */
    method CaptureLearning(observation: string, patternKey: Option<string>, now: int, ghost log: seq<Event>)
      requires rows == Replay(log)
      modifies this
      ensures rows == Replay(log + [Captured(observation, patternKey, now)])
    {
      assert (log + [Captured(observation, patternKey, now)])[..|log|] == log;
      var text := Strip(observation);
      if text == [] {
        return;
      }
      var key := KeyOf(patternKey);
      var i := Find(rows, key);
      if key.Some? && i < |rows| {
        rows := rows[i := rows[i].(count := rows[i].count + 1, lastSeen := now, status := Pending)];
      } else {
        rows := rows + [Row(key, text, 1, Pending, now, now)];
      }
    }

    method ResolveLearning(id: int, verdict: Verdict, ghost log: seq<Event>) returns (moved: bool)
      requires rows == Replay(log)
      modifies this
      ensures rows == Replay(log + [Resolved(id, verdict)])
      ensures moved == IsPending(old(rows), id)
    {
      assert (log + [Resolved(id, verdict)])[..|log|] == log;
      moved := 1 <= id <= |rows| && rows[id - 1].status == Pending;
      if moved {
        rows := rows[id - 1 := rows[id - 1].(status := verdict)];
      }
    }
  }

  // ---- what the log says, without the table ----

  predicate IsNote(e: Event) {
    e.Captured? && Strip(e.observation) != []
  }

  predicate NotedWith(e: Event, key: Option<string>) {
    IsNote(e) && KeyOf(e.patternKey) == key
  }

  function Notes(events: seq<Event>): nat
    decreases |events|
  {
    if events == [] then 0
    else Notes(events[..|events| - 1]) + if IsNote(events[|events| - 1]) then 1 else 0
  }

  function NotesWith(events: seq<Event>, key: Option<string>): nat
    decreases |events|
  {
    if events == [] then 0
    else NotesWith(events[..|events| - 1], key) + if NotedWith(events[|events| - 1], key) then 1 else 0
  }

  /** A note opens a row when it has no key or a key not noted before. */
  predicate Opens(before: seq<Event>, e: Event) {
    IsNote(e) && (KeyOf(e.patternKey) == None || NotesWith(before, KeyOf(e.patternKey)) == 0)
  }

  function Openings(events: seq<Event>): nat
    decreases |events|
  {
    if events == [] then 0
    else Openings(events[..|events| - 1]) + if Opens(events[..|events| - 1], events[|events| - 1]) then 1 else 0
  }

  function Total(rows: seq<Row>): nat
    decreases |rows|
  {
    if rows == [] then 0 else Total(rows[..|rows| - 1]) + rows[|rows| - 1].count
  }

  // ---- counts ----

  ghost predicate KeysAreUnique(rows: seq<Row>) {
    forall i, j :: 0 <= i < j < |rows| && rows[i].key.Some? ==> rows[i].key != rows[j].key
  }

  ghost predicate CountsMatch(rows: seq<Row>, events: seq<Event>) {
    forall i :: 0 <= i < |rows| ==>
      rows[i].count == if rows[i].key.None? then 1 else NotesWith(events, rows[i].key)
  }

  ghost predicate EveryKeyHasARow(rows: seq<Row>, events: seq<Event>) {
    forall key: string :: NotesWith(events, Some(key)) > 0 <==> exists i :: 0 <= i < |rows| && rows[i].key == Some(key)
  }

  ghost predicate Agrees(rows: seq<Row>, events: seq<Event>) {
    KeysAreUnique(rows) && CountsMatch(rows, events) && EveryKeyHasARow(rows, events)
    && Total(rows) == Notes(events) && |rows| == Openings(events)
  }

  lemma {:induction false} TotalUpdate(rows: seq<Row>, i: nat, row: Row)
    requires i < |rows|
    ensures Total(rows[i := row]) == Total(rows) - rows[i].count + row.count
    decreases |rows|
  {
    var n := |rows| - 1;
    if i < n {
      assert rows[i := row][..n] == rows[..n][i := row];
      TotalUpdate(rows[..n], i, row);
    } else {
      assert rows[i := row][..n] == rows[..n];
    }
  }

  lemma {:induction false} LogStep(events: seq<Event>, e: Event)
    ensures Replay(events + [e]) == Apply(Replay(events), e)
    ensures Notes(events + [e]) == Notes(events) + if IsNote(e) then 1 else 0
    ensures Openings(events + [e]) == Openings(events) + if Opens(events, e) then 1 else 0
    ensures forall key :: NotesWith(events + [e], key) == NotesWith(events, key) + if NotedWith(e, key) then 1 else 0
  {
    assert (events + [e])[..|events|] == events;
  }

  /** Folding keeps every key and raises the one count. */
  ghost predicate Folded(rows: seq<Row>, i: nat, after: seq<Row>)
    requires i < |rows|
  {
    && |after| == |rows|
    && (forall j :: 0 <= j < |rows| ==> after[j].key == rows[j].key)
    && (forall j :: 0 <= j < |rows| ==> after[j].count == rows[j].count + if j == i then 1 else 0)
  }

  lemma {:induction false} CountsAfterFolding(rows: seq<Row>, events: seq<Event>, e: Event, i: nat, after: seq<Row>)
    requires KeysAreUnique(rows) && CountsMatch(rows, events) && i < |rows| && Folded(rows, i, after)
    requires NotedWith(e, rows[i].key) && rows[i].key.Some?
    ensures CountsMatch(after, events + [e])
  {
    LogStep(events, e);
    hide NotesWith, KeyOf, IsNote;
  }

  lemma {:induction false} RowsAfterFolding(rows: seq<Row>, events: seq<Event>, e: Event, i: nat, after: seq<Row>)
    requires EveryKeyHasARow(rows, events) && i < |rows| && Folded(rows, i, after)
    requires NotedWith(e, rows[i].key) && rows[i].key.Some?
    ensures EveryKeyHasARow(after, events + [e])
  {
    LogStep(events, e);
    hide NotesWith, KeyOf, IsNote;
    assert after[i].key == Some(rows[i].key.value);
    forall key: string
      ensures NotesWith(events + [e], Some(key)) > 0 <==> exists j :: 0 <= j < |after| && after[j].key == Some(key)
    {
      if j :| 0 <= j < |rows| && rows[j].key == Some(key) {
        assert after[j].key == Some(key);
      }
    }
  }

  lemma {:induction false} FoldIsFolded(rows: seq<Row>, i: nat, row: Row)
    requires i < |rows| && row.key == rows[i].key && row.count == rows[i].count + 1 && KeysAreUnique(rows)
    ensures var after := rows[i := row];
            Folded(rows, i, after) && KeysAreUnique(after) && Total(after) == Total(rows) + 1
  {
    TotalUpdate(rows, i, row);
    hide Total;
  }

  lemma {:induction false} RowMeansNotes(rows: seq<Row>, events: seq<Event>, i: nat)
    requires EveryKeyHasARow(rows, events) && i < |rows| && rows[i].key.Some?
    ensures NotesWith(events, rows[i].key) > 0
  {
    hide NotesWith;
    assert rows[i].key == Some(rows[i].key.value);
  }

  lemma {:induction false} FoldAgreesAt(rows: seq<Row>, events: seq<Event>, e: Event, i: nat, row: Row)
    requires Agrees(rows, events) && i < |rows| && rows[i].key.Some? && NotedWith(e, rows[i].key)
    requires row.key == rows[i].key && row.count == rows[i].count + 1
    ensures Agrees(rows[i := row], events + [e])
  {
    var after := rows[i := row];
    LogStep(events, e);
    RowMeansNotes(rows, events, i);
    FoldIsFolded(rows, i, row);
    CountsAfterFolding(rows, events, e, i, after);
    RowsAfterFolding(rows, events, e, i, after);
    hide KeysAreUnique, CountsMatch, EveryKeyHasARow, Notes, NotesWith, Openings, Total, Folded, KeyOf;
  }

  lemma {:induction false} FoldAgrees(rows: seq<Row>, events: seq<Event>, e: Event)
    requires Agrees(rows, events) && IsNote(e) && KeyOf(e.patternKey).Some? && Find(rows, KeyOf(e.patternKey)) < |rows|
    ensures Agrees(Apply(rows, e), events + [e])
  {
    var i := Find(rows, KeyOf(e.patternKey));
    hide Agrees, KeyOf, Strip;
    FoldAgreesAt(rows, events, e, i, Apply(rows, e)[i]);
    assert Apply(rows, e) == rows[i := Apply(rows, e)[i]];
  }

  lemma {:induction false} KeysAfterOpening(rows: seq<Row>, row: Row)
    requires KeysAreUnique(rows) && (row.key.Some? ==> forall j :: 0 <= j < |rows| ==> rows[j].key != row.key)
    ensures KeysAreUnique(rows + [row])
  {
  }

  lemma {:induction false} CountsAfterOpening(rows: seq<Row>, events: seq<Event>, e: Event, row: Row)
    requires CountsMatch(rows, events) && NotedWith(e, row.key) && row.count == 1
    requires row.key.Some? ==> NotesWith(events, row.key) == 0 && forall j :: 0 <= j < |rows| ==> rows[j].key != row.key
    ensures CountsMatch(rows + [row], events + [e])
  {
    LogStep(events, e);
    hide NotesWith, KeyOf, IsNote;
    forall j | 0 <= j < |rows| && rows[j].key.Some? ensures NotesWith(events + [e], rows[j].key) == NotesWith(events, rows[j].key) {
    }
  }

  lemma {:induction false} RowsAfterOpening(rows: seq<Row>, events: seq<Event>, e: Event, row: Row)
    requires EveryKeyHasARow(rows, events) && NotedWith(e, row.key)
    ensures EveryKeyHasARow(rows + [row], events + [e])
  {
    LogStep(events, e);
    hide NotesWith, KeyOf, IsNote;
    var after := rows + [row];
    assert after[|rows|] == row;
    forall key: string
      ensures NotesWith(events + [e], Some(key)) > 0 <==> exists i :: 0 <= i < |after| && after[i].key == Some(key)
    {
      if i :| 0 <= i < |rows| && rows[i].key == Some(key) {
        assert after[i].key == Some(key);
      }
    }
  }

  lemma {:induction false} OpenAgrees(rows: seq<Row>, events: seq<Event>, e: Event)
    requires Agrees(rows, events) && IsNote(e)
    requires KeyOf(e.patternKey).Some? ==> Find(rows, KeyOf(e.patternKey)) == |rows|
    ensures Agrees(Apply(rows, e), events + [e])
  {
    var key := KeyOf(e.patternKey);
    LogStep(events, e);
    if key.Some? {
      assert NotesWith(events, Some(key.value)) == 0;
    }
    var row := Row(key, Strip(e.observation), 1, Pending, e.at, e.at);
    assert Apply(rows, e) == rows + [row];
    assert (rows + [row])[..|rows|] == rows;
    assert Total(rows + [row]) == Total(rows) + 1;
    KeysAfterOpening(rows, row);
    CountsAfterOpening(rows, events, e, row);
    RowsAfterOpening(rows, events, e, row);
    hide KeysAreUnique, CountsMatch, EveryKeyHasARow, Notes, NotesWith, Openings, Total, Apply, Find;
  }

  /** The same keys and counts under a log with the same notes. */
  lemma {:induction false} UntouchedAgrees(rows: seq<Row>, events: seq<Event>, after: seq<Row>, longer: seq<Event>)
    requires Agrees(rows, events) && |after| == |rows| && Total(after) == Total(rows)
    requires forall j :: 0 <= j < |rows| ==> after[j].key == rows[j].key && after[j].count == rows[j].count
    requires Notes(longer) == Notes(events) && Openings(longer) == Openings(events)
    requires forall key :: NotesWith(longer, key) == NotesWith(events, key)
    ensures Agrees(after, longer)
  {
    hide Total, Notes, NotesWith, Openings;
  }

  lemma {:induction false} ResolveAgrees(rows: seq<Row>, events: seq<Event>, e: Event)
    requires Agrees(rows, events) && !IsNote(e)
    ensures Agrees(Apply(rows, e), events + [e])
  {
    hide Agrees, Notes, NotesWith, Openings, Find, KeyOf, Upsert, Strip;
    LogStep(events, e);
    var after := Apply(rows, e);
    if e.Resolved? && IsPending(rows, e.id) { TotalUpdate(rows, e.id - 1, after[e.id - 1]); }
    hide Total;
    UntouchedAgrees(rows, events, after, events + [e]);
  }

  /** Over any run: one row per non-blank key and a row for every key noted, each row's count the notes with
      its key, and all counts together the non-blank observations. */
  lemma {:induction false} LedgerMatchesLog(events: seq<Event>)
    ensures Agrees(Replay(events), events)
    decreases |events|
  {
    if events != [] {
      var before, e := events[..|events| - 1], events[|events| - 1];
      assert events == before + [e];
      LedgerMatchesLog(before);
      LogStep(before, e);
      var rows := Replay(before);
      if !IsNote(e) {
        ResolveAgrees(rows, before, e);
      } else if KeyOf(e.patternKey).Some? && Find(rows, KeyOf(e.patternKey)) < |rows| {
        FoldAgrees(rows, before, e);
      } else {
        OpenAgrees(rows, before, e);
      }
    }
  }

  // ---- status ----

  /** Event `j` captures into row `id`, whose key is `key`: same key, or - without one - it opened that row. */
  ghost predicate CapturesInto(events: seq<Event>, j: nat, id: nat, key: Option<string>)
    requires j < |events|
  {
    NotedWith(events[j], key) && (key.None? ==> Openings(events[..j]) == id - 1)
  }

  predicate Settles(e: Event, id: nat) {
    e.Resolved? && e.id == id
  }

  /** Event `j` captures into the row and no resolution comes after it. */
  ghost predicate PendingSince(events: seq<Event>, j: nat, id: nat, key: Option<string>) {
    j < |events| && CapturesInto(events, j, id, key) && forall k :: j < k < |events| ==> !Settles(events[k], id)
  }

  ghost predicate StandsPending(events: seq<Event>, id: nat, key: Option<string>) {
    exists j: nat :: PendingSince(events, j, id, key)
  }

  /** The resolution at `k` met the row pending, and no capture came after it. */
  ghost predicate SettledAt(events: seq<Event>, k: nat, id: nat, key: Option<string>, verdict: Verdict) {
    && k < |events| && events[k] == Resolved(id, verdict) && StandsPending(events[..k], id, key)
    && forall j :: k < j < |events| ==> !CapturesInto(events, j, id, key)
  }

  ghost predicate StandsSettled(events: seq<Event>, id: nat, key: Option<string>, verdict: Verdict) {
    exists k: nat :: SettledAt(events, k, id, key, verdict)
  }

  ghost predicate CapturesNow(events: seq<Event>, e: Event, id: nat, key: Option<string>) {
    NotedWith(e, key) && (key.None? ==> Openings(events) == id - 1)
  }

  lemma {:induction false} EarlierCaptures(events: seq<Event>, e: Event, j: nat, id: nat, key: Option<string>)
    requires j <= |events|
    ensures CapturesInto(events + [e], j, id, key) ==
            if j < |events| then CapturesInto(events, j, id, key) else CapturesNow(events, e, id, key)
  {
    assert (events + [e])[..j] == events[..j];
    assert events[..|events|] == events;
  }

  lemma {:induction false} PendingSinceStep(events: seq<Event>, e: Event, j: nat, id: nat, key: Option<string>)
    ensures PendingSince(events + [e], j, id, key) <==>
            if j == |events| then CapturesNow(events, e, id, key) else PendingSince(events, j, id, key) && !Settles(e, id)
  {
    var longer := events + [e];
    assert longer[|events|] == e;
    if j <= |events| {
      EarlierCaptures(events, e, j, id, key);
      hide CapturesInto, CapturesNow, Settles;
      assert forall k :: j < k < |events| ==> longer[k] == events[k];
    }
  }

  lemma {:induction false} PendingStep(events: seq<Event>, e: Event, id: nat, key: Option<string>)
    ensures StandsPending(events + [e], id, key) <==>
            CapturesNow(events, e, id, key) || (StandsPending(events, id, key) && !Settles(e, id))
  {
    forall j: nat
      ensures PendingSince(events + [e], j, id, key) <==>
              if j == |events| then CapturesNow(events, e, id, key) else PendingSince(events, j, id, key) && !Settles(e, id)
    {
      PendingSinceStep(events, e, j, id, key);
    }
    assert !PendingSince(events, |events|, id, key);
    assert CapturesNow(events, e, id, key) ==> PendingSince(events + [e], |events|, id, key);
    hide PendingSince, CapturesNow, Settles;
  }

  lemma {:induction false} SettledAtStep(events: seq<Event>, e: Event, k: nat, id: nat, key: Option<string>, verdict: Verdict)
    ensures SettledAt(events + [e], k, id, key, verdict) <==>
            if k == |events| then e == Resolved(id, verdict) && StandsPending(events, id, key)
            else SettledAt(events, k, id, key, verdict) && !CapturesNow(events, e, id, key)
  {
    var longer := events + [e];
    assert longer[|events|] == e && longer[..|events|] == events;
    if k < |events| {
      assert longer[..k] == events[..k];
      forall j: nat | k < j <= |events|
        ensures CapturesInto(longer, j, id, key) ==
                if j < |events| then CapturesInto(events, j, id, key) else CapturesNow(events, e, id, key)
      {
        EarlierCaptures(events, e, j, id, key);
      }
      hide CapturesInto, CapturesNow, StandsPending;
      assert CapturesInto(longer, |events|, id, key) == CapturesNow(events, e, id, key);
    }
  }

  lemma {:induction false} SettledStep(events: seq<Event>, e: Event, id: nat, key: Option<string>, verdict: Verdict)
    ensures StandsSettled(events + [e], id, key, verdict) <==>
            || (e == Resolved(id, verdict) && StandsPending(events, id, key))
            || (StandsSettled(events, id, key, verdict) && !CapturesNow(events, e, id, key))
  {
    forall k: nat
      ensures SettledAt(events + [e], k, id, key, verdict) <==>
              if k == |events| then e == Resolved(id, verdict) && StandsPending(events, id, key)
              else SettledAt(events, k, id, key, verdict) && !CapturesNow(events, e, id, key)
    {
      SettledAtStep(events, e, k, id, key, verdict);
    }
    assert !SettledAt(events, |events|, id, key, verdict);
    hide SettledAt, CapturesNow, StandsPending;
    if e == Resolved(id, verdict) && StandsPending(events, id, key) {
      assert SettledAt(events + [e], |events|, id, key, verdict);
    }
  }

  /** What one event does to one row: its key, first wording and first date stay for good. */
  lemma {:induction false} StatusStep(events: seq<Event>, e: Event, id: nat)
    requires 1 <= id <= |Replay(events)|
    ensures var rows, after := Replay(events), Replay(events + [e]);
            && |rows| <= |after| && after[id - 1].key == rows[id - 1].key
            && after[id - 1].observation == rows[id - 1].observation && after[id - 1].firstSeen == rows[id - 1].firstSeen
            && after[id - 1].lastSeen ==
               (if CapturesNow(events, e, id, rows[id - 1].key) then e.at else rows[id - 1].lastSeen)
            && after[id - 1].status ==
               if CapturesNow(events, e, id, rows[id - 1].key) then Pending
               else if Settles(e, id) && rows[id - 1].status == Pending then e.verdict
               else rows[id - 1].status
  {
    LedgerMatchesLog(events);
    LogStep(events, e);
    hide Replay, NotesWith, Openings, Total, CountsMatch, EveryKeyHasARow, Notes, Strip;
  }

  /** A pattern key that is blank, or missing, is none; any other counts without the white space around it. */
  lemma KeyIsExact(patternKey: Option<string>)
    ensures match KeyOf(patternKey)
            case None => patternKey.None? || AllSpace(patternKey.value)
            case Some(key) => patternKey.Some? && IsTrimmed(patternKey.value, key)
  {
    if patternKey.Some? { StripTrims(patternKey.value); }
    hide Strip, AllSpace, IsTrimmed;
  }

  /** A row an event opens is captured into by that event: it holds the event's wording, trimmed, and its date. */
  lemma {:induction false} NewRowStep(events: seq<Event>, e: Event)
    requires |Replay(events + [e])| > |Replay(events)|
    ensures var after := Replay(events + [e]);
            var id := |after|;
            && id == |Replay(events)| + 1
            && after[id - 1].status == Pending && after[id - 1].count == 1
            && CapturesNow(events, e, id, after[id - 1].key)
            && IsTrimmed(e.observation, after[id - 1].observation) && after[id - 1].firstSeen == after[id - 1].lastSeen == e.at
  {
    if e.Captured? { StripTrims(e.observation); }
    hide IsTrimmed, AllSpace;
    LedgerMatchesLog(events);
    LogStep(events, e);
    hide Replay, NotesWith, Openings, Total, CountsMatch, EveryKeyHasARow, Notes, Strip;
  }

  /** The claim of `StatusIsTheLastWord`, for one row. */
  ghost predicate StatusIsLogged(row: Row, events: seq<Event>, id: nat) {
    && (row.status == Pending <==> StandsPending(events, id, row.key))
    && (forall v: Verdict :: row.status == v <==> StandsSettled(events, id, row.key, v))
  }

  lemma {:induction false} KnownRowIsLogged(events: seq<Event>, e: Event, id: nat)
    requires 1 <= id <= |Replay(events)| && StatusIsLogged(Replay(events)[id - 1], events, id)
    ensures |Replay(events)| <= |Replay(events + [e])| && StatusIsLogged(Replay(events + [e])[id - 1], events + [e], id)
  {
    StatusStep(events, e, id);
    var row, after := Replay(events)[id - 1], Replay(events + [e])[id - 1];
    PendingStep(events, e, id, row.key);
    hide Replay, StandsPending, CapturesNow;
    forall v: Verdict ensures after.status == v <==> StandsSettled(events + [e], id, row.key, v) {
      SettledStep(events, e, id, row.key, v);
      hide StandsSettled;
    }
  }

  lemma {:induction false} NewRowIsLogged(events: seq<Event>, e: Event)
    requires |Replay(events + [e])| > |Replay(events)|
    ensures var rows := Replay(events + [e]);
            |rows| == |Replay(events)| + 1 && StatusIsLogged(rows[|rows| - 1], events + [e], |rows|)
  {
    NewRowStep(events, e);
    var id := |Replay(events + [e])|;
    var row := Replay(events + [e])[id - 1];
    PendingStep(events, e, id, row.key);
    assert e.Captured?;
    hide Replay, StandsPending, CapturesNow;
    forall v: Verdict ensures row.status == v <==> StandsSettled(events + [e], id, row.key, v) {
      SettledStep(events, e, id, row.key, v);
      hide StandsSettled;
    }
  }

  /** A row is pending exactly when its last word is a capture, and carries a verdict exactly when that
      resolution found it pending and nothing recaptured it since. */
  lemma {:induction false} StatusIsTheLastWord(events: seq<Event>, id: nat)
    requires 1 <= id <= |Replay(events)|
    ensures StatusIsLogged(Replay(events)[id - 1], events, id)
    decreases |events|
  {
    if events != [] {
      var before, e := events[..|events| - 1], events[|events| - 1];
      assert events == before + [e];
      hide StatusIsLogged;
      if id <= |Replay(before)| {
        StatusIsTheLastWord(before, id);
        KnownRowIsLogged(before, e, id);
      } else {
        NewRowIsLogged(before, e);
      }
    }
  }
}
