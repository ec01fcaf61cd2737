/** The turn fence: one open turn, and a bounded memory of closed ones. */
module TurnFencing {
  import opened Options

  /** Turn ids come from uuid4: the only fact used about them is that a new one is fresh. */
  type TurnId = nat

  /** The fence's state. `closed` and `order` are two views of the same ids; `order` never outgrows `cap`. */
  datatype Fence = Fence(current: Option<TurnId>, closed: set<TurnId>, order: seq<TurnId>, cap: nat) {
    ghost predicate Valid() {
      && cap > 0
      && |order| <= cap
      && NoDuplicates(order)
      && closed == (set id | id in order)
    }

    function Close(id: TurnId): Fence
      requires cap > 0 && |order| <= cap
    {
      var cleared := if current == Some(id) then None else current;
      if id in closed then this.(current := cleared)
      else if |order| == cap then
        Fence(cleared, closed - {order[0]} + {id}, order[1..] + [id], cap)
      else
        Fence(cleared, closed + {id}, order + [id], cap)
    }

    function Open(id: TurnId): Fence
      requires cap > 0 && |order| <= cap
    {
      var superseded := if current.Some? && current.value != id then Close(current.value) else this;
      superseded.(current := Some(id))
    }

    predicate Accepts(id: Option<TurnId>) {
      id.Some? && id == current && id.value !in closed
    }
  }

  ghost predicate NoDuplicates<T>(s: seq<T>) {
    forall i, j :: 0 <= i < j < |s| ==> s[i] != s[j]
  }

  function Empty(cap: nat): Fence {
    Fence(None, {}, [], cap)
  }

  /** The deque and the set keep holding the same ids, without duplicates and within the bound. */
  lemma CloseKeepsValid(f: Fence, id: TurnId)
    requires f.Valid()
    ensures f.Close(id).Valid()
    ensures f.Close(id).current != Some(id)
    ensures id in f.Close(id).closed
    ensures forall x :: x in f.Close(id).closed ==> x in f.closed || x == id
  {
    var g := f.Close(id);
    if id !in f.closed {
      assert id !in f.order;
      if |f.order| == f.cap {
        assert f.order == [f.order[0]] + f.order[1..];
        assert forall x :: x in g.order <==> x in f.order[1..] || x == id;
        assert f.order[0] !in f.order[1..];
      } else {
        assert forall x :: x in g.order <==> x in f.order || x == id;
      }
    }
  }

  lemma OpenKeepsValid(f: Fence, id: TurnId)
    requires f.Valid()
    ensures f.Open(id).Valid()
  {
    if f.current.Some? && f.current.value != id {
      CloseKeepsValid(f, f.current.value);
    }
  }

  /** Closing a whole sequence of turns. */
  function CloseAll(f: Fence, ids: seq<TurnId>): (g: Fence)
    requires f.cap > 0 && |f.order| <= f.cap
    ensures g.cap == f.cap && |g.order| <= g.cap
    decreases |ids|
  {
    if ids == [] then f else CloseAll(f, ids[..|ids| - 1]).Close(ids[|ids| - 1])
  }

  lemma CloseFresh(f: Fence, id: TurnId)
    requires f.Valid() && id !in f.order
    ensures f.Close(id).Valid()
    ensures f.Close(id).cap == f.cap
    ensures f.Close(id).order == (if |f.order| == f.cap then f.order[1..] else f.order) + [id]
  {
    CloseKeepsValid(f, id);
  }

  /** The newest `cap` of a sequence, oldest first. */
  function Newest(ids: seq<TurnId>, cap: nat): seq<TurnId> {
    if |ids| <= cap then ids else ids[|ids| - cap..]
  }

  lemma NewestGrows(ids: seq<TurnId>, id: TurnId, cap: nat)
    requires cap > 0
    ensures Newest(ids + [id], cap)
         == (if |Newest(ids, cap)| == cap then Newest(ids, cap)[1..] else Newest(ids, cap)) + [id]
  {
    if |ids| >= cap {
      assert Newest(ids, cap) == ids[|ids| - cap..];
    }
  }

  lemma NotAmongNewest(ids: seq<TurnId>, cap: nat)
    requires |ids| > 0 && NoDuplicates(ids)
    ensures ids[|ids| - 1] !in Newest(ids[..|ids| - 1], cap)
  {
    var earlier := ids[..|ids| - 1];
    var from := if |earlier| <= cap then 0 else |earlier| - cap;
    assert Newest(earlier, cap) == ids[from..|ids| - 1];
    assert forall k :: from <= k < |earlier| ==> ids[k] != ids[|ids| - 1];
  }

  lemma NoDuplicatesPrefix<T>(s: seq<T>, n: nat)
    requires NoDuplicates(s) && n <= |s|
    ensures NoDuplicates(s[..n])
  {
  }

  lemma EmptyRemembersNothing(cap: nat)
    requires cap > 0
    ensures Empty(cap).Valid() && Newest([], cap) == []
  {
  }

  /** For fresh turn ids the fence remembers exactly the newest `cap` of them, oldest first. */
  lemma {:induction false} RemembersNewest(ids: seq<TurnId>, cap: nat)
    requires cap > 0 && NoDuplicates(ids)
    ensures CloseAll(Empty(cap), ids).Valid()
    ensures CloseAll(Empty(cap), ids).order == Newest(ids, cap)
    decreases |ids|
  {
    hide NoDuplicates, Newest;
    if ids == [] {
      EmptyRemembersNothing(cap);
    } else {
      var n := |ids| - 1;
      var earlier := ids[..n];
      assert ids == earlier + [ids[n]];
      NoDuplicatesPrefix(ids, n);
      RemembersNewest(earlier, cap);
      NotAmongNewest(ids, cap);
      CloseFresh(CloseAll(Empty(cap), earlier), ids[n]);
      NewestGrows(earlier, ids[n], cap);
    }
  }

  class TurnFence {
    var current: Option<TurnId>
    var closed: set<TurnId>
    var closedOrder: seq<TurnId>
    const maxClosed: nat

    function View(): Fence
      reads this
    {
      Fence(current, closed, closedOrder, maxClosed)
    }

    ghost predicate Valid()
      reads this
    {
      View().Valid()
    }

    constructor (maxClosed: nat)
      requires maxClosed > 0
      ensures Valid() && View() == Empty(maxClosed)
    {
      current, closed, closedOrder := None, {}, [];
      this.maxClosed := maxClosed;
    }

    predicate IsIdle()
      reads this
    {
      current == None
    }

    method Open(id: TurnId)
      requires Valid()
      modifies this
      ensures Valid() && View() == old(View()).Open(id)
    {
      OpenKeepsValid(View(), id);
      if current.Some? && current.value != id {
        Close(current.value);
      }
      current := Some(id);
    }

    method Close(id: TurnId)
      requires Valid()
      modifies this
      ensures Valid() && View() == old(View()).Close(id)
    {
      CloseKeepsValid(View(), id);
      if current == Some(id) {
        current := None;
      }
      if id !in closed {
        if |closedOrder| == maxClosed {
          closed := closed - {closedOrder[0]};
          closedOrder := closedOrder[1..];
        }
        closedOrder := closedOrder + [id];
        closed := closed + {id};
      }
    }

    predicate Accept(id: Option<TurnId>)
      reads this
    {
      id.Some? && id == current && id.value !in closed
    }
  }
}
