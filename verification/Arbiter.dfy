/** The arbiter: at most one turn in flight, and one pending catch-up slot. */
module Arbitration {
  import opened Options

  /** `"\n".join(lines)`. */
  function Join(lines: seq<string>): string {
    if |lines| == 0 then ""
    else if |lines| == 1 then lines[0]
    else lines[0] + "\n" + Join(lines[1..])
  }

  /** The pieces of a text between its line breaks. */
  function Lines(text: string): seq<string>
    decreases |text|
  {
    if text == "" then [""]
    else
      var rest := Lines(text[1..]);
      if text[0] == '\n' then [""] + rest else [[text[0]] + rest[0]] + rest[1..]
  }

  lemma {:induction false} LinesOfLine(line: string, more: string)
    requires '\n' !in line
    ensures Lines(line) == [line]
    ensures Lines(line + "\n" + more) == [line] + Lines(more)
    decreases |line|
  {
    if line == "" {
      assert "" + "\n" + more == "\n" + more;
    } else {
      LinesOfLine(line[1..], more);
      assert (line + "\n" + more)[1..] == line[1..] + "\n" + more;
      assert [line[0]] + line[1..] == line;
    }
  }

  /** Folding loses nothing: messages of one line each are the lines of the folded prompt, in order. */
  lemma {:induction false} JoinReadsBack(lines: seq<string>)
    requires lines != [] && forall k :: 0 <= k < |lines| ==> '\n' !in lines[k]
    ensures Lines(Join(lines)) == lines
    decreases |lines|
  {
    if |lines| == 1 {
      LinesOfLine(lines[0], "");
    } else {
      LinesOfLine(lines[0], Join(lines[1..]));
      JoinReadsBack(lines[1..]);
    }
  }

  /** And messages of any number of lines are folded with one line break between. */
  lemma {:induction false} JoinOfBoth(a: seq<string>, b: seq<string>)
    requires a != [] && b != []
    ensures Join(a + b) == Join(a) + "\n" + Join(b)
    decreases |a|
  {
    if |a| == 1 {
      assert (a + b)[1..] == b;
    } else {
      assert (a + b)[1..] == a[1..] + b;
      JoinOfBoth(a[1..], b);
      assert a[0] + "\n" + (Join(a[1..]) + "\n" + Join(b)) == a[0] + "\n" + Join(a[1..]) + "\n" + Join(b);
    }
  }

  /** What the arbiter holds: whether the slot is taken, and the messages that arrived meanwhile. */
  datatype Slot = Slot(reserved: bool, pending: seq<string>) {
    /** An owner message: it takes a free slot, or joins the pending ones. */
    function Submit(text: string): Slot {
      if reserved then this.(pending := pending + [text]) else this.(reserved := true)
    }

    /** The end of a turn: pending messages keep the slot, for one catch-up turn. */
    function Complete(): Slot {
      Slot(|pending| > 0, [])
    }

    /** A turn that never started: the slot is freed and the pending messages are dropped. */
    function Reset(): Slot {
      Slot(false, [])
    }
  }

  class Arbiter {
    var workerInFlight: bool
    var pending: seq<string>

    function View(): Slot
      reads this
    {
      Slot(workerInFlight, pending)
    }

    constructor ()
      ensures View() == Slot(false, [])
    {
      workerInFlight, pending := false, [];
    }

    predicate IsIdle()
      reads this
    {
      !workerInFlight
    }

    method Submit(text: string) returns (prompt: Option<string>)
      modifies this
      ensures View() == old(View()).Submit(text)
      ensures prompt == if old(IsIdle()) then Some(text) else None
    {
      if workerInFlight {
        pending := pending + [text];
        return None;
      }
      workerInFlight := true;
      return Some(text);
    }

    method Complete() returns (folded: Option<string>)
      modifies this
      ensures View() == old(View()).Complete()
      ensures folded == if old(pending) == [] then None else Some(Join(old(pending)))
    {
      if |pending| > 0 {
        folded := Some(Join(pending));
        pending := [];
        workerInFlight := true;
        return;
      }
      workerInFlight := false;
      return None;
    }

    method Reset()
      modifies this
      ensures View() == old(View()).Reset()
    {
      workerInFlight := false;
      pending := [];
    }
  }
}
