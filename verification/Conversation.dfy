/** Conversations with the broker, and when every tool call in one is answered. */
module Conversation {
  import opened Options

  datatype ToolCall = ToolCall(id: string, name: string, args: map<string, string>)

  datatype Message =
    | User(content: string)
    | Assistant(content: string, calls: seq<ToolCall>)
    | ToolReply(content: string, callId: string)

  function Ids(calls: seq<ToolCall>): (ids: seq<string>)
    ensures |ids| == |calls|
    ensures forall k :: 0 <= k < |calls| ==> ids[k] == calls[k].id
  {
    seq(|calls|, k requires 0 <= k < |calls| => calls[k].id)
  }

  /** Reads a conversation with the call ids still to be answered, in order; `None` once it is broken. */
  function Scan(messages: seq<Message>, open: seq<string>): Option<seq<string>> {
    if messages == [] then Some(open)
    else match messages[0]
      case User(_) => if open == [] then Scan(messages[1..], []) else None
      case Assistant(_, calls) => if open == [] then Scan(messages[1..], Ids(calls)) else None
      case ToolReply(_, id) => if open != [] && open[0] == id then Scan(messages[1..], open[1..]) else None
  }

  predicate WellPaired(messages: seq<Message>) {
    Scan(messages, []) == Some([])
  }

  /** Exactly the one call is unanswered, and it is the last thing asked. */
  predicate AwaitsOnly(messages: seq<Message>, call: ToolCall) {
    Scan(messages, []) == Some([call.id])
  }

  lemma {:induction false} ScanAppend(a: seq<Message>, b: seq<Message>, open: seq<string>)
    ensures Scan(a + b, open) == if Scan(a, open).None? then None else Scan(b, Scan(a, open).value)
    decreases |a|
  {
    if a == [] {
      assert a + b == b;
    } else {
      assert (a + b)[1..] == a[1..] + b;
      match a[0]
      case User(_) => ScanAppend(a[1..], b, []);
      case Assistant(_, calls) => ScanAppend(a[1..], b, Ids(calls));
      case ToolReply(_, id) => if open != [] { ScanAppend(a[1..], b, open[1..]); }
    }
  }

  /** The messages begin with one reply per id, in order. */
  predicate BeginsWithReplies(messages: seq<Message>, ids: seq<string>) {
    |ids| <= |messages| &&
    forall j :: 0 <= j < |ids| ==> messages[j].ToolReply? && messages[j].callId == ids[j]
  }

  /** What pairing means message by message: the replies right after an assistant message answer its
      calls one for one, in order. */
  lemma {:induction false} PairedCallsAreAnswered(messages: seq<Message>, open: seq<string>, i: nat)
    requires Scan(messages, open) == Some([]) && i < |messages| && messages[i].Assistant?
    ensures BeginsWithReplies(messages[i + 1..], Ids(messages[i].calls))
    decreases |messages|
  {
    var rest := messages[1..];
    if i == 0 {
      OpenCallsAreAnswered(rest, Ids(messages[0].calls));
    } else {
      var open' := match messages[0]
        case User(_) => []
        case Assistant(_, calls) => Ids(calls)
        case ToolReply(_, _) => if open == [] then [] else open[1..];
      PairedCallsAreAnswered(rest, open', i - 1);
      assert rest[i..] == messages[i + 1..];
    }
  }

  lemma {:induction false} OpenCallsAreAnswered(messages: seq<Message>, open: seq<string>)
    requires Scan(messages, open) == Some([])
    ensures BeginsWithReplies(messages, open)
    decreases |messages|
  {
    if open != [] {
      OpenCallsAreAnswered(messages[1..], open[1..]);
      assert forall j :: 1 <= j < |open| ==> messages[j] == messages[1..][j - 1] && open[j] == open[1..][j - 1];
    }
  }

  /** And no tool message stands alone: a conversation cannot start with one, nor follow a text with one. */
  lemma StrayReplyBreaksPairing(messages: seq<Message>, i: nat)
    requires i < |messages| && messages[i].ToolReply? && WellPaired(messages)
    ensures i > 0 && !messages[i - 1].User?
  {
    ScanAppend(messages[..i], messages[i..], []);
    assert messages == messages[..i] + messages[i..];
    if i > 0 {
      ScanAppend(messages[..i - 1], [messages[i - 1]], []);
      assert messages[..i] == messages[..i - 1] + [messages[i - 1]];
    }
  }
}
