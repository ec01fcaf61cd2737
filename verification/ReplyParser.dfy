/** The reply parser: fenced ops blocks, found left to right and cut out of the reply. */
module ReplyParsing {
  import opened Options
  import opened Sequences

  const HEADER: string := "```ops"
  const FENCE: string := "\n```"

  predicate HasAt(text: string, i: nat, part: string) {
    i + |part| <= |text| && text[i..i + |part|] == part
  }

  predicate IsBlank(c: char) {
    c == ' ' || c == '\t'
  }

  function SkipBlanks(text: string, i: nat): (j: nat)
    requires i <= |text|
    ensures i <= j <= |text|
    decreases |text| - i
  {
    if i < |text| && IsBlank(text[i]) then SkipBlanks(text, i + 1) else i
  }

  /** The nearest closing fence from `from` on: the lazy body ends at the first one. */
  function FindFence(text: string, from: nat): (e: Option<nat>)
    requires from <= |text|
    ensures e.Some? ==> from <= e.value && HasAt(text, e.value, FENCE)
    decreases |text| - from
  {
    if HasAt(text, from, FENCE) then Some(from)
    else if from < |text| then FindFence(text, from + 1)
    else None
  }

  /** A fenced block: header line, body, closing fence. */
  datatype Span = Span(start: nat, bodyStart: nat, bodyEnd: nat, end: nat)

  predicate Fits(span: Span, text: string) {
    span.start < span.bodyStart <= span.bodyEnd < span.end <= |text|
  }

  function MatchAt(text: string, i: nat): (m: Option<Span>)
    ensures m.Some? ==> m.value.start == i && Fits(m.value, text)
  {
    if !HasAt(text, i, HEADER) then None
    else
      var j := SkipBlanks(text, i + 6);
      if j == |text| || text[j] != '\n' then None
      else
        var e := FindFence(text, j + 1);
        if e.None? then None else Some(Span(i, j + 1, e.value, e.value + 4))
  }

  function NextMatch(text: string, from: nat): (m: Option<Span>)
    ensures m.Some? ==> from <= m.value.start && Fits(m.value, text)
    decreases |text| - from
  {
    if from >= |text| then None
    else if MatchAt(text, from).Some? then MatchAt(text, from)
    else NextMatch(text, from + 1)
  }

  /** The spans lie one after the other, from `from` on. */
  predicate InOrder(spans: seq<Span>, from: nat, text: string) {
    if spans == [] then from <= |text|
    else from <= spans[0].start && Fits(spans[0], text) && InOrder(spans[1..], spans[0].end, text)
  }

  /** All non-overlapping matches, left to right. */
  function AllMatches(text: string, from: nat): (spans: seq<Span>)
    requires from <= |text|
    ensures InOrder(spans, from, text)
    decreases |text| - from
  {
    var m := NextMatch(text, from);
    if m.None? then [] else [m.value] + AllMatches(text, m.value.end)
  }

  function Body(text: string, span: Span): string
    requires Fits(span, text)
  {
    text[span.bodyStart..span.bodyEnd]
  }

  /** The blocks whose body decodes: a malformed one stays in the text. */
  function Decodable<Op>(decode: string -> Option<seq<Op>>, text: string, spans: seq<Span>, from: nat): (kept: seq<Span>)
    requires InOrder(spans, from, text)
    ensures InOrder(kept, from, text)
  {
    if spans == [] then []
    else
      var rest := Decodable(decode, text, spans[1..], spans[0].end);
      if decode(Body(text, spans[0])).Some? then [spans[0]] + rest
      else
        Loosen(rest, spans[0].end, from, text);
        rest
  }

  lemma {:induction false} Loosen(spans: seq<Span>, from: nat, earlier: nat, text: string)
    requires InOrder(spans, from, text) && earlier <= from
    ensures InOrder(spans, earlier, text)
  {
  }

  function OpsIn<Op>(decode: string -> Option<seq<Op>>, body: string): seq<Op> {
    match decode(body) case Some(ops) => ops case None => []
  }

  /** The ops of the decoded blocks, in block order. */
  function OpsOf<Op>(decode: string -> Option<seq<Op>>, text: string, spans: seq<Span>, from: nat): seq<Op>
    requires InOrder(spans, from, text)
  {
    if spans == [] then []
    else
      OpsIn(decode, Body(text, spans[0])) + OpsOf(decode, text, spans[1..], spans[0].end)
  }

  /** The text from `from` on with exactly the spans removed: the gaps, in order. */
  function KeepGaps(text: string, spans: seq<Span>, from: nat): string
    requires InOrder(spans, from, text)
  {
    if spans == [] then text[from..]
    else text[from..spans[0].start] + KeepGaps(text, spans[1..], spans[0].end)
  }

  /** What parsing yields, before stripping and line extraction. */
  function Parsed<Op>(decode: string -> Option<seq<Op>>, text: string): (string, seq<Op>) {
    var spans := AllMatches(text, 0);
    (KeepGaps(text, Decodable(decode, text, spans, 0), 0), OpsOf(decode, text, spans, 0))
  }

  lemma {:induction false} JoinSlices(text: string, a: nat, b: nat, c: nat, rest: string)
    requires a <= b <= c <= |text|
    ensures text[a..c] + rest == text[a..b] + (text[b..c] + rest)
  {
    assert text[a..c] == text[a..b] + text[b..c];
  }

  /** Before the first span nothing is cut. */
  lemma {:induction false} GapsBeforeFirst(text: string, spans: seq<Span>, from: nat, e: nat)
    requires from <= e && InOrder(spans, e, text)
    ensures InOrder(spans, from, text)
    ensures KeepGaps(text, spans, from) == text[from..e] + KeepGaps(text, spans, e)
  {
    if spans == [] {
      assert text[from..] == text[from..e] + text[e..];
    } else {
      JoinSlices(text, from, e, spans[0].start, KeepGaps(text, spans[1..], spans[0].end));
    }
  }

  lemma {:induction false} CutOne(text: string, s: Span, later: seq<Span>)
    requires Fits(s, text) && InOrder(later, s.end, text)
    ensures InOrder(later, 0, text)
    ensures var payload := KeepGaps(text, later, 0);
            s.end <= |payload| && payload[..s.start] + payload[s.end..] == KeepGaps(text, [s] + later, 0)
  {
    GapsBeforeFirst(text, later, 0, s.end);
    var payload := KeepGaps(text, later, 0);
    assert payload[..s.start] == text[0..s.start];
    assert payload[s.end..] == KeepGaps(text, later, s.end);
  }

  lemma {:induction false} TailInOrder(spans: seq<Span>, from: nat, text: string, k: nat)
    requires InOrder(spans, from, text) && k < |spans|
    ensures Fits(spans[k], text) && InOrder(spans[k + 1..], spans[k].end, text)
    decreases k
  {
    if k > 0 {
      TailInOrder(spans[1..], spans[0].end, text, k - 1);
      assert spans[1..][k..] == spans[k + 1..];
    } else {
      assert spans[1..] == spans[0 + 1..];
    }
  }

  lemma {:induction false} FirstSpansInOrder(spans: seq<Span>, from: nat, text: string, k: nat)
    requires InOrder(spans, from, text) && k <= |spans|
    ensures InOrder(spans[..k], from, text)
    decreases k
  {
    if k > 0 {
      FirstSpansInOrder(spans[1..], spans[0].end, text, k - 1);
      assert spans[..k][1..] == spans[1..][..k - 1];
    } else {
      EndInText(spans, from, text);
    }
  }

  lemma {:induction false} EndInText(spans: seq<Span>, from: nat, text: string)
    requires InOrder(spans, from, text)
    ensures from <= |text|
  {
  }

  lemma {:induction false} OneMoreBody<Op>(decode: string -> Option<seq<Op>>, text: string, spans: seq<Span>, from: nat, k: nat)
    requires InOrder(spans, from, text) && k < |spans|
    ensures InOrder(spans[..k], from, text) && InOrder(spans[..k + 1], from, text) && Fits(spans[k], text)
    ensures OpsOf(decode, text, spans[..k + 1], from)
              == OpsOf(decode, text, spans[..k], from) + OpsIn(decode, Body(text, spans[k]))
    decreases k
  {
    TailInOrder(spans, from, text, k);
    FirstSpansInOrder(spans, from, text, k);
    FirstSpansInOrder(spans, from, text, k + 1);
    assert spans[..k + 1][1..] == spans[1..][..k];
    hide InOrder, Body, OpsIn;
    if k > 0 {
      OneMoreBody(decode, text, spans[1..], spans[0].end, k - 1);
      assert spans[..k][1..] == spans[1..][..k - 1];
      Regroup(OpsIn(decode, Body(text, spans[0])), OpsOf(decode, text, spans[1..][..k - 1], spans[0].end),
              OpsIn(decode, Body(text, spans[k])));
    }
  }

  lemma {:induction false} OneMoreCut<Op>(decode: string -> Option<seq<Op>>, text: string, spans: seq<Span>, from: nat, k: nat)
    requires InOrder(spans, from, text) && k < |spans|
    ensures InOrder(spans[..k], from, text) && InOrder(spans[..k + 1], from, text) && Fits(spans[k], text)
    ensures Decodable(decode, text, spans[..k + 1], from)
              == Decodable(decode, text, spans[..k], from) + (if decode(Body(text, spans[k])).Some? then [spans[k]] else [])
    decreases k
  {
    TailInOrder(spans, from, text, k);
    FirstSpansInOrder(spans, from, text, k);
    FirstSpansInOrder(spans, from, text, k + 1);
    assert spans[..k + 1][1..] == spans[1..][..k];
    if k > 0 {
      OneMoreCut(decode, text, spans[1..], spans[0].end, k - 1);
      assert spans[..k][1..] == spans[1..][..k - 1];
      hide InOrder, Body, Fits;
    }
  }

  /** `parse_reply` up to the cut: collect the decoded blocks, then cut them out from the last to the first. */
  method CutReply<Op>(decode: string -> Option<seq<Op>>, text: string) returns (payload: string, ops: seq<Op>)
    ensures (payload, ops) == Parsed(decode, text)
  {
    var matches := AllMatches(text, 0);
    var parsed: seq<Span> := [];
    ops := [];
    for k := 0 to |matches|
      invariant InOrder(matches[..k], 0, text)
      invariant ops == OpsOf(decode, text, matches[..k], 0)
      invariant parsed == Decodable(decode, text, matches[..k], 0)
    {
      OneMoreBody(decode, text, matches, 0, k);
      OneMoreCut(decode, text, matches, 0, k);
      TailInOrder(matches, 0, text, k);
      var body := decode(Body(text, matches[k]));
      if body.Some? {
        ops := ops + body.value;
        parsed := parsed + [matches[k]];
      }
    }
    assert matches[..|matches|] == matches;
    hide OpsOf, OpsIn, Decodable, Body;
    payload := text;
    var k := |parsed|;
    assert parsed[k..] == [];
    while k > 0
      invariant 0 <= k <= |parsed|
      invariant InOrder(parsed[k..], 0, text) && payload == KeepGaps(text, parsed[k..], 0)
    {
      k := k - 1;
      TailInOrder(parsed, 0, text, k);
      CutOne(text, parsed[k], parsed[k + 1..]);
      assert [parsed[k]] + parsed[k + 1..] == parsed[k..];
      payload := payload[..parsed[k].start] + payload[parsed[k].end..];
      Loosen(parsed[k..], parsed[k].start, 0, text);
    }
    assert parsed[0..] == parsed;
  }

  // ---- what is found ----

  /** A block of the text: a header, blanks up to the end of its line, and a body up to the nearest closing fence
      at the start of a line, whatever the body holds. */
  ghost predicate IsBlock(text: string, s: Span) {
    && HasAt(text, s.start, HEADER) && s.start + 6 < s.bodyStart <= s.bodyEnd
    && HasAt(text, s.bodyEnd, FENCE) && s.end == s.bodyEnd + 4
    && (forall k :: s.start + 6 <= k < s.bodyStart - 1 ==> IsBlank(text[k])) && text[s.bodyStart - 1] == '\n'
    && forall e :: s.bodyStart <= e < s.bodyEnd ==> !HasAt(text, e, FENCE)
  }

  lemma {:induction false} BlanksEnd(text: string, i: nat, j: nat)
    requires i <= j <= |text| && (j == |text| || !IsBlank(text[j])) && forall k :: i <= k < j ==> IsBlank(text[k])
    ensures SkipBlanks(text, i) == j
    decreases j - i
  {
    if i < j { BlanksEnd(text, i + 1, j); }
  }

  lemma {:induction false} SkippedAreBlank(text: string, i: nat)
    requires i <= |text|
    ensures forall k :: i <= k < SkipBlanks(text, i) ==> IsBlank(text[k])
    decreases |text| - i
  {
    if i < |text| && IsBlank(text[i]) { SkippedAreBlank(text, i + 1); }
  }

  lemma {:induction false} FenceIsNearest(text: string, from: nat, e: nat)
    requires from <= e && HasAt(text, e, FENCE) && forall i :: from <= i < e ==> !HasAt(text, i, FENCE)
    ensures FindFence(text, from) == Some(e)
    decreases e - from
  {
    assert e < |text|;
    hide HasAt;
    if from < e { FenceIsNearest(text, from + 1, e); }
  }

  lemma {:induction false} NoFenceBefore(text: string, from: nat)
    requires from <= |text|
    ensures match FindFence(text, from)
            case Some(e) => forall i :: from <= i < e ==> !HasAt(text, i, FENCE)
            case None => forall i :: from <= i ==> !HasAt(text, i, FENCE)
    decreases |text| - from
  {
    if !HasAt(text, from, FENCE) && from < |text| { NoFenceBefore(text, from + 1); }
  }

  /** The search for a block at a place finds exactly the block that starts there. */
  lemma MatchIsExact(text: string, i: nat, s: Span)
    ensures MatchAt(text, i) == Some(s) <==> s.start == i && IsBlock(text, s)
  {
    if MatchAt(text, i) == Some(s) { MatchIsABlock(text, i); }
    if s.start == i && IsBlock(text, s) { BlockMatches(text, s); }
  }

  lemma MatchIsABlock(text: string, i: nat)
    requires MatchAt(text, i).Some?
    ensures IsBlock(text, MatchAt(text, i).value)
  {
    var j := SkipBlanks(text, i + 6);
    SkippedAreBlank(text, i + 6);
    NoFenceBefore(text, j + 1);
    hide HasAt, FindFence, SkipBlanks, IsBlank;
  }

  lemma BlockMatches(text: string, s: Span)
    requires IsBlock(text, s)
    ensures MatchAt(text, s.start) == Some(s)
  {
    BlanksEnd(text, s.start + 6, s.bodyStart - 1);
    FenceIsNearest(text, s.bodyStart, s.bodyEnd);
    hide FindFence, SkipBlanks, IsBlank;
  }

  lemma {:induction false} NextIsFirst(text: string, from: nat)
    ensures match NextMatch(text, from)
            case Some(s) => IsBlock(text, s) && forall b :: IsBlock(text, b) && from <= b.start ==> s == b || s.start < b.start
            case None => forall b :: IsBlock(text, b) ==> b.start < from
    decreases |text| - from
  {
    if from < |text| {
      NextIsFirst(text, from + 1);
      forall b | IsBlock(text, b) && from == b.start ensures MatchAt(text, from) == Some(b) {
        MatchIsExact(text, from, b);
      }
      if MatchAt(text, from).Some? { MatchIsABlock(text, from); }
      hide IsBlock, MatchAt;
    }
  }

  /** Blocks are taken greedily, from left to right: each one taken starts after the end of the one before, and any
      block of the text that is not taken starts inside one that is. */
  ghost predicate TakenGreedily(text: string, spans: seq<Span>, from: nat) {
    && (forall k :: 0 <= k < |spans| ==> IsBlock(text, spans[k]) && from <= spans[k].start)
    && (forall j, k :: 0 <= j < k < |spans| ==> spans[j].end <= spans[k].start)
    && forall b :: IsBlock(text, b) && from <= b.start ==> TakenOrInside(spans, b)
  }

  ghost predicate TakenOrInside(spans: seq<Span>, b: Span) {
    b in spans || exists k :: 0 <= k < |spans| && spans[k].start < b.start < spans[k].end
  }

  /** So the blocks found in a reply are the ones taken greedily. */
  lemma {:induction false} MatchesAreGreedy(text: string, from: nat)
    requires from <= |text|
    ensures TakenGreedily(text, AllMatches(text, from), from)
    decreases |text| - from
  {
    NextIsFirst(text, from);
    if NextMatch(text, from).Some? {
      var s := NextMatch(text, from).value;
      MatchesAreGreedy(text, s.end);
      hide NextMatch, IsBlock;
      GreedyTail(text, s, AllMatches(text, s.end), from);
    }
  }

  lemma GreedyTail(text: string, s: Span, later: seq<Span>, from: nat)
    requires IsBlock(text, s) && from <= s.start && s.start <= s.end && TakenGreedily(text, later, s.end)
    requires forall b :: IsBlock(text, b) && from <= b.start ==> s == b || s.start < b.start
    ensures TakenGreedily(text, [s] + later, from)
  {
    hide IsBlock, TakenOrInside;
    forall b | IsBlock(text, b) && from <= b.start ensures TakenOrInside([s] + later, b) {
      if b == s || b.start < s.end { InsideFirst(s, later, b); } else { TakenLater(s, later, b); }
    }
    var spans := [s] + later;
    assert forall k :: 0 < k < |spans| ==> spans[k] == later[k - 1];
  }

  lemma InsideFirst(s: Span, later: seq<Span>, b: Span)
    requires b == s || s.start < b.start < s.end
    ensures TakenOrInside([s] + later, b)
  {
    assert ([s] + later)[0] == s;
  }

  lemma TakenLater(s: Span, later: seq<Span>, b: Span)
    requires TakenOrInside(later, b)
    ensures TakenOrInside([s] + later, b)
  {
    if b !in later {
      var k :| 0 <= k < |later| && later[k].start < b.start < later[k].end;
      assert ([s] + later)[k + 1] == later[k];
    }
  }

  // ---- round trip ----

  /** A block as it may be printed, and the text that follows it. */
  datatype Printed = Printed(blanks: string, body: string, gap: string)

  function Block(p: Printed): string {
    HEADER + p.blanks + "\n" + p.body + FENCE
  }

  /** A reply: text, then a block and more text, as often as there are blocks. */
  function Render(gap: string, more: seq<Printed>): string
    decreases |more|
  {
    if more == [] then gap else gap + Block(more[0]) + Render(more[0].gap, more[1..])
  }

  /** What the owner is to read: the text, and each block that does not decode, as it stands. */
  function Readable<Op>(decode: string -> Option<seq<Op>>, gap: string, more: seq<Printed>): string
    decreases |more|
  {
    if more == [] then gap
    else
      gap + (if decode(more[0].body).Some? then "" else Block(more[0])) + Readable(decode, more[0].gap, more[1..])
  }

  function AllOps<Op>(decode: string -> Option<seq<Op>>, more: seq<Printed>): seq<Op> {
    if more == [] then []
    else OpsIn(decode, more[0].body) + AllOps(decode, more[1..])
  }

  ghost predicate FreeOf(text: string, part: string) {
    forall i: nat :: !HasAt(text, i, part)
  }

  /** Only blanks after the header, and no closing fence within the body, which may otherwise hold anything: many
      lines, and a literal ops fence included. */
  ghost predicate WellPrinted(p: Printed) {
    (forall k :: 0 <= k < |p.blanks| ==> IsBlank(p.blanks[k])) && FreeOf(p.body, FENCE)
  }

  /** Surrounding text without a header. */
  ghost predicate Printable(gap: string, more: seq<Printed>) {
    FreeOf(gap, HEADER) && forall k :: 0 <= k < |more| ==> WellPrinted(more[k]) && FreeOf(more[k].gap, HEADER)
  }

  lemma {:induction false} MiddleSlice<T>(a: seq<T>, b: seq<T>, c: seq<T>, j: nat, k: nat)
    requires j <= k <= |b|
    ensures (a + b + c)[|a| + j..|a| + k] == b[j..k]
  {
  }

  /** No header starts in a header-free text that a header or the end of the text follows: a header has
      no proper border. */
  lemma {:induction false} NoHeaderInGap(before: string, gap: string, after: string, i: nat)
    requires FreeOf(gap, HEADER) && |before| <= i < |before| + |gap|
    requires after == "" || HEADER <= after
    ensures !HasAt(before + gap + after, i, HEADER)
  {
    var text := before + gap + after;
    var j := i - |before|;
    if j + 6 <= |gap| {
      MiddleSlice(before, gap, after, j, j + 6);
      assert !HasAt(gap, j, HEADER);
    } else if i + 6 <= |text| {
      var k := j + 5 - |gap|;
      assert text[i + 5] == after[k] == HEADER[k];
      assert text[i..i + 6][5] == text[i + 5] && HEADER[k] != HEADER[5];
    }
  }

  /** Nor does a closing fence start in a fence-free body that a closing fence follows. */
  lemma {:induction false} NoFenceInBody(before: string, body: string, after: string, i: nat)
    requires FreeOf(body, FENCE) && |before| <= i < |before| + |body| && FENCE <= after
    ensures !HasAt(before + body + after, i, FENCE)
  {
    var text := before + body + after;
    var j := i - |before|;
    if j + 4 <= |body| {
      MiddleSlice(before, body, after, j, j + 4);
      assert !HasAt(body, j, FENCE);
    } else {
      var k := |body| - j;
      assert text[i + k] == after[0] == FENCE[0];
      assert text[i..i + 4][k] == text[i + k] && FENCE[k] != FENCE[0];
    }
  }

  lemma {:induction false} SearchSkips(text: string, from: nat, to: nat)
    requires from <= to <= |text| && forall i :: from <= i < to ==> !HasAt(text, i, HEADER)
    ensures NextMatch(text, from) == NextMatch(text, to)
    decreases |text| - from
  {
    if from < to { SearchSkips(text, from + 1, to); }
  }

  /** Where a printed block stands. */
  function SpanOf(i: nat, p: Printed): Span {
    var start := i + 7 + |p.blanks|;
    Span(i, start, start + |p.body|, start + |p.body| + 4)
  }

  lemma {:induction false} BlockLayout(before: string, p: Printed, after: string)
    ensures var i, text, s := |before|, before + Block(p) + after, SpanOf(|before|, p);
            && s.end == i + |Block(p)| <= |text|
            && HasAt(text, i, HEADER) && text[i + 6..s.bodyStart - 1] == p.blanks && text[s.bodyStart - 1] == '\n'
            && text[s.bodyStart..s.bodyEnd] == p.body && HasAt(text, s.bodyEnd, FENCE)
  {
    var open := before + HEADER + p.blanks + "\n";
    var text := before + Block(p) + after;
    assert text == before + HEADER + (p.blanks + "\n" + p.body + FENCE + after);
    assert text == (before + HEADER) + p.blanks + ("\n" + p.body + FENCE + after);
    assert text == open + p.body + (FENCE + after);
    assert text == (open + p.body) + FENCE + after;
    MiddleSlice(before, HEADER, p.blanks + "\n" + p.body + FENCE + after, 0, 6);
    MiddleSlice(before + HEADER, p.blanks, "\n" + p.body + FENCE + after, 0, |p.blanks|);
    MiddleSlice(open, p.body, FENCE + after, 0, |p.body|);
    MiddleSlice(open + p.body, FENCE, after, 0, 4);
  }

  lemma {:induction false} NoFenceInPrinted(before: string, p: Printed, after: string, e: nat)
    requires FreeOf(p.body, FENCE) && SpanOf(|before|, p).bodyStart <= e < SpanOf(|before|, p).bodyEnd
    ensures !HasAt(before + Block(p) + after, e, FENCE)
  {
    var open := before + HEADER + p.blanks + "\n";
    assert before + Block(p) + after == open + p.body + (FENCE + after);
    NoFenceInBody(open, p.body, FENCE + after, e);
  }

  /** A printed block is found, with its whole body. */
  lemma {:induction false} BlockIsFound(before: string, p: Printed, after: string)
    requires WellPrinted(p)
    ensures var text, s := before + Block(p) + after, SpanOf(|before|, p);
            MatchAt(text, |before|) == Some(s) && Fits(s, text) && Body(text, s) == p.body && |Block(p)| > 0
  {
    var i, text, s := |before|, before + Block(p) + after, SpanOf(|before|, p);
    BlockLayout(before, p, after);
    forall k | s.start + 6 <= k < s.bodyStart - 1 ensures IsBlank(text[k]) {
      assert text[k] == text[i + 6..s.bodyStart - 1][k - i - 6];
    }
    forall e | s.bodyStart <= e < s.bodyEnd ensures !HasAt(text, e, FENCE) {
      NoFenceInPrinted(before, p, after, e);
    }
    hide Block, HasAt, IsBlank;
    MatchIsExact(text, i, s);
    hide MatchAt;
  }

  /** From just after `before`, parsing keeps the given text and yields the given ops. */
  ghost predicate ParsesFrom<Op>(decode: string -> Option<seq<Op>>, text: string, from: nat, kept: string, ops: seq<Op>) {
    from <= |text| &&
    var spans := AllMatches(text, from);
    KeepGaps(text, Decodable(decode, text, spans, from), from) == kept && OpsOf(decode, text, spans, from) == ops
  }

  lemma {:induction false} LastGapParses<Op>(decode: string -> Option<seq<Op>>, before: string, gap: string)
    requires FreeOf(gap, HEADER)
    ensures ParsesFrom(decode, before + gap, |before|, gap, [])
  {
    var text := before + gap;
    assert text == before + gap + "";
    forall i | |before| <= i < |text| ensures !HasAt(text, i, HEADER) {
      NoHeaderInGap(before, gap, "", i);
    }
    SearchSkips(text, |before|, |text|);
    assert text[|before|..] == gap;
  }

  lemma {:induction false} BlockParses<Op>(decode: string -> Option<seq<Op>>, text: string, from: nat, gap: string, span: Span,
                        ops: seq<Op>, kept: string, rest: seq<Op>)
    requires from <= span.start && Fits(span, text) && NextMatch(text, from) == Some(span)
    requires text[from..span.start] == gap && decode(Body(text, span)) == Some(ops)
    requires ParsesFrom(decode, text, span.end, kept, rest)
    ensures ParsesFrom(decode, text, from, gap + kept, ops + rest)
  {
    var later := AllMatches(text, span.end);
    assert AllMatches(text, from) == [span] + later;
    assert ([span] + later)[1..] == later;
    var decoded := Decodable(decode, text, later, span.end);
    assert ([span] + decoded)[1..] == decoded;
  }

  /** A block that does not decode stays in the text, whole. */
  lemma {:induction false} BadBlockStays<Op>(decode: string -> Option<seq<Op>>, text: string, from: nat, gap: string, span: Span,
                        kept: string, rest: seq<Op>)
    requires from <= span.start && Fits(span, text) && NextMatch(text, from) == Some(span)
    requires text[from..span.end] == gap && decode(Body(text, span)).None?
    requires ParsesFrom(decode, text, span.end, kept, rest)
    ensures ParsesFrom(decode, text, from, gap + kept, rest)
  {
    var later := AllMatches(text, span.end);
    assert AllMatches(text, from) == [span] + later;
    assert ([span] + later)[1..] == later;
    GapsBeforeFirst(text, Decodable(decode, text, later, span.end), from, span.end);
    assert [] + rest == rest;
  }

  lemma {:induction false} GapIsSkipped(before: string, gap: string, after: string)
    requires FreeOf(gap, HEADER) && HEADER <= after
    ensures var i, text := |before| + |gap|, before + gap + after;
            NextMatch(text, |before|) == NextMatch(text, i)
  {
    var i, text := |before| + |gap|, before + gap + after;
    forall k | |before| <= k < i ensures !HasAt(text, k, HEADER) {
      NoHeaderInGap(before, gap, after, k);
    }
    hide HasAt, FreeOf, NextMatch, MatchAt;
    SearchSkips(text, |before|, i);
  }

  lemma {:induction false} BlockStartsWithHeader(p: Printed, tail: string)
    ensures HEADER <= Block(p) + tail && |Block(p)| > 0
  {
  }

  lemma {:induction false} BlockIsNext(before: string, gap: string, p: Printed, tail: string)
    requires FreeOf(gap, HEADER) && WellPrinted(p)
    ensures var i, text := |before| + |gap|, before + gap + Block(p) + tail;
            && NextMatch(text, |before|) == Some(SpanOf(i, p)) && Fits(SpanOf(i, p), text)
            && Body(text, SpanOf(i, p)) == p.body
  {
    BlockStartsWithHeader(p, tail);
    hide FreeOf, HasAt, Block, WellPrinted, SpanOf;
    Regroup(before + gap, Block(p), tail);
    GapIsSkipped(before, gap, Block(p) + tail);
    BlockIsFound(before + gap, p, tail);
    hide MatchAt, Body;
  }

  lemma {:induction false} BlockSlices(before: string, gap: string, p: Printed, tail: string)
    ensures var i, text := |before| + |gap|, before + gap + Block(p) + tail;
            && SpanOf(i, p).end == i + |Block(p)|
            && text[|before|..i] == gap && text[|before|..i + |Block(p)|] == gap + Block(p)
  {
    BlockLayout(before + gap, p, tail);
    hide Block;
    assert before + gap + Block(p) + tail == before + gap + (Block(p) + tail);
    MiddleSlice(before, gap, Block(p) + tail, 0, |gap|);
    assert before + gap + Block(p) + tail == before + (gap + Block(p)) + tail;
    MiddleSlice(before, gap + Block(p), tail, 0, |gap + Block(p)|);
  }

  /** A reply of text and printed blocks parses to the ops of the blocks that decode, in their order, and to its
      text with exactly those blocks removed. */
  lemma {:induction false} RenderParses<Op>(decode: string -> Option<seq<Op>>, before: string, gap: string, more: seq<Printed>)
    requires Printable(gap, more)
    ensures ParsesFrom(decode, before + Render(gap, more), |before|, Readable(decode, gap, more), AllOps(decode, more))
    decreases |more|
  {
    if more == [] {
      LastGapParses(decode, before, gap);
    } else {
      var p := more[0];
      var tail := Render(p.gap, more[1..]);
      assert before + Render(gap, more) == before + gap + Block(p) + tail;
      RenderParses(decode, before + gap + Block(p), p.gap, more[1..]);
      hide ParsesFrom, FreeOf, Block, WellPrinted, Render;
      FirstBlockParses(decode, before, gap, p, tail, Readable(decode, p.gap, more[1..]), AllOps(decode, more[1..]));
    }
  }

  lemma {:induction false} FirstBlockParses<Op>(decode: string -> Option<seq<Op>>, before: string, gap: string, p: Printed, tail: string,
                             kept: string, rest: seq<Op>)
    requires FreeOf(gap, HEADER) && WellPrinted(p)
    requires ParsesFrom(decode, before + gap + Block(p) + tail, |before + gap + Block(p)|, kept, rest)
    ensures ParsesFrom(decode, before + gap + Block(p) + tail, |before|,
                       gap + (if decode(p.body).Some? then "" else Block(p)) + kept, OpsIn(decode, p.body) + rest)
  {
    hide NextMatch, ParsesFrom, FreeOf, Block, Body, WellPrinted;
    var text := before + gap + Block(p) + tail;
    BlockIsNext(before, gap, p, tail);
    BlockSlices(before, gap, p, tail);
    var span := SpanOf(|before| + |gap|, p);
    if decode(p.body).Some? {
      assert gap + "" == gap;
      BlockParses(decode, text, |before|, gap, span, decode(p.body).value, kept, rest);
    } else {
      assert [] + rest == rest;
      BadBlockStays(decode, text, |before|, gap + Block(p), span, kept, rest);
    }
  }

  /** Ops printed in fences anywhere in a reply parse back to the same ops, and the reply to its text without the
      blocks. */
  lemma {:induction false} PrintedOpsParseBack<Op>(decode: string -> Option<seq<Op>>, encode: seq<Op> -> string,
                                gap: string, more: seq<Printed>, blocks: seq<seq<Op>>)
    requires Printable(gap, more) && |more| == |blocks|
    requires forall k :: 0 <= k < |blocks| ==>
               more[k].body == encode(blocks[k]) && decode(encode(blocks[k])) == Some(blocks[k])
    ensures Parsed(decode, Render(gap, more))
         == (gap + Concat(seq(|more|, k requires 0 <= k < |more| => more[k].gap)), Concat(blocks))
  {
    RenderParses(decode, "", gap, more);
    assert "" + Render(gap, more) == Render(gap, more);
    ConcatGaps(decode, gap, more, seq(|more|, k requires 0 <= k < |more| => more[k].gap));
    ConcatOps(decode, more, blocks);
  }

  function Concat<T>(parts: seq<seq<T>>): seq<T> {
    if parts == [] then [] else parts[0] + Concat(parts[1..])
  }

  lemma {:induction false} ConcatGaps<Op>(decode: string -> Option<seq<Op>>, gap: string, more: seq<Printed>, gaps: seq<string>)
    requires |more| == |gaps| && forall k :: 0 <= k < |gaps| ==> more[k].gap == gaps[k] && decode(more[k].body).Some?
    ensures Readable(decode, gap, more) == gap + Concat(gaps)
    decreases |more|
  {
    if more != [] { ConcatGaps(decode, more[0].gap, more[1..], gaps[1..]); }
  }

  lemma {:induction false} ConcatOps<Op>(decode: string -> Option<seq<Op>>, more: seq<Printed>, blocks: seq<seq<Op>>)
    requires |more| == |blocks| && forall k :: 0 <= k < |blocks| ==> decode(more[k].body) == Some(blocks[k])
    ensures AllOps(decode, more) == Concat(blocks)
    decreases |more|
  {
    if more != [] { ConcatOps(decode, more[1..], blocks[1..]); }
  }
}
