/** Length-prefixed framing over a byte stream that arrives in arbitrary chunks. */
module Framing {
  import opened Options
  import opened Sequences

  newtype Byte = x: int | 0 <= x < 256

  const MAX_FRAME_BYTES: nat := 8_388_608
  const PREFIX_LIMIT: nat := 4_294_967_296

  // ---- the wire format ----

  /** `len.to_bytes(4, "big")`. */
  function Prefix(length: nat): (p: seq<Byte>)
    requires length < PREFIX_LIMIT
    ensures |p| == 4
  {
    [(length / 16_777_216) as Byte, (length / 65_536 % 256) as Byte, (length / 256 % 256) as Byte, (length % 256) as Byte]
  }

  function Length(p: seq<Byte>): nat
    requires |p| == 4
  {
    p[0] as nat * 16_777_216 + p[1] as nat * 65_536 + p[2] as nat * 256 + p[3] as nat
  }

  lemma PrefixRoundTrip(length: nat)
    requires length < PREFIX_LIMIT
    ensures Length(Prefix(length)) == length
  {
    assert length == length / 256 * 256 + length % 256;
    assert length / 256 == length / 256 / 256 * 256 + length / 256 % 256;
    assert length / 65_536 == length / 65_536 / 256 * 256 + length / 65_536 % 256;
    assert length / 256 / 256 == length / 65_536 && length / 65_536 / 256 == length / 16_777_216;
  }

  function Frame(payload: seq<Byte>): seq<Byte>
    requires |payload| < PREFIX_LIMIT
  {
    Prefix(|payload|) + payload
  }

  /** A frame is four bytes, the payload's length with the most significant first, and the payload. */
  lemma FrameIsBigEndian(payload: seq<Byte>)
    requires |payload| < PREFIX_LIMIT
    ensures var f := Frame(payload);
            && |f| == 4 + |payload| && f[4..] == payload
            && ((f[0] as nat * 256 + f[1] as nat) * 256 + f[2] as nat) * 256 + f[3] as nat == |payload|
  {
    PrefixRoundTrip(|payload|);
    hide Prefix;
  }

  ghost predicate Writable(payloads: seq<seq<Byte>>) {
    forall k :: 0 <= k < |payloads| ==> |payloads[k]| <= MAX_FRAME_BYTES
  }

  function Wire(payloads: seq<seq<Byte>>): seq<Byte>
    requires forall k :: 0 <= k < |payloads| ==> |payloads[k]| < PREFIX_LIMIT
  {
    if payloads == [] then [] else Frame(payloads[0]) + Wire(payloads[1..])
  }

  // ---- reading, as a function of the bytes that will ever arrive ----

  /** A read: a payload, the end of the stream (clean or mid-frame), or an oversized length. */
  datatype ReadResult = Payload(bytes: seq<Byte>) | EndOfStream | Oversized(length: nat)

  /** The result of one read and the bytes left for the next. An incomplete read swallows what there was;
      an oversized one has consumed its four-byte header and nothing of the body. */
  function ReadOne(stream: seq<Byte>): (ReadResult, seq<Byte>) {
    if |stream| < 4 then (EndOfStream, [])
    else
      var length := Length(stream[..4]);
      if length > MAX_FRAME_BYTES then (Oversized(length), stream[4..])
      else if |stream| < 4 + length then (EndOfStream, [])
      else (Payload(stream[4..4 + length]), stream[4 + length..])
  }

  /** All the payloads read until the first read that yields none, and how that read ended. */
  function ReadAll(stream: seq<Byte>): (seq<seq<Byte>>, ReadResult)
    decreases |stream|
  {
    var (r, rest) := ReadOne(stream);
    if r.Payload? then
      var (more, last) := ReadAll(rest);
      ([r.bytes] + more, last)
    else ([], r)
  }

  // ---- the stream reader, over chunks ----

  function Flat(chunks: seq<seq<Byte>>): seq<Byte> {
    if chunks == [] then [] else chunks[0] + Flat(chunks[1..])
  }

  /** An asyncio stream: what is buffered, and the chunks still to arrive before the end. */
  class StreamReader {
    var buffer: seq<Byte>
    var arriving: seq<seq<Byte>>

    constructor (chunks: seq<seq<Byte>>)
      ensures Remaining() == Flat(chunks)
    {
      buffer, arriving := [], chunks;
    }

    function Remaining(): seq<Byte>
      reads this
    {
      buffer + Flat(arriving)
    }

    /** `readexactly(n)`: `None` when the stream ends first, and then nothing is left. */
    method ReadExactly(n: nat) returns (bytes: Option<seq<Byte>>)
      modifies this
      ensures bytes.Some? <==> n <= |old(Remaining())|
      ensures bytes.Some? ==> bytes.value == old(Remaining())[..n] && Remaining() == old(Remaining())[n..]
      ensures bytes.None? ==> Remaining() == []
    {
      while |buffer| < n && arriving != []
        invariant Remaining() == old(Remaining())
        decreases |arriving|
      {
        buffer := buffer + arriving[0];
        arriving := arriving[1..];
      }
      if |buffer| < n {
        buffer := [];
        return None;
      }
      bytes := Some(buffer[..n]);
      assert Remaining()[..n] == buffer[..n] && Remaining()[n..] == buffer[n..] + Flat(arriving);
      buffer := buffer[n..];
    }

    /** `_read_prefixed`, whatever the chunking. */
    method ReadPrefixed() returns (r: ReadResult)
      modifies this
      ensures (r, Remaining()) == ReadOne(old(Remaining()))
    {
      ghost var stream := Remaining();
      var header := ReadExactly(4);
      if header.None? {
        return EndOfStream;
      }
      var length := Length(header.value);
      if length > MAX_FRAME_BYTES {
        return Oversized(length);
      }
      var body := ReadExactly(length);
      if body.None? {
        return EndOfStream;
      }
      assert stream[4..][..length] == stream[4..4 + length] && stream[4..][length..] == stream[4 + length..];
      return Payload(body.value);
    }
  }

  /** The writer's side: a buffer that frames are appended to. */
  class StreamWriter {
    var sent: seq<Byte>

    constructor ()
      ensures sent == []
    {
      sent := [];
    }

    method WritePrefixed(payload: seq<Byte>)
      requires |payload| < PREFIX_LIMIT
      modifies this
      ensures sent == old(sent) + Frame(payload)
    {
      sent := sent + (Prefix(|payload|) + payload);
    }
  }

  lemma {:induction false} ReadAllStep(stream: seq<Byte>)
    ensures var (r, rest) := ReadOne(stream);
            if r.Payload? then |rest| < |stream| && ReadAll(stream) == ([r.bytes] + ReadAll(rest).0, ReadAll(rest).1)
            else ReadAll(stream) == ([], r)
  {
  }

  /** A reader of whole streams: frames until the first read that yields none. */
  method Receive(chunks: seq<seq<Byte>>) returns (payloads: seq<seq<Byte>>, last: ReadResult)
    ensures (payloads, last) == ReadAll(Flat(chunks))
  {
    hide ReadOne, ReadAll, Flat, StreamReader.Remaining;
    var reader := new StreamReader(chunks);
    payloads := [];
    ghost var unread := reader.Remaining();
    assert [] + ReadAll(unread).0 == ReadAll(unread).0;
    last := reader.ReadPrefixed();
    ReadAllStep(unread);
    while last.Payload?
      invariant fresh(reader) && ReadOne(unread) == (last, reader.Remaining())
      invariant ReadAll(Flat(chunks)) == (payloads + ReadAll(unread).0, ReadAll(unread).1)
      decreases |unread|
    {
      ReadAllStep(unread);
      Regroup(payloads, [last.bytes], ReadAll(reader.Remaining()).0);
      payloads := payloads + [last.bytes];
      unread := reader.Remaining();
      last := reader.ReadPrefixed();
    }
    ReadAllStep(unread);
    assert payloads + [] == payloads;
  }

  // ---- round trips ----

  lemma ReadsFrame(payload: seq<Byte>, rest: seq<Byte>)
    requires |payload| < PREFIX_LIMIT
    ensures ReadOne(Frame(payload) + rest) == if |payload| <= MAX_FRAME_BYTES then (Payload(payload), rest)
                                             else (Oversized(|payload|), payload + rest)
  {
    var stream := Frame(payload) + rest;
    PrefixRoundTrip(|payload|);
    assert stream[..4] == Prefix(|payload|);
    assert stream[4..] == payload + rest;
    if |payload| <= MAX_FRAME_BYTES {
      assert stream[4..4 + |payload|] == payload;
    }
  }

  /** A written frame reads back to its payload exactly when the payload is within the cap; otherwise the
      read is refused with the whole body still unread. */
  lemma FrameReadsBackExactly(payload: seq<Byte>, rest: seq<Byte>)
    requires |payload| < PREFIX_LIMIT
    ensures ReadOne(Frame(payload) + rest) == (Payload(payload), rest) <==> |payload| <= MAX_FRAME_BYTES
    ensures |payload| > MAX_FRAME_BYTES ==> ReadOne(Frame(payload) + rest) == (Oversized(|payload|), payload + rest)
  {
    ReadsFrame(payload, rest);
  }

  lemma {:induction false} CutFrameReads(payload: seq<Byte>, cut: nat)
    requires |payload| <= MAX_FRAME_BYTES && cut < |Frame(payload)|
    ensures ReadAll(Frame(payload)[..cut]) == ([], EndOfStream)
  {
    PrefixRoundTrip(|payload|);
    var stream := Frame(payload)[..cut];
    if cut >= 4 {
      assert stream[..4] == Prefix(|payload|);
    }
    hide Length, Prefix;
    assert ReadOne(stream) == (EndOfStream, []);
    ReadAllStep(stream);
    hide ReadOne, ReadAll;
  }

  lemma {:induction false} WholeFrameReads(payload: seq<Byte>, rest: seq<Byte>)
    requires |payload| <= MAX_FRAME_BYTES
    ensures ReadAll(Frame(payload) + rest) == ([payload] + ReadAll(rest).0, ReadAll(rest).1)
  {
    ReadsFrame(payload, rest);
    ReadAllStep(Frame(payload) + rest);
    hide ReadOne, ReadAll, Frame;
  }

  lemma {:induction false} CutAfterFrame(first: seq<Byte>, others: seq<Byte>, cut: nat)
    requires |first| <= cut <= |first| + |others|
    ensures (first + others)[..cut] == first + others[..cut - |first|]
  {
  }

  lemma {:induction false} CutInFrame(first: seq<Byte>, others: seq<Byte>, cut: nat)
    requires cut <= |first|
    ensures (first + others)[..cut] == first[..cut]
  {
  }

  lemma {:induction false} PrefixOf<T>(s: seq<T>, n: nat)
    requires 0 < n <= |s|
    ensures s[..n] == [s[0]] + s[1..][..n - 1]
  {
  }

  /** A stream cut at any byte yields exactly the frames that fit before the cut, then its end. */
  lemma {:induction false} CutStreamReads(payloads: seq<seq<Byte>>, cut: nat)
    requires Writable(payloads) && cut <= |Wire(payloads)|
    ensures ReadAll(Wire(payloads)[..cut]) == (payloads[..Whole(payloads, cut)], EndOfStream)
    decreases |payloads|
  {
    if payloads == [] {
      assert Wire(payloads)[..cut] == [];
    } else {
      var first, others := Frame(payloads[0]), Wire(payloads[1..]);
      hide ReadAll, Frame;
      if cut < |first| {
        CutInFrame(first, others, cut);
        CutFrameReads(payloads[0], cut);
      } else {
        CutAfterFrame(first, others, cut);
        WholeFrameReads(payloads[0], others[..cut - |first|]);
        CutStreamReads(payloads[1..], cut - |first|);
        PrefixOf(payloads, Whole(payloads, cut));
      }
    }
  }

  /** How many frames lie wholly before the cut. */
  function Whole(payloads: seq<seq<Byte>>, cut: nat): (n: nat)
    requires forall k :: 0 <= k < |payloads| ==> |payloads[k]| < PREFIX_LIMIT
    ensures n <= |payloads|
    decreases |payloads|
  {
    if payloads == [] || cut < |Frame(payloads[0])| then 0
    else 1 + Whole(payloads[1..], cut - |Frame(payloads[0])|)
  }

  /** The whole frames are the longest run of frames within the cut. */
  lemma {:induction false} WholeIsExact(payloads: seq<seq<Byte>>, cut: nat)
    requires Writable(payloads) && cut <= |Wire(payloads)|
    ensures |Wire(payloads[..Whole(payloads, cut)])| <= cut
    ensures Whole(payloads, cut) < |payloads| ==> cut < |Wire(payloads[..Whole(payloads, cut) + 1])|
    decreases |payloads|
  {
    if payloads != [] {
      var size, rest := |Frame(payloads[0])|, payloads[1..];
      if cut >= size {
        WholeIsExact(rest, cut - size);
        var n := Whole(rest, cut - size);
        assert payloads[..n + 1][1..] == rest[..n];
        if n < |rest| { assert payloads[..n + 2][1..] == rest[..n + 1]; }
      } else {
        assert payloads[..1][1..] == [];
      }
    }
  }

  /** Everything written within the cap is read back, in order, under any chunking. */
  lemma AllFramesReadBack(payloads: seq<seq<Byte>>, chunks: seq<seq<Byte>>)
    requires Writable(payloads) && Flat(chunks) == Wire(payloads)
    ensures ReadAll(Flat(chunks)) == (payloads, EndOfStream)
  {
    var cut := |Wire(payloads)|;
    assert Wire(payloads)[..cut] == Wire(payloads);
    CutStreamReads(payloads, cut);
    AllAreWhole(payloads);
    assert payloads[..|payloads|] == payloads;
  }

  lemma {:induction false} AllAreWhole(payloads: seq<seq<Byte>>)
    requires Writable(payloads)
    ensures Whole(payloads, |Wire(payloads)|) == |payloads|
    decreases |payloads|
  {
    if payloads != [] { AllAreWhole(payloads[1..]); }
  }
}
