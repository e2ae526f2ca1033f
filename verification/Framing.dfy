/** Chunked transport framing (`bolt_frame.rs`): a message travels as chunks with
    a two-byte big-endian length each, closed by a zero-length chunk. */
module Framing {

  type byte = b: int | 0 <= b < 256
  type Bytes = seq<byte>

  const MAX_CHUNK_SIZE: nat := 65535

  function Header(n: nat): (h: Bytes)
    requires n <= MAX_CHUNK_SIZE
    ensures |h| == 2
  {
    [n / 256, n % 256]
  }

  function HeaderValue(hi: byte, lo: byte): (n: nat)
    ensures n <= MAX_CHUNK_SIZE
  {
    hi * 256 + lo
  }

  function Min(a: nat, b: nat): nat {
    if a < b then a else b
  }

  lemma {:induction false} Reassociate(a: Bytes, b: Bytes, c: Bytes)
    ensures a + (b + c) == (a + b) + c
  {
  }

  // ── What is sent ──────────────────────────────────────────────────────

  function Chunk(data: Bytes): Bytes
    requires |data| <= MAX_CHUNK_SIZE
  {
    Header(|data|) + data
  }

  const TERMINATOR: Bytes := [0, 0]

  /** The chunks of a message, without the terminator. */
  function Chunks(data: Bytes): Bytes
    decreases |data|
  {
    if data == [] then []
    else
      var n := Min(MAX_CHUNK_SIZE, |data|);
      Chunk(data[..n]) + Chunks(data[n..])
  }

  function Frame(data: Bytes): Bytes {
    Chunks(data) + TERMINATOR
  }

  lemma {:induction false} ChunksStep(data: Bytes, offset: nat, end: nat)
    requires offset < |data| && end == Min(offset + MAX_CHUNK_SIZE, |data|)
    ensures Chunks(data[offset..]) == Chunk(data[offset..end]) + Chunks(data[end..])
  {
    var rest := data[offset..];
    assert data[offset..end] == rest[..end - offset] && data[end..] == rest[end - offset..];
  }

  function FrameAll(messages: seq<Bytes>): Bytes {
    if messages == [] then [] else Frame(messages[0]) + FrameAll(messages[1..])
  }

  /** `BoltChunkedWriter`: `buffer` holds what has been written and not flushed. */
  class BoltChunkedWriter {
    var buffer: Bytes
    var sent: Bytes

    constructor ()
      ensures buffer == [] && sent == []
    {
      buffer, sent := [], [];
    }

    method WriteAll(data: Bytes)
      modifies this
      ensures buffer == old(buffer) + data && sent == old(sent)
    {
      buffer := buffer + data;
    }

    method Flush()
      modifies this
      ensures sent == old(sent) + old(buffer) && buffer == []
    {
      sent, buffer := sent + buffer, [];
    }

    method WriteChunk(chunk: Bytes)
      requires |chunk| <= MAX_CHUNK_SIZE
      modifies this
      ensures buffer == old(buffer) + Chunk(chunk) && sent == old(sent)
    {
      Reassociate(buffer, Header(|chunk|), chunk);
      WriteAll(Header(|chunk|));
      WriteAll(chunk);
    }

    /** Queue a message for a later flush. */
    method WriteMessageNoFlush(data: Bytes)
      modifies this
      ensures buffer == old(buffer) + Frame(data) && sent == old(sent)
    {
      var offset := 0;
      while offset < |data|
        invariant offset <= |data| && sent == old(sent)
        invariant buffer + Chunks(data[offset..]) == old(buffer) + Chunks(data)
      {
        var end := Min(offset + MAX_CHUNK_SIZE, |data|);
        var chunk := data[offset..end];
        ChunksStep(data, offset, end);
        Reassociate(buffer, Chunk(chunk), Chunks(data[end..]));
        WriteChunk(chunk);
        offset := end;
      }
      assert data[offset..] == [];
      assert buffer == old(buffer) + Chunks(data);
      Reassociate(old(buffer), Chunks(data), TERMINATOR);
      WriteAll(TERMINATOR);
    }

    /** Send a message at once. */
    method WriteMessage(data: Bytes)
      modifies this
      ensures sent == old(sent) + (old(buffer) + Frame(data)) && buffer == []
    {
      WriteMessageNoFlush(data);
      Flush();
    }
  }

  // ── What is received ──────────────────────────────────────────────────

  datatype Read =
    | Message(data: Bytes, rest: Bytes)
    | EndOfStream
    | UnexpectedEof
    | TooLarge

  /** One message off the front of `input`, with `buf` already assembled. `first`
      tells whether no chunk has been read yet. */
  function ReadFrom(input: Bytes, buf: Bytes, first: bool, max: nat): Read
    decreases |input|
  {
    if |input| < 2 then (if first then EndOfStream else UnexpectedEof)
    else
      var n := HeaderValue(input[0], input[1]);
      if n == 0 then Message(buf, input[2..])
      else if |buf| + n > max then TooLarge
      else if |input| < 2 + n then UnexpectedEof
      else ReadFrom(input[2 + n..], buf + input[2..2 + n], false, max)
  }

  function ReadMessage(input: Bytes, max: nat): Read {
    ReadFrom(input, [], true, max)
  }

  lemma {:induction false} MessageIsShorter(input: Bytes, buf: Bytes, first: bool, max: nat)
    requires ReadFrom(input, buf, first, max).Message?
    ensures |ReadFrom(input, buf, first, max).rest| < |input|
    decreases |input|
  {
    var n := HeaderValue(input[0], input[1]);
    if n > 0 {
      MessageIsShorter(input[2 + n..], buf + input[2..2 + n], false, max);
    }
  }

  /** How a stream ends. */
  datatype Received = Received(messages: seq<Bytes>, end: Read)

  /** Every message of a stream, and the outcome that stops the reader. */
  function ReadAll(input: Bytes, max: nat): Received
    decreases |input|
  {
    var r := ReadMessage(input, max);
    if r.Message? then
      MessageIsShorter(input, [], true, max);
      var tail := ReadAll(r.rest, max);
      Received([r.data] + tail.messages, tail.end)
    else Received([], r)
  }

  /** `BoltChunkedReader`: `input` is what the transport has yet to deliver before
      it closes. */
  class BoltChunkedReader {
    var input: Bytes
    const max: nat

    constructor (input: Bytes, max: nat)
      ensures this.input == input && this.max == max
    {
      this.input, this.max := input, max;
    }

    /** `read_exact`; a short read drains the transport. */
    method ReadExact(n: nat) returns (data: Bytes, ok: bool)
      modifies this
      ensures ok == (n <= |old(input)|)
      ensures ok ==> data == old(input)[..n] && input == old(input)[n..]
      ensures !ok ==> input == []
    {
      if n > |input| {
        data, ok, input := input, false, [];
      } else {
        data, ok, input := input[..n], true, input[n..];
      }
    }

    /** `read_message`. `peak` is the most the buffer ever held. */
    method Next() returns (r: Read, ghost peak: nat)
      modifies this
      ensures r == ReadMessage(old(input), max)
      ensures r.Message? ==> r.rest == input && |r.data| <= max
      ensures peak <= max
    {
      var buf: Bytes := [];
      var first := true;
      peak := 0;
      while true
        invariant |buf| <= peak <= max
        invariant ReadFrom(input, buf, first, max) == ReadMessage(old(input), max)
        decreases |input|
      {
        ghost var was := input;
        var header, ok := ReadExact(2);
        if !ok {
          r := if first then EndOfStream else UnexpectedEof;
          return;
        }
        var n := HeaderValue(header[0], header[1]);
        if n == 0 {
          r := Message(buf, input);
          return;
        }
        if |buf| + n > max {
          r := TooLarge;
          return;
        }
        var chunk;
        chunk, ok := ReadExact(n);
        if !ok {
          r := UnexpectedEof;
          return;
        }
        assert chunk == was[2..2 + n] && input == was[2 + n..];
        buf := buf + chunk;
        peak := if |buf| > peak then |buf| else peak;
        first := false;
      }
    }
  }

  // ── Round trip ────────────────────────────────────────────────────────

  lemma {:induction false} HeaderRoundTrip(n: nat)
    requires n <= MAX_CHUNK_SIZE
    ensures HeaderValue(Header(n)[0], Header(n)[1]) == n
  {
  }

  lemma {:induction false} HeaderIsUnique(hi: byte, lo: byte)
    ensures Header(HeaderValue(hi, lo)) == [hi, lo]
  {
  }

  /** Any way of cutting a message into non-empty chunks. */
  ghost predicate IsChunking(chunks: seq<Bytes>) {
    forall i :: 0 <= i < |chunks| ==> 0 < |chunks[i]| <= MAX_CHUNK_SIZE
  }

  function Flatten(chunks: seq<Bytes>): Bytes {
    if chunks == [] then [] else chunks[0] + Flatten(chunks[1..])
  }

  ghost function Encode(chunks: seq<Bytes>): Bytes
    requires IsChunking(chunks)
  {
    if chunks == [] then []
    else Chunk(chunks[0]) + Encode(chunks[1..])
  }

  /** The reader sees only the concatenation of the chunks: it delivers it, or
      refuses it for its size. */
  lemma {:induction false} ReadIgnoresChunking(chunks: seq<Bytes>, rest: Bytes, buf: Bytes, first: bool, max: nat)
    requires IsChunking(chunks) && |buf| <= max
    ensures ReadFrom(Encode(chunks) + (TERMINATOR + rest), buf, first, max) ==
            if |buf| + |Flatten(chunks)| <= max then Message(buf + Flatten(chunks), rest) else TooLarge
    decreases |chunks|
  {
    var input := Encode(chunks) + (TERMINATOR + rest);
    if chunks == [] {
      assert input[2..] == rest;
      assert buf + [] == buf;
    } else {
      var c, more := chunks[0], chunks[1..];
      var n := |c|;
      HeaderRoundTrip(n);
      var tail := Encode(more) + (TERMINATOR + rest);
      Reassociate(Chunk(c), Encode(more), TERMINATOR + rest);
      assert input == Chunk(c) + tail;
      assert input[0] == Header(n)[0] && input[1] == Header(n)[1];
      if |buf| + n <= max {
        assert input[2..2 + n] == c && input[2 + n..] == tail;
        ReadIgnoresChunking(more, rest, buf + c, false, max);
        Reassociate(buf, c, Flatten(more));
      }
    }
  }

  /** The chunks the writer chooses. */
  ghost function Split(data: Bytes): (chunks: seq<Bytes>)
    ensures IsChunking(chunks)
    decreases |data|
  {
    if data == [] then []
    else
      var n := Min(MAX_CHUNK_SIZE, |data|);
      [data[..n]] + Split(data[n..])
  }

  lemma {:induction false} WriterChunks(data: Bytes)
    ensures Encode(Split(data)) == Chunks(data) && Flatten(Split(data)) == data
    decreases |data|
  {
    if data != [] {
      var n := Min(MAX_CHUNK_SIZE, |data|);
      WriterChunks(data[n..]);
      assert Split(data)[1..] == Split(data[n..]);
      assert data[..n] + data[n..] == data;
    }
  }

  lemma {:induction false} ReadAfterWrite(data: Bytes, rest: Bytes, max: nat)
    ensures ReadMessage(Frame(data) + rest, max) ==
            if |data| <= max then Message(data, rest) else TooLarge
  {
    WriterChunks(data);
    ReadIgnoresChunking(Split(data), rest, [], true, max);
    Reassociate(Chunks(data), TERMINATOR, rest);
    assert [] + data == data;
  }

  // ── Byte by byte ──────────────────────────────────────────────────────

  /** A short message goes out as its length, high byte first, its bytes, and two zeros;
      an empty one as two zeros. */
  lemma {:induction false} FrameOfShort(data: Bytes)
    requires |data| <= MAX_CHUNK_SIZE
    ensures data == [] ==> Frame(data) == [0, 0]
    ensures data != [] ==>
      && |Frame(data)| == |data| + 4
      && (Frame(data)[0] as int) * 256 + (Frame(data)[1] as int) == |data|
      && Frame(data)[2..] == data + [0, 0]
  {
    if data != [] {
      assert data[..|data|] == data && data[|data|..] == [];
      assert Chunks(data) == Chunk(data) + [];
    }
  }

  /** What a message costs on the wire: two bytes for each chunk, as few chunks as can be,
      and two at the end. */
  lemma {:induction false} FrameLength(data: Bytes)
    ensures |Frame(data)| == |data| + 2 * ((|data| + MAX_CHUNK_SIZE - 1) / MAX_CHUNK_SIZE) + 2
    decreases |data|
  {
    if data != [] {
      var n := Min(MAX_CHUNK_SIZE, |data|);
      FrameLength(data[n..]);
      assert |Frame(data)| == |Chunk(data[..n])| + |Frame(data[n..])|;
    }
  }

  /** A message of 258 bytes begins with a one and a two. */
  lemma {:induction false} HighByteFirst(data: Bytes)
    requires |data| == 258
    ensures Frame(data)[0] == 1 && Frame(data)[1] == 2
  {
    FrameOfShort(data);
  }

  /** Reading what was written gives back the messages and then the end. */
  lemma {:induction false} StreamRoundTrip(messages: seq<Bytes>, max: nat)
    requires forall i :: 0 <= i < |messages| ==> |messages[i]| <= max
    ensures ReadAll(FrameAll(messages), max) == Received(messages, EndOfStream)
  {
    if messages != [] {
      ReadAfterWrite(messages[0], FrameAll(messages[1..]), max);
      StreamRoundTrip(messages[1..], max);
      assert [messages[0]] + messages[1..] == messages;
    }
  }

  // ── Truncation ────────────────────────────────────────────────────────

  /** An answer that did not depend on the end of the stream survives more input. */
  lemma {:induction false} ReadIsStable(input: Bytes, more: Bytes, buf: Bytes, first: bool, max: nat)
    ensures var r := ReadFrom(input, buf, first, max);
      && (r.Message? ==> ReadFrom(input + more, buf, first, max) == Message(r.data, r.rest + more))
      && (r.TooLarge? ==> ReadFrom(input + more, buf, first, max) == TooLarge)
    decreases |input|
  {
    if |input| >= 2 {
      var n := HeaderValue(input[0], input[1]);
      var longer := input + more;
      assert longer[0] == input[0] && longer[1] == input[1];
      if n == 0 {
        assert longer[2..] == input[2..] + more;
      } else if |buf| + n <= max && |input| >= 2 + n {
        assert longer[2..2 + n] == input[2..2 + n];
        assert longer[2 + n..] == input[2 + n..] + more;
        ReadIsStable(input[2 + n..], more, buf + input[2..2 + n], false, max);
      }
    }
  }

  lemma {:induction false} TruncatedRead(cut: Bytes, lost: Bytes, m: Bytes, tail: Bytes, max: nat)
    requires ReadMessage(cut + lost, max) == Message(m, tail)
    ensures match ReadMessage(cut, max)
      case Message(data, rest) => data == m && rest + lost == tail
      case end => end in {EndOfStream, UnexpectedEof}
  {
    ReadIsStable(cut, lost, [], true, max);
  }

  /** However the stream is cut, the reader delivers a prefix of the messages and
      then stops for want of input: never a message that was not sent. */
  lemma {:induction false} TruncationGivesPrefix(messages: seq<Bytes>, cut: Bytes, lost: Bytes, max: nat)
    requires forall i :: 0 <= i < |messages| ==> |messages[i]| <= max
    requires cut + lost == FrameAll(messages)
    ensures ReadAll(cut, max).messages <= messages
    ensures ReadAll(cut, max).end in {EndOfStream, UnexpectedEof}
  {
    if messages == [] {
      assert cut == [];
    } else {
      TruncatedHead(messages, cut, lost, max);
      var r := ReadMessage(cut, max);
      if r.Message? {
        TruncationGivesPrefix(messages[1..], r.rest, lost, max);
        PrefixCons(r.data, ReadAll(r.rest, max).messages, messages);
      }
    }
  }

  lemma {:induction false} TruncatedHead(messages: seq<Bytes>, cut: Bytes, lost: Bytes, max: nat)
    requires messages != [] && |messages[0]| <= max && cut + lost == FrameAll(messages)
    ensures match ReadMessage(cut, max)
      case Message(data, rest) => data == messages[0] && rest + lost == FrameAll(messages[1..])
      case end => end in {EndOfStream, UnexpectedEof}
  {
    ReadAfterWrite(messages[0], FrameAll(messages[1..]), max);
    TruncatedRead(cut, lost, messages[0], FrameAll(messages[1..]), max);
  }

  lemma {:induction false} PrefixCons(m: Bytes, some: seq<Bytes>, messages: seq<Bytes>)
    requires messages != [] && m == messages[0] && some <= messages[1..]
    ensures [m] + some <= messages
  {
    assert messages == [m] + messages[1..];
  }

  // ── Which truncations go unnoticed ────────────────────────────────────

  /** Only a stream that ends before the first header is complete ends cleanly. */
  lemma {:induction false} CleanEndIsShort(input: Bytes, buf: Bytes, first: bool, max: nat)
    ensures ReadFrom(input, buf, first, max).EndOfStream? <==> first && |input| < 2
    decreases |input|
  {
    if |input| >= 2 {
      var n := HeaderValue(input[0], input[1]);
      if 0 < n && |buf| + n <= max && |input| >= 2 + n {
        CleanEndIsShort(input[2 + n..], buf + input[2..2 + n], false, max);
      }
    }
  }

  /** A stream that holds the first frame whole delivers its message. */
  lemma {:induction false} WholeFrameIsRead(messages: seq<Bytes>, cut: Bytes, lost: Bytes, max: nat)
    requires messages != [] && |messages[0]| <= max && cut + lost == FrameAll(messages)
    ensures ReadMessage(cut, max).Message? <==> |cut| >= |Frame(messages[0])|
    ensures ReadMessage(cut, max).Message? ==>
            |cut| == |Frame(messages[0])| + |ReadMessage(cut, max).rest|
  {
    TruncatedHead(messages, cut, lost, max);
    var (f, more) := (Frame(messages[0]), FrameAll(messages[1..]));
    if |cut| >= |f| {
      assert cut == (cut + lost)[..|cut|] == (f + more)[..|cut|];
      assert cut == f + cut[|f|..];
      ReadAfterWrite(messages[0], cut[|f|..], max);
    }
    var r := ReadMessage(cut, max);
    if r.Message? {
      assert |r.rest| + |lost| == |more| && |cut| + |lost| == |f| + |more|;
    }
  }

  /** The bytes of the first `k` messages. */
  function Framed(messages: seq<Bytes>, k: nat): nat
    requires k <= |messages|
  {
    |FrameAll(messages[..k])|
  }

  lemma {:induction false} FramedStep(messages: seq<Bytes>, k: nat)
    requires 0 < k <= |messages|
    ensures Framed(messages, k) == |Frame(messages[0])| + Framed(messages[1..], k - 1)
  {
    assert messages[..k][1..] == messages[1..][..k - 1];
  }

  /** Where a cut stream stands: `k` whole frames, less than the next one. */
  predicate HoldsFrames(messages: seq<Bytes>, length: nat, k: nat) {
    && k <= |messages|
    && Framed(messages, k) <= length
    && (k < |messages| ==> length < Framed(messages, k + 1))
  }

  /** The reader delivers the messages whose frames arrived whole, and takes the cut for
      the end of the stream exactly if at most one byte follows the last of them. */
  lemma {:induction false} TruncationIsSilentExactly(messages: seq<Bytes>, cut: Bytes, lost: Bytes, max: nat)
    requires forall i :: 0 <= i < |messages| ==> |messages[i]| <= max
    requires cut + lost == FrameAll(messages)
    ensures var (r, k) := (ReadAll(cut, max), |ReadAll(cut, max).messages|);
      && HoldsFrames(messages, |cut|, k)
      && r.messages == messages[..k]
      && (r.end.EndOfStream? <==> |cut| - Framed(messages, k) < 2)
  {
    var r := ReadMessage(cut, max);
    CleanEndIsShort(cut, [], true, max);
    if messages == [] {
      assert cut == [];
    } else {
      TruncatedHead(messages, cut, lost, max);
      WholeFrameIsRead(messages, cut, lost, max);
      if r.Message? {
        var k := |ReadAll(r.rest, max).messages|;
        TruncationIsSilentExactly(messages[1..], r.rest, lost, max);
        FramedStep(messages, k + 1);
        if k + 1 < |messages| {
          FramedStep(messages, k + 2);
        }
        assert messages[..k + 1] == [messages[0]] + messages[1..][..k];
      } else {
        FramedStep(messages, 1);
      }
    }
  }

  /** So a stream cut after the first byte of a header loses every further message
      without an error, and one cut after the second does not. */
  lemma {:induction false} OneByteCutIsSilent(message: Bytes, max: nat)
    requires 0 < |message| <= max
    ensures ReadAll(Frame(message)[..1], max) == Received([], EndOfStream)
    ensures ReadAll(Frame(message)[..2], max) == Received([], UnexpectedEof)
  {
    var f := Frame(message);
    assert [message][1..] == [];
    assert FrameAll([message]) == f + FrameAll([]) == f;
    FramedStep([message], 1);
    assert f[..1] + f[1..] == f && f[..2] + f[2..] == f;
    TruncationIsSilentExactly([message], f[..1], f[1..], max);
    TruncationIsSilentExactly([message], f[..2], f[2..], max);
    TruncationGivesPrefix([message], f[..2], f[2..], max);
  }

  lemma {:induction false} ChunkInFront(input: Bytes, n: nat)
    requires 0 < n && 2 + n <= |input| && n == HeaderValue(input[0], input[1])
    ensures input == Chunk(input[2..2 + n]) + input[2 + n..]
  {
    HeaderIsUnique(input[0], input[1]);
  }

  lemma {:induction false} EncodeCons(c: Bytes, more: seq<Bytes>)
    requires 0 < |c| <= MAX_CHUNK_SIZE && IsChunking(more)
    ensures IsChunking([c] + more)
    ensures Encode([c] + more) == Chunk(c) + Encode(more)
    ensures Flatten([c] + more) == c + Flatten(more)
  {
    assert ([c] + more)[1..] == more;
  }

  lemma {:induction false} DeliveredStep(input: Bytes, n: nat, rest: Bytes, more: seq<Bytes>)
    requires 0 < n && 2 + n <= |input| && n == HeaderValue(input[0], input[1])
    requires IsChunking(more) && input[2 + n..] == Encode(more) + (TERMINATOR + rest)
    ensures IsChunking([input[2..2 + n]] + more)
    ensures input == Encode([input[2..2 + n]] + more) + (TERMINATOR + rest)
    ensures Flatten([input[2..2 + n]] + more) == input[2..2 + n] + Flatten(more)
  {
    var c := input[2..2 + n];
    EncodeCons(c, more);
    ChunkInFront(input, n);
    Reassociate(Chunk(c), Encode(more), TERMINATOR + rest);
  }

  lemma {:induction false} DropPrefix(data: Bytes, buf: Bytes, c: Bytes)
    requires |buf + c| <= |data| && buf + c == data[..|buf + c|]
    ensures buf == data[..|buf|] && data[|buf|..] == c + data[|buf + c|..]
  {
    assert data == (buf + c) + data[|buf + c|..];
  }

  /** `r` is a message within the limit, and `chunks` is how the part of it after
      `buf` was sent at the front of `input`. */
  ghost predicate IsSending(chunks: seq<Bytes>, input: Bytes, buf: Bytes, r: Read, max: nat) {
    && r.Message?
    && |buf| <= |r.data| <= max
    && buf == r.data[..|buf|]
    && IsChunking(chunks)
    && input == Encode(chunks) + (TERMINATOR + r.rest)
    && r.data[|buf|..] == Flatten(chunks)
  }

  lemma {:induction false} SendingNothing(input: Bytes, buf: Bytes, max: nat)
    requires |input| >= 2 && HeaderValue(input[0], input[1]) == 0 && |buf| <= max
    ensures IsSending([], input, buf, Message(buf, input[2..]), max)
  {
    assert input == TERMINATOR + input[2..];
  }

  lemma {:induction false} SendingOneMore(input: Bytes, n: nat, buf: Bytes, r: Read, more: seq<Bytes>, max: nat)
    requires 0 < n && 2 + n <= |input| && n == HeaderValue(input[0], input[1])
    requires IsSending(more, input[2 + n..], buf + input[2..2 + n], r, max)
    ensures IsSending([input[2..2 + n]] + more, input, buf, r, max)
  {
    DeliveredStep(input, n, r.rest, more);
    DropPrefix(r.data, buf, input[2..2 + n]);
  }

  /** On arbitrary bytes, a delivered message was really sent, in chunks, and fits
      the limit. */
  lemma {:induction false} DeliveredWasSent(input: Bytes, buf: Bytes, first: bool,
                                            max: nat) returns (chunks: seq<Bytes>)
    requires |buf| <= max && ReadFrom(input, buf, first, max).Message?
    ensures IsSending(chunks, input, buf, ReadFrom(input, buf, first, max), max)
    decreases |input|
  {
    var r := ReadFrom(input, buf, first, max);
    var n := HeaderValue(input[0], input[1]);
    if n == 0 {
      SendingNothing(input, buf, max);
      return [];
    }
    var c := input[2..2 + n];
    var more := DeliveredWasSent(input[2 + n..], buf + c, false, max);
    SendingOneMore(input, n, buf, r, more, max);
    return [c] + more;
  }
}
