/** Length-prefixed Core IPC framing over a stream that may deliver any chunking of its bytes. */
module Framing {

  type Byte = b: int | 0 <= b < 256

  const MAX_FRAME_BYTES: nat := 8 * 1024 * 1024
  const HEADER_BYTES: nat := 4

  // ---------------------------------------------------------------- the codec as functions on byte strings

  /** `length.to_bytes(4, "big")`. */
  function Header(length: nat): (h: seq<Byte>)
    requires length <= MAX_FRAME_BYTES
    ensures |h| == HEADER_BYTES
  {
    [length / 0x1000000, length / 0x10000 % 256, length / 256 % 256, length % 256]
  }

  /** `int.from_bytes(header, "big")`. */
  function LengthOf(h: seq<Byte>): nat
    requires |h| == HEADER_BYTES
  {
    var a: int, b: int, c: int, d: int := h[0], h[1], h[2], h[3];
    a * 0x1000000 + b * 0x10000 + c * 256 + d
  }

  lemma HeaderRoundTrip(length: nat)
    requires length <= MAX_FRAME_BYTES
    ensures LengthOf(Header(length)) == length
  {
    assert length / 0x10000 == length / 256 / 256;
    assert length / 0x1000000 == length / 256 / 256 / 256;
  }

  /** The first byte in which two prefixes differ decides. */
  ghost predicate Before(g: seq<Byte>, h: seq<Byte>)
    requires |g| == |h| == HEADER_BYTES
  {
    || g[0] < h[0]
    || (g[0] == h[0] && g[1] < h[1])
    || (g[0] == h[0] && g[1] == h[1] && g[2] < h[2])
    || (g[0] == h[0] && g[1] == h[1] && g[2] == h[2] && g[3] < h[3])
  }

  /** Byte order: prefixes are ordered as the lengths they stand for, over the whole range of four bytes. */
  lemma BigEndian(g: seq<Byte>, h: seq<Byte>)
    requires |g| == |h| == HEADER_BYTES
    ensures LengthOf(g) < LengthOf(h) <==> Before(g, h)
    ensures LengthOf([0, 0, 0, 0]) == 0 && LengthOf([255, 255, 255, 255]) == 0xFFFF_FFFF
    ensures LengthOf([0, 0, 1, 0]) == 256 && MAX_FRAME_BYTES == LengthOf([0, 128, 0, 0]) == 8388608
  {
  }

  function Frame(payload: seq<Byte>): seq<Byte>
    requires |payload| <= MAX_FRAME_BYTES
  {
    Header(|payload|) + payload
  }

  datatype Parsed = Payload(payload: seq<Byte>, rest: seq<Byte>) | Truncated | TooLarge(after: seq<Byte>)

  /** What reading one frame off a finite stream yields. */
  function Parse(stream: seq<Byte>): Parsed {
    if |stream| < HEADER_BYTES then Truncated
    else
      var length := LengthOf(stream[..HEADER_BYTES]);
      if length > MAX_FRAME_BYTES then TooLarge(stream[HEADER_BYTES..])
      else if |stream| < HEADER_BYTES + length then Truncated
      else Payload(stream[HEADER_BYTES..HEADER_BYTES + length], stream[HEADER_BYTES + length..])
  }

  ghost predicate Sendable(payloads: seq<seq<Byte>>) {
    forall i :: 0 <= i < |payloads| ==> |payloads[i]| <= MAX_FRAME_BYTES
  }

  /** Frames written back to back. */
  ghost function Frames(payloads: seq<seq<Byte>>): seq<Byte>
    requires Sendable(payloads)
  {
    if |payloads| == 0 then [] else Frame(payloads[0]) + Frames(payloads[1..])
  }

  /** A frame in front of any other bytes parses back to its payload and leaves exactly those bytes. */
  lemma ParseFrame(payload: seq<Byte>, rest: seq<Byte>)
    requires |payload| <= MAX_FRAME_BYTES
    ensures Parse(Frame(payload) + rest) == Payload(payload, rest)
  {
    var stream := Frame(payload) + rest;
    HeaderRoundTrip(|payload|);
    assert stream[..HEADER_BYTES] == Header(|payload|);
    assert stream[HEADER_BYTES..HEADER_BYTES + |payload|] == payload;
    assert stream[HEADER_BYTES + |payload|..] == rest;
  }

  /** Every proper prefix of a frame is reported as truncated, never as a shorter payload. */
  lemma PrefixTruncated(payload: seq<Byte>, k: nat)
    requires |payload| <= MAX_FRAME_BYTES && k < |Frame(payload)|
    ensures Parse(Frame(payload)[..k]) == Truncated
  {
    var prefix := Frame(payload)[..k];
    HeaderRoundTrip(|payload|);
    if k >= HEADER_BYTES {
      assert prefix[..HEADER_BYTES] == Header(|payload|);
    }
  }

  /** A payload is only ever read from bytes that begin with its frame. */
  lemma ParsedWasFramed(stream: seq<Byte>)
    requires Parse(stream).Payload?
    ensures |Parse(stream).payload| <= MAX_FRAME_BYTES
    ensures stream == Frame(Parse(stream).payload) + Parse(stream).rest
  {
    var length := LengthOf(stream[..HEADER_BYTES]);
    var h := stream[..HEADER_BYTES];
    HeaderInverse(h);
    assert stream == h + stream[HEADER_BYTES..HEADER_BYTES + length] + stream[HEADER_BYTES + length..];
  }

  lemma HeaderInverse(h: seq<Byte>)
    requires |h| == HEADER_BYTES && LengthOf(h) <= MAX_FRAME_BYTES
    ensures Header(LengthOf(h)) == h
  {
    var n := LengthOf(h);
    var a: int, b: int, c: int, d: int := h[0], h[1], h[2], h[3];
    assert n % 256 == d;
    assert n / 256 == a * 0x10000 + b * 256 + c;
    assert n / 0x10000 == a * 256 + b;
    assert n / 0x1000000 == a;
  }

  // ---------------------------------------------------------------- the stream and its readers

  datatype ReadError = FrameTruncated | FrameTooLarge | StreamClosed | TimedOut

  datatype Result<T> = Success(value: T) | Failure(error: ReadError)

  /**
   A byte stream with all the bytes it will ever deliver ahead of the reader.  `Read` may return any
   non-empty part of what was asked for, so a property of the readers holds for every chunking.
   */
  class Stream {
    var ahead: seq<Byte>
    ghost var taken: seq<Byte>

    constructor (bytes: seq<Byte>)
      ensures ahead == bytes && taken == []
    {
      ahead, taken := bytes, [];
    }

    method Read(size: nat) returns (chunk: seq<Byte>)
      requires size > 0
      modifies this
      ensures |chunk| <= size && chunk <= old(ahead)
      ensures ahead == old(ahead)[|chunk|..] && taken == old(taken) + chunk
      ensures chunk == [] <==> old(ahead) == []
    {
      var most := if |ahead| < size then |ahead| else size;
      if most == 0 {
        return [];
      }
      var k :| 1 <= k <= most;
      chunk := ahead[..k];
      taken := taken + chunk;
      ahead := ahead[k..];
    }

    method Write(bytes: seq<Byte>)
      modifies this
      ensures ahead == old(ahead) + bytes && taken == old(taken)
    {
      ahead := ahead + bytes;
    }
  }

  /** After a chunk the reader stands further into the same bytes. */
  lemma ChunkMoves(taken: seq<Byte>, all: seq<Byte>, k: nat, chunk: seq<Byte>)
    requires k <= |all| && chunk <= all[k..]
    ensures var j := k + |chunk|;
      && j <= |all|
      && all[..k] + chunk == all[..j]
      && all[k..][|chunk|..] == all[j..]
      && taken + all[..k] + chunk == taken + all[..j]
  {
  }

  lemma NothingLost(taken: seq<Byte>, all: seq<Byte>, k: nat)
    requires k <= |all|
    ensures taken + all[..k] + all[k..] == taken + all
  {
    assert all[..k] + all[k..] == all;
  }

  /** `_read_exact`: exactly `size` bytes, or the truncation error when the stream ends first. */
  method ReadExact(s: Stream, size: nat) returns (r: Result<seq<Byte>>)
    modifies s
    ensures if |old(s.ahead)| < size then
              r == Failure(FrameTruncated) && s.ahead == [] && s.taken == old(s.taken) + old(s.ahead)
            else
              && r == Success(old(s.ahead)[..size])
              && s.ahead == old(s.ahead)[size..]
              && s.taken == old(s.taken) + old(s.ahead)[..size]
  {
    ghost var all := s.ahead;
    var bytes: seq<Byte> := [];
    var remaining := size;
    while remaining > 0
      invariant remaining >= 0 && |bytes| + remaining == size && |bytes| <= |all|
      invariant bytes == all[..|bytes|] && s.ahead == all[|bytes|..]
      invariant s.taken == old(s.taken) + all[..|bytes|]
    {
      ghost var k := |bytes|;
      var chunk := s.Read(remaining);
      ChunkMoves(old(s.taken), all, k, chunk);
      if chunk == [] {
        return Failure(FrameTruncated);
      }
      bytes := bytes + chunk;
      remaining := remaining - |chunk|;
    }
    return Success(bytes);
  }

  /** `read_frame` is `Parse` of what is ahead, whatever chunks the bytes arrive in. */
  method ReadFrame(s: Stream) returns (r: Result<seq<Byte>>)
    modifies s
    ensures match Parse(old(s.ahead))
            case Payload(payload, rest) =>
              r == Success(payload) && s.ahead == rest && s.taken == old(s.taken) + Frame(payload)
            case Truncated => r == Failure(FrameTruncated) && s.ahead == []
            case TooLarge(after) => r == Failure(FrameTooLarge) && s.ahead == after
  {
    ghost var stream := s.ahead;
    if Parse(stream).Payload? {
      ParsedWasFramed(stream);
    }
    var header := ReadExact(s, HEADER_BYTES);
    if header.Failure? {
      return header;
    }
    var length := LengthOf(header.value);
    if length > MAX_FRAME_BYTES {
      return Failure(FrameTooLarge);
    }
    ghost var body := s.ahead;
    r := ReadExact(s, length);
    assert body == stream[HEADER_BYTES..];
    if r.Success? {
      assert body[..length] == stream[HEADER_BYTES..HEADER_BYTES + length];
      assert body[length..] == stream[HEADER_BYTES + length..];
      assert stream[..HEADER_BYTES] == Header(length) by { HeaderInverse(header.value); }
    }
  }

  /** `write_frame`. */
  method WriteFrame(s: Stream, payload: seq<Byte>) returns (ok: bool)
    modifies s
    ensures ok <==> |payload| <= MAX_FRAME_BYTES
    ensures s.ahead == (if ok then old(s.ahead) + Frame(payload) else old(s.ahead)) && s.taken == old(s.taken)
  {
    if |payload| > MAX_FRAME_BYTES {
      return false;
    }
    s.Write(Header(|payload|) + payload);
    ok := true;
  }

  /**
   `_read_exact_with_timeout`: between chunks the deadline may pass.  Without a timeout it takes the
   same bytes as `ReadExact`; its end-of-stream error names the closed process instead.
   */
  method ReadExactBefore(s: Stream, size: nat, deadlines: nat -> bool, start: nat)
    returns (r: Result<seq<Byte>>, polls: nat)
    modifies s
    ensures start <= polls && s.taken + s.ahead == old(s.taken) + old(s.ahead)
    ensures r == Failure(TimedOut) <==> polls > start && deadlines(polls - 1)
    ensures forall i :: start <= i < polls - 1 ==> !deadlines(i)
    ensures r != Failure(TimedOut) ==>
              if |old(s.ahead)| < size then r == Failure(StreamClosed) && s.ahead == []
              else
                && r == Success(old(s.ahead)[..size])
                && s.ahead == old(s.ahead)[size..]
                && s.taken == old(s.taken) + old(s.ahead)[..size]
  {
    ghost var all := s.ahead;
    var bytes: seq<Byte> := [];
    var remaining := size;
    polls := start;
    NothingLost(s.taken, all, 0);
    while remaining > 0
      invariant remaining >= 0 && |bytes| + remaining == size && |bytes| <= |all| && start <= polls
      invariant bytes == all[..|bytes|] && s.ahead == all[|bytes|..]
      invariant s.taken == old(s.taken) + all[..|bytes|]
      invariant forall i :: start <= i < polls ==> !deadlines(i)
      invariant s.taken + s.ahead == old(s.taken) + all
      decreases remaining
    {
      polls := polls + 1;
      if deadlines(polls - 1) {
        return Failure(TimedOut), polls;
      }
      ghost var k := |bytes|;
      var chunk := s.Read(remaining);
      ChunkMoves(old(s.taken), all, k, chunk);
      NothingLost(old(s.taken), all, k + |chunk|);
      if chunk == [] {
        return Failure(StreamClosed), polls;
      }
      bytes := bytes + chunk;
      remaining := remaining - |chunk|;
    }
    r := Success(bytes);
  }

  /** `_read_frame_with_timeout`: either a timeout, or what `Parse` says of the bytes ahead. */
  method ReadFrameBefore(s: Stream, deadlines: nat -> bool) returns (r: Result<seq<Byte>>)
    modifies s
    ensures r == Failure(TimedOut) ==> exists i :: deadlines(i)
    ensures r != Failure(TimedOut) ==>
              match Parse(old(s.ahead))
              case Payload(payload, rest) =>
                r == Success(payload) && s.ahead == rest && s.taken == old(s.taken) + Frame(payload)
              case Truncated => r == Failure(StreamClosed) && s.ahead == []
              case TooLarge(after) => r == Failure(FrameTooLarge) && s.ahead == after
  {
    ghost var stream := s.ahead;
    if Parse(stream).Payload? {
      ParsedWasFramed(stream);
    }
    var header, polls := ReadExactBefore(s, HEADER_BYTES, deadlines, 0);
    if header.Failure? {
      return header;
    }
    var length := LengthOf(header.value);
    if length > MAX_FRAME_BYTES {
      return Failure(FrameTooLarge);
    }
    ghost var body := s.ahead;
    assert body == stream[HEADER_BYTES..];
    r, polls := ReadExactBefore(s, length, deadlines, polls);
    if r.Success? {
      assert body[..length] == stream[HEADER_BYTES..HEADER_BYTES + length];
      assert body[length..] == stream[HEADER_BYTES + length..];
      assert stream[..HEADER_BYTES] == Header(length) by { HeaderInverse(header.value); }
    }
  }

  /** Payloads written back to back are read back as exactly that sequence, for every chunking. */
  method RoundTrip(payloads: seq<seq<Byte>>) returns (received: seq<seq<Byte>>)
    requires Sendable(payloads)
    ensures received == payloads
  {
    var s := new Stream([]);
    assert Frames([]) == [];
    for k := 0 to |payloads|
      invariant s.ahead == Frames(payloads[..k])
    {
      var ok := WriteFrame(s, payloads[k]);
      FramesAppend(payloads[..k], payloads[k]);
      assert payloads[..k + 1] == payloads[..k] + [payloads[k]];
    }
    received := [];
    assert payloads[..|payloads|] == payloads;
    for k := 0 to |payloads|
      invariant received == payloads[..k] && s.ahead == Frames(payloads[k..])
    {
      assert payloads[k..][1..] == payloads[k + 1..];
      ParseFrame(payloads[k], Frames(payloads[k + 1..]));
      var r := ReadFrame(s);
      received := received + [r.value];
    }
  }

  lemma {:induction false} FramesAppend(payloads: seq<seq<Byte>>, last: seq<Byte>)
    requires Sendable(payloads) && |last| <= MAX_FRAME_BYTES
    ensures Sendable(payloads + [last])
    ensures Frames(payloads + [last]) == Frames(payloads) + Frame(last)
  {
    if |payloads| == 0 {
      assert payloads + [last] == [last];
    } else {
      FramesAppend(payloads[1..], last);
      assert (payloads + [last])[1..] == payloads[1..] + [last];
    }
  }
}
