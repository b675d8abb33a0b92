/** Size-prefixed frames over a byte stream: a writer that batches whole frames into flushes
    and a reader that cuts frames out of whatever chunks the connection delivers. */
module Framing {
  type byte = b: nat | b < 256

  const PREFIX: nat := 4
  const MIN_PAYLOAD: nat := 4
  const MAX_FRAME_BYTES: nat := 1024
  const BUFFER_BYTES: nat := 64 * 1024

  type Bytes = seq<byte>

  function Concat(parts: seq<Bytes>): Bytes {
    if parts == [] then [] else parts[0] + Concat(parts[1..])
  }

  lemma {:induction false} ConcatAppend(parts: seq<Bytes>, last: Bytes)
    ensures Concat(parts + [last]) == Concat(parts) + last
  {
    if parts == [] {
      assert parts + [last] == [last];
    } else {
      assert (parts + [last])[1..] == parts[1..] + [last];
      ConcatAppend(parts[1..], last);
    }
  }

  lemma {:induction false} ConcatJoin(a: seq<Bytes>, b: seq<Bytes>)
    ensures Concat(a + b) == Concat(a) + Concat(b)
  {
    if a == [] {
      assert a + b == b;
    } else {
      assert (a + b)[1..] == a[1..] + b;
      ConcatJoin(a[1..], b);
    }
  }

  // ---------- Frames ----------

  /** The lowest `width` bytes of a number, least significant first. */
  function LittleEndian(n: nat, width: nat): (bytes: Bytes)
    ensures |bytes| == width
  {
    if width == 0 then [] else [n % 256] + LittleEndian(n / 256, width - 1)
  }

  /** A payload behind its size. */
  function FrameOf(payload: Bytes): (frame: Bytes)
    ensures |frame| == PREFIX + |payload| && frame[PREFIX..] == payload
  {
    LittleEndian(|payload|, PREFIX) + payload
  }

  /** A payload within the protocol's bounds. */
  predicate ValidPayload(payload: Bytes) {
    MIN_PAYLOAD <= |payload| <= MAX_FRAME_BYTES - PREFIX
  }

  predicate WellFormed(frame: Bytes) {
    PREFIX <= |frame| && ValidPayload(frame[PREFIX..]) && frame == FrameOf(frame[PREFIX..])
  }

  /** The size that the reader takes from the first four bytes. */
  function PayloadSize(prefix: Bytes): nat
    requires |prefix| >= PREFIX
  {
    prefix[0] as int + 256 * prefix[1] as int + 65_536 * prefix[2] as int + 16_777_216 * prefix[3] as int
  }

  lemma FourBytes(n: nat)
    ensures LittleEndian(n, PREFIX) == [n % 256, n / 256 % 256, n / 256 / 256 % 256, n / 256 / 256 / 256 % 256]
  {
    assert LittleEndian(n, 4) == [n % 256] + LittleEndian(n / 256, 3);
    assert LittleEndian(n / 256, 3) == [n / 256 % 256] + LittleEndian(n / 256 / 256, 2);
    assert LittleEndian(n / 256 / 256, 2) == [n / 256 / 256 % 256] + LittleEndian(n / 256 / 256 / 256, 1);
    assert LittleEndian(n / 256 / 256 / 256, 1) == [n / 256 / 256 / 256 % 256];
  }

  /** The reader takes from a prefix the size that was encoded in it, whatever follows. */
  lemma SizeRoundTrip(n: nat, rest: Bytes)
    requires n < 0x1_0000_0000
    ensures PayloadSize(LittleEndian(n, PREFIX) + rest) == n
  {
    FourBytes(n);
    var a := n / 256;
    var b := a / 256;
    assert n == 256 * a + n % 256 && a == 256 * b + a % 256 && b == 256 * (b / 256) + b % 256;
    assert b / 256 < 256;
  }

  /** Four bytes are the encoding of the size read from them. */
  lemma PrefixRoundTrip(stream: Bytes)
    requires |stream| >= PREFIX
    ensures stream[..PREFIX] == LittleEndian(PayloadSize(stream), PREFIX)
  {
    var n := PayloadSize(stream);
    FourBytes(n);
    Digits(stream[0], stream[1] as int + 256 * stream[2] as int + 65_536 * stream[3] as int);
    Digits(stream[1], stream[2] as int + 256 * stream[3] as int);
    Digits(stream[2], stream[3]);
  }

  lemma Digits(low: nat, high: nat)
    requires low < 256
    ensures (low + 256 * high) % 256 == low && (low + 256 * high) / 256 == high
  {
  }

  datatype ReadResult =
    | Frame(bytes: Bytes)
    | EndOfStream
    | UnexpectedEnd
    | Malformed

  /** What the next read of a stream yields, however the stream is cut into chunks. */
  function Parse(stream: Bytes): (r: ReadResult)
    ensures r.Frame? ==> r.bytes != [] && r.bytes <= stream && WellFormed(r.bytes)
  {
    if stream == [] then EndOfStream
    else if |stream| < PREFIX then UnexpectedEnd
    else
      var size := PayloadSize(stream);
      if size < MIN_PAYLOAD || size > MAX_FRAME_BYTES - PREFIX then Malformed
      else if |stream| < PREFIX + size then UnexpectedEnd
      else
        FirstFrame(stream);
        Frame(stream[..PREFIX + size])
  }

  lemma FirstFrame(stream: Bytes)
    requires PREFIX <= |stream| && PREFIX + PayloadSize(stream) <= |stream|
    ensures var frame := stream[..PREFIX + PayloadSize(stream)]; frame == FrameOf(frame[PREFIX..])
  {
    PrefixRoundTrip(stream);
    var frame := stream[..PREFIX + PayloadSize(stream)];
    assert frame == stream[..PREFIX] + frame[PREFIX..];
  }

  /** A well-formed frame tells its size, also when only a part of it has arrived. */
  lemma FrameTellsSize(frame: Bytes, stream: Bytes)
    requires WellFormed(frame) && PREFIX <= |stream| && (stream <= frame || frame <= stream)
    ensures PayloadSize(stream) == |frame| - PREFIX
  {
    SizeRoundTrip(|frame| - PREFIX, frame[PREFIX..]);
    assert stream[..PREFIX] == frame[..PREFIX];
  }

  /** What a read means: it yields a frame if and only if the stream starts with that frame, a
      clean end if and only if the stream is empty, and once the prefix is there an unexpected
      end if and only if the stream is a part of some well-formed frame; anything else is
      malformed. */
  lemma ReadMeans(stream: Bytes, frame: Bytes)
    ensures Parse(stream) == Frame(frame) <==> WellFormed(frame) && frame <= stream
    ensures Parse(stream) == EndOfStream <==> stream == []
    ensures Parse(stream) == UnexpectedEnd <==>
              0 < |stream| && (|stream| < PREFIX || exists whole :: WellFormed(whole) && stream < whole)
  {
    if WellFormed(frame) && frame <= stream {
      FrameTellsSize(frame, stream);
    }
    if PREFIX <= |stream| && exists whole :: WellFormed(whole) && stream < whole {
      var whole :| WellFormed(whole) && stream < whole;
      FrameTellsSize(whole, stream);
    }
    if PREFIX <= |stream| && Parse(stream) == UnexpectedEnd {
      var missing := PREFIX + PayloadSize(stream) - |stream|;
      var whole := stream + seq(missing, _ => 0);
      assert PayloadSize(whole) == PayloadSize(stream);
      FirstFrame(whole);
      assert whole[..|whole|] == whole;
      assert WellFormed(whole) && stream < whole;
    }
  }

  /** All frames up to the first read that yields none, and what that read yields. */
  function ParseAll(stream: Bytes): (r: (seq<Bytes>, ReadResult))
    decreases |stream|
  {
    var next := Parse(stream);
    if next.Frame? then
      var rest := ParseAll(stream[|next.bytes|..]);
      ([next.bytes] + rest.0, rest.1)
    else ([], next)
  }

  /** How many of the frames lie entirely within the first `count` bytes of their stream. */
  function WholeFrames(frames: seq<Bytes>, count: nat): (n: nat)
    ensures n <= |frames|
  {
    if frames == [] || count < |frames[0]| then 0 else 1 + WholeFrames(frames[1..], count - |frames[0]|)
  }

  lemma {:induction false} WholeFramesFit(frames: seq<Bytes>, count: nat)
    ensures |Concat(frames[..WholeFrames(frames, count)])| <= count
    ensures WholeFrames(frames, count) < |frames| ==> count < |Concat(frames[..WholeFrames(frames, count) + 1])|
  {
    var n := WholeFrames(frames, count);
    if frames != [] && n == 0 {
      assert frames[..1] == [frames[0]];
    } else if frames != [] {
      WholeFramesFit(frames[1..], count - |frames[0]|);
      assert frames[..n][1..] == frames[1..][..n - 1];
      if n < |frames| {
        assert frames[..n + 1][1..] == frames[1..][..n];
      }
    }
  }

  /** A stream that starts with a well-formed frame yields that frame first. */
  lemma ParseFirst(frame: Bytes, rest: Bytes)
    requires WellFormed(frame)
    ensures Parse(frame + rest) == Frame(frame)
    ensures ParseAll(frame + rest) == ([frame] + ParseAll(rest).0, ParseAll(rest).1)
  {
    assert (frame + rest)[..|frame|] == frame && (frame + rest)[|frame|..] == rest;
    FrameTellsSize(frame, frame + rest);
  }

  /** A stream that breaks off within a well-formed frame yields nothing more. */
  lemma ParseBroken(frame: Bytes, count: nat)
    requires WellFormed(frame) && count < |frame|
    ensures ParseAll(frame[..count]) == ([], if count == 0 then EndOfStream else UnexpectedEnd)
  {
    if count >= PREFIX {
      FrameTellsSize(frame, frame[..count]);
    }
  }

  /** One frame of a stream that breaks off behind it. */
  lemma ParseNext(frames: seq<Bytes>, count: nat)
    requires frames != [] && WellFormed(frames[0]) && |frames[0]| <= count <= |Concat(frames)|
    ensures var n := count - |frames[0]|; var rest := ParseAll(Concat(frames[1..])[..n]);
      ParseAll(Concat(frames)[..count]) == ([frames[0]] + rest.0, rest.1)
  {
    var f, rest := frames[0], Concat(frames[1..]);
    assert (f + rest)[..count] == f + rest[..count - |f|];
    ParseFirst(f, rest[..count - |f|]);
  }

  lemma ParseLast(frames: seq<Bytes>, count: nat)
    requires frames != [] && WellFormed(frames[0]) && count < |frames[0]|
    ensures count <= |Concat(frames)|
    ensures ParseAll(Concat(frames)[..count]) == ([], if count == 0 then EndOfStream else UnexpectedEnd)
  {
    assert (frames[0] + Concat(frames[1..]))[..count] == frames[0][..count];
    ParseBroken(frames[0], count);
  }

  lemma TakeOneMore(frames: seq<Bytes>, n: nat)
    requires 1 <= n <= |frames|
    ensures [frames[0]] + frames[1..][..n - 1] == frames[..n]
  {
  }

  /** Reading a stream of well-formed frames that breaks off anywhere yields exactly the frames
      that arrived whole, in order. */
  lemma {:induction false} BrokenStream(frames: seq<Bytes>, count: nat)
    requires forall i :: 0 <= i < |frames| ==> WellFormed(frames[i])
    requires count <= |Concat(frames)|
    ensures ParseAll(Concat(frames)[..count]).0 == frames[..WholeFrames(frames, count)]
  {
    if frames != [] {
      assert WellFormed(frames[0]);
      if count < |frames[0]| {
        ParseLast(frames, count);
      } else {
        ParseNext(frames, count);
        BrokenStream(frames[1..], count - |frames[0]|);
        TakeOneMore(frames, WholeFrames(frames, count));
      }
    }
  }

  /** How a stream that breaks off after `count` bytes ends. */
  function Ending(frames: seq<Bytes>, count: nat): ReadResult {
    if frames == [] then EndOfStream
    else if count < |frames[0]| then if count == 0 then EndOfStream else UnexpectedEnd
    else Ending(frames[1..], count - |frames[0]|)
  }

  lemma {:induction false} EndingRead(frames: seq<Bytes>, count: nat)
    requires forall i :: 0 <= i < |frames| ==> WellFormed(frames[i])
    requires count <= |Concat(frames)|
    ensures ParseAll(Concat(frames)[..count]).1 == Ending(frames, count)
  {
    if frames != [] {
      assert WellFormed(frames[0]);
      if count < |frames[0]| {
        ParseLast(frames, count);
      } else {
        ParseNext(frames, count);
        EndingRead(frames[1..], count - |frames[0]|);
      }
    }
  }

  lemma {:induction false} EndingClean(frames: seq<Bytes>, count: nat)
    requires count <= |Concat(frames)|
    ensures Ending(frames, count)
         == if count == |Concat(frames[..WholeFrames(frames, count)])| then EndOfStream else UnexpectedEnd
  {
    if frames != [] && count >= |frames[0]| {
      var n := WholeFrames(frames, count);
      EndingClean(frames[1..], count - |frames[0]|);
      assert frames[..n][1..] == frames[1..][..n - 1];
    }
  }

  /** The end of such a stream is a clean one if and only if it broke off between two frames,
      and an unexpected one otherwise. */
  lemma BrokenEnd(frames: seq<Bytes>, count: nat)
    requires forall i :: 0 <= i < |frames| ==> WellFormed(frames[i])
    requires count <= |Concat(frames)|
    ensures ParseAll(Concat(frames)[..count]).1
         == if count == |Concat(frames[..WholeFrames(frames, count)])| then EndOfStream else UnexpectedEnd
  {
    EndingRead(frames, count);
    EndingClean(frames, count);
  }

  /** Reading back a whole stream of well-formed frames yields exactly those frames. */
  lemma {:induction false} FramesRoundTrip(frames: seq<Bytes>)
    requires forall i :: 0 <= i < |frames| ==> WellFormed(frames[i])
    ensures ParseAll(Concat(frames)) == (frames, EndOfStream)
  {
    if frames != [] {
      assert WellFormed(frames[0]);
      ParseFirst(frames[0], Concat(frames[1..]));
      FramesRoundTrip(frames[1..]);
      assert [frames[0]] + frames[1..] == frames;
    }
  }

  /** The frames of some payloads. */
  function FramesOf(payloads: seq<Bytes>): (frames: seq<Bytes>)
    ensures |frames| == |payloads| && forall i :: 0 <= i < |frames| ==> frames[i] == FrameOf(payloads[i])
  {
    seq(|payloads|, i requires 0 <= i < |payloads| => FrameOf(payloads[i]))
  }

  /** Payloads of a size the protocol allows come back as they were, in order, each behind its
      size. */
  lemma PayloadsRoundTrip(payloads: seq<Bytes>)
    requires forall i :: 0 <= i < |payloads| ==> ValidPayload(payloads[i])
    ensures ParseAll(Concat(FramesOf(payloads))) == (FramesOf(payloads), EndOfStream)
    ensures forall i :: 0 <= i < |payloads| ==> FramesOf(payloads)[i][PREFIX..] == payloads[i]
  {
    FramesRoundTrip(FramesOf(payloads));
  }

  /** How the connection answers a flush: the deadline cannot be set, or a write takes some
      bytes and possibly reports an error. */
  datatype Answer = NoDeadline | Wrote(count: nat, error: bool)

  lemma Nothing(frames: seq<Bytes>)
    ensures frames + [] == frames
  {
  }

  /** What a write takes and what it leaves are what there was. */
  lemma Cut(wire: Bytes, buffer: Bytes, count: nat)
    requires count <= |buffer|
    ensures wire + buffer[..count] + buffer[count..] == wire + buffer
    ensures count == |buffer| ==> buffer[..count] == buffer
  {
  }

  /** Buffers whole frames and writes each batch to the connection in one piece. */
  class FrameWriter {
    var buffer: Bytes
    /** Set by the first failed write, for good. */
    var failed: bool
    /** What the connection has taken. */
    var wire: Bytes
    ghost var sent: seq<Bytes>
    ghost var waiting: seq<Bytes>

    constructor ()
      ensures Valid() && Accepted() == [] && wire == [] && !failed
    {
      buffer, failed, wire, sent, waiting := [], false, [], [], [];
    }

    /** Every accepted byte is on the wire or buffered, in order; until a write fails, both
        hold whole frames. */
    ghost predicate Valid()
      reads this
    {
      && |buffer| <= BUFFER_BYTES
      && wire + buffer == Concat(Accepted())
      && (!failed ==> wire == Concat(sent) && buffer == Concat(waiting))
    }

    /** The frames accepted so far, in order. */
    ghost function Accepted(): seq<Bytes>
      reads this
    {
      sent + waiting
    }

    /** Writes everything buffered. */
    method Flush(answer: Answer) returns (ok: bool)
      requires Valid()
      requires answer.Wrote? ==> answer.count <= |buffer|
      modifies this
      ensures Valid() && Accepted() == old(Accepted()) && old(wire) <= wire
      ensures ok <==> old(buffer) == [] || (!old(failed) && answer == Wrote(|old(buffer)|, false))
      ensures ok ==> buffer == [] && failed == old(failed) && sent == old(Accepted())
      ensures !ok ==> failed == (old(failed) || answer.Wrote?)
      ensures wire == old(wire) || (!old(failed) && answer.Wrote? && wire == old(wire) + old(buffer)[..answer.count])
    {
      Nothing(sent + waiting);
      if |buffer| == 0 {
        sent, waiting := sent + waiting, [];
        return true;
      }
      if answer.NoDeadline? || failed {
        return false;
      }
      ConcatJoin(sent, waiting);
      Cut(wire, buffer, answer.count);
      wire := wire + buffer[..answer.count];
      if answer.count < |buffer| || answer.error {
        buffer, failed := buffer[answer.count..], true;
        return false;
      }
      sent, waiting := sent + waiting, [];
      buffer := [];
      return true;
    }

    /** Adds one frame; if it does not fit behind the frames already buffered, those are
        flushed first. */
    method BufferFrame(frame: Bytes, answer: Answer) returns (ok: bool)
      requires Valid()
      requires answer.Wrote? ==> answer.count <= |buffer|
      modifies this
      ensures Valid() && old(wire) <= wire
      ensures ok ==> Accepted() == old(Accepted()) + [frame] && !failed
      ensures !ok ==> Accepted() == old(Accepted())
      ensures var fits := |old(buffer)| + |frame| <= BUFFER_BYTES;
        ok <==> |frame| <= BUFFER_BYTES && !old(failed) && (fits || answer == Wrote(|old(buffer)|, false))
      ensures |old(buffer)| + |frame| <= BUFFER_BYTES ==> wire == old(wire)
    {
      if |frame| > BUFFER_BYTES {
        return false;
      }
      if |frame| > BUFFER_BYTES - |buffer| {
        var flushed := Flush(answer);
        if !flushed {
          return false;
        }
      }
      if failed {
        return false;
      }
      Append(frame);
      return true;
    }

    method Append(frame: Bytes)
      requires Valid() && !failed && |buffer| + |frame| <= BUFFER_BYTES
      modifies this`buffer, this`waiting
      ensures Valid() && Accepted() == old(Accepted()) + [frame]
    {
      ConcatAppend(waiting, frame);
      ConcatAppend(Accepted(), frame);
      assert sent + (waiting + [frame]) == Accepted() + [frame];
      assert wire + (buffer + frame) == wire + buffer + frame;
      buffer, waiting := buffer + frame, waiting + [frame];
    }
  }

  /** Having read `frames`, the whole of a stream reads as those and then what is left. */
  ghost predicate Progress(stream: Bytes, frames: seq<Bytes>, left: Bytes) {
    ParseAll(stream) == (frames + ParseAll(left).0, ParseAll(left).1)
  }

  lemma ProgressStart(stream: Bytes)
    ensures Progress(stream, [], stream)
  {
    assert [] + ParseAll(stream).0 == ParseAll(stream).0;
  }

  lemma ProgressFrame(stream: Bytes, frames: seq<Bytes>, left: Bytes)
    requires Progress(stream, frames, left) && Parse(left).Frame?
    ensures var f := Parse(left).bytes; Progress(stream, frames + [f], left[|f|..])
  {
    var f := Parse(left).bytes;
    var rest := ParseAll(left[|f|..]).0;
    assert frames + ([f] + rest) == frames + [f] + rest;
  }

  lemma ProgressEnd(stream: Bytes, frames: seq<Bytes>, left: Bytes)
    requires Progress(stream, frames, left) && !Parse(left).Frame?
    ensures ParseAll(stream) == (frames, Parse(left))
  {
    assert frames + [] == frames;
  }

  /** Cuts frames out of a chunked stream through one buffer. */
  class FrameReader {
    var buffered: Bytes
    var pendingBytes: nat
    /** What the coming reads of the connection deliver; after that the stream has ended. */
    var chunks: seq<Bytes>

    constructor (chunks: seq<Bytes>)
      requires forall i :: 0 <= i < |chunks| ==> chunks[i] != []
      ensures Valid() && Unread() == Concat(chunks)
    {
      this.buffered, this.pendingBytes, this.chunks := [], 0, chunks;
    }

    ghost predicate Valid()
      reads this
    {
      && pendingBytes <= |buffered| <= BUFFER_BYTES && pendingBytes <= MAX_FRAME_BYTES
      && forall i :: 0 <= i < |chunks| ==> chunks[i] != []
    }

    /** The stream from the next frame on. */
    ghost function Unread(): Bytes
      requires pendingBytes <= |buffered|
      reads this
    {
      buffered[pendingBytes..] + Concat(chunks)
    }

    /** Reads from the connection until `count` bytes are buffered or the stream has ended. */
    method Peek(count: nat) returns (available: bool)
      requires Valid() && pendingBytes == 0 && count <= BUFFER_BYTES
      modifies this
      ensures Valid() && pendingBytes == 0 && Unread() == old(Unread())
      ensures available <==> |Unread()| >= count
      ensures available ==> |buffered| >= count
      ensures !available ==> buffered == Unread()
    {
      while |buffered| < count && chunks != []
        invariant Valid() && pendingBytes == 0 && Unread() == old(Unread())
        decreases |Concat(chunks)|
      {
        ghost var before := Unread();
        var chunk := chunks[0];
        var taken := if |chunk| <= BUFFER_BYTES - |buffered| then |chunk| else BUFFER_BYTES - |buffered|;
        buffered := buffered + chunk[..taken];
        chunks := if taken == |chunk| then chunks[1..] else [chunk[taken..]] + chunks[1..];
        assert Unread() == before;
      }
      available := |buffered| >= count;
    }

    /** Yields the next frame, which stays buffered until the following call. */
    method ReadFrame() returns (r: ReadResult)
      requires Valid()
      modifies this
      ensures Valid() && r == Parse(old(Unread()))
      ensures Unread() == if r.Frame? then old(Unread())[|r.bytes|..] else old(Unread())
    {
      buffered := buffered[pendingBytes..];
      pendingBytes := 0;
      assert Unread() == old(Unread());
      var available := Peek(PREFIX);
      if !available {
        return if buffered == [] then EndOfStream else UnexpectedEnd;
      }
      var size := PayloadSize(buffered);
      if size < MIN_PAYLOAD || size > MAX_FRAME_BYTES - PREFIX {
        return Malformed;
      }
      available := Peek(PREFIX + size);
      if !available {
        return UnexpectedEnd;
      }
      pendingBytes := PREFIX + size;
      r := Frame(buffered[..pendingBytes]);
    }

    /** Reads to the end: the outcome is a function of the bytes alone, not of the chunks. */
    method ReadAll() returns (frames: seq<Bytes>, end: ReadResult)
      requires Valid()
      modifies this
      ensures (frames, end) == ParseAll(old(Unread()))
    {
      frames := [];
      ProgressStart(Unread());
      while true
        invariant Valid() && Progress(old(Unread()), frames, Unread())
        decreases |Unread()|
      {
        ghost var left := Unread();
        end := ReadFrame();
        if !end.Frame? {
          ProgressEnd(old(Unread()), frames, left);
          return;
        }
        ProgressFrame(old(Unread()), frames, left);
        frames := frames + [end.bytes];
      }
    }
  }

  /** End to end: a reader that receives what a writer put on the wire, cut into chunks in any
      way, returns the frames of the payloads in order up to the last one that is whole. All
      frames handed to the connection arrive if no write failed. */
  method Transfer(writer: FrameWriter, ghost payloads: seq<Bytes>, chunks: seq<Bytes>)
    returns (frames: seq<Bytes>, end: ReadResult)
    requires writer.Valid() && writer.Accepted() == FramesOf(payloads)
    requires forall i :: 0 <= i < |payloads| ==> ValidPayload(payloads[i])
    requires (forall i :: 0 <= i < |chunks| ==> chunks[i] != []) && Concat(chunks) == writer.wire
    ensures frames == FramesOf(payloads[..WholeFrames(FramesOf(payloads), |writer.wire|)])
    ensures end == if |writer.wire| == |Concat(frames)| then EndOfStream else UnexpectedEnd
    ensures !writer.failed ==> frames == writer.sent && end == EndOfStream
  {
    var reader := new FrameReader(chunks);
    frames, end := reader.ReadAll();
    ghost var accepted, count := writer.Accepted(), |writer.wire|;
    assert writer.wire == Concat(accepted)[..count];
    BrokenStream(accepted, count);
    BrokenEnd(accepted, count);
    if !writer.failed {
      assert forall i :: 0 <= i < |writer.sent| ==> writer.sent[i] == accepted[i];
      FramesRoundTrip(writer.sent);
    }
  }
}
