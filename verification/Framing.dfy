/**
  How the multiplexer puts several connections on one trunk: frames of a connection identifier, a
  payload length, both 32 bits wide and big-endian, and the payload.
 */
module Framing {
  import opened Prelude

  type byte = x: int | 0 <= x < 0x100

  type ConnID = x: int | 0 <= x < 0x1_0000_0000

  const HEADER_LEN: nat := 8
  const TTRPC_MESSAGE_HEADER_LENGTH: nat := 10
  const TTRPC_MESSAGE_LENGTH_MAX: nat := 4 * 0x10_0000
  const MAX_PAYLOAD_SIZE: nat := TTRPC_MESSAGE_HEADER_LENGTH + TTRPC_MESSAGE_LENGTH_MAX

  datatype Frame = Frame(id: ConnID, payload: seq<byte>)

  function Uint16(n: nat): (r: seq<byte>)
    requires n < 0x1_0000
    ensures |r| == 2 && r[0] as int * 0x100 + r[1] as int == n
  {
    [n / 0x100, n % 0x100]
  }

  /** Big-endian. */
  function Uint32(n: ConnID): (r: seq<byte>)
    ensures |r| == 4
  {
    Uint16(n / 0x1_0000) + Uint16(n % 0x1_0000)
  }

  function FromUint32(b: seq<byte>): ConnID
    requires |b| == 4
  {
    (b[0] as int * 0x100 + b[1] as int) * 0x1_0000 + (b[2] as int * 0x100 + b[3] as int)
  }

  lemma Uint32RoundTrip(n: ConnID)
    ensures FromUint32(Uint32(n)) == n
  {
    hide Uint16;
  }

  function Header(id: ConnID, size: ConnID): (r: seq<byte>)
    ensures |r| == HEADER_LEN
  {
    Uint32(id) + Uint32(size)
  }

  /** The identifier comes before the size of the payload, both big-endian. */
  lemma HeaderLayout(id: ConnID, size: ConnID)
    ensures var h := Header(id, size);
            h[0] as int * 0x100_0000 + h[1] as int * 0x1_0000 + h[2] as int * 0x100 + h[3] as int == id as int &&
            h[4] as int * 0x100_0000 + h[5] as int * 0x1_0000 + h[6] as int * 0x100 + h[7] as int == size as int
  {
    hide Uint16;
    Uint32Layout(id);
    Uint32Layout(size);
  }

  lemma Uint32Layout(n: ConnID)
    ensures var b := Uint32(n);
            b[0] as int * 0x100_0000 + b[1] as int * 0x1_0000 + b[2] as int * 0x100 + b[3] as int == n as int
  {
    Uint32RoundTrip(n);
  }

  function Bytes(f: Frame): seq<byte>
    requires |f.payload| < 0x1_0000_0000
  {
    Header(f.id, |f.payload|) + f.payload
  }

  function Flatten<T>(s: seq<seq<T>>): seq<T> {
    if s == [] then [] else Flatten(s[..|s| - 1]) + s[|s| - 1]
  }

  lemma {:induction false} FlattenConcat<T>(a: seq<seq<T>>, b: seq<seq<T>>)
    ensures Flatten(a + b) == Flatten(a) + Flatten(b)
    decreases |b|
  {
    if b == [] {
      assert a + b == a;
    } else {
      FlattenConcat(a, b[..|b| - 1]);
      assert (a + b)[..|a + b| - 1] == a + b[..|b| - 1];
    }
  }

  /** The payloads a buffer is sent in; an empty buffer still makes a frame. */
  function Chunks(buf: seq<byte>): seq<seq<byte>> {
    if |buf| <= MAX_PAYLOAD_SIZE then [buf]
    else [buf[..MAX_PAYLOAD_SIZE]] + Chunks(buf[MAX_PAYLOAD_SIZE..])
  }

  /**
    No byte is lost or reordered, no chunk is too large, all but the last are full, and only an empty
    buffer has an empty chunk.
   */
  lemma {:induction false} ChunksPartition(buf: seq<byte>)
    ensures Flatten(Chunks(buf)) == buf
    ensures forall c :: c in Chunks(buf) ==> |c| <= MAX_PAYLOAD_SIZE && (c == [] ==> buf == [])
    ensures |Chunks(buf)| > 0 && forall i :: 0 <= i < |Chunks(buf)| - 1 ==> |Chunks(buf)[i]| == MAX_PAYLOAD_SIZE
    ensures |Chunks(buf)| == 1 <==> |buf| <= MAX_PAYLOAD_SIZE
    decreases |buf|
  {
    if |buf| <= MAX_PAYLOAD_SIZE {
      assert Flatten([buf]) == Flatten([]) + buf;
    } else {
      var (head, tail) := (buf[..MAX_PAYLOAD_SIZE], buf[MAX_PAYLOAD_SIZE..]);
      ChunksPartition(tail);
      FlattenConcat([head], Chunks(tail));
      assert Flatten([head]) == Flatten([]) + head;
      assert buf == head + tail;
    }
  }

  ghost predicate Small(frames: seq<Frame>) {
    forall f :: f in frames ==> |f.payload| < 0x1_0000_0000
  }

  function Encode(frames: seq<Frame>): seq<byte>
    requires Small(frames)
  {
    if frames == [] then [] else Encode(frames[..|frames| - 1]) + Bytes(frames[|frames| - 1])
  }

  function FramesOf(id: ConnID, payloads: seq<seq<byte>>): seq<Frame> {
    seq(|payloads|, i requires 0 <= i < |payloads| => Frame(id, payloads[i]))
  }

  /** The first frame of a byte stream and what follows it, if the frame is complete. */
  function ReadFrame(bytes: seq<byte>): Option<(Frame, seq<byte>)> {
    if |bytes| < HEADER_LEN then None
    else
      var id, size := FromUint32(bytes[..4]), FromUint32(bytes[4..8]);
      if |bytes| < HEADER_LEN + size then None
      else Some((Frame(id, bytes[HEADER_LEN..HEADER_LEN + size]), bytes[HEADER_LEN + size..]))
  }

  function Parse(bytes: seq<byte>): (seq<Frame>, seq<byte>)
    decreases |bytes|
  {
    match ReadFrame(bytes)
    case None => ([], bytes)
    case Some((f, rest)) => var (frames, left) := Parse(rest); ([f] + frames, left)
  }

  lemma FrameRoundTrip(f: Frame, rest: seq<byte>)
    requires |f.payload| < 0x1_0000_0000
    ensures ReadFrame(Bytes(f) + rest) == Some((f, rest))
  {
    var b := Bytes(f) + rest;
    assert b[..4] == Uint32(f.id) && b[4..8] == Uint32(|f.payload|);
    Uint32RoundTrip(f.id);
    Uint32RoundTrip(|f.payload|);
    assert b[HEADER_LEN..HEADER_LEN + |f.payload|] == f.payload && b[HEADER_LEN + |f.payload|..] == rest;
  }

  /** Reading more never changes a frame that was already complete. */
  lemma ReadFrameExtends(bytes: seq<byte>, more: seq<byte>)
    requires ReadFrame(bytes).Some?
    ensures ReadFrame(bytes + more) == Some((ReadFrame(bytes).value.0, ReadFrame(bytes).value.1 + more))
  {
    assert (bytes + more)[..4] == bytes[..4] && (bytes + more)[4..8] == bytes[4..8];
    var n := HEADER_LEN + FromUint32(bytes[4..8]);
    assert (bytes + more)[HEADER_LEN..n] == bytes[HEADER_LEN..n] && (bytes + more)[n..] == bytes[n..] + more;
  }

  lemma {:induction false} ParseConcat(a: seq<byte>, b: seq<byte>)
    ensures Parse(a + b) == (Parse(a).0 + Parse(Parse(a).1 + b).0, Parse(Parse(a).1 + b).1)
    decreases |a|
  {
    match ReadFrame(a)
    case None =>
      assert [] + Parse(a + b).0 == Parse(a + b).0;
    case Some((f, rest)) =>
      ReadFrameExtends(a, b);
      ParseConcat(rest, b);
      assert [f] + (Parse(rest).0 + Parse(Parse(rest).1 + b).0) == [f] + Parse(rest).0 + Parse(Parse(rest).1 + b).0;
  }

  lemma ParseOne(f: Frame)
    requires |f.payload| < 0x1_0000_0000
    ensures Parse(Bytes(f)) == ([f], [])
  {
    assert Parse([]) == ([], []);
    hide Header, Bytes, ReadFrame;
    FrameRoundTrip(f, []);
    assert Bytes(f) + [] == Bytes(f) && [f] + [] == [f];
    assert ReadFrame(Bytes(f)) == Some((f, []));
  }

  /** What a sequence of frames is printed to is parsed back to the same frames, with nothing left. */
  lemma {:induction false} StreamRoundTrip(frames: seq<Frame>)
    requires Small(frames)
    ensures Parse(Encode(frames)) == (frames, [])
    decreases |frames|
  {
    assert Parse([]) == ([], []);
    if frames == [] {
    } else {
      var (front, last) := (frames[..|frames| - 1], frames[|frames| - 1]);
      assert frames == front + [last] && Small(front) && last in frames;
      assert Encode(frames) == Encode(front) + Bytes(last);
      hide *;
      StreamRoundTrip(front);
      ParseConcat(Encode(front), Bytes(last));
      ParseOne(last);
      assert [] + Bytes(last) == Bytes(last);
    }
  }

  lemma {:induction false} EncodeConcat(a: seq<Frame>, b: seq<Frame>)
    requires Small(a) && Small(b)
    ensures Small(a + b) && Encode(a + b) == Encode(a) + Encode(b)
    decreases |b|
  {
    hide Bytes;
    if b == [] {
      assert a + b == a;
    } else {
      EncodeConcat(a, b[..|b| - 1]);
      assert (a + b)[..|a + b| - 1] == a + b[..|b| - 1];
    }
  }

  lemma EncodeFirst(f: Frame, rest: seq<Frame>)
    requires |f.payload| < 0x1_0000_0000 && Small(rest)
    ensures Small([f] + rest) && Encode([f] + rest) == Bytes(f) + Encode(rest)
  {
    hide Bytes;
    EncodeConcat([f], rest);
    assert Encode([f]) == Encode([]) + Bytes(f);
  }

  /** The frames of one connection's write. */
  function Written(id: ConnID, buf: seq<byte>): (r: seq<Frame>)
    ensures Small(r)
  {
    ChunksPartition(buf);
    FramesOf(id, Chunks(buf))
  }

  /** The payloads that a byte stream holds for one connection. */
  function PayloadsFor(frames: seq<Frame>, id: ConnID): seq<seq<byte>> {
    if frames == [] then []
    else
      var last := frames[|frames| - 1];
      PayloadsFor(frames[..|frames| - 1], id) + if last.id == id then [last.payload] else []
  }

  lemma {:induction false} PayloadsForConcat(a: seq<Frame>, b: seq<Frame>, id: ConnID)
    ensures PayloadsFor(a + b, id) == PayloadsFor(a, id) + PayloadsFor(b, id)
    decreases |b|
  {
    if b == [] {
      assert a + b == a;
    } else {
      PayloadsForConcat(a, b[..|b| - 1], id);
      assert (a + b)[..|a + b| - 1] == a + b[..|b| - 1];
    }
  }

  lemma {:induction false} PayloadsForWritten(id: ConnID, payloads: seq<seq<byte>>, other: ConnID)
    ensures PayloadsFor(FramesOf(id, payloads), other) == if id == other then payloads else []
    decreases |payloads|
  {
    if payloads != [] {
      PayloadsForWritten(id, payloads[..|payloads| - 1], other);
      assert FramesOf(id, payloads)[..|payloads| - 1] == FramesOf(id, payloads[..|payloads| - 1]);
      assert payloads == payloads[..|payloads| - 1] + [payloads[|payloads| - 1]];
    }
  }

  // ---------------------------------------------------------------- writing to a trunk that may fail

  datatype Fault = HeaderFault | PayloadFault

  /** What a write puts on the trunk, how it fails, and whether that ends the multiplexer. */
  datatype Sent = Sent(bytes: seq<byte>, fault: Option<Fault>, fatal: bool)

  /** The verdict on the i-th write to the trunk: the bytes that got through before an error, or no error. */
  function FaultAt(faults: seq<Option<nat>>, i: nat): Option<nat> {
    if i < |faults| then faults[i] else None
  }

  function Accepted(data: seq<byte>, fault: Option<nat>): seq<byte> {
    if fault.Some? && fault.value <= |data| then data[..fault.value] else data
  }

  function Send(id: ConnID, chunks: seq<seq<byte>>, faults: seq<Option<nat>>, at: nat): Sent
    requires forall c :: c in chunks ==> |c| < 0x1_0000_0000
    decreases |chunks|
  {
    if chunks == [] then Sent([], None, false)
    else
      var (header, chunk) := (Header(id, |chunks[0]|), chunks[0]);
      var (onHeader, onPayload) := (FaultAt(faults, at), FaultAt(faults, at + 1));
      if onHeader.Some? then Sent(Accepted(header, onHeader), Some(HeaderFault), onHeader.value != 0)
      else if onPayload.Some? then Sent(header + Accepted(chunk, onPayload), Some(PayloadFault), onPayload.value != 0)
      else
        var rest := Send(id, chunks[1..], faults, at + 2);
        rest.(bytes := header + chunk + rest.bytes)
  }

  /** A write without an error puts exactly its frames on the trunk. */
  lemma {:induction false} SentWhole(id: ConnID, chunks: seq<seq<byte>>, faults: seq<Option<nat>>, at: nat)
    requires forall c :: c in chunks ==> |c| < 0x1_0000_0000
    requires Send(id, chunks, faults, at).fault == None
    ensures Small(FramesOf(id, chunks))
    ensures Send(id, chunks, faults, at) == Sent(Encode(FramesOf(id, chunks)), None, false)
    decreases |chunks|
  {
    hide Header;
    if chunks != [] {
      SentWhole(id, chunks[1..], faults, at + 2);
      var rest := FramesOf(id, chunks[1..]);
      assert FramesOf(id, chunks) == [Frame(id, chunks[0])] + rest;
      EncodeFirst(Frame(id, chunks[0]), rest);
    }
  }

  /**
    A write that fails without ending the multiplexer has sent the frames before the failing one, and perhaps a
    bare header.
   */
  lemma {:induction false} SentPart(id: ConnID, chunks: seq<seq<byte>>, faults: seq<Option<nat>>, at: nat)
    returns (k: nat)
    requires forall c :: c in chunks ==> |c| < 0x1_0000_0000
    requires Send(id, chunks, faults, at).fault != None && !Send(id, chunks, faults, at).fatal
    ensures k < |chunks| && Small(FramesOf(id, chunks[..k]))
    ensures var r := Send(id, chunks, faults, at);
            r.bytes ==
            Encode(FramesOf(id, chunks[..k])) + if r.fault == Some(HeaderFault) then [] else Header(id, |chunks[k]|)
    decreases |chunks|
  {
    hide Header;
    if FaultAt(faults, at).Some? || FaultAt(faults, at + 1).Some? {
      k := 0;
      assert FramesOf(id, chunks[..0]) == [];
    } else {
      var rest := Send(id, chunks[1..], faults, at + 2);
      var j := SentPart(id, chunks[1..], faults, at + 2);
      k := j + 1;
      var more := FramesOf(id, chunks[1..][..j]);
      assert chunks[1..][j] == chunks[k];
      assert FramesOf(id, chunks[..k]) == [Frame(id, chunks[0])] + more;
      EncodeFirst(Frame(id, chunks[0]), more);
    }
  }

  /** A bare header parses to nothing but the frame of an empty payload. */
  lemma ParseHeader(id: ConnID, size: ConnID)
    ensures Parse(Header(id, size)).1 == [] <==> size == 0
  {
    var header := Header(id, size);
    assert header[..4] == Uint32(id) && header[4..8] == Uint32(size);
    Uint32RoundTrip(size);
    assert Parse([]) == ([], []);
    assert header[HEADER_LEN..] == [];
  }

  /** What one write of a buffer puts on the trunk. */
  function SendAll(id: ConnID, buf: seq<byte>, faults: seq<Option<nat>>): Sent {
    ChunksPartition(buf);
    Send(id, Chunks(buf), faults, 0)
  }

  /** The first write to the trunk that fails is the i-th of those that a buffer takes, counted from 0. */
  ghost predicate FailsFirst(buf: seq<byte>, faults: seq<Option<nat>>, i: nat) {
    i < 2 * |Chunks(buf)| && FaultAt(faults, i).Some? && forall j: nat :: j < i ==> FaultAt(faults, j) == None
  }

  lemma {:induction false} FirstFaultDecides(id: ConnID, chunks: seq<seq<byte>>, faults: seq<Option<nat>>,
                                             at: nat, i: nat)
    requires forall c :: c in chunks ==> |c| < 0x1_0000_0000
    requires i < 2 * |chunks| && FaultAt(faults, at + i).Some?
    requires forall j: nat :: at <= j < at + i ==> FaultAt(faults, j) == None
    ensures var r := Send(id, chunks, faults, at);
            r.fault == Some(if i % 2 == 0 then HeaderFault else PayloadFault) &&
            r.fatal == (FaultAt(faults, at + i) != Some(0))
    decreases |chunks|
  {
    hide Header;
    if i >= 2 {
      FirstFaultDecides(id, chunks[1..], faults, at + 2, i - 2);
    }
  }

  /** None of the writes to the trunk that a buffer takes fails. */
  ghost predicate NeverFails(buf: seq<byte>, faults: seq<Option<nat>>) {
    forall i: nat :: i < 2 * |Chunks(buf)| ==> FaultAt(faults, i) == None
  }

  lemma {:induction false} NoFaultSends(id: ConnID, chunks: seq<seq<byte>>, faults: seq<Option<nat>>, at: nat)
    requires forall c :: c in chunks ==> |c| < 0x1_0000_0000
    requires forall j: nat :: at <= j < at + 2 * |chunks| ==> FaultAt(faults, j) == None
    ensures Send(id, chunks, faults, at).fault == None && !Send(id, chunks, faults, at).fatal
    decreases |chunks|
  {
    hide Header;
    if chunks != [] {
      NoFaultSends(id, chunks[1..], faults, at + 2);
    }
  }

  /** The first failing write decides the error, and whether it ends the multiplexer; without one there is none. */
  lemma FirstFailureDecides(id: ConnID, buf: seq<byte>, faults: seq<Option<nat>>)
    ensures var sent := SendAll(id, buf, faults);
            (sent.fault == None <==> NeverFails(buf, faults)) && (sent.fault == None ==> !sent.fatal) &&
            forall i: nat :: FailsFirst(buf, faults, i) ==>
                               sent.fault == Some(if i % 2 == 0 then HeaderFault else PayloadFault) &&
                               sent.fatal == (FaultAt(faults, i) != Some(0))
  {
    hide Send, Chunks;
    ChunksPartition(buf);
    if NeverFails(buf, faults) {
      NoFaultSends(id, Chunks(buf), faults, 0);
    } else {
      var i := FirstFault(buf, faults);
      FirstFaultDecides(id, Chunks(buf), faults, 0, i);
      assert forall j: nat :: FailsFirst(buf, faults, j) ==> j == i;
    }
  }

  lemma FirstFault(buf: seq<byte>, faults: seq<Option<nat>>) returns (i: nat)
    requires !NeverFails(buf, faults)
    ensures FailsFirst(buf, faults, i)
  {
    i := 0;
    while FaultAt(faults, i) == None
      invariant i < 2 * |Chunks(buf)|
      invariant forall j: nat :: j < i ==> FaultAt(faults, j) == None
      decreases 2 * |Chunks(buf)| - i
    {
      i := i + 1;
    }
  }

  /** How much of a write of a header or a chunk gets through. */
  function Through(size: nat, fault: nat): nat {
    if fault <= size then fault else size
  }

  lemma {:induction false} SentIsPrefix(id: ConnID, chunks: seq<seq<byte>>, faults: seq<Option<nat>>, at: nat)
    requires forall c :: c in chunks ==> |c| < 0x1_0000_0000
    ensures Small(FramesOf(id, chunks)) && Send(id, chunks, faults, at).bytes <= Encode(FramesOf(id, chunks))
    decreases |chunks|
  {
    hide Header;
    if chunks != [] {
      SentIsPrefix(id, chunks[1..], faults, at + 2);
      var rest := FramesOf(id, chunks[1..]);
      assert FramesOf(id, chunks) == [Frame(id, chunks[0])] + rest;
      EncodeFirst(Frame(id, chunks[0]), rest);
    }
  }

  lemma {:induction false} SentLength(id: ConnID, chunks: seq<seq<byte>>, faults: seq<Option<nat>>, at: nat, i: nat)
    requires forall c :: c in chunks ==> |c| < 0x1_0000_0000
    requires forall k :: 0 <= k < |chunks| - 1 ==> |chunks[k]| == MAX_PAYLOAD_SIZE
    requires i < 2 * |chunks| && FaultAt(faults, at + i).Some?
    requires forall j: nat :: at <= j < at + i ==> FaultAt(faults, j) == None
    ensures |Send(id, chunks, faults, at).bytes| ==
            i / 2 * (HEADER_LEN + MAX_PAYLOAD_SIZE) + i % 2 * HEADER_LEN +
            Through(if i % 2 == 0 then HEADER_LEN else |chunks[i / 2]|, FaultAt(faults, at + i).value)
    decreases |chunks|
  {
    hide Header;
    if i >= 2 {
      SentLength(id, chunks[1..], faults, at + 2, i - 2);
      assert (i - 2) / 2 == i / 2 - 1;
    }
  }

  /**
    Whatever fails, what gets on the trunk is the beginning of the frames of the buffer: as far as the
    first failing write, and as much of that as got through.
   */
  lemma SentUpToFailure(id: ConnID, buf: seq<byte>, faults: seq<Option<nat>>)
    ensures SendAll(id, buf, faults).bytes <= Encode(Written(id, buf))
    ensures forall i: nat :: FailsFirst(buf, faults, i) ==>
                               |SendAll(id, buf, faults).bytes| ==
                               i / 2 * (HEADER_LEN + MAX_PAYLOAD_SIZE) + i % 2 * HEADER_LEN +
                               Through(if i % 2 == 0 then HEADER_LEN else |Chunks(buf)[i / 2]|,
                                       FaultAt(faults, i).value)
  {
    hide Send, Chunks, Encode, FramesOf;
    ChunksPartition(buf);
    SentIsPrefix(id, Chunks(buf), faults, 0);
    if !NeverFails(buf, faults) {
      var i := FirstFault(buf, faults);
      SentLength(id, Chunks(buf), faults, 0, i);
      assert forall j: nat :: FailsFirst(buf, faults, j) ==> j == i;
    }
  }

  /**
    If nothing of the first failing write gets through, the multiplexer stays open, and the stream is
    left at a frame boundary if and only if that write was of a header (it is even) or the buffer is
    empty: the header of a payload of which nothing got through is not taken back.
   */
  lemma FailureKeepsFraming(id: ConnID, buf: seq<byte>, faults: seq<Option<nat>>, i: nat)
    requires FailsFirst(buf, faults, i) && FaultAt(faults, i) == Some(0)
    ensures var r := SendAll(id, buf, faults);
            r.fault != None && !r.fatal && (Parse(r.bytes).1 == [] <==> i % 2 == 0 || buf == [])
  {
    hide Header, Parse, ReadFrame, Chunks, Send, Encode, FramesOf;
    ChunksPartition(buf);
    FirstFaultDecides(id, Chunks(buf), faults, 0, i);
    var chunks := Chunks(buf);
    var r := Send(id, chunks, faults, 0);
    var k := SentPart(id, chunks, faults, 0);
    var frames := FramesOf(id, chunks[..k]);
    StreamRoundTrip(frames);
    if r.fault == Some(HeaderFault) {
      assert r.bytes == Encode(frames);
    } else {
      var header := Header(id, |chunks[k]|);
      assert chunks[k] in chunks;
      ParseConcat(Encode(frames), header);
      assert [] + header == header;
      ParseHeader(id, |chunks[k]|);
      EmptyHasOneChunk(buf, k);
    }
  }

  /** One byte whose payload is refused: its header stays behind, and the multiplexer stays open. */
  lemma BareHeaderStays(id: ConnID)
    ensures var r := SendAll(id, [0], [None, Some(0)]);
            !r.fatal && Parse(r.bytes).1 != []
  {
    assert |Chunks([0])| == 1;
    FailureKeepsFraming(id, [0], [None, Some(0)], 1);
  }

  lemma EmptyHasOneChunk(buf: seq<byte>, k: nat)
    requires k < |Chunks(buf)|
    ensures Chunks(buf)[k] == [] <==> buf == []
  {
    ChunksPartition(buf);
    assert Chunks(buf)[k] in Chunks(buf);
  }
}
