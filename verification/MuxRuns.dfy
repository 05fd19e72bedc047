/** What holds over all runs of the multiplexer. */
module MuxRuns {
  import opened Prelude
  import opened Framing
  import opened MuxMachine

  lemma {:induction false} RunPrefix(s: State, events: seq<Event>, i: nat)
    requires s.Valid() && i <= |events| && Run(s, events).Some?
    ensures Run(s, events[..i]).Some?
    decreases |events|
  {
    if i == |events| {
      assert events[..i] == events;
    } else {
      RunPrefix(s, events[..|events| - 1], i);
      assert events[..|events| - 1][..i] == events[..i];
    }
  }

  // ---------------------------------------------------------------- registration

  /** A connection stays what it is, stays closed, and stays registered unless it is closed itself. */
  ghost predicate Follows(s: State, t: State, c: nat, closing: bool) {
    c < |s.objs| && c < |t.objs| && t.objs[c].id == s.objs[c].id && t.qlen == s.qlen &&
    (t.Registered(c) <==> s.Registered(c) && !closing) &&
    (s.objs[c].closed ==> t.objs[c].closed) && (s.closed ==> t.closed)
  }

  lemma ShutDownFollows(s: State, e: Err, c: nat)
    requires c < |s.objs|
    ensures Follows(s, s.CloseAll(), c, false) && Follows(s, s.ShutDown(e), c, false)
  {
  }

  lemma OpenFollows(s: State, id: ConnID, c: nat)
    requires s.Valid() && c < |s.objs|
    ensures Follows(s, OnOpen(s, id), c, false)
  {
  }

  lemma CloseConnFollows(s: State, k: nat, c: nat)
    requires s.Valid() && c < |s.objs| && k < |s.objs|
    ensures Follows(s, OnCloseConn(s, k), c, k == c)
  {
  }

  lemma ReadFollows(s: State, k: nat, done: bool, c: nat)
    requires s.Valid() && c < |s.objs| && k < |s.objs|
    ensures OnRead(s, k, done).Some? ==> Follows(s, OnRead(s, k, done).value, c, false)
  {
  }

  lemma QueueFollows(s: State, c: nat)
    requires s.Valid() && c < |s.objs| && s.reader.Holding?
    ensures Follows(s, OnQueue(s), c, false)
  {
    ShutDownFollows(s.(reader := Idle), NotQueued, c);
    hide State.ShutDown;
  }

  lemma WriteFollows(s: State, k: nat, buf: seq<byte>, faults: seq<Option<nat>>, c: nat)
    requires s.Valid() && c < |s.objs| && k < |s.objs|
    ensures Follows(s, OnWrite(s, k, buf, faults), c, false)
  {
    hide Chunks, Send, State.ShutDown;
    ChunksPartition(buf);
    var t := s.(out := s.out + SendAll(s.objs[k].id, buf, faults).bytes);
    ShutDownFollows(t, HeaderNotWritten, c);
    ShutDownFollows(t, PayloadNotWritten, c);
  }

  lemma StepFollows(s: State, e: Event, c: nat)
    requires s.Valid() && Step(s, e).Some? && c < |s.objs|
    ensures Follows(s, Step(s, e).value, c, e == CloseConn(c))
  {
    hide State.ShutDown, State.CloseAll, OnOpen, OnCloseConn, OnQueue, OnRead, OnWrite, ReadFrame, Encode,
      Written, EndError;
    match e
    case Open(id) => OpenFollows(s, id, c);
    case CloseConn(k) => CloseConnFollows(s, k, c);
    case CloseMux => ShutDownFollows(s, EOF, c);
    case Queue => QueueFollows(s, c);
    case End(how) => ShutDownFollows(s.(reader := Idle), EndError(how, s.arrived), c);
    case Read(k, _, done) => ReadFollows(s, k, done, c);
    case Write(k, buf, faults) => WriteFollows(s, k, buf, faults, c);
    case _ =>
  }

  /**
    Only closing a connection itself unregisters it: a stale connection of the same identifier does not, nor
    does shutting down.
   */
  lemma {:induction false} OnlyItsOwnCloseUnregisters(s: State, events: seq<Event>, c: nat)
    requires s.Valid() && Run(s, events).Some? && c < |s.objs|
    ensures Follows(s, Run(s, events).value, c, CloseConn(c) in events)
    decreases |events|
  {
    hide Step, State.Registered;
    if events == [] {
    } else {
      var (front, e) := (events[..|events| - 1], events[|events| - 1]);
      assert events == front + [e];
      OnlyItsOwnCloseUnregisters(s, front, c);
      StepFollows(Run(s, front).value, e, c);
    }
  }

  // ---------------------------------------------------------------- demultiplexing

  /** All bytes sent on the trunk so far and not yet read make up whole frames. */
  predicate Framed(s: State) {
    Parse(s.arrived + s.coming).1 == []
  }

  /** The payload the reader has in hand for a connection that is registered. */
  function Held(s: State, c: nat): seq<seq<byte>>
    requires c < |s.objs|
  {
    match s.reader
    case InHand(f) => if f.id == s.objs[c].id then [f.payload] else []
    case Holding(payload, conn) => if conn == Some(c) then [payload] else []
    case _ => []
  }

  function OnTrunk(s: State, id: ConnID): seq<seq<byte>> {
    PayloadsFor(Parse(s.arrived + s.coming).0, id)
  }

  /** Everything ever sent to a connection, in order: what was read from it, what is queued, and what is on its way. */
  function Stream(s: State, c: nat): seq<seq<byte>>
    requires c < |s.objs|
  {
    s.objs[c].taken + s.objs[c].queue + Held(s, c) + OnTrunk(s, s.objs[c].id)
  }

  function WrittenBy(e: Event, id: ConnID): seq<seq<byte>> {
    if e.PeerWrite? && e.id == id then Chunks(e.buf) else []
  }

  function WrittenTo(events: seq<Event>, id: ConnID): seq<seq<byte>> {
    if events == [] then []
    else WrittenTo(events[..|events| - 1], id) + WrittenBy(events[|events| - 1], id)
  }

  ghost predicate Carries(s: State, t: State, c: nat, more: seq<seq<byte>>) {
    c < |s.objs| && c < |t.objs| && t.objs[c].id == s.objs[c].id && Framed(t) && Stream(t, c) == Stream(s, c) + more
  }

  /** What has come off the trunk, queued or held. */
  function Arrived(s: State, c: nat): seq<seq<byte>>
    requires c < |s.objs|
  {
    s.objs[c].taken + s.objs[c].queue + Held(s, c)
  }

  lemma MovedCarries(s: State, t: State, c: nat, moved: seq<seq<byte>>, more: seq<seq<byte>>)
    requires c < |s.objs| && c < |t.objs| && t.objs[c].id == s.objs[c].id && Framed(t)
    requires Arrived(t, c) == Arrived(s, c) + moved
    requires OnTrunk(s, s.objs[c].id) + more == moved + OnTrunk(t, s.objs[c].id)
    ensures Carries(s, t, c, more)
  {
    hide Held, Framed, OnTrunk;
    var id := s.objs[c].id;
    assert Stream(t, c) == Arrived(t, c) + OnTrunk(t, id) == Arrived(s, c) + (moved + OnTrunk(t, id));
    assert Stream(s, c) + more == Arrived(s, c) + (OnTrunk(s, id) + more);
  }

  lemma SameTrunkCarries(s: State, t: State, c: nat)
    requires c < |s.objs| && c < |t.objs| && Framed(s) && t.objs[c].id == s.objs[c].id
    requires t.arrived + t.coming == s.arrived + s.coming && Arrived(t, c) == Arrived(s, c)
    ensures Carries(s, t, c, [])
  {
    hide Held, Parse, PayloadsFor, Carries, Arrived;
    var trunk := OnTrunk(s, s.objs[c].id);
    assert trunk + [] == [] + trunk && Arrived(s, c) + [] == Arrived(s, c);
    MovedCarries(s, t, c, [], []);
  }

  lemma TrunkGrows(s: State, e: Event, id: ConnID)
    requires s.Valid() && e.PeerWrite? && Framed(s)
    ensures var t := Step(s, e).value;
            Framed(t) && t.objs == s.objs && t.reader == s.reader && OnTrunk(t, id) == OnTrunk(s, id) + WrittenBy(e, id)
  {
    var bytes := Encode(Written(e.id, e.buf));
    var t := Step(s, e).value;
    assert t.arrived + t.coming == (s.arrived + s.coming) + bytes;
    hide ReadFrame, Encode, Chunks, Parse, FramesOf;
    ParseConcat(s.arrived + s.coming, bytes);
    assert [] + bytes == bytes;
    StreamRoundTrip(Written(e.id, e.buf));
    PayloadsForConcat(Parse(s.arrived + s.coming).0, Written(e.id, e.buf), id);
    PayloadsForWritten(e.id, Chunks(e.buf), id);
  }

  lemma PeerWriteCarries(s: State, e: Event, c: nat)
    requires s.Valid() && e.PeerWrite? && Framed(s) && c < |s.objs|
    ensures Carries(s, Step(s, e).value, c, WrittenBy(e, s.objs[c].id))
  {
    TrunkGrows(s, e, s.objs[c].id);
    hide Step, Carries, WrittenBy, OnTrunk, Framed;
    var t := Step(s, e).value;
    assert Arrived(s, c) + [] == Arrived(t, c);
    assert [] + OnTrunk(t, s.objs[c].id) == OnTrunk(t, s.objs[c].id);
    MovedCarries(s, t, c, [], WrittenBy(e, s.objs[c].id));
  }

  lemma TakeStep(s: State) returns (f: Frame)
    requires s.Valid() && Step(s, Take).Some? && Framed(s)
    ensures var t := Step(s, Take).value;
            t.objs == s.objs && s.reader == Reading && t.reader == InHand(f) &&
            Parse(s.arrived + s.coming) == ([f] + Parse(t.arrived + t.coming).0, Parse(t.arrived + t.coming).1)
  {
    f := ReadFrame(s.arrived).value.0;
    ReadFrameExtends(s.arrived, s.coming);
  }

  lemma TakeCarries(s: State, c: nat)
    requires s.Valid() && Step(s, Take).Some? && Framed(s) && s.Registered(c)
    ensures Carries(s, Step(s, Take).value, c, [])
  {
    var (t, id) := (Step(s, Take).value, s.objs[c].id);
    var f := TakeStep(s);
    hide Step, Parse, Carries;
    var moved := if f.id == id then [f.payload] else [];
    assert Held(s, c) == [] && Held(t, c) == moved;
    assert PayloadsFor([f], id) == PayloadsFor([], id) + moved;
    PayloadsForConcat([f], Parse(t.arrived + t.coming).0, id);
    hide Held, PayloadsFor;
    assert OnTrunk(s, id) + [] == OnTrunk(s, id) && moved == [] + moved;
    MovedCarries(s, t, c, moved, []);
  }

  lemma FindCarries(s: State, c: nat)
    requires s.Valid() && Step(s, Find).Some? && s.Registered(c) && Framed(s)
    ensures Carries(s, Step(s, Find).value, c, [])
  {
    hide Parse;
    SameTrunkCarries(s, Step(s, Find).value, c);
  }

  lemma QueueCarries(s: State, c: nat)
    requires s.Valid() && Step(s, Queue).Some? && s.Registered(c) && Framed(s) && !Step(s, Queue).value.closed
    ensures Carries(s, Step(s, Queue).value, c, [])
  {
    hide Parse;
    SameTrunkCarries(s, Step(s, Queue).value, c);
  }

  lemma ReadStep(s: State, e: Event, c: nat)
    requires s.Valid() && e.Read? && Step(s, e).Some? && c < |s.objs|
    ensures var t := Step(s, e).value;
            c < |t.objs| && t.objs[c].taken + t.objs[c].queue == s.objs[c].taken + s.objs[c].queue &&
            t.objs[c].id == s.objs[c].id && t.reader == s.reader && t.arrived == s.arrived && t.coming == s.coming
  {
    var o := s.objs[c];
    if !e.done && e.conn == c {
      assert o.queue == [o.queue[0]] + o.queue[1..];
    }
  }

  lemma ReadCarries(s: State, e: Event, c: nat)
    requires s.Valid() && e.Read? && Step(s, e).Some? && c < |s.objs| && Framed(s)
    ensures Carries(s, Step(s, e).value, c, [])
  {
    ReadStep(s, e, c);
    hide Step, Carries, Parse;
    SameTrunkCarries(s, Step(s, e).value, c);
  }

  /** Shutting down only marks connections as closed. */
  lemma ShutDownKeeps(s: State, e: Err)
    ensures forall t :: t == s.ShutDown(e) || t == s.CloseAll() ==>
                          && t.closed && t.conns == s.conns && t.reader == s.reader && |t.objs| == |s.objs|
                          && t.arrived == s.arrived && t.coming == s.coming
                          && forall c: nat :: c < |s.objs| ==>
                                                t.objs[c].id == s.objs[c].id && t.objs[c].queue == s.objs[c].queue &&
                                                t.objs[c].taken == s.objs[c].taken
  {
  }

  /** What a connection has got, what is on the trunk, and what the reader has in hand, are as they were. */
  ghost predicate LeavesAlone(s: State, t: State, c: nat) {
    c < |s.objs| && c < |t.objs| && t.objs[c].id == s.objs[c].id && t.objs[c].queue == s.objs[c].queue &&
    t.objs[c].taken == s.objs[c].taken && t.arrived + t.coming == s.arrived + s.coming &&
    (t.reader == s.reader ||
     (!s.reader.InHand? && !s.reader.Holding? && !t.reader.InHand? && !t.reader.Holding?))
  }

  lemma ShutDownLeavesAlone(s: State, e: Err, c: nat)
    requires c < |s.objs|
    ensures LeavesAlone(s, s.ShutDown(e), c) && LeavesAlone(s, s.CloseAll(), c)
  {
    hide State.ShutDown, State.CloseAll;
    ShutDownKeeps(s, e);
  }

  lemma CloseConnLeavesAlone(s: State, k: nat, c: nat)
    requires k < |s.objs| && c < |s.objs|
    ensures LeavesAlone(s, OnCloseConn(s, k), c)
  {
  }

  lemma OpenLeavesAlone(s: State, id: ConnID, c: nat)
    requires c < |s.objs|
    ensures LeavesAlone(s, OnOpen(s, id), c)
  {
  }

  lemma WriteLeavesAlone(s: State, k: nat, buf: seq<byte>, faults: seq<Option<nat>>, c: nat)
    requires k < |s.objs| && c < |s.objs|
    ensures LeavesAlone(s, OnWrite(s, k, buf, faults), c)
  {
    hide State.ShutDown, SendAll;
    var t := s.(out := s.out + SendAll(s.objs[k].id, buf, faults).bytes);
    ShutDownLeavesAlone(t, HeaderNotWritten, c);
    ShutDownLeavesAlone(t, PayloadNotWritten, c);
  }

  /** Closing and opening connections, and other steps without a frame, leave what a connection has got and will get. */
  lemma QuietStep(s: State, e: Event, c: nat)
    requires s.Valid() && Step(s, e).Some? && c < |s.objs|
    requires !e.PeerWrite? && !e.Take? && !e.Find? && !e.Queue? && !e.Read?
    ensures LeavesAlone(s, Step(s, e).value, c)
  {
    hide State.ShutDown, State.CloseAll, OnOpen, OnCloseConn, OnWrite, ReadFrame, Encode, Written, EndError;
    match e
    case Open(id) => OpenLeavesAlone(s, id, c);
    case CloseConn(k) => CloseConnLeavesAlone(s, k, c);
    case CloseMux => ShutDownLeavesAlone(s, EOF, c);
    case End(how) => ShutDownLeavesAlone(s.(reader := Idle), EndError(how, s.arrived), c);
    case Write(k, buf, faults) => WriteLeavesAlone(s, k, buf, faults, c);
    case Arrive(n) => assert s.arrived + s.coming[..n] + s.coming[n..] == s.arrived + s.coming;
    case _ =>
  }

  lemma OtherCarries(s: State, e: Event, c: nat)
    requires s.Valid() && Step(s, e).Some? && c < |s.objs| && Framed(s)
    requires !e.PeerWrite? && !e.Take? && !e.Find? && !e.Queue? && !e.Read?
    ensures Carries(s, Step(s, e).value, c, [])
  {
    hide Step, Parse, Carries;
    QuietStep(s, e, c);
    SameTrunkCarries(s, Step(s, e).value, c);
  }

  /** Each step keeps the stream of a connection that stays registered, except that a write adds its chunks. */
  lemma StreamStep(s: State, e: Event, c: nat)
    requires s.Valid() && Step(s, e).Some? && Framed(s) && s.Registered(c) && !Step(s, e).value.closed
    ensures Carries(s, Step(s, e).value, c, WrittenBy(e, s.objs[c].id))
  {
    hide Step, Carries;
    match e
    case PeerWrite(_, _) => PeerWriteCarries(s, e, c);
    case Take => TakeCarries(s, c);
    case Find => FindCarries(s, c);
    case Queue => QueueCarries(s, c);
    case Read(_, _, _) => ReadCarries(s, e, c);
    case _ => OtherCarries(s, e, c);
  }

  /**
    For every interleaving of the steps: as long as a connection stays registered and the multiplexer
    open, what has been read from it, what is queued and what is on its way is what was there at first
    and then exactly what the peer wrote to it, in order.
   */
  lemma {:induction false} Demultiplexed(s: State, events: seq<Event>, c: nat)
    requires s.Valid() && Run(s, events).Some? && Framed(s) && s.Registered(c)
    requires var t := Run(s, events).value; t.Registered(c) && !t.closed
    ensures var t := Run(s, events).value;
            Framed(t) && t.objs[c].id == s.objs[c].id &&
            Stream(t, c) == Stream(s, c) + WrittenTo(events, s.objs[c].id)
    decreases |events|
  {
    hide Step, Stream, Framed, WrittenBy;
    if events == [] {
      assert WrittenTo(events, s.objs[c].id) == [];
    } else {
      var (front, e) := (events[..|events| - 1], events[|events| - 1]);
      assert events == front + [e];
      var m := Run(s, front).value;
      OnlyItsOwnCloseUnregisters(s, front, c);
      StepFollows(m, e, c);
      Demultiplexed(s, front, c);
      StreamStep(m, e, c);
    }
  }

  function BufsTo(events: seq<Event>, id: ConnID): seq<seq<byte>> {
    if events == [] then []
    else
      var e := events[|events| - 1];
      BufsTo(events[..|events| - 1], id) + if e.PeerWrite? && e.id == id then [e.buf] else []
  }

  lemma {:induction false} WrittenBytes(events: seq<Event>, id: ConnID)
    ensures Flatten(WrittenTo(events, id)) == Flatten(BufsTo(events, id))
    decreases |events|
  {
    hide Chunks;
    if events != [] {
      var (front, e) := (events[..|events| - 1], events[|events| - 1]);
      WrittenBytes(front, id);
      if e.PeerWrite? && e.id == id {
        ChunksPartition(e.buf);
        FlattenConcat(WrittenTo(front, id), Chunks(e.buf));
        FlattenSnoc(BufsTo(front, id), e.buf);
      } else {
        assert WrittenTo(events, id) == WrittenTo(front, id) && BufsTo(events, id) == BufsTo(front, id);
      }
    }
  }

  lemma FlattenSnoc(s: seq<seq<byte>>, b: seq<byte>)
    ensures Flatten(s + [b]) == Flatten(s) + b
  {
    assert (s + [b])[..|s|] == s;
  }

  lemma {:induction false} SmallWrites(events: seq<Event>, id: ConnID)
    requires forall b :: b in BufsTo(events, id) ==> |b| <= MAX_PAYLOAD_SIZE
    ensures WrittenTo(events, id) == BufsTo(events, id)
    decreases |events|
  {
    if events != [] {
      var (front, e) := (events[..|events| - 1], events[|events| - 1]);
      assert forall b :: b in BufsTo(front, id) ==> b in BufsTo(events, id);
      SmallWrites(front, id);
      assert e.PeerWrite? && e.id == id ==> e.buf in BufsTo(events, id);
    }
  }

  /**
    A connection opened before anything is written to it yields, in order, the bytes written to it and
    nothing else; all of them once nothing is queued or on its way. Writes of at most the maximum
    payload size are read back as whole buffers.
   */
  lemma ReadsWhatWasWritten(s: State, events: seq<Event>, c: nat)
    requires s.Valid() && Run(s, events).Some? && Framed(s) && s.Registered(c) && Stream(s, c) == []
    requires var t := Run(s, events).value; t.Registered(c) && !t.closed
    ensures var (t, id) := (Run(s, events).value, s.objs[c].id);
            var read := t.objs[c].taken;
            Flatten(read) <= Flatten(BufsTo(events, id)) &&
            ((forall b :: b in BufsTo(events, id) ==> |b| <= MAX_PAYLOAD_SIZE) ==> read <= BufsTo(events, id)) &&
            (t.objs[c].queue == [] && t.reader == Idle && t.arrived + t.coming == [] ==>
               Flatten(read) == Flatten(BufsTo(events, id)))
  {
    var (t, id) := (Run(s, events).value, s.objs[c].id);
    var o := t.objs[c];
    Demultiplexed(s, events, c);
    WrittenBytes(events, id);
    if forall b :: b in BufsTo(events, id) ==> |b| <= MAX_PAYLOAD_SIZE {
      SmallWrites(events, id);
    }
    if t.arrived + t.coming == [] {
      NothingOnTrunk(t, id);
    }
    hide *;
    assert Stream(t, c) == o.taken + (o.queue + Held(t, c) + OnTrunk(t, id)) == WrittenTo(events, id) by {
      StreamSplits(t, c);
      assert [] + WrittenTo(events, id) == WrittenTo(events, id);
    }
    PrefixFacts(o.taken, o.queue + Held(t, c) + OnTrunk(t, id), WrittenTo(events, id));
  }

  lemma PrefixFacts(a: seq<seq<byte>>, b: seq<seq<byte>>, all: seq<seq<byte>>)
    requires a + b == all
    ensures a <= all && Flatten(a) <= Flatten(all) && (b == [] ==> a == all)
  {
    FlattenConcat(a, b);
  }

  lemma StreamSplits(t: State, c: nat)
    requires c < |t.objs|
    ensures Stream(t, c) == t.objs[c].taken + (t.objs[c].queue + Held(t, c) + OnTrunk(t, t.objs[c].id))
  {
    hide Held, OnTrunk;
  }

  lemma NothingOnTrunk(t: State, id: ConnID)
    requires t.arrived + t.coming == []
    ensures OnTrunk(t, id) == [] && (t.reader == Idle ==> forall c: nat :: c < |t.objs| ==> Held(t, c) == [])
  {
    assert Parse([]) == ([], []);
  }

  // ---------------------------------------------------------------- errors

  lemma ErrorStays(s: State, e: Event)
    requires s.Valid() && Step(s, e).Some? && s.err.Some?
    ensures Step(s, e).value.err == s.err
  {
    hide State.ShutDown, State.CloseAll, ReadFrame, Encode, Written, Chunks, Send, SendAll, EndError;
    match e
    case CloseMux => ShutDownKeepsError(s, EOF);
    case Queue => ShutDownKeepsError(s.(reader := Idle), NotQueued);
    case End(how) => ShutDownKeepsError(s.(reader := Idle), EndError(how, s.arrived));
    case Write(k, buf, faults) =>
      var t := s.(out := s.out + SendAll(s.objs[k].id, buf, faults).bytes);
      ShutDownKeepsError(t, HeaderNotWritten);
      ShutDownKeepsError(t, PayloadNotWritten);
    case _ =>
  }

  lemma ShutDownKeepsError(s: State, e: Err)
    requires s.err.Some?
    ensures s.ShutDown(e).err == s.err && s.CloseAll().err == s.err
  {
  }

  /** The error of the multiplexer is fixed at most once. */
  lemma {:induction false} ErrorIsFixed(s: State, events: seq<Event>)
    requires s.Valid() && Run(s, events).Some? && s.err.Some?
    ensures Run(s, events).value.err == s.err
    decreases |events|
  {
    hide Step;
    if events != [] {
      ErrorIsFixed(s, events[..|events| - 1]);
      ErrorStays(Run(s, events[..|events| - 1]).value, events[|events| - 1]);
    }
  }

  /**
    The peer closes the trunk when only part of a frame has arrived. Between frames, and right after a
    header, that passes for an end of file; within a header or a payload it is an error of its own.
    An end of file is likewise what the reader reports when the trunk is closed on this side.
   */
  lemma TruncatedFrameFails(s: State, f: Frame, k: nat)
    requires s.Valid() && s.reader == Reading && !s.closed && |f.payload| < 0x1_0000_0000
    requires k < |Bytes(f)| && s.arrived == Bytes(f)[..k]
    ensures Step(s, Take) == None
    ensures var t := Step(s, End(PeerClosed));
            t.Some? && t.value.closed &&
            (s.err == None && k in {0, HEADER_LEN} ==> t.value.err == Some(EOF)) &&
            (s.err == None && 0 < k < HEADER_LEN ==> t.value.err == Some(HeaderNotRead)) &&
            (s.err == None && HEADER_LEN < k ==> t.value.err == Some(PayloadNotRead))
    ensures var t := Step(s, End(Broken));
            t.Some? && t.value.closed &&
            (s.err == None ==> t.value.err == Some(if k < HEADER_LEN then HeaderNotRead else PayloadNotRead))
    ensures var t := Step(s, End(LocallyClosed));
            t.Some? && t.value.closed && (s.err == None ==> t.value.err == Some(EOF))
  {
    PartIsNoFrame(f, k);
    hide ReadFrame, Bytes, State.CloseAll;
  }

  lemma PartIsNoFrame(f: Frame, k: nat)
    requires |f.payload| < 0x1_0000_0000 && k < |Bytes(f)|
    ensures ReadFrame(Bytes(f)[..k]) == None
  {
    var part := Bytes(f)[..k];
    if k >= HEADER_LEN {
      assert part[4..8] == Uint32(|f.payload|);
      Uint32RoundTrip(|f.payload|);
    }
  }

  datatype ReadResult = Failed(err: Err) | OutOfMemory | Got(payload: seq<byte>)

  /** What a read of a buffer of some capacity returns. */
  function ReadResultOf(s: State, c: nat, capacity: nat, done: bool): ReadResult
    requires s.Valid() && Step(s, Read(c, capacity, done)).Some?
  {
    if done then Failed(s.SetError(EOF).err.value)
    else
      var msg := s.objs[c].queue[0];
      if capacity < |msg| then OutOfMemory else Got(msg)
  }

  /** What a read that takes a queued payload is called with and returns. */
  datatype ReadCall = ReadCall(capacity: nat, result: ReadResult)

  /** What those reads of a connection return in a run, in order. */
  function ReadCalls(s: State, events: seq<Event>, c: nat): seq<ReadCall>
    requires s.Valid() && Run(s, events).Some?
  {
    if events == [] then []
    else
      var (front, e) := (events[..|events| - 1], events[|events| - 1]);
      ReadCalls(s, front, c) +
      if e.Read? && e.conn == c && !e.done then
        [ReadCall(e.capacity, ReadResultOf(Run(s, front).value, c, e.capacity, false))]
      else []
  }

  /** The payload comes back whole, or not at all if it is larger than the buffer. */
  ghost predicate Returns(r: ReadCall, payload: seq<byte>) {
    r.result == if r.capacity < |payload| then OutOfMemory else Got(payload)
  }

  function TakenOf(s: State, c: nat): seq<seq<byte>> {
    if c < |s.objs| then s.objs[c].taken else []
  }

  lemma ReadTakes(s: State, e: Event, c: nat)
    requires s.Valid() && Step(s, e).Some? && e.Read?
    ensures TakenOf(Step(s, e).value, c) ==
            TakenOf(s, c) + if e.conn == c && !e.done then [s.objs[c].queue[0]] else []
  {
  }

  lemma QueueTakes(s: State, c: nat)
    requires s.Valid() && Step(s, Queue).Some?
    ensures TakenOf(Step(s, Queue).value, c) == TakenOf(s, c)
  {
    hide State.ShutDown;
    ShutDownKeeps(s.(reader := Idle), NotQueued);
  }

  lemma WriteTakes(s: State, e: Event, c: nat)
    requires s.Valid() && Step(s, e).Some? && e.Write?
    ensures TakenOf(Step(s, e).value, c) == TakenOf(s, c)
  {
    hide State.ShutDown, SendAll;
    var t := s.(out := s.out + SendAll(s.objs[e.conn].id, e.buf, e.faults).bytes);
    ShutDownKeeps(t, HeaderNotWritten);
    ShutDownKeeps(t, PayloadNotWritten);
  }

  lemma EndTakes(s: State, e: Event, c: nat)
    requires s.Valid() && Step(s, e).Some? && e.End?
    ensures TakenOf(Step(s, e).value, c) == TakenOf(s, c)
  {
    hide State.ShutDown, EndError, ReadFrame;
    ShutDownKeeps(s.(reader := Idle), EndError(e.how, s.arrived));
  }

  lemma OtherTakes(s: State, e: Event, c: nat)
    requires s.Valid() && Step(s, e).Some? && !e.Read? && !e.Queue? && !e.Write? && !e.End?
    ensures TakenOf(Step(s, e).value, c) == TakenOf(s, c)
  {
    hide State.CloseAll, State.ShutDown, ReadFrame, Encode, Written;
    if e == CloseMux {
      ShutDownKeeps(s, EOF);
    }
  }

  /** Only reading a queued payload takes it. */
  lemma TakenStep(s: State, e: Event, c: nat)
    requires s.Valid() && Step(s, e).Some?
    ensures TakenOf(Step(s, e).value, c) ==
            TakenOf(s, c) + if e.Read? && e.conn == c && !e.done then [s.objs[c].queue[0]] else []
  {
    hide Step;
    match e
    case Read(_, _, _) => ReadTakes(s, e, c);
    case Queue => QueueTakes(s, c);
    case Write(_, _, _) => WriteTakes(s, e, c);
    case End(_) => EndTakes(s, e, c);
    case _ => OtherTakes(s, e, c);
  }

  /** In every run the reads of a connection return, one by one, the payloads that are taken from it. */
  lemma {:induction false} ReadsReturnTaken(s: State, events: seq<Event>, c: nat)
    requires s.Valid() && Run(s, events).Some?
    ensures var t := Run(s, events).value;
            var (before, after, calls) := (TakenOf(s, c), TakenOf(t, c), ReadCalls(s, events, c));
            |after| == |before| + |calls| && after[..|before|] == before &&
            forall i :: 0 <= i < |calls| ==> Returns(calls[i], after[|before| + i])
    decreases |events|
  {
    hide Step, TakenOf, State.Valid;
    if events != [] {
      var front, e := events[..|events| - 1], events[|events| - 1];
      ReadsReturnTaken(s, front, c);
      TakenStep(Run(s, front).value, e, c);
    }
  }

  lemma {:induction false} RunConcat(s: State, a: seq<Event>, b: seq<Event>)
    requires s.Valid() && Run(s, a).Some?
    ensures Run(s, a + b) == Run(Run(s, a).value, b)
    decreases |b|
  {
    if b == [] {
      assert a + b == a;
    } else {
      RunConcat(s, a, b[..|b| - 1]);
      assert (a + b)[..|a + b| - 1] == a + b[..|b| - 1];
    }
  }

  lemma RunNone(s: State)
    requires s.Valid()
    ensures Run(s, []) == Some(s)
  {
  }

  lemma RunFirst(s: State, e: Event, rest: seq<Event>)
    requires s.Valid() && Step(s, e).Some?
    ensures Run(s, [e] + rest) == Run(Step(s, e).value, rest)
  {
    hide Step;
    RunNone(s);
    assert [e][..0] == [];
    RunConcat(s, [e], rest);
  }

  /** Every read that fails through the multiplexer returns the same error, whatever happens between any two of them. */
  lemma FailingReadsAgree(s: State, c: nat, n: nat, between: seq<Event>, d: nat, m: nat)
    requires s.Valid() && Step(s, Read(c, n, true)).Some?
    requires var t := Step(s, Read(c, n, true)).value;
             Run(t, between).Some? && Step(Run(t, between).value, Read(d, m, true)).Some?
    ensures var u := Run(Step(s, Read(c, n, true)).value, between).value;
            ReadResultOf(s, c, n, true).Failed? && ReadResultOf(u, d, m, true) == ReadResultOf(s, c, n, true)
  {
    ErrorIsFixed(Step(s, Read(c, n, true)).value, between);
  }

  /**
    A step that shuts the multiplexer down: an explicit close, the end of the trunk, an overflow, or a partial
    write.
   */
  predicate ShutsDown(s: State, e: Event)
    requires s.Valid() && Step(s, e).Some?
  {
    match e
    case CloseMux => true
    case End(_) => true
    case Queue => s.reader.conn.Some? && |s.objs[s.reader.conn.value].queue| == s.qlen
    case Write(c, buf, faults) =>
      !s.objs[c].closed && SendAll(s.objs[c].id, buf, faults).fatal
    case _ => false
  }

  /**
    Only these steps shut it down, they close every registered connection, and all but an explicit close fix the
    error.
   */
  lemma ShutDownClosesAll(s: State, e: Event)
    requires s.Valid() && Step(s, e).Some? && !s.closed
    ensures var t := Step(s, e).value;
            (t.closed <==> ShutsDown(s, e)) &&
            (t.closed ==> t.conns == s.conns && (forall c: nat :: t.Registered(c) ==> t.objs[c].closed)) &&
            (t.closed && e != CloseMux ==> t.err.Some?)
  {
    hide ReadFrame, Encode, Written, Chunks, Send, EndError, State.ShutDown, State.CloseAll;
    match e
    case CloseMux => ClosesAll(s, EOF);
    case End(how) => ClosesAll(s.(reader := Idle), EndError(how, s.arrived));
    case Queue => ClosesAll(s.(reader := Idle), NotQueued);
    case Write(c, buf, faults) =>
      var sent := SendAll(s.objs[c].id, buf, faults);
      ClosesAll(s.(out := s.out + sent.bytes),
                if sent.fault == Some(HeaderFault) then HeaderNotWritten else PayloadNotWritten);
    case _ =>
  }

  lemma ClosesAll(s: State, e: Err)
    requires !s.closed
    ensures forall t :: t == s.CloseAll() || t == s.ShutDown(e) ==>
                          t.closed && t.conns == s.conns && (forall c: nat :: t.Registered(c) ==> t.objs[c].closed)
    ensures s.ShutDown(e).err.Some?
  {
  }

  // ---------------------------------------------------------------- which error is returned

  /** Some read has failed through the multiplexer. */
  ghost predicate ReadFailed(events: seq<Event>) {
    exists i :: 0 <= i < |events| && events[i].Read? && events[i].done
  }

  lemma ReadFailedSnoc(front: seq<Event>, e: Event)
    ensures ReadFailed(front + [e]) <==> ReadFailed(front) || (e.Read? && e.done)
  {
    var events := front + [e];
    assert events[|front|] == e && forall i :: 0 <= i < |front| ==> events[i] == front[i];
  }

  /** The error a shutdown is recorded with; an explicit close records none. */
  function ShutDownError(s: State, e: Event): Option<Err>
    requires s.Valid() && Step(s, e).Some?
  {
    match e
    case End(how) => Some(EndError(how, s.arrived))
    case Queue => Some(NotQueued)
    case Write(c, buf, faults) =>
      Some(if SendAll(s.objs[c].id, buf, faults).fault == Some(HeaderFault) then HeaderNotWritten
           else PayloadNotWritten)
    case _ => None
  }

  lemma ShutDownFixes(s: State, e: Err)
    ensures s.ShutDown(e).err == Or(s.err, Some(e)) && s.CloseAll().err == s.err
    ensures s.ShutDown(e).closed && s.CloseAll().closed
  {
  }

  /** What a step of an open multiplexer does to its error. */
  lemma ErrorStep(s: State, e: Event)
    requires s.Valid() && !s.closed && Step(s, e).Some?
    ensures var t := Step(s, e).value;
            t.err == Or(s.err, if t.closed then ShutDownError(s, e) else if e.Read? && e.done then Some(EOF) else None)
  {
    hide State.ShutDown, State.CloseAll, ReadFrame, Encode, Written, Chunks, Send, SendAll, EndError;
    match e
    case CloseMux => ShutDownFixes(s, EOF);
    case Queue => ShutDownFixes(s.(reader := Idle), NotQueued);
    case End(how) => ShutDownFixes(s.(reader := Idle), EndError(how, s.arrived));
    case Write(k, buf, faults) =>
      var t := s.(out := s.out + SendAll(s.objs[k].id, buf, faults).bytes);
      ShutDownFixes(t, HeaderNotWritten);
      ShutDownFixes(t, PayloadNotWritten);
    case _ =>
  }

  /** While the multiplexer is open, only failing reads fix its error. */
  lemma {:induction false} ErrorWhileOpen(qlen: nat, blocked: bool, events: seq<Event>)
    requires Run(Initial(qlen, blocked), events).Some? && !Run(Initial(qlen, blocked), events).value.closed
    ensures Run(Initial(qlen, blocked), events).value.err == if ReadFailed(events) then Some(EOF) else None
    decreases |events|
  {
    if events != [] {
      hide Step, ReadFailed;
      var front, e := events[..|events| - 1], events[|events| - 1];
      assert events == front + [e];
      var s := Run(Initial(qlen, blocked), front).value;
      if s.closed {
        StaysShut(s, e);
      }
      ErrorWhileOpen(qlen, blocked, front);
      ErrorStep(s, e);
      ReadFailedSnoc(front, e);
    }
  }

  /**
    After a shutdown, other than an explicit close, reads fail with the error of the shutdown if and
    only if no read has failed before it; if one has, they fail with the end of file that it recorded.
   */
  lemma ErrorOfShutDown(qlen: nat, blocked: bool, before: seq<Event>, e: Event, after: seq<Event>, c: nat, n: nat)
    requires Run(Initial(qlen, blocked), before).Some? && !Run(Initial(qlen, blocked), before).value.closed
    requires Run(Initial(qlen, blocked), before + [e]).Some? && Run(Initial(qlen, blocked), before + [e]).value.closed
    requires Run(Initial(qlen, blocked), before + [e] + after).Some? && e != CloseMux
    requires Step(Run(Initial(qlen, blocked), before + [e] + after).value, Read(c, n, true)).Some?
    ensures var s := Run(Initial(qlen, blocked), before).value;
            var t := Run(Initial(qlen, blocked), before + [e] + after).value;
            Step(s, e).Some? && ShutDownError(s, e).Some? &&
            ReadResultOf(t, c, n, true) == Failed(if ReadFailed(before) then EOF else ShutDownError(s, e).value)
  {
    hide Step, ReadFailed, EndError;
    var start := Initial(qlen, blocked);
    assert (before + [e])[..|before|] == before;
    var (s, u) := (Run(start, before).value, Run(start, before + [e]).value);
    ErrorWhileOpen(qlen, blocked, before);
    ErrorStep(s, e);
    ShutDownClosesAll(s, e);
    RunConcat(start, before + [e], after);
    ErrorIsFixed(u, after);
  }

  /** After an overflow, reads fail with its error if and only if no read has failed before it. */
  lemma OverflowErrorIff(qlen: nat, blocked: bool, before: seq<Event>, after: seq<Event>, c: nat, n: nat)
    requires Run(Initial(qlen, blocked), before).Some? && !Run(Initial(qlen, blocked), before).value.closed
    requires Run(Initial(qlen, blocked), before + [Queue]).Some?
    requires Run(Initial(qlen, blocked), before + [Queue]).value.closed
    requires Run(Initial(qlen, blocked), before + [Queue] + after).Some?
    requires Step(Run(Initial(qlen, blocked), before + [Queue] + after).value, Read(c, n, true)).Some?
    ensures var t := Run(Initial(qlen, blocked), before + [Queue] + after).value;
            ReadResultOf(t, c, n, true) == Failed(NotQueued) <==> !ReadFailed(before)
  {
    hide Step, ReadFailed, Run;
    ErrorOfShutDown(qlen, blocked, before, Queue, after, c, n);
  }

  /** Reading a connection that has been closed itself fails, and fixes the error of an open multiplexer. */
  lemma EarlyReadFixesError(qlen: nat, blocked: bool)
    ensures var t := Run(Initial(qlen, blocked), [Open(1), CloseConn(0), Read(0, 0, true)]);
            t.Some? && !t.value.closed && t.value.err == Some(EOF)
  {
    var s := Initial(qlen, blocked);
    var t := OnOpen(s, 1);
    RunThree(s, Open(1), CloseConn(0), Read(0, 0, true));
  }

  /**
    From a shutdown on, a connection that was registered can be read only as far as payloads are queued; then
    reads fail.
   */
  lemma ClosedConnFails(s: State, events: seq<Event>, c: nat, n: nat)
    requires s.Valid() && Run(s, events).Some? && c < |s.objs| && s.objs[c].closed
    ensures var t := Run(s, events).value;
            Step(t, Read(c, n, true)).Some? && (t.objs[c].queue == [] ==> Step(t, Read(c, n, false)) == None)
  {
    OnlyItsOwnCloseUnregisters(s, events, c);
  }

  // ---------------------------------------------------------------- which connections are closed

  /** A connection that is not registered any more, or never was, is closed. */
  ghost predicate StaleAreClosed(s: State) {
    forall c: nat :: c < |s.objs| && !s.Registered(c) ==> s.objs[c].closed
  }

  /** Between two states nothing is closed but what was registered at a shutdown, or is closed itself. */
  ghost predicate Closes(s: State, t: State, c: nat, itself: bool) {
    |s.objs| <= |t.objs| &&
    (c < |t.objs| ==>
       (t.objs[c].closed <==>
        itself || (c < |s.objs| && (s.objs[c].closed || (!s.closed && t.closed && s.Registered(c)))))) &&
    (|s.objs| <= c < |t.objs| ==> t.closed == s.closed && t.Registered(c))
  }

  lemma ShutDownCloses(s: State, e: Err, c: nat)
    ensures Closes(s, s.CloseAll(), c, false) && Closes(s, s.ShutDown(e), c, false)
  {
  }

  lemma OpenCloses(s: State, id: ConnID, c: nat)
    requires s.Valid()
    ensures Closes(s, OnOpen(s, id), c, false)
  {
  }

  lemma CloseConnCloses(s: State, k: nat, c: nat)
    requires s.Valid() && k < |s.objs|
    ensures Closes(s, OnCloseConn(s, k), c, k == c)
  {
  }

  lemma QueueCloses(s: State, c: nat)
    requires s.Valid() && s.reader.Holding?
    ensures Closes(s, OnQueue(s), c, false)
  {
    hide State.ShutDown;
    ShutDownCloses(s.(reader := Idle), NotQueued, c);
  }

  lemma ReadCloses(s: State, k: nat, done: bool, c: nat)
    requires s.Valid() && k < |s.objs|
    ensures OnRead(s, k, done).Some? ==> Closes(s, OnRead(s, k, done).value, c, false)
  {
  }

  lemma WriteCloses(s: State, k: nat, buf: seq<byte>, faults: seq<Option<nat>>, c: nat)
    requires s.Valid() && k < |s.objs|
    ensures Closes(s, OnWrite(s, k, buf, faults), c, false)
  {
    hide Chunks, Send, State.ShutDown;
    ChunksPartition(buf);
    var t := s.(out := s.out + SendAll(s.objs[k].id, buf, faults).bytes);
    ShutDownCloses(t, HeaderNotWritten, c);
    ShutDownCloses(t, PayloadNotWritten, c);
  }

  /** But for shutting down, a step closes the connection it is about and no other. */
  lemma StepCloses(s: State, e: Event, c: nat)
    requires s.Valid() && Step(s, e).Some?
    ensures Closes(s, Step(s, e).value, c, e == CloseConn(c))
  {
    hide State.ShutDown, State.CloseAll, OnOpen, OnCloseConn, OnQueue, OnRead, OnWrite, ReadFrame, Encode,
      Written, EndError;
    match e
    case Open(id) => OpenCloses(s, id, c);
    case CloseConn(k) => CloseConnCloses(s, k, c);
    case CloseMux => ShutDownCloses(s, EOF, c);
    case Queue => QueueCloses(s, c);
    case End(how) => ShutDownCloses(s.(reader := Idle), EndError(how, s.arrived), c);
    case Read(k, _, done) => ReadCloses(s, k, done, c);
    case Write(k, buf, faults) => WriteCloses(s, k, buf, faults, c);
    case _ =>
  }

  /** From the start and up to a shutdown, a connection is closed if and only if it was closed itself. */
  lemma {:induction false} ClosedIffItself(qlen: nat, blocked: bool, events: seq<Event>)
    requires Run(Initial(qlen, blocked), events).Some?
    ensures var s := Run(Initial(qlen, blocked), events).value;
            StaleAreClosed(s) &&
            (forall c: nat :: CloseConn(c) in events ==> c < |s.objs|) &&
            (!s.closed ==> forall c: nat :: c < |s.objs| ==> (s.objs[c].closed <==> CloseConn(c) in events))
    decreases |events|
  {
    if events != [] {
      hide Step;
      var (front, e) := (events[..|events| - 1], events[|events| - 1]);
      assert events == front + [e];
      ClosedIffItself(qlen, blocked, front);
      var (s, t) := (Run(Initial(qlen, blocked), front).value, Run(Initial(qlen, blocked), events).value);
      ClosingKnows(s, e);
      forall c: nat | c < |t.objs|
        ensures (!t.Registered(c) ==> t.objs[c].closed) &&
                (!t.closed ==> (t.objs[c].closed <==> CloseConn(c) in events))
      {
        StepCloses(s, e, c);
        if c < |s.objs| {
          StepFollows(s, e, c);
        }
      }
    }
  }

  lemma ClosingKnows(s: State, e: Event)
    requires s.Valid() && Step(s, e).Some?
    ensures |s.objs| <= |Step(s, e).value.objs| && (e.CloseConn? ==> e.conn < |s.objs|)
  {
    hide ReadFrame, Encode, Written, Chunks, Send, SendAll, EndError;
  }

  /**
    After a shutdown a connection is closed if and only if it was opened before the shutdown, stale or
    not, or it is closed itself: one opened later is out of the multiplexer's reach.
   */
  lemma {:induction false} ClosedAfterShutDown(qlen: nat, blocked: bool, before: seq<Event>, e: Event,
                                               after: seq<Event>)
    requires Run(Initial(qlen, blocked), before).Some? && !Run(Initial(qlen, blocked), before).value.closed
    requires Run(Initial(qlen, blocked), before + [e]).Some? && Run(Initial(qlen, blocked), before + [e]).value.closed
    requires Run(Initial(qlen, blocked), before + [e] + after).Some?
    ensures var existing := |Run(Initial(qlen, blocked), before).value.objs|;
            var t := Run(Initial(qlen, blocked), before + [e] + after).value;
            t.closed && existing <= |t.objs| &&
            forall c: nat :: c < |t.objs| ==>
                               (t.objs[c].closed <==> c < existing || CloseConn(c) in before + [e] + after)
    decreases |after|
  {
    hide Step;
    var start := Initial(qlen, blocked);
    var (s, u) := (Run(start, before).value, Run(start, before + [e]).value);
    assert (before + [e])[..|before|] == before;
    if after == [] {
      assert before + [e] + after == before + [e];
      ClosedIffItself(qlen, blocked, before);
      ClosingKnows(s, e);
      forall c: nat | c < |u.objs| ensures u.objs[c].closed <==> c < |s.objs| || CloseConn(c) in before + [e] {
        StepCloses(s, e, c);
      }
    } else {
      var (front, last) := (after[..|after| - 1], after[|after| - 1]);
      assert (before + [e] + after)[..|before + [e] + after| - 1] == before + [e] + front;
      assert before + [e] + after == before + [e] + front + [last];
      ClosedAfterShutDown(qlen, blocked, before, e, front);
      ClosedIffItself(qlen, blocked, before + [e] + front);
      ClosedLater(Run(start, before + [e] + front).value, last);
    }
  }

  lemma ClosedLater(s: State, e: Event)
    requires s.Valid() && s.closed && Step(s, e).Some?
    ensures var t := Step(s, e).value;
            t.closed && |s.objs| <= |t.objs| &&
            forall c: nat :: c < |t.objs| ==>
                               (t.objs[c].closed <==> e == CloseConn(c) || (c < |s.objs| && s.objs[c].closed))
  {
    ClosingKnows(s, e);
    hide Step;
    var t := Step(s, e).value;
    StaysShut(s, e);
    forall c: nat | c < |t.objs| ensures t.objs[c].closed <==> e == CloseConn(c) || (c < |s.objs| && s.objs[c].closed) {
      StepCloses(s, e, c);
    }
  }

  lemma StaysShut(s: State, e: Event)
    requires s.Valid() && s.closed && Step(s, e).Some?
    ensures Step(s, e).value.closed
  {
    hide ReadFrame, Encode, Written, Chunks, Send, SendAll, EndError;
  }

  // ---------------------------------------------------------------- a connection opened too late

  /** Nothing will ever be queued on the connection again. */
  predicate Barren(s: State, c: nat) {
    s.closed && c < |s.objs| && s.objs[c].queue == [] && Held(s, c) == []
  }

  lemma BarrenQueue(s: State, c: nat)
    requires s.Valid() && s.reader.Holding? && Barren(s, c)
    ensures Barren(OnQueue(s), c)
  {
    hide State.CloseAll;
    BarrenShut(s.(reader := Idle), NotQueued, c);
  }

  lemma BarrenShut(s: State, e: Err, c: nat)
    requires Barren(s, c)
    ensures Barren(s.ShutDown(e), c) && Barren(s.CloseAll(), c)
  {
  }

  lemma BarrenStays(s: State, e: Event, c: nat)
    requires s.Valid() && Step(s, e).Some? && Barren(s, c)
    ensures Barren(Step(s, e).value, c)
  {
    hide State.ShutDown, State.CloseAll, OnQueue, ReadFrame, Encode, Written, Chunks, Send, EndError;
    match e
    case Queue => BarrenQueue(s, c);
    case CloseMux => BarrenShut(s, EOF, c);
    case End(how) => BarrenShut(s.(reader := Idle), EndError(how, s.arrived), c);
    case Write(k, buf, faults) =>
      var t := s.(out := s.out + SendAll(s.objs[k].id, buf, faults).bytes);
      BarrenShut(t, HeaderNotWritten, c);
      BarrenShut(t, PayloadNotWritten, c);
    case _ =>
  }

  /**
    A connection opened after the multiplexer was shut down, when the reader has no frame for it in
    hand: no read ever yields anything, and reads fail only once the connection is closed itself.
   */
  lemma {:induction false} LateConnectionHangs(s: State, id: ConnID, events: seq<Event>)
    requires s.Valid() && s.closed && id != RESERVED_CONN_ID && id !in s.conns
    requires !(s.reader.InHand? && s.reader.frame.id == id)
    requires Run(Step(s, Open(id)).value, events).Some?
    ensures var (t, c) := (Run(Step(s, Open(id)).value, events).value, |s.objs|);
            Barren(t, c) && (t.objs[c].closed <==> CloseConn(c) in events)
    ensures var (t, c) := (Run(Step(s, Open(id)).value, events).value, |s.objs|);
            forall n: nat :: Step(t, Read(c, n, false)) == None &&
                             (Step(t, Read(c, n, true)).Some? <==> CloseConn(c) in events)
    decreases |events|
  {
    var (t, c) := (Step(s, Open(id)).value, |s.objs|);
    if events == [] {
    } else {
      var (front, e) := (events[..|events| - 1], events[|events| - 1]);
      assert events == front + [e];
      LateConnectionHangs(s, id, front);
      var u := Run(t, front).value;
      BarrenStays(u, e, c);
      ClosedLater(u, e);
      ReadsOf(Step(u, e).value, c);
      hide Step, Barren;
    }
  }

  lemma ReadsOf(s: State, c: nat)
    requires s.Valid() && c < |s.objs|
    ensures forall n: nat :: (Step(s, Read(c, n, true)).Some? <==> s.objs[c].closed) &&
                             (Step(s, Read(c, n, false)).Some? <==> s.objs[c].queue != [])
  {
  }

  /** The exception: a frame read in full before the shutdown is handed to a connection opened after it. */
  lemma LateConnectionGetsFrame(s: State, id: ConnID)
    requires s.Valid() && s.closed && id != RESERVED_CONN_ID && id !in s.conns && s.qlen > 0
    requires s.reader.InHand? && s.reader.frame.id == id
    ensures var t := Run(s, [Open(id), Find, Queue]);
            t.Some? && |s.objs| < |t.value.objs| && t.value.objs[|s.objs|].queue == [s.reader.frame.payload] &&
            Step(t.value, Read(|s.objs|, |s.reader.frame.payload|, false)).Some?
  {
    hide Run, OnOpen, OnFind, OnQueue, State.Registered;
    var t := OnOpen(s, id);
    OpensFresh(s, id);
    LateFrame(t);
    RunThree(s, Open(id), Find, Queue);
  }

  lemma OpensFresh(s: State, id: ConnID)
    requires s.Valid() && id != RESERVED_CONN_ID && id !in s.conns
    ensures var t := OnOpen(s, id);
            t.reader == s.reader && t.qlen == s.qlen && |t.objs| == |s.objs| + 1 &&
            Lookup(t.conns, id) == Some(|s.objs|) &&
            t.objs[|s.objs|] == ConnState(id, [], false, [])
  {
  }

  lemma LateFrame(t: State)
    requires t.Valid() && t.reader.InHand? && t.qlen > 0
    ensures var u := OnFind(t);
            u.Valid() && u.reader.Holding? && |OnQueue(u).objs| == |t.objs| &&
            forall c: nat :: Lookup(t.conns, t.reader.frame.id) == Some(c) && c < |t.objs| && t.objs[c].queue == [] ==>
                               OnQueue(u).objs[c].queue == [t.reader.frame.payload]
  {
  }

  lemma RunThree(s: State, a: Event, b: Event, c: Event)
    requires s.Valid() && Step(s, a).Some? && Step(Step(s, a).value, b).Some?
    ensures Run(s, [a, b, c]) == Step(Step(Step(s, a).value, b).value, c)
  {
    hide Step;
    var (t, u) := (Step(s, a).value, Step(Step(s, a).value, b).value);
    assert [a] + [b, c] == [a, b, c] && [b] + [c] == [b, c] && [c][..0] == [];
    RunNone(u);
    RunFirst(s, a, [b, c]);
    RunFirst(t, b, [c]);
  }
}
