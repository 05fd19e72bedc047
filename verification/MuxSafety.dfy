/**
  What a connection yields in every run, whatever is closed or overflows: never anything but a
  contiguous part of what was written to its identifier.
 */
module MuxSafety {
  import opened Prelude
  import opened Framing
  import opened MuxMachine
  import opened MuxRuns

  // ---------------------------------------------------------------- the stream of one connection

  /** What has been handed to a connection: read, queued, or about to be queued. */
  function Got(s: State, c: nat): seq<seq<byte>>
    requires c < |s.objs|
  {
    s.objs[c].taken + s.objs[c].queue +
    if s.reader.Holding? && s.reader.conn == Some(c) then [s.reader.payload] else []
  }

  /** The reader can still look up a frame for the connection. */
  predicate MayGetMore(s: State, c: nat) {
    s.Registered(c) && (s.reader.InHand? || !s.closed)
  }

  /** The stream is followed exactly, or was cut off at some point and nothing is added any more. */
  ghost predicate Safe(s: State, c: nat, total: seq<seq<byte>>) {
    c < |s.objs| &&
    ((s.Registered(c) && Framed(s) && Stream(s, c) == total) || (!MayGetMore(s, c) && Got(s, c) <= total))
  }

  lemma GotOfStream(s: State, c: nat)
    requires c < |s.objs|
    ensures Got(s, c) <= Stream(s, c) && s.objs[c].taken + s.objs[c].queue <= Got(s, c)
  {
    hide OnTrunk;
    assert s.reader.InHand? ==> Got(s, c) == s.objs[c].taken + s.objs[c].queue;
    assert !s.reader.InHand? ==> Stream(s, c) == Got(s, c) + OnTrunk(s, s.objs[c].id);
    assert Stream(s, c) == s.objs[c].taken + s.objs[c].queue + (Held(s, c) + OnTrunk(s, s.objs[c].id));
  }

  /** A payload is queued on its connection, or lost in an overflow. */
  lemma QueueStep(s: State, c: nat)
    requires s.Valid() && Step(s, Queue).Some? && c < |s.objs|
    ensures var t := Step(s, Queue).value;
            && c < |t.objs| && t.objs[c].id == s.objs[c].id && t.arrived == s.arrived && t.coming == s.coming
            && t.reader == Idle && t.objs[c].taken == s.objs[c].taken
            && (t.objs[c].queue == s.objs[c].queue + (if s.reader.conn == Some(c) then [s.reader.payload] else []) ||
                (t.closed && t.objs[c].queue == s.objs[c].queue))
  {
    hide State.ShutDown;
    ShutDownKeeps(s.(reader := Idle), NotQueued);
  }

  lemma SameTrunk(s: State, t: State, id: ConnID)
    requires t.arrived + t.coming == s.arrived + s.coming
    ensures (Framed(t) <==> Framed(s)) && OnTrunk(t, id) == OnTrunk(s, id)
  {
  }

  lemma QuietSafe(s: State, e: Event, c: nat, total: seq<seq<byte>>)
    requires s.Valid() && Step(s, e).Some? && Safe(s, c, total)
    requires !e.PeerWrite? && !e.Take? && !e.Find? && !e.Queue? && !e.Read?
    ensures Safe(Step(s, e).value, c, total)
  {
    hide Step, OnTrunk, Framed, State.Registered;
    var t := Step(s, e).value;
    QuietStep(s, e, c);
    SameTrunk(s, t, s.objs[c].id);
    StepFollows(s, e, c);
    GotOfStream(s, c);
  }

  /** Reading takes from the queue. */
  lemma ReadSafe(s: State, e: Event, c: nat, total: seq<seq<byte>>)
    requires s.Valid() && e.Read? && Step(s, e).Some? && Safe(s, c, total)
    ensures Safe(Step(s, e).value, c, total)
  {
    hide Step, OnTrunk, Framed, State.Registered;
    var t := Step(s, e).value;
    ReadStep(s, e, c);
    SameTrunk(s, t, s.objs[c].id);
    StepFollows(s, e, c);
  }

  lemma PeerWriteSafe(s: State, e: Event, c: nat, total: seq<seq<byte>>)
    requires s.Valid() && e.PeerWrite? && Safe(s, c, total)
    ensures Safe(Step(s, e).value, c, total + WrittenBy(e, s.objs[c].id))
  {
    hide OnTrunk, Framed, Encode, WrittenBy;
    var t := Step(s, e).value;
    var id := s.objs[c].id;
    StepFollows(s, e, c);
    if s.Registered(c) && Framed(s) && Stream(s, c) == total {
      PeerWriteCarries(s, e, c);
    } else {
      assert Got(t, c) == Got(s, c) && total <= total + WrittenBy(e, id);
    }
  }

  lemma TakeSafe(s: State, c: nat, total: seq<seq<byte>>)
    requires s.Valid() && Step(s, Take).Some? && Safe(s, c, total)
    ensures Safe(Step(s, Take).value, c, total)
  {
    StepFollows(s, Take, c);
    hide Framed, Stream;
    if s.Registered(c) {
      TakeCarries(s, c);
      assert total + [] == total;
    }
  }

  lemma FindSafe(s: State, c: nat, total: seq<seq<byte>>)
    requires s.Valid() && Step(s, Find).Some? && Safe(s, c, total)
    ensures Safe(Step(s, Find).value, c, total)
  {
    StepFollows(s, Find, c);
    hide Framed, Stream;
    if s.Registered(c) {
      FindCarries(s, c);
      assert total + [] == total;
    }
  }

  /** What a connection has got does not change, unless the payload is lost in an overflow. */
  lemma QueueGot(s: State, c: nat)
    requires s.Valid() && Step(s, Queue).Some? && c < |s.objs|
    ensures var t := Step(s, Queue).value;
            c < |t.objs| && s.reader.Holding? && t.reader == Idle &&
            (Got(t, c) == Got(s, c) || (t.closed && Got(t, c) <= Got(s, c)))
  {
    assert s.reader.Holding?;
    hide Step;
    QueueStep(s, c);
    assert forall q: seq<seq<byte>>, x: seq<seq<byte>> :: (q + x) + [] == q + x;
  }

  lemma StreamOfGot(s: State, c: nat)
    requires c < |s.objs| && !s.reader.InHand?
    ensures Stream(s, c) == Got(s, c) + OnTrunk(s, s.objs[c].id)
  {
    hide OnTrunk;
  }

  lemma QueueSafe(s: State, c: nat, total: seq<seq<byte>>)
    requires s.Valid() && Step(s, Queue).Some? && c < |s.objs| && Safe(s, c, total)
    ensures Safe(Step(s, Queue).value, c, total)
  {
    hide Step, OnTrunk, Framed, State.Registered, Got, Stream;
    var t := Step(s, Queue).value;
    QueueStep(s, c);
    QueueGot(s, c);
    SameTrunk(s, t, s.objs[c].id);
    StepFollows(s, Queue, c);
    GotOfStream(s, c);
    StreamOfGot(s, c);
    StreamOfGot(t, c);
  }

  lemma StepSafe(s: State, e: Event, c: nat, total: seq<seq<byte>>)
    requires s.Valid() && Step(s, e).Some? && c < |s.objs| && Safe(s, c, total)
    ensures Safe(Step(s, e).value, c, total + WrittenBy(e, s.objs[c].id))
  {
    hide Step, Safe;
    assert total + [] == total;
    match e
    case PeerWrite(_, _) => PeerWriteSafe(s, e, c, total);
    case Take => TakeSafe(s, c, total);
    case Find => FindSafe(s, c, total);
    case Queue => QueueSafe(s, c, total);
    case Read(_, _, _) => ReadSafe(s, e, c, total);
    case _ => QuietSafe(s, e, c, total);
  }

  /**
    From any state with a framed trunk, in every run: what a connection has read and queued is a prefix
    of what it had and what was on its way to it, followed by what was written to its identifier.
   */
  lemma {:induction false} NeverMoreThanWritten(s: State, events: seq<Event>, c: nat)
    requires s.Valid() && Run(s, events).Some? && Framed(s) && c < |s.objs|
    ensures var t := Run(s, events).value;
            c < |t.objs| && t.objs[c].id == s.objs[c].id &&
            t.objs[c].taken + t.objs[c].queue <= Stream(s, c) + WrittenTo(events, s.objs[c].id)
  {
    GotOfStream(s, c);
    assert Stream(s, c) + [] == Stream(s, c);
    RunSafe(s, events, c, Stream(s, c));
    OnlyItsOwnCloseUnregisters(s, events, c);
    GotOfStream(Run(s, events).value, c);
  }

  lemma {:induction false} RunSafe(s: State, events: seq<Event>, c: nat, total: seq<seq<byte>>)
    requires s.Valid() && Run(s, events).Some? && c < |s.objs| && Safe(s, c, total)
    ensures Safe(Run(s, events).value, c, total + WrittenTo(events, s.objs[c].id))
    decreases |events|
  {
    hide Step, Safe, WrittenBy;
    if events == [] {
      assert total + [] == total;
    } else {
      var (front, e) := (events[..|events| - 1], events[|events| - 1]);
      var id := s.objs[c].id;
      RunSafe(s, front, c, total);
      OnlyItsOwnCloseUnregisters(s, front, c);
      StepSafe(Run(s, front).value, e, c, total + WrittenTo(front, id));
      assert total + WrittenTo(front, id) + WrittenBy(e, id) == total + WrittenTo(events, id);
    }
  }

  // ---------------------------------------------------------------- from the start

  /** What the reader has still to look up for an identifier, in hand and on the trunk. */
  function Ahead(s: State, id: ConnID): seq<seq<byte>> {
    (if s.reader.InHand? && s.reader.frame.id == id then [s.reader.frame.payload] else []) + OnTrunk(s, id)
  }

  /** A step adds what it writes, and takes away at most the payload it looks up. */
  ghost predicate Advances(s: State, t: State, id: ConnID, more: seq<seq<byte>>) {
    Framed(t) && exists gone :: Ahead(s, id) + more == gone + Ahead(t, id)
  }

  lemma AdvancesBy(s: State, t: State, id: ConnID, more: seq<seq<byte>>, gone: seq<seq<byte>>)
    requires Framed(t) && Ahead(s, id) + more == gone + Ahead(t, id)
    ensures Advances(s, t, id, more)
  {
    hide Framed, Ahead;
  }

  lemma TakeAdvances(s: State, id: ConnID)
    requires s.Valid() && Step(s, Take).Some? && Framed(s)
    ensures Advances(s, Step(s, Take).value, id, [])
  {
    hide Step, Parse, PayloadsFor;
    var t := Step(s, Take).value;
    var f := TakeStep(s);
    PayloadsForConcat([f], Parse(t.arrived + t.coming).0, id);
    PayloadsForOne(f, id);
    assert Ahead(s, id) + [] == [] + Ahead(t, id);
    AdvancesBy(s, t, id, [], []);
  }

  lemma PayloadsForOne(f: Frame, id: ConnID)
    ensures PayloadsFor([f], id) == if f.id == id then [f.payload] else []
  {
    assert PayloadsFor([], id) == [];
  }

  lemma QuietAdvances(s: State, t: State, id: ConnID)
    requires Framed(s) && t.arrived + t.coming == s.arrived + s.coming && (t.reader == s.reader || !t.reader.InHand?)
    ensures Advances(s, t, id, [])
  {
    hide OnTrunk, Framed;
    SameTrunk(s, t, id);
    var lost := t.reader != s.reader && s.reader.InHand? && s.reader.frame.id == id;
    var gone := if lost then [s.reader.frame.payload] else [];
    assert Ahead(s, id) + [] == gone + Ahead(t, id);
    AdvancesBy(s, t, id, [], gone);
  }

  lemma WriteAdvances(s: State, e: Event, id: ConnID)
    requires s.Valid() && e.PeerWrite? && Step(s, e).Some? && Framed(s)
    ensures Advances(s, Step(s, e).value, id, WrittenBy(e, id))
  {
    hide Step, Framed, OnTrunk, WrittenBy;
    var t := Step(s, e).value;
    TrunkGrows(s, e, id);
    assert Ahead(s, id) + WrittenBy(e, id) == [] + Ahead(t, id);
    AdvancesBy(s, t, id, WrittenBy(e, id), []);
  }

  lemma StepAdvances(s: State, e: Event, id: ConnID)
    requires s.Valid() && Step(s, e).Some? && Framed(s)
    ensures Advances(s, Step(s, e).value, id, WrittenBy(e, id))
  {
    hide Step, Framed, Advances;
    match e
    case PeerWrite(_, _) => WriteAdvances(s, e, id);
    case Take => TakeAdvances(s, id);
    case _ =>
      TrunkStays(s, e);
      QuietAdvances(s, Step(s, e).value, id);
  }

  ghost predicate KeepsTrunk(s: State, t: State) {
    t.arrived + t.coming == s.arrived + s.coming && (t.reader == s.reader || !t.reader.InHand?)
  }

  lemma ShutDownKeepsTrunk(s: State, t: State, e: Err)
    requires KeepsTrunk(s, t)
    ensures KeepsTrunk(s, t.ShutDown(e)) && KeepsTrunk(s, t.CloseAll())
  {
    hide State.ShutDown, State.CloseAll;
    ShutDownKeeps(t, e);
  }

  lemma TrunkStays(s: State, e: Event)
    requires s.Valid() && Step(s, e).Some? && !e.PeerWrite? && !e.Take?
    ensures KeepsTrunk(s, Step(s, e).value)
  {
    hide State.Valid, State.Registered, State.ShutDown, State.CloseAll, ReadFrame, Encode, Written, SendAll, EndError;
    match e
    case CloseMux => ShutDownKeepsTrunk(s, s, EOF);
    case Queue => ShutDownKeepsTrunk(s, s.(reader := Idle), NotQueued);
    case End(how) => ShutDownKeepsTrunk(s, s.(reader := Idle), EndError(how, s.arrived));
    case Write(k, buf, faults) =>
      var t := s.(out := s.out + SendAll(s.objs[k].id, buf, faults).bytes);
      ShutDownKeepsTrunk(s, t, HeaderNotWritten);
      ShutDownKeepsTrunk(s, t, PayloadNotWritten);
    case _ =>
  }

  /** In every run from the start, what lies ahead for an identifier is the end of what was written to it. */
  lemma {:induction false} AheadIsTail(qlen: nat, blocked: bool, events: seq<Event>, id: ConnID) returns (k: nat)
    requires Run(Initial(qlen, blocked), events).Some?
    ensures var t := Run(Initial(qlen, blocked), events).value;
            Framed(t) && k <= |WrittenTo(events, id)| && Ahead(t, id) == WrittenTo(events, id)[k..]
    decreases |events|
  {
    if events == [] {
      assert Parse([]) == ([], []);
      assert Initial(qlen, blocked).arrived + Initial(qlen, blocked).coming == [];
      k := 0;
    } else {
      hide Step, Framed, Ahead, WrittenBy;
      var front, e := events[..|events| - 1], events[|events| - 1];
      var (s, t) := (Run(Initial(qlen, blocked), front).value, Run(Initial(qlen, blocked), events).value);
      var j := AheadIsTail(qlen, blocked, front, id);
      StepAdvances(s, e, id);
      var gone :| Ahead(s, id) + WrittenBy(e, id) == gone + Ahead(t, id);
      k := j + |gone|;
      TailAdvances(WrittenTo(front, id), WrittenBy(e, id), j, gone, Ahead(t, id));
    }
  }

  lemma TailAdvances(all: seq<seq<byte>>, more: seq<seq<byte>>, j: nat, gone: seq<seq<byte>>, rest: seq<seq<byte>>)
    requires j <= |all| && all[j..] + more == gone + rest
    ensures j + |gone| <= |all + more| && rest == (all + more)[j + |gone|..]
  {
    assert (all + more)[j..] == all[j..] + more;
    assert (all + more)[j..][|gone|..] == rest;
  }

  /** A connection is safe with respect to what was written to its identifier from some point on. */
  ghost predicate SafeFrom(t: State, c: nat, written: seq<seq<byte>>, k: nat) {
    k <= |written| && Safe(t, c, written[k..])
  }

  lemma {:induction false} EveryConnectionIsSafe(qlen: nat, blocked: bool, events: seq<Event>, c: nat) returns (k: nat)
    requires Run(Initial(qlen, blocked), events).Some? && c < |Run(Initial(qlen, blocked), events).value.objs|
    ensures var t := Run(Initial(qlen, blocked), events).value;
            SafeFrom(t, c, WrittenTo(events, t.objs[c].id), k)
    decreases |events|
  {
    assert events != [];
    hide Step, Safe, WrittenBy, Framed, Ahead, Follows;
    var front, e := events[..|events| - 1], events[|events| - 1];
    var (s, t) := (Run(Initial(qlen, blocked), front).value, Run(Initial(qlen, blocked), events).value);
    if c < |s.objs| {
      k := EveryConnectionIsSafe(qlen, blocked, front, c);
      var id := s.objs[c].id;
      SameId(s, e, c);
      StepSafe(s, e, c, WrittenTo(front, id)[k..]);
      TailGrows(WrittenTo(front, id), WrittenBy(e, id), k);
    } else {
      k := AheadIsTail(qlen, blocked, events, t.objs[c].id);
      NewIsSafe(s, e, c);
    }
  }

  lemma SameId(s: State, e: Event, c: nat)
    requires s.Valid() && Step(s, e).Some? && c < |s.objs|
    ensures c < |Step(s, e).value.objs| && Step(s, e).value.objs[c].id == s.objs[c].id
  {
    hide Step;
    StepFollows(s, e, c);
  }

  lemma TailGrows(all: seq<seq<byte>>, more: seq<seq<byte>>, k: nat)
    requires k <= |all|
    ensures all[k..] + more == (all + more)[k..]
  {
  }

  lemma NewIsSafe(s: State, e: Event, c: nat)
    requires s.Valid() && Step(s, e).Some? && |s.objs| <= c < |Step(s, e).value.objs| && Framed(Step(s, e).value)
    ensures var t := Step(s, e).value;
            Safe(t, c, Ahead(t, t.objs[c].id))
  {
    hide OnTrunk, Framed, State.ShutDown, State.CloseAll, ReadFrame, Encode, Written, Chunks, Send, SendAll, EndError;
    var t := Step(s, e).value;
    match e
    case Open(id) =>
      assert t.Registered(c) && t.objs[c].queue == [] && t.objs[c].taken == [];
    case _ => StepOpensNone(s, e);
  }

  lemma StepOpensNone(s: State, e: Event)
    requires s.Valid() && Step(s, e).Some? && !e.Open?
    ensures |Step(s, e).value.objs| == |s.objs|
  {
    hide State.ShutDown, State.CloseAll, ReadFrame, Encode, Written, Chunks, Send, SendAll, EndError;
    match e
    case CloseMux => ShutDownKeeps(s, EOF);
    case Queue => ShutDownKeeps(s.(reader := Idle), NotQueued);
    case End(how) => ShutDownKeeps(s.(reader := Idle), EndError(how, s.arrived));
    case Write(k, buf, faults) =>
      var t := s.(out := s.out + SendAll(s.objs[k].id, buf, faults).bytes);
      ShutDownKeeps(t, HeaderNotWritten);
      ShutDownKeeps(t, PayloadNotWritten);
    case _ =>
  }

  /**
    In every run, whatever is opened, closed or overflows: what a connection has read and queued is a
    contiguous part of what was written to its identifier, in order and without gaps.
   */
  lemma ReadsContiguousPart(qlen: nat, blocked: bool, events: seq<Event>, c: nat)
    requires Run(Initial(qlen, blocked), events).Some? && c < |Run(Initial(qlen, blocked), events).value.objs|
    ensures var t := Run(Initial(qlen, blocked), events).value;
            var written := WrittenTo(events, t.objs[c].id);
            exists k: nat :: k <= |written| && t.objs[c].taken + t.objs[c].queue <= written[k..]
  {
    hide Run, Got, Framed, OnTrunk;
    var t := Run(Initial(qlen, blocked), events).value;
    var k := EveryConnectionIsSafe(qlen, blocked, events, c);
    GotOfStream(t, c);
    assert t.objs[c].taken + t.objs[c].queue <= WrittenTo(events, t.objs[c].id)[k..];
  }

  /** The reads return the payloads from the k-th on, one after the other. */
  ghost predicate ReturnFrom(calls: seq<ReadCall>, written: seq<seq<byte>>, k: nat) {
    k + |calls| <= |written| && forall i :: 0 <= i < |calls| ==> Returns(calls[i], written[k + i])
  }

  /**
    In every run from the start: the reads of a connection that take a payload return, one after the
    other, a contiguous part of the payloads written to its identifier, each whole or, exactly if the
    buffer is too small for it, not at all. A buffer of the maximum payload size is never too small.
   */
  lemma ReturnsContiguousPart(qlen: nat, blocked: bool, events: seq<Event>, c: nat) returns (k: nat)
    requires Run(Initial(qlen, blocked), events).Some? && c < |Run(Initial(qlen, blocked), events).value.objs|
    ensures var t := Run(Initial(qlen, blocked), events).value;
            var calls := ReadCalls(Initial(qlen, blocked), events, c);
            ReturnFrom(calls, WrittenTo(events, t.objs[c].id), k) &&
            forall i :: 0 <= i < |calls| && calls[i].capacity >= MAX_PAYLOAD_SIZE ==> calls[i].result != OutOfMemory
  {
    hide Run, ReadCalls, WrittenTo;
      var (s, t) := (Initial(qlen, blocked), Run(Initial(qlen, blocked), events).value);
    ReadsReturnTaken(s, events, c);
    ReadsContiguousPart(qlen, blocked, events, c);
    PiecesFit(events, t.objs[c].id);
    k := Part(ReadCalls(s, events, c), t.objs[c], WrittenTo(events, t.objs[c].id));
  }

  lemma Part(calls: seq<ReadCall>, o: ConnState, written: seq<seq<byte>>) returns (k: nat)
    requires |o.taken| == |calls| && forall i :: 0 <= i < |calls| ==> Returns(calls[i], o.taken[i])
    requires exists k: nat :: k <= |written| && o.taken + o.queue <= written[k..]
    requires forall p :: p in written ==> |p| <= MAX_PAYLOAD_SIZE
    ensures ReturnFrom(calls, written, k)
    ensures forall i :: 0 <= i < |calls| && calls[i].capacity >= MAX_PAYLOAD_SIZE ==> calls[i].result != OutOfMemory
  {
    k :| k <= |written| && o.taken + o.queue <= written[k..];
    forall i | 0 <= i < |calls|
      ensures Returns(calls[i], written[k + i]) && written[k + i] in written
    {
      assert written[k + i] == written[k..][i] == o.taken[i];
    }
  }

  lemma {:induction false} PiecesFit(events: seq<Event>, id: ConnID)
    ensures forall p :: p in WrittenTo(events, id) ==> |p| <= MAX_PAYLOAD_SIZE
    decreases |events|
  {
    if events != [] {
      PiecesFit(events[..|events| - 1], id);
      if events[|events| - 1].PeerWrite? {
        ChunksPartition(events[|events| - 1].buf);
      }
    }
  }

  // ---------------------------------------------------------------- before the reader is let start

  /** The reader has not started, and nothing has reached any connection. */
  ghost predicate Untouched(s: State) {
    s.reader == Idle && forall c :: 0 <= c < |s.objs| ==> s.objs[c].queue == [] && s.objs[c].taken == []
  }

  lemma BlockedStep(s: State, e: Event)
    requires s.Valid() && Step(s, e).Some?
    ensures Step(s, e).value.blocked <==> s.blocked && e != Unblock
    ensures s.blocked && Untouched(s) && e != Unblock ==> Untouched(Step(s, e).value)
  {
    hide ReadFrame, Encode, Written, SendAll, EndError, State.ShutDown, State.CloseAll, State.Valid;
    match e
    case CloseMux => ShutDownUntouched(s, EOF);
    case Queue => ShutDownUntouched(s.(reader := Idle), NotQueued);
    case End(how) => ShutDownUntouched(s.(reader := Idle), EndError(how, s.arrived));
    case Write(k, buf, faults) =>
      var t := s.(out := s.out + SendAll(s.objs[k].id, buf, faults).bytes);
      ShutDownUntouched(t, HeaderNotWritten);
      ShutDownUntouched(t, PayloadNotWritten);
    case _ =>
  }

  lemma ShutDownUntouched(s: State, e: Err)
    ensures forall t :: t == s.CloseAll() || t == s.ShutDown(e) ==>
                          (t.blocked <==> s.blocked) && (Untouched(s) ==> Untouched(t))
  {
  }

  /**
    A multiplexer that starts blocked is unblocked by nothing else, and until then no interleaving
    queues a payload or lets one be read.
   */
  lemma {:induction false} BlockedUntilUnblocked(qlen: nat, blocked: bool, events: seq<Event>)
    requires Run(Initial(qlen, blocked), events).Some?
    ensures var t := Run(Initial(qlen, blocked), events).value;
            (t.blocked <==> blocked && Unblock !in events) && (t.blocked ==> Untouched(t)) &&
            (forall c: nat, n: nat :: t.blocked ==> Step(t, Read(c, n, false)) == None)
    decreases |events|
  {
    if events != [] {
      var front, e := events[..|events| - 1], events[|events| - 1];
      assert events == front + [e];
      BlockedUntilUnblocked(qlen, blocked, front);
      BlockedStep(Run(Initial(qlen, blocked), front).value, e);
    }
  }

  // ---------------------------------------------------------------- what is written does arrive

  function Round(): seq<Event> {
    [Check, Take, Find, Queue]
  }

  function Rounds(n: nat): seq<Event> {
    if n == 0 then [] else Round() + Rounds(n - 1)
  }

  /** The reader is at rest, and free to go on. */
  ghost predicate Ready(s: State) {
    s.Valid() && s.reader == Idle && !s.closed && !s.blocked
  }

  function Queued(s: State, c: nat, more: seq<seq<byte>>): State
    requires c < |s.objs|
  {
    s.With(c, s.objs[c].(queue := s.objs[c].queue + more))
  }

  lemma FrameIsTaken(s: State, f: Frame, rest: seq<byte>)
    requires Ready(s) && |f.payload| < 0x1_0000_0000 && s.arrived == Bytes(f) + rest
    ensures var t := s.(reader := Reading);
            Step(s, Check) == Some(t) && Step(t, Take) == Some(t.(arrived := rest, reader := InHand(f)))
  {
    hide Bytes, ReadFrame;
    FrameRoundTrip(f, rest);
  }

  lemma FrameIsHandedOver(s: State, c: nat)
    requires s.Valid() && s.reader.InHand? && s.Registered(c) && s.reader.frame.id == s.objs[c].id
    requires |s.objs[c].queue| < s.qlen
    ensures var t := s.(reader := Holding(s.reader.frame.payload, Some(c)));
            t.Valid() && Step(s, Find) == Some(t) &&
            Step(t, Queue) == Some(Queued(s, c, [s.reader.frame.payload]).(reader := Idle))
  {
  }

  lemma FrameIsQueued(s: State, c: nat, payload: seq<byte>, rest: seq<byte>)
    requires Ready(s) && s.Registered(c) && |s.objs[c].queue| < s.qlen && |payload| < 0x1_0000_0000
    requires s.arrived == Bytes(Frame(s.objs[c].id, payload)) + rest
    ensures Run(s, Round()) == Some(Queued(s, c, [payload]).(arrived := rest))
  {
    var f := Frame(s.objs[c].id, payload);
    FrameIsTaken(s, f, rest);
    var t := s.(reader := Reading);
    var u := t.(arrived := rest, reader := InHand(f));
    FrameIsHandedOver(u, c);
    hide Run, Step, Bytes, State.Valid, State.Registered;
    RunFour(s, Check, Take, Find, Queue);
  }

  lemma RunFour(s: State, a: Event, b: Event, c: Event, d: Event)
    requires s.Valid() && Step(s, a).Some? && Step(Step(s, a).value, b).Some?
    requires Step(Step(Step(s, a).value, b).value, c).Some?
    ensures Run(s, [a, b, c, d]) == Step(Step(Step(Step(s, a).value, b).value, c).value, d)
  {
    hide Step;
    assert [a] + [b, c, d] == [a, b, c, d];
    RunFirst(s, a, [b, c, d]);
    RunThree(Step(s, a).value, b, c, d);
  }

  lemma {:induction false} FramesAreQueued(s: State, c: nat, payloads: seq<seq<byte>>)
    requires Ready(s) && s.Registered(c) && |s.objs[c].queue| + |payloads| <= s.qlen
    requires Small(FramesOf(s.objs[c].id, payloads)) && s.arrived == Encode(FramesOf(s.objs[c].id, payloads))
    ensures Run(s, Rounds(|payloads|)) == Some(Queued(s, c, payloads).(arrived := []))
    decreases |payloads|
  {
    hide Encode, Bytes, Round, Small, Run, FramesOf, Queued, State.Valid;
    var id := s.objs[c].id;
    if payloads == [] {
      NothingToQueue(s, c);
    } else {
      var first, others := payloads[0], payloads[1..];
      SplitFirst(id, payloads);
      var bytes := Encode(FramesOf(id, others));
      var t := Queued(s, c, [first]).(arrived := bytes);
      FrameIsQueued(s, c, first, bytes);
      QueuedTwice(s, c, first, others, bytes);
      FramesAreQueued(t, c, others);
      RunConcat(s, Round(), Rounds(|others|));
      assert [first] + others == payloads;
    }
  }

  lemma QueuedTwice(s: State, c: nat, first: seq<byte>, others: seq<seq<byte>>, bytes: seq<byte>)
    requires Ready(s) && s.Registered(c) && |s.objs[c].queue| < s.qlen
    ensures var t := Queued(s, c, [first]).(arrived := bytes);
            Ready(t) && t.Registered(c) && t.qlen == s.qlen && |t.objs[c].queue| == |s.objs[c].queue| + 1 &&
            t.objs[c].id == s.objs[c].id && t.arrived == bytes &&
            Queued(t, c, others).(arrived := []) == Queued(s, c, [first] + others).(arrived := [])
  {
    assert s.objs[c].queue + [first] + others == s.objs[c].queue + ([first] + others);
  }

  lemma NothingToQueue(s: State, c: nat)
    requires s.Valid() && c < |s.objs| && s.arrived == Encode(FramesOf(s.objs[c].id, []))
    ensures Run(s, []) == Some(Queued(s, c, []).(arrived := []))
  {
    assert s.objs[c].queue + [] == s.objs[c].queue && s.objs[c := s.objs[c]] == s.objs;
  }

  lemma SplitFirst(id: ConnID, payloads: seq<seq<byte>>)
    requires payloads != [] && Small(FramesOf(id, payloads))
    ensures |payloads[0]| < 0x1_0000_0000 && Small(FramesOf(id, payloads[1..]))
    ensures Encode(FramesOf(id, payloads)) == Bytes(Frame(id, payloads[0])) + Encode(FramesOf(id, payloads[1..]))
  {
    var frames, others := FramesOf(id, payloads), FramesOf(id, payloads[1..]);
    assert frames == [Frame(id, payloads[0])] + others;
    assert frames[0] in frames && forall f :: f in others ==> f in frames;
    EncodeFirst(Frame(id, payloads[0]), others);
  }

  lemma BufferArrives(s: State, c: nat, buf: seq<byte>)
    requires Ready(s) && c < |s.objs| && s.arrived == [] && s.coming == []
    ensures var (id, bytes) := (s.objs[c].id, Encode(Written(s.objs[c].id, buf)));
            var (t, u) := (s.(coming := bytes), s.(arrived := bytes));
            Step(s, PeerWrite(id, buf)) == Some(t) && Step(t, Arrive(|bytes|)) == Some(u) && Ready(u) &&
            (u.Registered(c) <==> s.Registered(c))
  {
    hide Encode, Written;
    var bytes := Encode(Written(s.objs[c].id, buf));
    assert [] + bytes == bytes && bytes[..|bytes|] == bytes && bytes[|bytes|..] == [];
  }

  /**
    With an idle reader, an empty trunk and room in its queue, a connection gets what is written to its
    identifier, chunk by chunk and with no effect on anything else.
   */
  lemma BufferIsQueued(s: State, c: nat, buf: seq<byte>)
    requires Ready(s) && s.Registered(c) && s.arrived == [] && s.coming == []
    requires |s.objs[c].queue| + |Chunks(buf)| <= s.qlen
    ensures var n := |Encode(Written(s.objs[c].id, buf))|;
            Run(s, [PeerWrite(s.objs[c].id, buf), Arrive(n)] + Rounds(|Chunks(buf)|)) ==
            Some(s.(objs := s.objs[c := s.objs[c].(queue := s.objs[c].queue + Chunks(buf))]))
  {
    hide Chunks, Encode, Run, Rounds, Small, FramesOf, Step, State.Valid;
    ChunksPartition(buf);
    BufferArrives(s, c, buf);
    var id := s.objs[c].id;
    var bytes := Encode(Written(id, buf));
    var t := s.(coming := bytes);
    var u := s.(arrived := bytes);
    FramesAreQueued(u, c, Chunks(buf));
    var rounds := Rounds(|Chunks(buf)|);
    RunFirst(s, PeerWrite(id, buf), [Arrive(|bytes|)] + rounds);
    RunFirst(t, Arrive(|bytes|), rounds);
    assert [PeerWrite(id, buf)] + ([Arrive(|bytes|)] + rounds) == [PeerWrite(id, buf), Arrive(|bytes|)] + rounds;
  }
}
