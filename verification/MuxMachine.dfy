/**
  The multiplexer as a state machine over interleaved steps: opening, closing, reading and writing
  connections, the peer writing to the trunk, and the reader taking frames off it.
 */
module MuxMachine {
  import opened Prelude
  import opened Framing

  const RESERVED_CONN_ID: ConnID := 0

  datatype Err = EOF | NotQueued | HeaderNotRead | PayloadNotRead | HeaderNotWritten | PayloadNotWritten

  /** A connection object; taken is the history of what has been read from it. */
  datatype ConnState = ConnState(id: ConnID, queue: seq<seq<byte>>, closed: bool, taken: seq<seq<byte>>)

  /**
    Where the reader is: between frames; past the check that the multiplexer is open, waiting for a
    whole frame; with a frame in hand; with its payload and the connection looked up for it.
   */
  datatype Reader =
    | Idle
    | Reading
    | InHand(frame: Frame)
    | Holding(payload: seq<byte>, conn: Option<nat>)

  /**
    Connections are identified by the order of their creation: conns maps an identifier to the object
    registered for it. Of the bytes on the incoming trunk, some have arrived and some are on their way.
   */
  datatype State = State(
    conns: map<ConnID, nat>, objs: seq<ConnState>, qlen: nat,
    err: Option<Err>, closed: bool, blocked: bool,
    reader: Reader, arrived: seq<byte>, coming: seq<byte>, out: seq<byte>)
  {
    ghost predicate Valid() {
      (forall id :: id in conns ==> conns[id] < |objs| && objs[conns[id]].id == id) &&
      (reader.Holding? && reader.conn.Some? ==> reader.conn.value < |objs|) &&
      (forall c :: 0 <= c < |objs| ==> |objs[c].queue| <= qlen)
    }

    predicate Registered(c: nat) {
      c < |objs| && objs[c].id in conns && conns[objs[c].id] == c
    }

    function SetError(e: Err): (r: State)
      ensures Valid() ==> r.Valid()
    {
      if err == None then this.(err := Some(e)) else this
    }

    function CloseAll(): (r: State)
      ensures Valid() ==> r.Valid()
    {
      if closed then this
      else
        this.(closed := true,
        objs := seq(|objs|, c requires 0 <= c < |objs| => if Registered(c) then objs[c].(closed := true) else objs[c]))
    }

    function ShutDown(e: Err): (r: State)
      ensures Valid() ==> r.Valid()
    {
      SetError(e).CloseAll()
    }

    function With(c: nat, o: ConnState): (r: State)
      requires c < |objs|
      ensures Valid() && o.id == objs[c].id && |o.queue| <= qlen ==> r.Valid()
    {
      this.(objs := objs[c := o])
    }
  }

  function Initial(qlen: nat, blocked: bool): State {
    State(map[], [], qlen, None, false, blocked, Idle, [], [], [])
  }

  /** How the trunk stops being readable. */
  datatype TrunkEnd = PeerClosed | LocallyClosed | Broken

  datatype Event =
    | Open(id: ConnID)
    | CloseConn(conn: nat)
    | CloseMux
    | Unblock
    | PeerWrite(id: ConnID, buf: seq<byte>)
    | Arrive(n: nat)
    | Check
    | Take
    | Find
    | Queue
    | End(how: TrunkEnd)
    | Read(conn: nat, capacity: nat, done: bool)
    | Write(conn: nat, buf: seq<byte>, faults: seq<Option<nat>>)

  /** The error recorded when the trunk ends with an incomplete frame at hand. */
  function EndError(how: TrunkEnd, arrived: seq<byte>): Err {
    match how
    case LocallyClosed => EOF
    case Broken => if |arrived| < HEADER_LEN then HeaderNotRead else PayloadNotRead
    case PeerClosed =>
      if |arrived| == 0 || |arrived| == HEADER_LEN then EOF
      else if |arrived| < HEADER_LEN then HeaderNotRead
      else PayloadNotRead
  }

  /** Closing the multiplexer closes the trunk too, so nothing is read after that. */
  predicate CanRead(s: State) {
    s.reader.Reading? && !s.closed
  }

  /**
    What can end the reader's wait for a frame: the trunk was closed on this side, or ends in the middle of a
    frame.
   */
  predicate CanEnd(s: State, how: TrunkEnd) {
    s.reader.Reading? && (how == LocallyClosed || (!s.closed && ReadFrame(s.arrived) == None))
  }

  function OnOpen(s: State, id: ConnID): (r: State)
    ensures s.Valid() ==> r.Valid()
  {
    if id == RESERVED_CONN_ID || id in s.conns then s
    else s.(conns := s.conns[id := |s.objs|], objs := s.objs + [ConnState(id, [], false, [])])
  }

  function OnCloseConn(s: State, c: nat): (r: State)
    requires c < |s.objs|
    ensures s.Valid() ==> r.Valid()
  {
    var t := if s.Registered(c) then s.(conns := s.conns - {s.objs[c].id}) else s;
    t.With(c, t.objs[c].(closed := true))
  }

  function OnTake(s: State): (r: Option<State>)
    ensures s.Valid() && r.Some? ==> r.value.Valid()
  {
    match ReadFrame(s.arrived)
    case None => None
    case Some((f, rest)) => Some(s.(arrived := rest, reader := InHand(f)))
  }

  function OnFind(s: State): (r: State)
    requires s.reader.InHand?
    ensures s.Valid() ==> r.Valid()
  {
    s.(reader := Holding(s.reader.frame.payload, Lookup(s.conns, s.reader.frame.id)))
  }

  function OnQueue(s: State): (r: State)
    requires s.Valid() && s.reader.Holding?
    ensures r.Valid()
  {
    var t := s.(reader := Idle);
    if s.reader.conn == None then t
    else
      var c := s.reader.conn.value;
      if |s.objs[c].queue| < s.qlen then t.With(c, s.objs[c].(queue := s.objs[c].queue + [s.reader.payload]))
      else t.ShutDown(NotQueued)
  }

  /**
    Reading from a closed connection fails through the multiplexer; a queued payload is taken even if it does
    not fit.
   */
  function OnRead(s: State, c: nat, done: bool): (r: Option<State>)
    requires c < |s.objs|
    ensures s.Valid() && r.Some? ==> r.value.Valid()
  {
    var o := s.objs[c];
    if done then (if o.closed then Some(s.SetError(EOF)) else None)
    else if o.queue == [] then None
    else Some(s.With(c, o.(queue := o.queue[1..], taken := o.taken + [o.queue[0]])))
  }

  function OnWrite(s: State, c: nat, buf: seq<byte>, faults: seq<Option<nat>>): (r: State)
    requires c < |s.objs|
    ensures s.Valid() ==> r.Valid()
  {
    if s.objs[c].closed then s
    else
      var sent := SendAll(s.objs[c].id, buf, faults);
      var t := s.(out := s.out + sent.bytes);
      if !sent.fatal then t
      else t.ShutDown(if sent.fault == Some(HeaderFault) then HeaderNotWritten else PayloadNotWritten)
  }

  /** One atomic step; None if it is not enabled. */
  function Step(s: State, e: Event): (r: Option<State>)
    requires s.Valid()
    ensures r.Some? ==> r.value.Valid()
  {
    match e
    case Open(id) => Some(OnOpen(s, id))
    case CloseConn(c) => if c < |s.objs| then Some(OnCloseConn(s, c)) else None
    case CloseMux => Some(s.CloseAll())
    case Unblock => Some(s.(blocked := false))
    case PeerWrite(id, buf) => Some(s.(coming := s.coming + Encode(Written(id, buf))))
    case Arrive(n) =>
      if n <= |s.coming| then Some(s.(arrived := s.arrived + s.coming[..n], coming := s.coming[n..])) else None
    case Check => if s.reader.Idle? && !s.closed && !s.blocked then Some(s.(reader := Reading)) else None
    case Take => if CanRead(s) then OnTake(s) else None
    case Find => if s.reader.InHand? then Some(OnFind(s)) else None
    case Queue => if s.reader.Holding? then Some(OnQueue(s)) else None
    case End(how) =>
      if CanEnd(s, how) then Some(s.(reader := Idle).ShutDown(EndError(how, s.arrived))) else None
    case Read(c, capacity, done) => if c < |s.objs| then OnRead(s, c, done) else None
    case Write(c, buf, faults) => if c < |s.objs| then Some(OnWrite(s, c, buf, faults)) else None
  }

  function Run(s: State, events: seq<Event>): (r: Option<State>)
    requires s.Valid()
    ensures r.Some? ==> r.value.Valid()
  {
    if events == [] then Some(s)
    else
      match Run(s, events[..|events| - 1])
      case None => None
      case Some(t) => Step(t, events[|events| - 1])
  }
}
