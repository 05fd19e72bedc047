/** The multiplexer and its connections, updated in place; each method is one step of the state machine. */
module Mux {
  import opened Prelude
  import opened Framing
  import opened MuxMachine
  import opened MuxRuns

  method Copy(buf: array<byte>, len: nat, msg: seq<byte>)
    requires len <= buf.Length
    modifies buf
    ensures var k := if len < |msg| then len else |msg|; buf[..] == msg[..k] + old(buf[k..])
  {
    var k := if len < |msg| then len else |msg|;
    for i := 0 to k
      invariant forall j :: 0 <= j < i ==> buf[j] == msg[j]
      invariant forall j :: i <= j < buf.Length ==> buf[j] == old(buf[j])
    {
      buf[i] := msg[i];
    }
  }

  class Conn {
    const id: ConnID
    const mux: Mux
    var readC: seq<seq<byte>>
    var closed: bool
    /** The position among all connections ever created, and what has been read. */
    ghost const handle: nat
    ghost var taken: seq<seq<byte>>

    constructor (mux: Mux, id: ConnID, ghost handle: nat)
      ensures this.mux == mux && this.id == id && this.handle == handle
      ensures View() == ConnState(id, [], false, [])
    {
      this.mux := mux;
      this.id := id;
      this.handle := handle;
      readC := [];
      closed := false;
      taken := [];
    }

    ghost function View(): ConnState
      reads this
    {
      ConnState(id, readC, closed, taken)
    }

    ghost predicate Known()
      reads mux
    {
      handle < |mux.all| && mux.all[handle] == this
    }

    /**
      Reads into the first len bytes of buf. Which of the two ready cases of the select is taken, done
      or readC, is up to the scheduler. The capacity decides whether a payload fits, but the length how
      much is copied: all of it is at the caller's only if the length is large enough.
     */
    method Read(buf: array<byte>, len: nat, done: bool) returns (n: nat, r: ReadResult)
      requires Known() && mux.Valid() && len <= buf.Length
      requires if done then closed else readC != []
      modifies this`readC, this`taken, mux`err, mux`state, buf
      ensures mux.Valid() && Some(mux.state) == Step(old(mux.state), MuxMachine.Read(handle, buf.Length, done))
      ensures r == ReadResultOf(old(mux.state), handle, buf.Length, done)
      ensures done ==> readC == old(readC) && taken == old(taken) && n == 0 && buf[..] == old(buf[..]) &&
                       r == Failed(if old(mux.err) == None then EOF else old(mux.err).value)
      ensures !done ==>
                var m := old(readC)[0];
                readC == old(readC)[1..] && taken == old(taken) + [m] && mux.err == old(mux.err) &&
                if buf.Length < |m| then r == OutOfMemory && n == 0 && buf[..] == old(buf[..])
                else
                  var k := if len < |m| then len else |m|;
                  r == Got(m) && n == |m| && buf[..] == m[..k] + old(buf[..])[k..]
    {
      if done {
        var e := mux.Error();
        return 0, Failed(e);
      }
      var msg := Dequeue();
      if buf.Length < |msg| {
        return 0, OutOfMemory;
      }
      Copy(buf, len, msg);
      n, r := |msg|, Got(msg);
    }

    method Dequeue() returns (msg: seq<byte>)
      requires Known() && mux.Valid() && readC != []
      modifies this`readC, this`taken, mux`state
      ensures mux.Valid() && Some(mux.state) == OnRead(old(mux.state), handle, false)
      ensures msg == old(readC)[0] && readC == old(readC)[1..] && taken == old(taken) + [msg]
    {
      hide Registry;
      msg := readC[0];
      taken := taken + [readC[0]];
      readC := readC[1..];
      mux.state := OnRead(mux.state, handle, false).value;
    }

    /** Writes through the multiplexer; n is the length of buf, or 0 on failure. */
    method Write(buf: seq<byte>, faults: seq<Option<nat>>) returns (n: nat, err: Option<Err>)
      requires Known() && mux.Valid()
      modifies mux, mux.all
      ensures mux.Valid() && mux.all == old(mux.all) && mux.state == OnWrite(old(mux.state), handle, buf, faults)
      ensures err.Some? ==> n == 0
      ensures err == None <==> !old(closed) && NeverFails(buf, faults)
      ensures err == None ==> n == |buf| && mux.out == old(mux.out) + Encode(Written(id, buf)) &&
                              mux.closed == old(mux.closed)
      ensures old(closed) ==> err == Some(EOF) && mux.out == old(mux.out) && mux.closed == old(mux.closed)
      ensures forall i: nat :: !old(closed) && FailsFirst(buf, faults, i) ==>
                                 err == Some(if i % 2 == 0 then HeaderNotWritten else PayloadNotWritten) &&
                                 mux.closed == (old(mux.closed) || FaultAt(faults, i) != Some(0))
    {
      if closed {
        return 0, Some(EOF);
      }
      n, err := mux.Write(this, buf, faults);
    }

    method Close()
      requires Known() && mux.Valid()
      modifies mux`conns, mux`state, this`closed
      ensures mux.Valid() && mux.state == OnCloseConn(old(mux.state), handle)
    {
      CloseConnSteps(mux.state, handle);
      ghost var o := View();
      mux.Unregister(this);
      assert mux.state.objs[handle] == o;
      hide *;
      Finish();
    }

    method Finish()
      requires Known() && mux.Valid()
      modifies mux`state, this`closed
      ensures mux.Valid() && mux.state == old(mux.state).With(handle, old(mux.state).objs[handle].(closed := true))
    {
      hide Registry, State.Registered;
      MarkClosed();
      mux.state := mux.state.With(handle, View());
    }

    method MarkClosed()
      modifies `closed
      ensures closed
    {
      if !closed {
        closed := true;
      }
    }
  }

  lemma CloseConnSteps(s: State, c: nat)
    requires c < |s.objs|
    ensures var t := if s.Registered(c) then s.(conns := s.conns - {s.objs[c].id}) else s;
            OnCloseConn(s, c) == t.With(c, t.objs[c].(closed := true)) && t.objs == s.objs
  {
  }

  /** Connections are registered by their identifiers, and known by their handles. */
  ghost predicate Registry(conns: map<ConnID, Conn>, all: seq<Conn>, handles: map<ConnID, nat>) {
    handles.Keys == conns.Keys &&
    forall id :: id in conns ==> conns[id].id == id && handles[id] < |all| && conns[id] == all[handles[id]]
  }

  ghost predicate Objects(m: Mux, all: seq<Conn>, objs: seq<ConnState>)
    reads all
  {
    |objs| == |all| && forall i :: 0 <= i < |all| ==> all[i].handle == i && all[i].mux == m && objs[i] == all[i].View()
  }

  lemma RegistryKeys(conns: map<ConnID, Conn>, all: seq<Conn>, handles: map<ConnID, nat>)
    requires Registry(conns, all, handles)
    ensures handles.Keys == conns.Keys
  {
  }

  lemma RegistryGrows(conns: map<ConnID, Conn>, all: seq<Conn>, handles: map<ConnID, nat>, c: Conn)
    requires Registry(conns, all, handles)
    ensures Registry(conns[c.id := c], all + [c], handles[c.id := |all|])
  {
  }

  lemma RegistryShrinks(conns: map<ConnID, Conn>, all: seq<Conn>, handles: map<ConnID, nat>, id: ConnID)
    requires Registry(conns, all, handles)
    ensures Registry(conns - {id}, all, handles - {id})
  {
  }

  lemma ObjectsGrow(m: Mux, all: seq<Conn>, objs: seq<ConnState>, c: Conn)
    requires Objects(m, all, objs) && c.handle == |all| && c.mux == m
    ensures Objects(m, all + [c], objs + [c.View()])
  {
  }

  /** Where the reader is, with the connection object it has looked up. */
  datatype Position =
    | AtRest
    | Waiting
    | WithFrame(frame: Frame)
    | WithPayload(payload: seq<byte>, conn: Option<Conn>)
  {
    ghost function View(): MuxMachine.Reader {
      match this
      case AtRest => Idle
      case Waiting => Reading
      case WithFrame(f) => InHand(f)
      case WithPayload(payload, conn) => Holding(payload, if conn == None then None else Some(conn.value.handle))
    }
  }

  class Mux {
    var conns: map<ConnID, Conn>
    const qlen: nat
    var err: Option<Err>
    var closed: bool
    var blocked: bool
    var reader: Position
    var arrived: seq<byte>
    var out: seq<byte>
    /** All connections ever created, and the state they and the fields add up to. */
    ghost var all: seq<Conn>
    ghost var state: State

    constructor (qlen: nat, blocked: bool)
      ensures Valid() && state == Initial(qlen, blocked) && all == []
    {
      conns, all := map[], [];
      this.qlen := qlen;
      this.blocked := blocked;
      err, closed, reader := None, false, AtRest;
      arrived, out := [], [];
      state := Initial(qlen, blocked);
    }

    ghost predicate Valid()
      reads this, all
      ensures Valid() ==> state.Valid()
    {
      state.Valid() && Registry(conns, all, state.conns) && Objects(this, all, state.objs) &&
      state.qlen == qlen && state.err == err && state.closed == closed && state.blocked == blocked &&
      state.arrived == arrived && state.out == out &&
      state.reader == reader.View() &&
      (reader.WithPayload? && reader.conn.Some? ==> reader.conn.value.handle < |all| &&
                                                    all[reader.conn.value.handle] == reader.conn.value)
    }

    ghost predicate Has(c: Conn)
      reads `conns
    {
      c.id in conns && conns[c.id] == c
    }

    method Unblock()
      requires Valid()
      modifies `blocked, `state
      ensures Valid() && Some(state) == Step(old(state), MuxMachine.Unblock)
    {
      blocked := false;
      state := state.(blocked := false);
    }

    method SetError(e: Err)
      requires Valid()
      modifies `err, `state
      ensures Valid() && state == old(state).SetError(e)
    {
      if err == None {
        err := Some(e);
      }
      state := state.SetError(e);
    }

    method Error() returns (e: Err)
      requires Valid()
      modifies `err, `state
      ensures Valid() && state == old(state).SetError(EOF) && err == Some(e)
      ensures e == if old(err) == None then EOF else old(err).value
    {
      if err == None {
        err := Some(EOF);
      }
      e := err.value;
      state := state.SetError(EOF);
    }

    method Open(id: ConnID) returns (c: Option<Conn>)
      requires Valid()
      modifies `conns, `all, `state
      ensures Valid() && state == OnOpen(old(state), id) && old(all) <= all && fresh(all[|old(all)|..])
      ensures c.Some? <==> id != RESERVED_CONN_ID
      ensures c.Some? ==> id in conns && conns[id] == c.value
    {
      hide State.Valid, Registry, Objects;
      RegistryKeys(conns, all, state.conns);
      if id == RESERVED_CONN_ID {
        return None;
      }
      if id !in conns {
        Register(id);
      }
      c := Some(conns[id]);
    }

    method Register(id: ConnID)
      requires Valid() && id !in conns && id != RESERVED_CONN_ID
      modifies `conns, `all, `state
      ensures Valid() && state == OnOpen(old(state), id) && old(all) <= all && fresh(all[|old(all)|..]) && id in conns
    {
      hide State.Valid, Registry, Objects;
      RegistryKeys(conns, all, state.conns);
      var conn := new Conn(this, id, |all|);
      RegistryGrows(conns, all, state.conns, conn);
      ObjectsGrow(this, all, state.objs, conn);
      conns := conns[id := conn];
      all := all + [conn];
      state := OnOpen(state, id);
    }

    /** Forgets a connection, unless another one has been registered for its identifier since. */
    method Unregister(c: Conn)
      requires Valid() && c.handle < |all| && all[c.handle] == c
      modifies `conns, `state
      ensures Valid()
      ensures state == if old(state).Registered(c.handle) then old(state).(conns := old(state).conns - {c.id})
                       else old(state)
    {
      RegisteredIs(c.handle);
      RegistryShrinks(conns, all, state.conns, c.id);
      hide State.Registered, Objects, Registry;
      if c.id in conns && conns[c.id] == c {
        conns := conns - {c.id};
        state := state.(conns := state.conns - {c.id});
      }
    }

    lemma RegisteredIs(h: nat)
      requires Valid() && h < |all|
      ensures state.Registered(h) <==> Has(all[h])
    {
    }

    /** Closes everything that is registered; what is not registered any more stays as it is. */
    method Close()
      requires Valid()
      modifies `closed, `state, all`closed
      ensures Valid() && state == old(state).CloseAll() && closed
    {
      ghost var t := state.CloseAll();
      ClosedObjects();
      hide State.CloseAll, State.Valid, State.Registered, Registry, Objects;
      if closed {
        return;
      }
      CloseRegistered(t.objs);
      closed := true;
      state := t;
    }

    /** What the connections are once the registered ones are closed. */
    ghost predicate WithClosed(objs: seq<ConnState>)
      reads this, all
    {
      |objs| == |all| &&
      forall h :: 0 <= h < |all| ==> objs[h] == if Has(all[h]) then all[h].View().(closed := true) else all[h].View()
    }

    lemma ClosedObjects()
      requires Valid()
      ensures var t := state.CloseAll();
              if closed then t == state
              else t == state.(closed := true, objs := t.objs) && t.Valid() && WithClosed(t.objs)
    {
      if closed {
        return;
      }
      var t := state.CloseAll();
      forall h | 0 <= h < |all|
        ensures t.objs[h] == if Has(all[h]) then all[h].View().(closed := true) else all[h].View()
      {
        RegisteredIs(h);
      }
    }

    method CloseRegistered(ghost objs: seq<ConnState>)
      requires Registry(conns, all, state.conns) && Objects(this, all, state.objs) && WithClosed(objs)
      modifies all`closed
      ensures Objects(this, all, objs)
    {
      hide Registry, Has;
      CloseConns();
    }

    method CloseConns()
      requires Registry(conns, all, state.conns) && Objects(this, all, state.objs)
      modifies all`closed
      ensures forall h :: 0 <= h < |all| ==>
                            (all[h].closed <==> old(all[h].closed) || Has(all[h]))
    {
      var ids := conns.Keys;
      while ids != {}
        invariant ids <= conns.Keys
        invariant forall h :: 0 <= h < |all| ==>
                                (all[h].closed <==>
                                 old(all[h].closed) || (all[h].id in conns.Keys - ids && conns[all[h].id] == all[h]))
        decreases |ids|
      {
        var id :| id in ids;
        assert conns[id] in all;
        conns[id].MarkClosed();
        ids := ids - {id};
      }
    }

    method ShutDown(e: Err)
      requires Valid()
      modifies `err, `closed, `state, all`closed
      ensures Valid() && state == old(state).ShutDown(e) && closed
    {
      SetError(e);
      Close();
    }

    // ---------------------------------------------------------------- the reader

    /** An iteration begins by testing that the multiplexer is open. */
    method Check() returns (ok: bool)
      requires Valid() && reader == AtRest && !blocked
      modifies `reader, `state
      ensures Valid() && ok == !old(closed)
      ensures if ok then reader == Waiting && Some(state) == Step(old(state), MuxMachine.Check) else state == old(state)
    {
      if closed {
        return false;
      }
      reader, state := Waiting, state.(reader := Reading);
      ok := true;
    }

    /** A complete frame is taken off the trunk, unless that was closed while the reader waited. */
    method Take()
      requires Valid() && CanRead(state) && ReadFrame(arrived).Some?
      modifies `arrived, `reader, `state
      ensures Valid() && Some(state) == OnTake(old(state)) && reader.WithFrame? && |arrived| < |old(arrived)|
    {
      var (f, rest) := ReadFrame(arrived).value;
      state := OnTake(state).value;
      arrived, reader := rest, WithFrame(f);
    }

    /** Its connection is looked up, whether or not the multiplexer is still open. */
    method Find()
      requires Valid() && reader.WithFrame?
      modifies `reader, `state
      ensures Valid() && state == OnFind(old(state)) && reader.WithPayload?
    {
      var f := reader.frame;
      state := OnFind(state);
      reader := WithPayload(f.payload, if f.id in conns then Some(conns[f.id]) else None);
    }

    /** The payload is queued unless the queue is full. */
    method Queue()
      requires Valid() && reader.WithPayload?
      modifies this`reader, this`err, this`closed, this`state, all`closed, all`readC
      ensures Valid() && state == OnQueue(old(state)) && reader == AtRest
    {
      var (payload, conn) := (reader.payload, reader.conn);
      reader, state := AtRest, state.(reader := Idle);
      if conn.Some? {
        var c := conn.value;
        if |c.readC| < qlen {
          Enqueue(c, payload);
        } else {
          ShutDown(NotQueued);
        }
      }
    }

    /** The trunk ends while the reader waits. */
    method End(how: TrunkEnd)
      requires Valid() && CanEnd(state, how)
      modifies `reader, `err, `closed, `state, all`closed
      ensures Valid() && Some(state) == Step(old(state), MuxMachine.End(how)) && reader == AtRest && closed
    {
      hide Registry, Objects, ReadFrame, EndError, State.ShutDown;
      reader, state := AtRest, state.(reader := Idle);
      ShutDown(EndError(how, arrived));
    }

    method Enqueue(c: Conn, payload: seq<byte>)
      requires Valid() && c.handle < |all| && all[c.handle] == c && |c.readC| < qlen
      modifies `state, c`readC
      ensures Valid() &&
              state == old(state).With(c.handle, old(state).objs[c.handle].(queue := old(c.readC) + [payload]))
    {
      hide Registry;
      c.readC := c.readC + [payload];
      state := state.With(c.handle, c.View());
    }

    /** One iteration with no other step in between. */
    method Iterate(how: TrunkEnd) returns (ghost steps: seq<Event>)
      requires Valid() && !blocked && !closed && reader == AtRest
      modifies `arrived, `reader, `err, `closed, `state, all`closed, all`readC
      ensures Valid() && reader == AtRest
      ensures ReadFrame(old(arrived)) == None ==> closed && arrived == old(arrived) && steps == Ending(how)
      ensures ReadFrame(old(arrived)).Some? ==> |arrived| < |old(arrived)| && steps == Moving()
      ensures Run(old(state), steps) == Some(state)
    {
      ghost var before := state;
      ReaderSteps(before, how);
      hide Run, Registry, Objects, State.Valid, State.ShutDown, EndError, OnTake, OnFind, OnQueue;
      var _ := Check();
      if ReadFrame(arrived) == None {
        steps := Ending(how);
        End(how);
      } else {
        steps := Moving();
        Take();
        Find();
        Queue();
      }
    }

    /**
      The reader on its own: it works off what has arrived until the trunk ends or the multiplexer is
      shut down. The steps it takes are those of a run.
     */
    method Reader(how: TrunkEnd) returns (ghost events: seq<Event>)
      requires Valid() && !blocked && reader == AtRest
      modifies `arrived, `reader, `err, `closed, `state, all`closed, all`readC
      ensures Valid() && closed && reader == AtRest
      ensures Run(old(state), events) == Some(state)
      ensures forall e :: e in events ==> e in Moving() || e in Ending(how)
    {
      events := [];
      ghost var before := state;
      assert Run(before, events) == Some(state);
      hide *;
      while !closed
        invariant Valid() && reader == AtRest
        invariant Run(before, events) == Some(state)
        invariant forall e :: e in events ==> e in Moving() || e in Ending(how)
        decreases |arrived|, !closed
      {
        ghost var steps := Iterate(how);
        RunConcat(before, events, steps);
        events := events + steps;
      }
    }

    // ---------------------------------------------------------------- writing

    method Write(c: Conn, buf: seq<byte>, faults: seq<Option<nat>>) returns (n: nat, err: Option<Err>)
      requires Valid() && c.handle < |all| && all[c.handle] == c && !c.closed
      modifies `out, `err, `closed, `state, all`closed
      ensures Valid() && state == OnWrite(old(state), c.handle, buf, faults)
      ensures err.Some? ==> n == 0
      ensures err == None <==> NeverFails(buf, faults)
      ensures err == None ==> n == |buf| && out == old(out) + Encode(Written(c.id, buf)) && closed == old(closed)
      ensures forall i: nat :: FailsFirst(buf, faults, i) ==>
                                 err == Some(if i % 2 == 0 then HeaderNotWritten else PayloadNotWritten) &&
                                 closed == (old(closed) || FaultAt(faults, i) != Some(0))
    {
      hide SendAll, Chunks, Encode, Written, State.ShutDown, NeverFails, FailsFirst;
      var fatal;
      ChunksPartition(buf);
      FirstFailureDecides(c.id, buf, faults);
      n, err, fatal := WriteFrames(c.id, buf, faults);
      state := state.(out := out);
      if fatal {
        ShutDown(err.value);
      }
    }

    /** The frames go onto the trunk one by one until a write to the trunk fails. */
    method WriteFrames(id: ConnID, buf: seq<byte>, faults: seq<Option<nat>>)
      returns (n: nat, err: Option<Err>, fatal: bool)
      requires forall x :: x in Chunks(buf) ==> |x| < 0x1_0000_0000
      modifies `out
      ensures var sent := SendAll(id, buf, faults);
              out == old(out) + sent.bytes && fatal == sent.fatal && (fatal ==> err.Some?) &&
              (if sent.fault == None then n == |buf| && err == None && out == old(out) + Encode(Written(id, buf))
               else
                 n == 0 && err == Some(if sent.fault == Some(HeaderFault) then HeaderNotWritten else PayloadNotWritten))
    {
      hide Send, Header, Chunks, Encode, Written;
      var data, size, at := buf, |buf|, 0;
      ghost var sent, before := SendAll(id, buf, faults), out;
      ghost var done: seq<byte> := [];
      while true
        invariant out == before + done
        invariant size == |data| || (size == MAX_PAYLOAD_SIZE && size <= |data|)
        invariant forall x :: x in Chunks(data) ==> |x| < 0x1_0000_0000
        invariant var rest := Send(id, Chunks(data), faults, at); sent == rest.(bytes := done + rest.bytes)
        decreases |data|
      {
        if size > MAX_PAYLOAD_SIZE {
          size := MAX_PAYLOAD_SIZE;
        }
        SendFirst(id, data, faults, at);
        var header, fault := Header(id, size), FaultAt(faults, at);
        out := out + Accepted(header, fault);
        if fault.Some? {
          Associate(before, done, Accepted(header, fault), []);
          return 0, Some(HeaderNotWritten), fault.value != 0;
        }
        fault := FaultAt(faults, at + 1);
        out := out + Accepted(data[..size], fault);
        if fault.Some? {
          Associate(before, done, header, Accepted(data[..size], fault));
          return 0, Some(PayloadNotWritten), fault.value != 0;
        }
        Associate(before, done, header, data[..size]);
        if size < |data| {
          Associate(done, header, data[..size], Send(id, Chunks(data[size..]), faults, at + 2).bytes);
        }
        done := done + header + data[..size];
        at := at + 2;
        data := data[size..];
        if size > |data| {
          size := |data|;
        }
        if size == 0 {
          break;
        }
      }
      SentWritten(id, buf, faults);
      n, err, fatal := |buf|, None, false;
    }
  }

  lemma SentWritten(id: ConnID, buf: seq<byte>, faults: seq<Option<nat>>)
    requires forall x :: x in Chunks(buf) ==> |x| < 0x1_0000_0000
    requires SendAll(id, buf, faults).fault == None
    ensures SendAll(id, buf, faults).bytes == Encode(Written(id, buf))
  {
    SentWhole(id, Chunks(buf), faults, 0);
  }

  lemma Associate(a: seq<byte>, b: seq<byte>, c: seq<byte>, d: seq<byte>)
    ensures a + b + c + d == a + (b + c + d) == a + (b + (c + d)) && c + [] == c && a + b + c == a + (b + c)
  {
  }

  /** How sending a buffer begins: with a frame of as much as fits. */
  lemma SendFirst(id: ConnID, data: seq<byte>, faults: seq<Option<nat>>, at: nat)
    requires forall x :: x in Chunks(data) ==> |x| < 0x1_0000_0000
    ensures var size := if |data| > MAX_PAYLOAD_SIZE then MAX_PAYLOAD_SIZE else |data|;
            var (header, chunk) := (Header(id, size), data[..size]);
            (forall x :: size < |data| && x in Chunks(data[size..]) ==> |x| < 0x1_0000_0000) &&
            Send(id, Chunks(data), faults, at) ==
            if FaultAt(faults, at).Some? then
              Sent(Accepted(header, FaultAt(faults, at)), Some(HeaderFault), FaultAt(faults, at).value != 0)
            else if FaultAt(faults, at + 1).Some? then
              Sent(header + Accepted(chunk, FaultAt(faults, at + 1)), Some(PayloadFault),
                   FaultAt(faults, at + 1).value != 0)
            else if size == |data| then Sent(header + chunk, None, false)
            else
              var rest := Send(id, Chunks(data[size..]), faults, at + 2);
              rest.(bytes := header + chunk + rest.bytes)
  {
    hide Header, Accepted;
    var size := if |data| > MAX_PAYLOAD_SIZE then MAX_PAYLOAD_SIZE else |data|;
    if size == |data| {
      assert data[..size] == data && Chunks(data)[1..] == [];
      assert Header(id, size) + data + [] == Header(id, size) + data;
    } else {
      assert Chunks(data)[1..] == Chunks(data[size..]);
      assert forall x :: x in Chunks(data)[1..] ==> x in Chunks(data);
    }
  }

  /** The steps that move one frame from the trunk to a queue, and those that find the trunk ended. */
  function Moving(): seq<Event> {
    [MuxMachine.Check, MuxMachine.Take, MuxMachine.Find, MuxMachine.Queue]
  }

  function Ending(how: TrunkEnd): seq<Event> {
    [MuxMachine.Check, MuxMachine.End(how)]
  }

  lemma ReaderSteps(s: State, how: TrunkEnd)
    requires s.Valid() && s.reader == Idle && !s.closed && !s.blocked
    ensures var r := s.(reader := Reading);
            Step(s, MuxMachine.Check) == Some(r) && CanRead(r) &&
            if ReadFrame(s.arrived) == None then CanEnd(r, how) && Run(s, Ending(how)) == Step(r, MuxMachine.End(how))
            else
              var t := OnTake(r);
              t.Some? && t.value.reader.InHand? && OnFind(t.value).reader.Holding? &&
              Run(s, Moving()) == Some(OnQueue(OnFind(t.value)))
  {
    hide ReadFrame, EndError, OnQueue, State.ShutDown, Run;
    var r := s.(reader := Reading);
    RunFirst(s, MuxMachine.Check, Moving()[1..]);
    RunFirst(s, MuxMachine.Check, [MuxMachine.End(how)]);
    assert [MuxMachine.Check] + Moving()[1..] == Moving() && [MuxMachine.Check] + [MuxMachine.End(how)] == Ending(how);
    if ReadFrame(s.arrived) == None {
      RunFirst(r, MuxMachine.End(how), []);
      assert [MuxMachine.End(how)] + [] == [MuxMachine.End(how)];
      RunNone(Step(r, MuxMachine.End(how)).value);
    } else {
      var t := OnTake(r).value;
      FrameMoves(r, t, OnFind(t));
    }
  }

  lemma FrameMoves(r: State, t: State, u: State)
    requires r.Valid() && CanRead(r) && OnTake(r) == Some(t) && u == OnFind(t)
    ensures Run(r, Moving()[1..]) == Some(OnQueue(u))
  {
    hide ReadFrame, OnQueue, Run;
    RunFirst(r, MuxMachine.Take, Moving()[2..]);
    RunFirst(t, MuxMachine.Find, Moving()[3..]);
    RunFirst(u, MuxMachine.Queue, []);
    RunNone(OnQueue(u));
    assert [MuxMachine.Take] + Moving()[2..] == Moving()[1..] && [MuxMachine.Find] + Moving()[3..] == Moving()[2..];
    assert [MuxMachine.Queue] + [] == Moving()[3..];
  }
}
