/**
  Registration of external plugins against requests in flight. The runtime blocks plugin
  synchronization while it makes a change and relays it to the plugins; a connecting plugin is
  synchronized and joins under the write side of the same lock. The steps of all parties interleave.
 */
module Registration {
  import opened Prelude

  type Plugin = nat
  type Handle = nat
  type Change = nat

  /** Where the goroutine that accepts plugins is; snapshot is what the plugin was synchronized with. */
  datatype Acceptor =
    | Idle
    | Connected(plugin: Plugin)
    | Waiting(plugin: Plugin)
    | Syncing(plugin: Plugin)
    | Synced(plugin: Plugin, snapshot: set<Change>)
    | Joining(plugin: Plugin, snapshot: set<Change>)
    | Finishing

  /** The lock of the adaptation: free, held by a request being relayed to the plugins in todo, or by the acceptor. */
  datatype Lock = Free | Relaying(change: Change, todo: seq<Plugin>) | ByAcceptor

  /**
    The sync lock is readers and writer; held are the blocks in place. The rest is history: the
    plugins that were registered when a block was put in place, the block a change is made under, the
    plugins a change is relayed to and those it has reached, and what each plugin was synchronized with.
   */
  datatype State = State(
    readers: nat, writer: bool, held: set<Handle>,
    acceptor: Acceptor, lock: Lock, plugins: seq<Plugin>, world: set<Change>,
    known: set<Plugin>, base: map<Handle, set<Plugin>>, under: map<Change, Handle>,
    targets: map<Change, set<Plugin>>, reached: set<(Change, Plugin)>, relayed: set<Change>,
    snapshots: map<Plugin, set<Change>>)

  function Members(plugins: seq<Plugin>): set<Plugin> {
    set p | p in plugins
  }

  /** The pre-installed plugins have been synchronized before anything else happens. */
  function Initial(plugins: seq<Plugin>, world: set<Change>): State {
    State(0, false, {}, Idle, Free, plugins, world, Members(plugins), map[], map[], map[], {}, {},
          map p | p in plugins :: world)
  }

  function Without(plugins: seq<Plugin>, gone: set<Plugin>): (r: seq<Plugin>)
    ensures Members(r) == Members(plugins) - gone
  {
    if plugins == [] then []
    else
      var (front, last) := (plugins[..|plugins| - 1], plugins[|plugins| - 1]);
      assert plugins == front + [last] && Members(plugins) == Members(front) + {last};
      var r := Without(front, gone);
      assert Members(r + [last]) == Members(r) + {last};
      if last in gone then r else r + [last]
  }

  datatype Event =
    | Connect(plugin: Plugin)
    | RequestSync
    | LockSync
    | Snapshot
    | SyncFails
    | LockJoin
    | Join(at: nat)
    | FinishSync
    | Block(handle: Handle)
    | Unblock(handle: Handle)
    | Relay(change: Change, handle: Handle)
    | RelayNext
    | EndRelay(gone: set<Plugin>)
    | AbortRelay(gone: set<Plugin>)
    | Commit(change: Change, handle: Handle)
    | OtherRequest(gone: set<Plugin>)

  /** A change is made under one block that is in place. */
  predicate Under(s: State, c: Change, h: Handle) {
    h in s.held && if c in s.under then s.under[c] == h else c !in s.world
  }

  /** The steps of the accepting goroutine. */
  function Accept(s: State, e: Event): Option<State> {
    match (e, s.acceptor)
    case (Connect(p), Idle) =>
      if p in s.known then None else Some(s.(acceptor := Connected(p), known := s.known + {p}))
    case (RequestSync, Connected(p)) => Some(s.(acceptor := Waiting(p)))
    case (LockSync, Waiting(p)) =>
      if s.readers == 0 && !s.writer then Some(s.(acceptor := Syncing(p), writer := true)) else None
    case (Snapshot, Syncing(p)) => Some(s.(acceptor := Synced(p, s.world)))
    case (SyncFails, Syncing(p)) => Some(s.(acceptor := Finishing))
    case (SyncFails, Synced(p, _)) => Some(s.(acceptor := Finishing))
    case (LockJoin, Synced(p, snapshot)) =>
      if s.lock == Free then Some(s.(acceptor := Joining(p, snapshot), lock := ByAcceptor)) else None
    case (Join(at), Joining(p, snapshot)) =>
      if at > |s.plugins| then None
      else Some(s.(acceptor := Finishing, lock := Free, plugins := s.plugins[..at] + [p] + s.plugins[at..],
                snapshots := s.snapshots[p := snapshot]))
    case (FinishSync, Finishing) => Some(s.(acceptor := Idle, writer := false))
    case _ => None
  }

  /** The steps of the runtime; a waiting acceptor keeps new blocks out. */
  function Serve(s: State, e: Event): Option<State> {
    match e
    case Block(h) =>
      if s.writer || s.acceptor.Waiting? || h in s.base then None
      else Some(s.(readers := s.readers + 1, held := s.held + {h}, base := s.base[h := Members(s.plugins)]))
    case Unblock(h) =>
      if h !in s.base then None
      else if h !in s.held then Some(s)
      else if s.readers == 0 then None
      else Some(s.(readers := s.readers - 1, held := s.held - {h}))
    case Relay(c, h) =>
      if !Under(s, c, h) || s.lock != Free || c in s.targets then None
      else Some(s.(lock := Relaying(c, s.plugins), under := s.under[c := h],
                targets := s.targets[c := Members(s.plugins)]))
    case RelayNext =>
      if s.lock.Relaying? && s.lock.todo != [] then
        Some(s.(lock := Relaying(s.lock.change, s.lock.todo[1..]),
             reached := s.reached + {(s.lock.change, s.lock.todo[0])}))
      else None
    case EndRelay(gone) =>
      if s.lock.Relaying? && s.lock.todo == [] then
        Some(s.(lock := Free, plugins := Without(s.plugins, gone), relayed := s.relayed + {s.lock.change}))
      else None
    case AbortRelay(gone) =>
      if s.lock.Relaying? then Some(s.(lock := Free, plugins := Without(s.plugins, gone))) else None
    case Commit(c, h) =>
      if !Under(s, c, h) || c in s.world then None
      else Some(s.(world := s.world + {c}, under := s.under[c := h]))
    case OtherRequest(gone) => if s.lock == Free then Some(s.(plugins := Without(s.plugins, gone))) else None
    case _ => None
  }

  function Step(s: State, e: Event): Option<State> {
    if Accept(s, e).Some? then Accept(s, e) else Serve(s, e)
  }

  function Run(s: State, events: seq<Event>): Option<State> {
    if events == [] then Some(s)
    else
      match Run(s, events[..|events| - 1])
      case None => None
      case Some(t) => Step(t, events[|events| - 1])
  }

  // ---------------------------------------------------------------- the invariant

  /** The lock is used as a lock: the reader count is the number of blocks in place, and they exclude the writer. */
  ghost predicate Locking(s: State) {
    s.readers == |s.held| && s.held <= s.base.Keys && (s.writer ==> s.held == {}) &&
    (s.writer <==> s.acceptor.Syncing? || s.acceptor.Synced? || s.acceptor.Joining? || s.acceptor.Finishing?) &&
    (s.acceptor.Joining? <==> s.lock == ByAcceptor)
  }

  ghost predicate IsNew(s: State, p: Plugin) {
    p in s.known && p !in s.plugins && p !in s.snapshots && forall h :: h in s.base ==> p !in s.base[h]
  }

  /** What the accepting goroutine holds is up to date, and the plugin it deals with is new to all blocks. */
  ghost predicate Accepting(s: State) {
    (s.acceptor.Synced? || s.acceptor.Joining? ==> s.acceptor.snapshot == s.world) &&
    (s.acceptor != Idle && s.acceptor != Finishing ==> IsNew(s, s.acceptor.plugin)) &&
    (forall p :: p in s.plugins ==> p in s.known && p in s.snapshots) && s.snapshots.Keys <= s.known &&
    (forall p :: p in s.snapshots ==> s.snapshots[p] <= s.world) &&
    (forall h :: h in s.base ==> s.base[h] <= s.known)
  }

  /** No plugin has joined since a block that is in place was put there. */
  ghost predicate Blocking(s: State) {
    forall h, p :: h in s.held && h in s.base && p in s.plugins ==> p in s.base[h]
  }

  /** A plugin was synchronized with the changes made under earlier blocks, and with none of later ones. */
  ghost predicate Accounting(s: State) {
    (forall c :: c in s.under ==> s.under[c] in s.base) &&
    (forall c, p :: c in s.under && s.under[c] in s.base && p in s.plugins && p in s.snapshots ==>
                      (if p in s.base[s.under[c]] then c !in s.snapshots[p]
                       else (c in s.world <==> c in s.snapshots[p])))
  }

  /** A change is relayed to the plugins from before its block, less those that have gone. */
  ghost predicate Targeting(s: State) {
    s.targets.Keys <= s.under.Keys &&
    (forall c :: c in s.targets && c in s.under && s.under[c] in s.base ==> s.targets[c] <= s.base[s.under[c]]) &&
    (forall c, p :: c in s.targets && c in s.under && s.under[c] in s.base && p in s.plugins &&
                    p in s.base[s.under[c]] ==>
                      p in s.targets[c])
  }

  ghost predicate OnTheWay(s: State, c: Change, todo: seq<Plugin>)
    requires c in s.targets
  {
    (forall p :: p in todo ==> p in s.targets[c]) &&
    (forall p :: p in s.targets[c] ==> p in todo || (c, p) in s.reached)
  }

  /** A relayed change has reached its targets and no one else. */
  ghost predicate Reaching(s: State) {
    (forall c, p :: (c, p) in s.reached ==> c in s.targets && p in s.targets[c]) &&
    (s.lock.Relaying? ==> s.lock.change in s.targets && OnTheWay(s, s.lock.change, s.lock.todo)) &&
    (forall c, p :: c in s.relayed && c in s.targets && p in s.targets[c] ==> (c, p) in s.reached) &&
    s.relayed <= s.targets.Keys
  }

  ghost predicate Inv(s: State) {
    Locking(s) && Accepting(s) && Blocking(s) && Accounting(s) && Targeting(s) && Reaching(s)
  }

  lemma InitialInv(plugins: seq<Plugin>, world: set<Change>)
    ensures Inv(Initial(plugins, world))
  {
  }

  /** Plugins are only ever removed from the list, but for the one that joins. */
  lemma ListStep(s: State, e: Event)
    requires Step(s, e).Some?
    ensures forall p :: p in Step(s, e).value.plugins ==>
                          p in s.plugins || (e.Join? && s.acceptor.Joining? && p == s.acceptor.plugin)
  {
    var t := Step(s, e).value;
    forall p | p in t.plugins
      ensures p in s.plugins || (e.Join? && s.acceptor.Joining? && p == s.acceptor.plugin)
    {
      if e.EndRelay? || e.AbortRelay? || e.OtherRequest? {
        assert p in Members(Without(s.plugins, e.gone));
      }
    }
  }

  lemma LockingStep(s: State, e: Event)
    requires Inv(s) && Step(s, e).Some?
    ensures Locking(Step(s, e).value)
  {
    hide Accepting, Blocking, Accounting, Targeting, Reaching, Without, Members;
  }

  lemma AcceptingStep(s: State, e: Event)
    requires Inv(s) && Step(s, e).Some?
    ensures Accepting(Step(s, e).value)
  {
    hide Blocking, Accounting, Targeting, Reaching;
    ListStep(s, e);
  }

  lemma BlockingStep(s: State, e: Event)
    requires Inv(s) && Step(s, e).Some?
    ensures Blocking(Step(s, e).value)
  {
    hide Accounting, Targeting, Reaching;
    ListStep(s, e);
  }

  lemma AccountingStep(s: State, e: Event)
    requires Inv(s) && Step(s, e).Some?
    ensures Accounting(Step(s, e).value)
  {
    hide Targeting, Reaching, Accounting, Without, Members, Blocking, Accepting, Locking;
    ListStep(s, e);
    if Accept(s, e).Some? {
      AcceptAccounts(s, e);
    } else {
      ServeAccounts(s, e);
    }
  }

  lemma AcceptAccounts(s: State, e: Event)
    requires Inv(s) && Accept(s, e).Some?
    ensures Accounting(Accept(s, e).value)
  {
    hide Targeting, Reaching, Members, Blocking, Serve;
    ListStep(s, e);
  }

  lemma ServeAccounts(s: State, e: Event)
    requires Inv(s) && Accept(s, e).None? && Serve(s, e).Some?
    ensures Accounting(Serve(s, e).value)
  {
    hide Targeting, Reaching, Without, Members, Accept;
    ListStep(s, e);
  }

  lemma TargetingStep(s: State, e: Event)
    requires Inv(s) && Step(s, e).Some?
    ensures Targeting(Step(s, e).value)
  {
    ListStep(s, e);
    hide Reaching, Without;
  }

  lemma ReachingStep(s: State, e: Event)
    requires Inv(s) && Step(s, e).Some?
    ensures Reaching(Step(s, e).value)
  {
    hide Accounting, Targeting, Blocking, Reaching, Locking, Accepting;
    if Accept(s, e).Some? {
      AcceptReaches(s, e);
    } else {
      ServeReaches(s, e);
    }
  }

  lemma AcceptReaches(s: State, e: Event)
    requires Reaching(s) && Accept(s, e).Some?
    ensures Reaching(Accept(s, e).value)
  {
    hide Serve;
  }

  lemma ServeReaches(s: State, e: Event)
    requires Inv(s) && Accept(s, e).None? && Serve(s, e).Some?
    ensures Reaching(Serve(s, e).value)
  {
    hide Accounting, Targeting, Blocking, Accept, Locking, Accepting, Without;
  }

  lemma StepInv(s: State, e: Event)
    requires Inv(s) && Step(s, e).Some?
    ensures Inv(Step(s, e).value)
  {
    LockingStep(s, e);
    AcceptingStep(s, e);
    BlockingStep(s, e);
    AccountingStep(s, e);
    TargetingStep(s, e);
    ReachingStep(s, e);
  }

  /** The invariant holds in every state that any interleaving leads to. */
  lemma {:induction false} RunInv(s: State, events: seq<Event>)
    requires Inv(s) && Run(s, events).Some?
    ensures Inv(Run(s, events).value)
    decreases |events|
  {
    hide Inv, Step;
    if events != [] {
      RunInv(s, events[..|events| - 1]);
      StepInv(Run(s, events[..|events| - 1]).value, events[|events| - 1]);
    }
  }

  // ---------------------------------------------------------------- what follows

  /** No plugin joins, or is synchronized, while a block is in place. */
  lemma NoJoinUnderBlock(plugins: seq<Plugin>, world: set<Change>, events: seq<Event>, e: Event)
    requires var s := Run(Initial(plugins, world), events); s.Some? && Step(s.value, e).Some?
    ensures var s := Run(Initial(plugins, world), events).value;
            (s.held != {} && (e.Join? || e.Snapshot? || e.LockSync?) ==> Accept(s, e) == None) &&
            (forall p :: p in Step(s, e).value.plugins && p !in s.plugins ==>
                           s.held == {} && Step(s, e).value.held == {})
  {
    InitialInv(plugins, world);
    RunInv(Initial(plugins, world), events);
    ListStep(Run(Initial(plugins, world), events).value, e);
  }

  /**
    A change made under one block, committed and relayed to the end: every plugin that is registered
    was either synchronized with the change or told of it, and never both.
   */
  lemma SeenExactlyOnce(plugins: seq<Plugin>, world: set<Change>, events: seq<Event>, c: Change, p: Plugin)
    requires Run(Initial(plugins, world), events).Some?
    requires var s := Run(Initial(plugins, world), events).value;
             c in s.world && c in s.relayed && p in s.plugins
    ensures var s := Run(Initial(plugins, world), events).value;
            p in s.snapshots && (c in s.snapshots[p] <==> (c, p) !in s.reached)
  {
    InitialInv(plugins, world);
    RunInv(Initial(plugins, world), events);
    var s := Run(Initial(plugins, world), events).value;
    assert c in s.targets && c in s.under;
  }

  /** A change that is relayed but then not committed, or committed but relayed to no one, is seen at most once. */
  lemma SeenAtMostOnce(plugins: seq<Plugin>, world: set<Change>, events: seq<Event>, c: Change, p: Plugin)
    requires Run(Initial(plugins, world), events).Some? && p in Run(Initial(plugins, world), events).value.plugins
    ensures var s := Run(Initial(plugins, world), events).value;
            p in s.snapshots && !(c in s.snapshots[p] && (c, p) in s.reached)
  {
    InitialInv(plugins, world);
    RunInv(Initial(plugins, world), events);
  }

  /** A block is released once: releasing it again changes nothing, and the lock never runs out of readers. */
  lemma ReleasedOnce(plugins: seq<Plugin>, world: set<Change>, events: seq<Event>, h: Handle)
    requires Run(Initial(plugins, world), events).Some? && h in Run(Initial(plugins, world), events).value.base
    ensures var s := Run(Initial(plugins, world), events).value;
            s.readers == |s.held| && Step(s, Unblock(h)).Some? &&
            var t := Step(s, Unblock(h)).value;
            h !in t.held && t.held == s.held - {h} && Step(t, Unblock(h)) == Some(t)
  {
    InitialInv(plugins, world);
    RunInv(Initial(plugins, world), events);
    var s := Run(Initial(plugins, world), events).value;
    if h in s.held {
      assert |s.held| > 0;
    } else {
      assert s.held - {h} == s.held;
    }
  }

  // ---------------------------------------------------------------- who is registered

  /** The plugins found closed when a request is over. */
  function Gone(e: Event): set<Plugin> {
    match e
    case EndRelay(gone) => gone
    case AbortRelay(gone) => gone
    case OtherRequest(gone) => gone
    case _ => {}
  }

  predicate Joins(s: State, e: Event, p: Plugin) {
    e.Join? && s.acceptor.Joining? && s.acceptor.plugin == p
  }

  /** A step registers the plugin that joins, drops those that are gone, and no other. */
  lemma PluginsStep(s: State, e: Event, p: Plugin)
    requires Step(s, e).Some?
    ensures p in Step(s, e).value.plugins <==> (p in s.plugins && p !in Gone(e)) || Joins(s, e, p)
  {
    var t := Step(s, e).value;
    assert p in t.plugins <==> p in Members(t.plugins);
    assert p in s.plugins <==> p in Members(s.plugins);
    if e.Join? {
      assert s.plugins == s.plugins[..e.at] + s.plugins[e.at..];
    }
  }

  /** The plugin was there at first or joined in the i-th step, and has not gone since. */
  ghost predicate RegisteredSince(start: State, events: seq<Event>, i: nat, p: Plugin) {
    i <= |events| &&
    (if i == 0 then p in start.plugins
     else Run(start, events[..i - 1]).Some? && Joins(Run(start, events[..i - 1]).value, events[i - 1], p)) &&
    forall j :: i <= j < |events| ==> p !in Gone(events[j])
  }

  lemma RegisteredLater(start: State, front: seq<Event>, e: Event, i: nat, p: Plugin)
    requires i <= |front|
    ensures RegisteredSince(start, front + [e], i, p) <==> RegisteredSince(start, front, i, p) && p !in Gone(e)
  {
    var events := front + [e];
    assert forall k :: 0 <= k <= |front| ==> events[..k] == front[..k];
    assert events[|front|] == e && forall j :: 0 <= j < |front| ==> events[j] == front[j];
  }

  /** In every run the registered plugins are exactly those that joined, or were there, and have not gone since. */
  lemma {:induction false} RegisteredIff(start: State, events: seq<Event>, p: Plugin)
    requires Run(start, events).Some?
    ensures p in Run(start, events).value.plugins <==> exists i: nat :: RegisteredSince(start, events, i, p)
    decreases |events|
  {
    if events == [] {
      assert p in start.plugins ==> RegisteredSince(start, events, 0, p);
    } else {
      hide Step, Joins, Gone;
      var front, e := events[..|events| - 1], events[|events| - 1];
      assert events == front + [e];
      var s := Run(start, front).value;
      RegisteredIff(start, front, p);
      PluginsStep(s, e, p);
      assert events[..|events| - 1] == front;
      assert Joins(s, e, p) <==> RegisteredSince(start, events, |events|, p);
      forall i: nat | i <= |front|
        ensures RegisteredSince(start, events, i, p) <==> RegisteredSince(start, front, i, p) && p !in Gone(e)
      {
        RegisteredLater(start, front, e, i, p);
      }
    }
  }

  /** Whatever has happened before: if no request is in the way, a plugin that connects gets registered. */
  lemma ConnectingRegisters(plugins: seq<Plugin>, world: set<Change>, events: seq<Event>, p: Plugin, at: nat)
    requires Run(Initial(plugins, world), events).Some?
    requires var s := Run(Initial(plugins, world), events).value;
             s.acceptor == Idle && s.lock == Free && s.held == {} && p !in s.known && at <= |s.plugins|
    ensures var s := Run(Initial(plugins, world), events).value;
            var t := Run(Initial(plugins, world),
                         events + [Connect(p), RequestSync, LockSync, Snapshot, LockJoin, Join(at), FinishSync]);
            t.Some? && t.value.plugins == s.plugins[..at] + [p] + s.plugins[at..] &&
            t.value.snapshots == s.snapshots[p := s.world] && t.value.acceptor == Idle && t.value.lock == Free &&
            !t.value.writer
  {
    hide Step, Initial, Run, Accepting, Blocking, Accounting, Targeting, Reaching;
    InitialInv(plugins, world);
    RunInv(Initial(plugins, world), events);
    var start := Initial(plugins, world);
    var e1 := events + [Connect(p)];
    var e2 := e1 + [RequestSync];
    var e3 := e2 + [LockSync];
    var e4 := e3 + [Snapshot];
    var e5 := e4 + [LockJoin];
    var e6 := e5 + [Join(at)];
    var u := Synchronizes(Run(start, events).value, p);
    var t := Enters(u, p, at);
    RunSnoc(start, events, Connect(p));
    RunSnoc(start, e1, RequestSync);
    RunSnoc(start, e2, LockSync);
    RunSnoc(start, e3, Snapshot);
    RunSnoc(start, e4, LockJoin);
    RunSnoc(start, e5, Join(at));
    RunSnoc(start, e6, FinishSync);
    assert e6 + [FinishSync] ==
           events + [Connect(p), RequestSync, LockSync, Snapshot, LockJoin, Join(at), FinishSync];
  }

  /** Without a block in place the connected plugin is synchronized with the world as it is. */
  lemma Synchronizes(s: State, p: Plugin) returns (u: State)
    requires Locking(s) && s.acceptor == Idle && s.held == {} && p !in s.known
    ensures u == s.(acceptor := Synced(p, s.world), known := s.known + {p}, writer := true)
    ensures var s1 := Step(s, Connect(p));
            s1.Some? && var s2 := Step(s1.value, RequestSync);
                     s2.Some? && var s3 := Step(s2.value, LockSync);
                              s3.Some? && Step(s3.value, Snapshot) == Some(u)
  {
    u := s.(acceptor := Synced(p, s.world), known := s.known + {p}, writer := true);
  }

  lemma Enters(u: State, p: Plugin, at: nat) returns (t: State)
    requires u.acceptor.Synced? && u.acceptor.plugin == p && u.lock == Free && at <= |u.plugins|
    ensures t == u.(acceptor := Idle, writer := false, plugins := u.plugins[..at] + [p] + u.plugins[at..],
                 snapshots := u.snapshots[p := u.acceptor.snapshot])
    ensures var s5 := Step(u, LockJoin);
            s5.Some? && var s6 := Step(s5.value, Join(at));
                     s6.Some? && Step(s6.value, FinishSync) == Some(t)
  {
    t := u.(acceptor := Idle, writer := false, plugins := u.plugins[..at] + [p] + u.plugins[at..],
    snapshots := u.snapshots[p := u.acceptor.snapshot]);
  }

  lemma RunSnoc(start: State, events: seq<Event>, e: Event)
    requires Run(start, events).Some?
    ensures Run(start, events + [e]) == Step(Run(start, events).value, e)
  {
    hide Step;
    assert (events + [e])[..|events|] == events;
  }

  // ---------------------------------------------------------------- a change in full

  function ToEach(n: nat): seq<Event> {
    seq(n, _ => RelayNext)
  }

  lemma {:induction false} RelaysToAll(s: State, events: seq<Event>, n: nat)
    requires Run(s, events).Some? && Run(s, events).value.lock.Relaying? && n <= |Run(s, events).value.lock.todo|
    ensures var (u, t) := (Run(s, events).value, Run(s, events + ToEach(n)));
            t.Some? && t.value == u.(lock := Relaying(u.lock.change, u.lock.todo[n..]), reached := t.value.reached) &&
            t.value.reached == u.reached + (set p | p in u.lock.todo[..n] :: (u.lock.change, p))
  {
    hide Step;
    var u := Run(s, events).value;
    if n == 0 {
      assert events + ToEach(n) == events;
    } else {
      RelaysToAll(s, events, n - 1);
      RelaysToNext(Run(s, events + ToEach(n - 1)).value);
      assert events + ToEach(n) == events + ToEach(n - 1) + [RelayNext];
      RunSnoc(s, events + ToEach(n - 1), RelayNext);
      assert u.lock.todo[..n] == u.lock.todo[..n - 1] + [u.lock.todo[n - 1]];
      assert u.lock.todo[n - 1..][1..] == u.lock.todo[n..];
    }
  }

  lemma RelaysToNext(s: State)
    requires s.lock.Relaying? && s.lock.todo != []
    ensures Step(s, RelayNext) ==
            Some(s.(lock := Relaying(s.lock.change, s.lock.todo[1..]),
                 reached := s.reached + {(s.lock.change, s.lock.todo[0])}))
  {
  }

  /**
    Whatever has happened before: a new change can be made under a new block, unless a plugin is waiting
    to be synchronized or being synchronized, and it is relayed to every plugin.
   */
  lemma ChangeIsMade(plugins: seq<Plugin>, world: set<Change>, events: seq<Event>, h: Handle, c: Change)
    requires Run(Initial(plugins, world), events).Some?
    requires var s := Run(Initial(plugins, world), events).value;
             !s.writer && !s.acceptor.Waiting? && s.lock == Free && h !in s.base && c !in s.under && c !in s.world
    ensures var s := Run(Initial(plugins, world), events).value;
            var t := Run(Initial(plugins, world), events + [Block(h), Relay(c, h)] + ToEach(|s.plugins|) +
                         [EndRelay({}), Commit(c, h), Unblock(h)]);
            t.Some? && Members(t.value.plugins) == Members(s.plugins) && t.value.world == s.world + {c} &&
            t.value.held == s.held && t.value.lock == Free && c in t.value.relayed &&
            forall p :: p in s.plugins ==> (c, p) in t.value.reached
  {
    hide Step, Initial, Run, Locking, Accepting, Blocking, Accounting, Targeting, Reaching;
    InitialInv(plugins, world);
    RunInv(Initial(plugins, world), events);
    var start := Initial(plugins, world);
    var s := Run(start, events).value;
    var u := Begins(s, h, c);
    var e2 := events + [Block(h)] + [Relay(c, h)];
    var e3 := e2 + ToEach(|s.plugins|);
    RunSnoc(start, events, Block(h));
    RunSnoc(start, events + [Block(h)], Relay(c, h));
    RelaysToAll(start, e2, |s.plugins|);
    var v := Run(start, e3).value;
    var t := Ends(v, h, c);
    RunSnoc(start, e3, EndRelay({}));
    RunSnoc(start, e3 + [EndRelay({})], Commit(c, h));
    RunSnoc(start, e3 + [EndRelay({})] + [Commit(c, h)], Unblock(h));
    assert s.plugins[..|s.plugins|] == s.plugins && s.plugins[|s.plugins|..] == [];
    assert e3 + [EndRelay({})] + [Commit(c, h)] + [Unblock(h)] ==
           events + [Block(h), Relay(c, h)] + ToEach(|s.plugins|) + [EndRelay({}), Commit(c, h), Unblock(h)];
  }

  lemma Begins(s: State, h: Handle, c: Change) returns (u: State)
    requires Inv(s) && !s.writer && !s.acceptor.Waiting? && s.lock == Free && h !in s.base
    requires c !in s.under && c !in s.world
    ensures var s1 := Step(s, Block(h));
            s1.Some? && Step(s1.value, Relay(c, h)) == Some(u)
    ensures u == s.(readers := s.readers + 1, held := s.held + {h}, base := u.base, lock := Relaying(c, s.plugins),
                 under := s.under[c := h], targets := u.targets)
    ensures h in u.base && h !in s.held
  {
    hide Accepting, Blocking, Accounting, Reaching;
    u := Step(Step(s, Block(h)).value, Relay(c, h)).value;
  }

  lemma Ends(v: State, h: Handle, c: Change) returns (t: State)
    requires v.lock == Relaying(c, []) && h in v.base && h in v.held && v.readers > 0
    requires c in v.under && v.under[c] == h && c !in v.world
    ensures var s1 := Step(v, EndRelay({}));
            s1.Some? && var s2 := Step(s1.value, Commit(c, h));
                     s2.Some? && Step(s2.value, Unblock(h)) == Some(t)
    ensures Members(t.plugins) == Members(v.plugins) && t.world == v.world + {c} && t.held == v.held - {h} &&
            t.lock == Free && t.reached == v.reached && t.relayed == v.relayed + {c}
  {
    t := Step(Step(Step(v, EndRelay({})).value, Commit(c, h)).value, Unblock(h)).value;
  }

  /** A plugin that cannot be synchronized, and a relay that is cut short, leave the others free to go on. */
  lemma FailuresLetGo(s: State, gone: set<Plugin>)
    ensures s.acceptor.Syncing? || s.acceptor.Synced? ==>
              var t := Step(s, SyncFails);
              t.Some? && Step(t.value, FinishSync) == Some(s.(acceptor := Idle, writer := false))
    ensures s.lock.Relaying? ==>
              var t := Step(s, AbortRelay(gone));
              t.Some? && t.value == s.(lock := Free, plugins := t.value.plugins) &&
              Members(t.value.plugins) == Members(s.plugins) - gone
  {
    hide Without, Members;
  }
}
