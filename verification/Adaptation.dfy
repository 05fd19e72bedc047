/** The runtime's side: the lists of plugins, and requests relayed through them. */
module Adaptation {
  import opened Prelude
  import opened MountOrder
  import opened KeyedLists
  import opened ListMerge
  import opened CreateRuns
  import opened UpdateRuns
  import opened CreationRequests
  import opened MergeResult
  import opened ResourceObjects

  /** What a call to a plugin comes to: an answer, an error that ends the connection, or another error. */
  datatype Outcome<+T> = Answers(reply: T) | Dies | Fails

  /** What the adaptation makes of it; plugins that are not subscribed, or die, are passed over. */
  datatype Relayed<+T> = Nothing | Error | Reply(reply: T)

  function RelayedAs<T>(subscribed: bool, o: Outcome<T>): Relayed<T> {
    if !subscribed || o.Dies? then Nothing else if o.Fails? then Error else Relayed.Reply(o.reply)
  }

  /** A validation passes if the validator is not asked, or accepts; that it dies is not passed over. */
  predicate Passes(subscribed: bool, o: Outcome<bool>) {
    !subscribed || (o.Answers? && o.reply)
  }

  datatype Kind = Creates | Updates | Validates

  class Plugin {
    const idx: string
    const base: string
    const creates: bool
    const updates: bool
    const validates: bool
    var closed: bool

    constructor (idx: string, base: string, creates: bool, updates: bool, validates: bool)
      ensures Name() == idx + "-" + base && this.idx == idx && this.validates == validates && !closed
    {
      this.idx, this.base := idx, base;
      this.creates, this.updates, this.validates := creates, updates, validates;
      closed := false;
    }

    function Name(): string { idx + "-" + base }

    predicate Subscribed(kind: Kind) {
      match kind
      case Creates => creates
      case Updates => updates
      case Validates => validates
    }

    /** Relays a request the plugin may be subscribed to. */
    method Relay<T>(subscribed: bool, o: Outcome<T>) returns (r: Relayed<T>)
      modifies `closed
      ensures r == RelayedAs(subscribed, o) && closed == (old(closed) || (subscribed && o.Dies?))
      ensures !subscribed || o == Dies ==> r == Nothing
      ensures subscribed && o == Fails ==> r == Error
      ensures subscribed && o.Answers? ==> r == Relayed.Reply(o.reply)
    {
      if !subscribed {
        return Nothing;
      }
      match o
      case Dies =>
        closed := true;
        return Nothing;
      case Fails => return Error;
      case Answers(reply) => return Relayed.Reply(reply);
    }

    method ValidateContainerAdjustment(o: Outcome<bool>) returns (ok: bool)
      modifies `closed
      ensures ok <==> (validates ==> o == Answers(true))
      ensures ok == Passes(validates, o) && closed == (old(closed) || (validates && o.Dies?))
    {
      if !validates {
        return true;
      }
      if o.Dies? {
        closed := true;
      }
      ok := o.Answers? && o.reply;
    }
  }

  // ---------------------------------------------------------------- the lists of plugins

  ghost function Active(ps: seq<Plugin>): seq<Plugin>
    reads ps
  {
    if ps == [] then []
    else
      var last := ps[|ps| - 1];
      Active(ps[..|ps| - 1]) + if last.closed then [] else [last]
  }

  function Validating(ps: seq<Plugin>): seq<Plugin> {
    if ps == [] then []
    else
      var last := ps[|ps| - 1];
      Validating(ps[..|ps| - 1]) + if last.validates then [last] else []
  }

  predicate InOrder(ps: seq<Plugin>) {
    forall i, j :: 0 <= i < j < |ps| ==> !LexLess(ps[j].idx, ps[i].idx)
  }

  lemma {:induction false} ActiveKeepsOrder(ps: seq<Plugin>)
    ensures InOrder(ps) ==> InOrder(Active(ps))
    ensures forall p: Plugin :: p in Active(ps) <==> p in ps && !p.closed
  {
    if ps != [] {
      var (front, last) := (ps[..|ps| - 1], ps[|ps| - 1]);
      assert ps == front + [last];
      ActiveKeepsOrder(front);
      if InOrder(ps) && !last.closed {
        assert InOrder(front);
        assert InOrder(Active(front));
        assert InOrder(front + [last]);
        assert forall p: Plugin :: p in Active(front) ==> p in front;
        OrderSnoc(Active(front), front, last);
      }
    }
  }

  lemma {:induction false} ValidatingKeepsOrder(ps: seq<Plugin>)
    ensures InOrder(ps) ==> InOrder(Validating(ps))
    ensures forall p: Plugin :: p in Validating(ps) <==> p in ps && p.validates
  {
    if ps != [] {
      var (front, last) := (ps[..|ps| - 1], ps[|ps| - 1]);
      assert ps == front + [last];
      ValidatingKeepsOrder(front);
      if InOrder(ps) && last.validates {
        assert InOrder(front);
        assert InOrder(Validating(front));
        assert InOrder(front + [last]);
        assert forall p: Plugin :: p in Validating(front) ==> p in front;
        OrderSnoc(Validating(front), front, last);
      }
    }
  }

  lemma OrderSnoc(some: seq<Plugin>, all: seq<Plugin>, last: Plugin)
    requires InOrder(all + [last]) && InOrder(some) && forall p: Plugin :: p in some ==> p in all
    ensures InOrder(some + [last])
  {
    forall i | 0 <= i < |some| ensures !LexLess(last.idx, some[i].idx) {
      assert some[i] in all;
      var k :| 0 <= k < |all| && all[k] == some[i];
      assert (all + [last])[k] == some[i] && (all + [last])[|all|] == last;
    }
  }

  /** Validators follow from plugins, up to their order among equal indices. */
  lemma {:induction false} ValidatingConcat(a: seq<Plugin>, b: seq<Plugin>)
    ensures Validating(a + b) == Validating(a) + Validating(b)
    decreases |b|
  {
    if b == [] {
      assert a + b == a;
    } else {
      ValidatingConcat(a, b[..|b| - 1]);
      assert (a + b)[..|a + b| - 1] == a + b[..|b| - 1];
    }
  }

  lemma {:induction false} ValidatingOfPermutation(a: seq<Plugin>, b: seq<Plugin>)
    requires multiset(a) == multiset(b)
    ensures multiset(Validating(a)) == multiset(Validating(b))
    decreases |a|
  {
    if a == [] {
      assert |multiset(b)| == 0;
    } else {
      var (front, last) := (a[..|a| - 1], a[|a| - 1]);
      assert a == front + [last];
      assert last in multiset(a);
      var b1, b2 := TakeOut(b, last);
      ValidatingOfPermutation(front, b1 + b2);
      ValidatingConcat(b1, b2);
      ValidatingConcat(b1 + [last], b2);
      assert (b1 + [last])[..|b1|] == b1;
    }
  }

  function Inserted(ps: seq<Plugin>, p: Plugin): (r: seq<Plugin>)
    ensures multiset(r) == multiset(ps) + multiset{p}
  {
    if ps == [] then [p]
    else
      var (front, last) := (ps[..|ps| - 1], ps[|ps| - 1]);
      assert ps == front + [last];
      if LexLess(p.idx, last.idx) then Inserted(front, p) + [last] else ps + [p]
  }

  lemma {:induction false} InsertedInOrder(ps: seq<Plugin>, p: Plugin)
    requires InOrder(ps)
    ensures InOrder(Inserted(ps, p))
  {
    if ps != [] {
      var (front, last) := (ps[..|ps| - 1], ps[|ps| - 1]);
      assert ps == front + [last];
      if LexLess(p.idx, last.idx) {
        InsertedInOrder(front, p);
        forall i | 0 <= i < |Inserted(front, p)| ensures !LexLess(last.idx, Inserted(front, p)[i].idx) {
          assert Inserted(front, p)[i] in multiset(Inserted(front, p));
          LexOrder(p.idx, last.idx, p.idx);
          LexOrder(last.idx, last.idx, last.idx);
        }
      } else {
        forall i | 0 <= i < |ps| ensures !LexLess(p.idx, ps[i].idx) {
          LexOrder(p.idx, ps[i].idx, last.idx);
          LexOrder(ps[i].idx, last.idx, p.idx);
          LexOrder(last.idx, ps[i].idx, p.idx);
        }
      }
    }
  }

  /** Stands for the sort of the library, of which no more is used than that it sorts. */
  method Sort(ps: seq<Plugin>) returns (r: seq<Plugin>)
    ensures InOrder(r) && multiset(r) == multiset(ps)
  {
    r := [];
    for i := 0 to |ps|
      invariant InOrder(r) && multiset(r) == multiset(ps[..i])
    {
      assert ps[..i + 1] == ps[..i] + [ps[i]];
      InsertedInOrder(r, ps[i]);
      r := Inserted(r, ps[i]);
    }
    assert ps[..|ps|] == ps;
  }

  // ---------------------------------------------------------------- requests

  /** The replies of the plugins to a creation request, in the order of the plugins; None if one of them fails. */
  function Replies(ps: seq<Plugin>, calls: seq<Outcome<CreateReply>>): Option<seq<Replied>>
    requires |ps| == |calls|
  {
    if ps == [] then Some([])
    else
      var k := |ps| - 1;
      match Replies(ps[..k], calls[..k])
      case None => None
      case Some(rs) =>
        match RelayedAs(ps[k].creates, calls[k])
        case Nothing => Some(rs)
        case Error => None
        case Reply(r) => Some(rs + [Replied(ps[k].Name(), r)])
  }

  /** What the replies come to, if all of them are accepted. */
  function Accepted(s: Creating, ps: seq<Plugin>, calls: seq<Outcome<CreateReply>>): Option<Creating>
    requires |ps| == |calls|
  {
    match Replies(ps, calls)
    case None => None
    case Some(rs) => RunReplies(s, rs)
  }

  /** An error of a plugin that is asked, other than one that ends its connection, refuses the request. */
  lemma FailureRefuses(s: Creating, ps: seq<Plugin>, calls: seq<Outcome<CreateReply>>)
    requires |ps| == |calls| && Accepted(s, ps, calls).Some?
    ensures forall i :: 0 <= i < |ps| && ps[i].creates ==> calls[i] != Fails
  {
    var _ := RepliesAre(ps, calls);
  }

  /** A failure or a conflict is final. */
  lemma {:induction false} AcceptedStops(s: Creating, ps: seq<Plugin>, calls: seq<Outcome<CreateReply>>, k: nat)
    requires |ps| == |calls| && k <= |ps| && Accepted(s, ps[..k], calls[..k]) == None
    ensures Accepted(s, ps, calls) == None
    decreases |ps| - k
  {
    hide ApplyReply;
    if k == |ps| {
      assert ps[..k] == ps && calls[..k] == calls;
    } else {
      AcceptedNext(s, ps, calls, k);
      AcceptedStops(s, ps, calls, k + 1);
    }
  }

  lemma AcceptedStep(s: Creating, ps: seq<Plugin>, calls: seq<Outcome<CreateReply>>)
    requires |ps| == |calls| && ps != []
    ensures var k := |ps| - 1;
            var t := Accepted(s, ps[..k], calls[..k]);
            var r := RelayedAs(ps[k].creates, calls[k]);
            Accepted(s, ps, calls) ==
            if t.None? || r.Error? then None
            else if r.Nothing? then t
            else ApplyReply(t.value, Replied(ps[k].Name(), r.reply))
  {
    hide ApplyReply;
    var k := |ps| - 1;
    if Replies(ps[..k], calls[..k]).Some? {
      var rs := Replies(ps[..k], calls[..k]).value;
      var r := RelayedAs(ps[k].creates, calls[k]);
      if r.Reply? {
        assert (rs + [Replied(ps[k].Name(), r.reply)])[..|rs|] == rs;
      }
    }
  }

  ghost predicate Orderly(calls: seq<Outcome<CreateReply>>) {
    forall i :: 0 <= i < |calls| && calls[i].Answers? && calls[i].reply.adjust.Some? ==>
                  IsOrderOf(calls[i].reply.adjust.value.order, RemovedKeys(calls[i].reply.adjust.value.mounts))
  }

  /** The result of a creation request holds what has been accepted so far. */
  ghost predicate Collecting(r: Result, container: Container, s: Creating)
    reads *
  {
    r.create == container && r.Folds(s)
  }

  ghost predicate IsOriginal(container: Container, o: Original)
    reads container, container.resources, container.resources.memory, container.resources.cpu
  {
    container.mounts == o.mounts && container.env == o.env && container.devices == o.devices &&
    container.namespaces == o.namespaces && container.resources.Value() == o.resources
  }

  predicate Passed(validators: seq<Plugin>, verdicts: seq<Outcome<bool>>)
    requires |validators| == |verdicts|
  {
    forall i :: 0 <= i < |verdicts| ==> Passes(validators[i].validates, verdicts[i])
  }

  /** Every validator that is asked has accepted. */
  lemma PassedIff(validators: seq<Plugin>, verdicts: seq<Outcome<bool>>)
    requires |validators| == |verdicts|
    ensures Passed(validators, verdicts) <==>
            forall i :: 0 <= i < |verdicts| && validators[i].validates ==> verdicts[i] == Answers(true)
  {
  }

  /** The i-th plugin is subscribed, and this is its answer and its name. */
  ghost predicate RepliedAt(ps: seq<Plugin>, calls: seq<Outcome<CreateReply>>, i: nat, r: Replied) {
    i < |ps| == |calls| && ps[i].creates && calls[i].Answers? &&
    r == Replied(ps[i].idx + "-" + ps[i].base, calls[i].reply)
  }

  /** The replies are those of the plugins at these places, in order, and no other plugin has replied. */
  ghost predicate RepliesAt(ps: seq<Plugin>, calls: seq<Outcome<CreateReply>>, rs: seq<Replied>, at: seq<nat>)
    requires |ps| == |calls|
  {
    && |at| == |rs| && (forall m, n :: 0 <= m < n < |at| ==> at[m] < at[n])
    && (forall m :: 0 <= m < |at| ==> RepliedAt(ps, calls, at[m], rs[m]))
    && (forall i :: 0 <= i < |ps| && ps[i].creates && calls[i].Answers? ==> i in at)
  }

  /**
    The plugins that have replied, in order: exactly those that are subscribed and answer; no failure is passed
    over.
   */
  lemma {:induction false} RepliesAre(ps: seq<Plugin>, calls: seq<Outcome<CreateReply>>) returns (at: seq<nat>)
    requires |ps| == |calls|
    ensures Replies(ps, calls).Some? <==> forall i :: 0 <= i < |ps| && ps[i].creates ==> calls[i] != Fails
    ensures Replies(ps, calls).Some? ==> RepliesAt(ps, calls, Replies(ps, calls).value, at)
  {
    hide RepliesAt;
    if ps == [] {
      at := [];
      NoReplies(ps, calls);
    } else {
      var k := |ps| - 1;
      at := RepliesAre(ps[..k], calls[..k]);
      assert forall i :: 0 <= i < k ==> ps[..k][i] == ps[i] && calls[..k][i] == calls[i];
      if Replies(ps, calls).Some? {
        RepliesMore(ps, calls, Replies(ps[..k], calls[..k]).value, at);
        if ps[k].creates && calls[k].Answers? {
          at := at + [k];
        }
      }
    }
  }

  lemma NoReplies(ps: seq<Plugin>, calls: seq<Outcome<CreateReply>>)
    requires |ps| == |calls| == 0
    ensures RepliesAt(ps, calls, [], [])
  {
  }

  lemma RepliesMore(ps: seq<Plugin>, calls: seq<Outcome<CreateReply>>, rs: seq<Replied>, at: seq<nat>)
    requires |ps| == |calls| > 0 && RepliesAt(ps[..|ps| - 1], calls[..|ps| - 1], rs, at)
    ensures var k := |ps| - 1;
            if ps[k].creates && calls[k].Answers? then
              RepliesAt(ps, calls, rs + [Replied(ps[k].idx + "-" + ps[k].base, calls[k].reply)], at + [k])
            else RepliesAt(ps, calls, rs, at)
  {
    var k := |ps| - 1;
    forall m | 0 <= m < |at| ensures RepliedAt(ps, calls, at[m], rs[m]) && at[m] < k {
      assert RepliedAt(ps[..k], calls[..k], at[m], rs[m]);
    }
    forall i | 0 <= i < k && ps[i].creates && calls[i].Answers? ensures i in at {
      assert ps[..k][i] == ps[i] && calls[..k][i] == calls[i];
    }
    assert k in at + [k] && forall i :: i in at ==> i in at + [k];
  }

  /** What a creation request comes to: nothing unless all replies are accepted and all validators pass. */
  function Response(s: Creating, ps: seq<Plugin>, calls: seq<Outcome<CreateReply>>, vs: seq<Plugin>,
                    verdicts: seq<Outcome<bool>>):
    Option<Creating>
    requires |ps| == |calls| && |vs| == |verdicts|
  {
    if Passed(vs, verdicts) then Accepted(s, ps, calls) else None
  }

  ghost predicate Responds(r: Result?, container: Container, s: Option<Creating>)
    reads *
  {
    (r != null <==> s.Some?) && (r != null ==> Collecting(r, container, s.value))
  }

  lemma RespondsIs(r: Result?, container: Container, s: Option<Creating>)
    ensures Responds(r, container, s) <==> (r != null <==> s.Some?) && (r != null ==> Collecting(r, container, s.value))
  {
    hide Collecting;
  }

  lemma AcceptedNext(s: Creating, ps: seq<Plugin>, calls: seq<Outcome<CreateReply>>, k: nat)
    requires |ps| == |calls| && k < |ps|
    ensures var t := Accepted(s, ps[..k], calls[..k]);
            var r := RelayedAs(ps[k].creates, calls[k]);
            Accepted(s, ps[..k + 1], calls[..k + 1]) ==
            if t.None? || r.Error? then None
            else if r.Nothing? then t
            else ApplyReply(t.value, Replied(ps[k].Name(), r.reply))
  {
    hide Accepted, ApplyReply;
    assert ps[..k + 1][..k] == ps[..k] && calls[..k + 1][..k] == calls[..k];
    AcceptedStep(s, ps[..k + 1], calls[..k + 1]);
  }

  /** What is collected once a plugin has been asked. */
  function Fed(s: Creating, p: Plugin, call: Outcome<CreateReply>): Option<Creating> {
    match RelayedAs(p.creates, call)
    case Nothing => Some(s)
    case Error => None
    case Reply(r) => ApplyReply(s, Replied(p.Name(), r))
  }

  /** The first plugins have been asked, their replies accepted, and come to "s". */
  predicate UpTo(start: Creating, s: Creating, ps: seq<Plugin>, calls: seq<Outcome<CreateReply>>, i: nat) {
    i <= |ps| == |calls| && Accepted(start, ps[..i], calls[..i]) == Some(s)
  }

  lemma UpToEnds(start: Creating, s: Creating, ps: seq<Plugin>, calls: seq<Outcome<CreateReply>>)
    requires |ps| == |calls|
    ensures UpTo(start, start, ps, calls, 0)
    ensures UpTo(start, s, ps, calls, |ps|) <==> Accepted(start, ps, calls) == Some(s)
  {
    assert ps[..|ps|] == ps && calls[..|ps|] == calls;
  }

  lemma UpToNext(start: Creating, s: Creating, ps: seq<Plugin>, calls: seq<Outcome<CreateReply>>, i: nat)
    requires i < |ps| && UpTo(start, s, ps, calls, i)
    ensures match Fed(s, ps[i], calls[i])
            case Some(t) => UpTo(start, t, ps, calls, i + 1)
            case None => Accepted(start, ps, calls) == None
  {
    AcceptedNext(start, ps, calls, i);
    hide Accepted, ApplyReply;
    if Fed(s, ps[i], calls[i]) == None {
      AcceptedStops(start, ps, calls, i + 1);
    }
  }

  /** How many plugins are asked: those up to the first whose reply is not accepted. */
  function CountAsked(start: Creating, ps: seq<Plugin>, calls: seq<Outcome<CreateReply>>): (n: nat)
    requires |ps| == |calls|
    ensures n <= |ps|
  {
    if ps == [] then 0
    else
      var k := |ps| - 1;
      if Accepted(start, ps[..k], calls[..k]).Some? then |ps| else CountAsked(start, ps[..k], calls[..k])
  }

  lemma CountAll(start: Creating, ps: seq<Plugin>, calls: seq<Outcome<CreateReply>>)
    requires |ps| == |calls| && Accepted(start, ps, calls).Some?
    ensures CountAsked(start, ps, calls) == |ps|
  {
    hide Accepted;
    var k := |ps| - 1;
    if ps != [] && Accepted(start, ps[..k], calls[..k]) == None {
      AcceptedStops(start, ps, calls, k);
    }
  }

  lemma {:induction false} CountUpTo(start: Creating, s: Creating, ps: seq<Plugin>,
                                     calls: seq<Outcome<CreateReply>>, i: nat)
    requires i < |ps| && UpTo(start, s, ps, calls, i) && Fed(s, ps[i], calls[i]) == None
    ensures CountAsked(start, ps, calls) == i + 1
    decreases |ps|
  {
    hide Fed, Accepted;
    var k := |ps| - 1;
    if i < k {
      assert ps[..k][..i] == ps[..i] && calls[..k][..i] == calls[..i];
      UpToNext(start, s, ps[..k], calls[..k], i);
      CountUpTo(start, s, ps[..k], calls[..k], i);
    }
  }

  /** Those of the first "n" plugins that die on being asked; they are closed. */
  ghost function Dying<T>(kind: Kind, ps: seq<Plugin>, calls: seq<Outcome<T>>, n: nat): set<Plugin>
    requires n <= |ps| == |calls|
  {
    set i | 0 <= i < n && ps[i].Subscribed(kind) && calls[i].Dies? :: ps[i]
  }

  lemma DyingNext<T>(kind: Kind, ps: seq<Plugin>, calls: seq<Outcome<T>>, i: nat)
    requires i < |ps| == |calls|
    ensures Dying(kind, ps, calls, i + 1) ==
            Dying(kind, ps, calls, i) + if ps[i].Subscribed(kind) && calls[i].Dies? then {ps[i]} else {}
  {
  }

  lemma DyingAreAsked<T>(kind: Kind, ps: seq<Plugin>, calls: seq<Outcome<T>>, n: nat)
    requires n <= |ps| == |calls|
    ensures Dying(kind, ps, calls, 0) == {}
    ensures forall p :: p in Dying(kind, ps, calls, n) ==> p in ps
  {
  }

  ghost predicate ClosedAre(ps: seq<Plugin>, gone: set<Plugin>)
    reads ps
  {
    forall p :: p in ps ==> (p.closed <==> p in gone)
  }

  lemma ClosedIs(ps: seq<Plugin>, gone: set<Plugin>)
    ensures ClosedAre(ps, gone) <==> forall p :: p in ps ==> (p.closed <==> p in gone)
  {
  }

  /** The first plugins have been asked, and "r" holds what their replies come to; "was" were closed before. */
  ghost predicate Relaying(r: Result, container: Container, start: Creating, s: Creating, ps: seq<Plugin>,
                           calls: seq<Outcome<CreateReply>>, was: set<Plugin>, i: nat)
    reads *
  {
    UpTo(start, s, ps, calls, i) && Collecting(r, container, s) && ClosedAre(ps, was + Dying(Creates, ps, calls, i))
  }

  /** A reply has been refused. */
  ghost predicate Refused(start: Creating, ps: seq<Plugin>, calls: seq<Outcome<CreateReply>>, was: set<Plugin>)
    requires |ps| == |calls|
    reads ps
  {
    Accepted(start, ps, calls) == None && ClosedAre(ps, was + Dying(Creates, ps, calls, CountAsked(start, ps, calls)))
  }

  lemma RelayingIs(r: Result, container: Container, start: Creating, s: Creating, ps: seq<Plugin>,
                   calls: seq<Outcome<CreateReply>>, was: set<Plugin>, i: nat)
    requires i <= |ps| == |calls|
    ensures Relaying(r, container, start, s, ps, calls, was, i) <==>
            UpTo(start, s, ps, calls, i) && Collecting(r, container, s) &&
            ClosedAre(ps, was + Dying(Creates, ps, calls, i))
  {
    hide UpTo, Collecting, ClosedAre, Dying;
  }

  lemma RefusedIs(start: Creating, ps: seq<Plugin>, calls: seq<Outcome<CreateReply>>, was: set<Plugin>)
    requires |ps| == |calls|
    ensures Refused(start, ps, calls, was) <==>
            Accepted(start, ps, calls) == None &&
            ClosedAre(ps, was + Dying(Creates, ps, calls, CountAsked(start, ps, calls)))
  {
    hide Accepted, ClosedAre, Dying, CountAsked;
  }

  lemma BeforeAsking(r: Result, container: Container, start: Creating, ps: seq<Plugin>,
                     calls: seq<Outcome<CreateReply>>,
                     was: set<Plugin>)
    requires |ps| == |calls| && Collecting(r, container, start) && ClosedAre(ps, was)
    ensures Relaying(r, container, start, start, ps, calls, was, 0)
  {
    hide Accepted, Collecting, Dying;
    UpToEnds(start, start, ps, calls);
    DyingAreAsked(Creates, ps, calls, 0);
    assert was + Dying(Creates, ps, calls, 0) == was;
  }

  /** When all plugins have been asked, or one has been refused, the request is answered. */
  lemma AfterAsking(r: Result?, container: Container, start: Creating, s: Creating, ps: seq<Plugin>,
                    calls: seq<Outcome<CreateReply>>, was: set<Plugin>)
    requires |ps| == |calls|
    requires if r != null then Relaying(r, container, start, s, ps, calls, was, |ps|)
             else Refused(start, ps, calls, was)
    ensures Responds(r, container, Accepted(start, ps, calls))
    ensures ClosedAre(ps, was + Dying(Creates, ps, calls, CountAsked(start, ps, calls)))
  {
    hide Accepted, Collecting, Dying, CountAsked, ClosedAre;
    UpToEnds(start, s, ps, calls);
    if r != null {
      CountAll(start, ps, calls);
    }
  }

  /**
    The plugins a creation request closes: those that die on being asked and, if all are accepted, validators
    that do.
   */
  ghost function Fatal(start: Creating, ps: seq<Plugin>, calls: seq<Outcome<CreateReply>>,
                       vs: seq<Plugin>, verdicts: seq<Outcome<bool>>): set<Plugin>
    requires |ps| == |calls| && |vs| == |verdicts|
  {
    Dying(Creates, ps, calls, CountAsked(start, ps, calls)) +
    if Accepted(start, ps, calls).Some? then Dying(Validates, vs, verdicts, |vs|) else {}
  }

  /** The updates the plugins ask for in their replies to an update request; None if one of them fails. */
  function AskedFor(ps: seq<Plugin>, calls: seq<Outcome<seq<Update>>>): Option<seq<Asked>>
    requires |ps| == |calls|
  {
    if ps == [] then Some([])
    else
      var k := |ps| - 1;
      match AskedFor(ps[..k], calls[..k])
      case None => None
      case Some(asked) =>
        match RelayedAs(ps[k].updates, calls[k])
        case Nothing => Some(asked)
        case Error => None
        case Reply(us) => Some(asked + AskedBy(ps[k].Name(), us))
  }

  /** The j-th update in the reply of the i-th plugin, with the plugin's name. */
  ghost predicate AskedAt(ps: seq<Plugin>, calls: seq<Outcome<seq<Update>>>, i: nat, j: nat, a: Asked) {
    i < |ps| == |calls| && ps[i].updates && calls[i].Answers? && j < |calls[i].reply| &&
    a == Asked(ps[i].idx + "-" + ps[i].base, calls[i].reply[j])
  }

  /** The updates are those at these places, in order, and there are no others. */
  ghost predicate AllAskedAt(ps: seq<Plugin>, calls: seq<Outcome<seq<Update>>>, asked: seq<Asked>, at: seq<(nat, nat)>)
    requires |ps| == |calls|
  {
    && |at| == |asked| && InSequence(at)
    && (forall m :: 0 <= m < |at| ==> AskedAt(ps, calls, at[m].0, at[m].1, asked[m]))
    && (forall i, j :: 0 <= i < |ps| && ps[i].updates && calls[i].Answers? && 0 <= j < |calls[i].reply| ==>
                         (i, j) in at)
  }

  /** The updates asked for, in the order of the plugins and of each reply; no failure is passed over. */
  lemma {:induction false} AskedForAre(ps: seq<Plugin>, calls: seq<Outcome<seq<Update>>>) returns (at: seq<(nat, nat)>)
    requires |ps| == |calls|
    ensures AskedFor(ps, calls).Some? <==> forall i :: 0 <= i < |ps| && ps[i].updates ==> calls[i] != Fails
    ensures AskedFor(ps, calls).Some? ==> AllAskedAt(ps, calls, AskedFor(ps, calls).value, at)
  {
    hide AllAskedAt, AskedBy, Row;
    if ps == [] {
      at := [];
      NoneAsked(ps, calls);
    } else {
      var k := |ps| - 1;
      at := AskedForAre(ps[..k], calls[..k]);
      assert forall i :: 0 <= i < k ==> ps[..k][i] == ps[i] && calls[..k][i] == calls[i];
      if AskedFor(ps, calls).Some? {
        MoreAsked(ps, calls, AskedFor(ps[..k], calls[..k]).value, at);
        if ps[k].updates && calls[k].Answers? {
          at := at + Row(k, |calls[k].reply|);
        }
      }
    }
  }

  lemma NoneAsked(ps: seq<Plugin>, calls: seq<Outcome<seq<Update>>>)
    requires |ps| == |calls| == 0
    ensures AllAskedAt(ps, calls, [], [])
  {
  }

  lemma MoreAsked(ps: seq<Plugin>, calls: seq<Outcome<seq<Update>>>, asked: seq<Asked>, at: seq<(nat, nat)>)
    requires |ps| == |calls| > 0 && AllAskedAt(ps[..|ps| - 1], calls[..|ps| - 1], asked, at)
    ensures var k := |ps| - 1;
            if ps[k].updates && calls[k].Answers? then
              AllAskedAt(ps, calls, asked + AskedBy(ps[k].Name(), calls[k].reply), at + Row(k, |calls[k].reply|))
            else AllAskedAt(ps, calls, asked, at)
  {
    hide InSequence;
    var k := |ps| - 1;
    forall m | 0 <= m < |at| ensures AskedAt(ps, calls, at[m].0, at[m].1, asked[m]) && at[m].0 < k {
      assert AskedAt(ps[..k], calls[..k], at[m].0, at[m].1, asked[m]);
    }
    forall i, j | 0 <= i < k && ps[i].updates && calls[i].Answers? && 0 <= j < |calls[i].reply| ensures (i, j) in at {
      assert ps[..k][i] == ps[i] && calls[..k][i] == calls[i];
    }
    if ps[k].updates && calls[k].Answers? {
      var row := Row(k, |calls[k].reply|);
      InSequenceMore(at, k, |calls[k].reply|);
      forall j | 0 <= j < |calls[k].reply| ensures (k, j) in at + row {
        assert row[j] == (k, j);
      }
    }
  }

  function UpdatesAccepted(s: Updating, ps: seq<Plugin>, calls: seq<Outcome<seq<Update>>>): Option<Updating>
    requires |ps| == |calls|
  {
    match AskedFor(ps, calls)
    case None => None
    case Some(asked) => if RunUpdates(s, asked).1 then Some(RunUpdates(s, asked).0) else None
  }

  lemma AcceptedUpdatesNext(s: Updating, ps: seq<Plugin>, calls: seq<Outcome<seq<Update>>>, k: nat)
    requires |ps| == |calls| && k < |ps|
    ensures var t := UpdatesAccepted(s, ps[..k], calls[..k]);
            var r := RelayedAs(ps[k].updates, calls[k]);
            UpdatesAccepted(s, ps[..k + 1], calls[..k + 1]) ==
            if t.None? || r.Error? then None
            else if r.Nothing? then t
            else
              var (u, ok) := RunUpdates(t.value, AskedBy(ps[k].Name(), r.reply));
              if ok then Some(u) else None
  {
    hide RunUpdates, AskedBy;
    assert ps[..k + 1][..k] == ps[..k] && calls[..k + 1][..k] == calls[..k];
    if AskedFor(ps[..k], calls[..k]).Some? && RelayedAs(ps[k].updates, calls[k]).Reply? {
      RunUpdatesConcat(s, AskedFor(ps[..k], calls[..k]).value,
                       AskedBy(ps[k].Name(), RelayedAs(ps[k].updates, calls[k]).reply));
    }
  }

  lemma {:induction false} AcceptedUpdatesStop(s: Updating, ps: seq<Plugin>, calls: seq<Outcome<seq<Update>>>, k: nat)
    requires |ps| == |calls| && k <= |ps| && UpdatesAccepted(s, ps[..k], calls[..k]) == None
    ensures UpdatesAccepted(s, ps, calls) == None
    decreases |ps| - k
  {
    hide UpdatesAccepted;
    if k == |ps| {
      assert ps[..k] == ps && calls[..k] == calls;
    } else {
      AcceptedUpdatesNext(s, ps, calls, k);
      AcceptedUpdatesStop(s, ps, calls, k + 1);
    }
  }

  /** What is collected once a plugin has been asked. */
  function GivenUpdates(s: Updating, p: Plugin, call: Outcome<seq<Update>>): Option<Updating> {
    match RelayedAs(p.updates, call)
    case Nothing => Some(s)
    case Error => None
    case Reply(us) =>
      var (t, ok) := RunUpdates(s, AskedBy(p.Name(), us));
      if ok then Some(t) else None
  }

  predicate UpdatedTo(start: Updating, s: Updating, ps: seq<Plugin>, calls: seq<Outcome<seq<Update>>>, i: nat) {
    i <= |ps| == |calls| && UpdatesAccepted(start, ps[..i], calls[..i]) == Some(s)
  }

  /** How many plugins are asked: those up to the first that fails or asks for an update that ends the request. */
  function CountUpdating(start: Updating, ps: seq<Plugin>, calls: seq<Outcome<seq<Update>>>): (n: nat)
    requires |ps| == |calls|
    ensures n <= |ps|
  {
    if ps == [] then 0
    else
      var k := |ps| - 1;
      if UpdatesAccepted(start, ps[..k], calls[..k]).Some? then |ps| else CountUpdating(start, ps[..k], calls[..k])
  }

  lemma UpdatedToNext(start: Updating, s: Updating, ps: seq<Plugin>, calls: seq<Outcome<seq<Update>>>, i: nat)
    requires i < |ps| && UpdatedTo(start, s, ps, calls, i)
    ensures match GivenUpdates(s, ps[i], calls[i])
            case Some(t) => UpdatedTo(start, t, ps, calls, i + 1)
            case None => UpdatesAccepted(start, ps, calls) == None
  {
    AcceptedUpdatesNext(start, ps, calls, i);
    hide UpdatesAccepted, RunUpdates;
    if GivenUpdates(s, ps[i], calls[i]) == None {
      AcceptedUpdatesStop(start, ps, calls, i + 1);
    }
  }

  lemma CountAllUpdating(start: Updating, ps: seq<Plugin>, calls: seq<Outcome<seq<Update>>>)
    requires |ps| == |calls| && UpdatesAccepted(start, ps, calls).Some?
    ensures CountUpdating(start, ps, calls) == |ps|
  {
    hide UpdatesAccepted;
    var k := |ps| - 1;
    if ps != [] && UpdatesAccepted(start, ps[..k], calls[..k]) == None {
      AcceptedUpdatesStop(start, ps, calls, k);
    }
  }

  lemma {:induction false} CountUpdatedTo(start: Updating, s: Updating, ps: seq<Plugin>,
                                          calls: seq<Outcome<seq<Update>>>, i: nat)
    requires i < |ps| && UpdatedTo(start, s, ps, calls, i) && GivenUpdates(s, ps[i], calls[i]) == None
    ensures CountUpdating(start, ps, calls) == i + 1
    decreases |ps|
  {
    hide GivenUpdates, UpdatesAccepted;
    var k := |ps| - 1;
    if i < k {
      assert ps[..k][..i] == ps[..i] && calls[..k][..i] == calls[..i];
      UpdatedToNext(start, s, ps[..k], calls[..k], i);
      CountUpdatedTo(start, s, ps[..k], calls[..k], i);
    }
  }

  /** The first plugins have been asked, and "r" holds what their updates come to; "was" were closed before. */
  ghost predicate RelayingUpdates(r: Result, start: Updating, s: Updating, ps: seq<Plugin>,
                                  calls: seq<Outcome<seq<Update>>>,
                                  was: set<Plugin>, i: nat)
    reads *
  {
    UpdatedTo(start, s, ps, calls, i) && r.Collects(s) && ClosedAre(ps, was + Dying(Updates, ps, calls, i))
  }

  lemma RelayingUpdatesIs(r: Result, start: Updating, s: Updating, ps: seq<Plugin>, calls: seq<Outcome<seq<Update>>>,
                          was: set<Plugin>, i: nat)
    requires i <= |ps| == |calls|
    ensures RelayingUpdates(r, start, s, ps, calls, was, i) <==>
            UpdatedTo(start, s, ps, calls, i) && r.Collects(s) && ClosedAre(ps, was + Dying(Updates, ps, calls, i))
  {
    hide UpdatedTo, Result.Collects, ClosedAre, Dying;
  }

  lemma BeforeUpdates(r: Result, start: Updating, ps: seq<Plugin>, calls: seq<Outcome<seq<Update>>>, was: set<Plugin>)
    requires |ps| == |calls| && r.Collects(start) && ClosedAre(ps, was)
    ensures RelayingUpdates(r, start, start, ps, calls, was, 0)
  {
    hide UpdatesAccepted, Result.Collects, Dying;
    AcceptedUpdatesAtEnds(start, ps, calls);
    DyingAreAsked(Updates, ps, calls, 0);
    assert was + Dying(Updates, ps, calls, 0) == was;
  }

  lemma AfterUpdates(r: Result, start: Updating, s: Updating, ps: seq<Plugin>, calls: seq<Outcome<seq<Update>>>,
                     was: set<Plugin>)
    requires |ps| == |calls| && RelayingUpdates(r, start, s, ps, calls, was, |ps|)
    ensures UpdatesAccepted(start, ps, calls) == Some(s) && r.Collects(s)
    ensures ClosedAre(ps, was + Dying(Updates, ps, calls, CountUpdating(start, ps, calls)))
  {
    hide UpdatesAccepted, Result.Collects, Dying, CountUpdating, ClosedAre;
    AcceptedUpdatesAtEnds(start, ps, calls);
    CountAllUpdating(start, ps, calls);
  }

  /** The response answers the request: it lists what is pending after all updates the plugins have asked for. */
  ghost predicate AnswersUpdate(response: seq<ContainerUpdate?>, req: UpdateRequest, start: Updating, asked: seq<Asked>)
    reads *
  {
    var s := RunUpdates(start, asked).0;
    IsResponse(response, req.containerId, s) && Shaped(s, asked) && req.resources.Value() == s.view
  }

  lemma AcceptedUpdatesAtEnds(s: Updating, ps: seq<Plugin>, calls: seq<Outcome<seq<Update>>>)
    requires |ps| == |calls|
    ensures UpdatesAccepted(s, ps[..0], calls[..0]) == Some(s) &&
            UpdatesAccepted(s, ps[..|ps|], calls[..|ps|]) == UpdatesAccepted(s, ps, calls)
  {
    assert ps[..|ps|] == ps && calls[..|ps|] == calls;
    assert RunUpdates(s, []) == (s, true);
  }

  lemma EachOrderly(calls: seq<Outcome<CreateReply>>, i: nat)
    requires Orderly(calls) && i < |calls|
    ensures Orderly([calls[i]])
  {
  }

  class Adaptation {
    var plugins: seq<Plugin>
    var validators: seq<Plugin>

    constructor ()
      ensures Settled() && plugins == []
    {
      plugins, validators := [], [];
    }

    /** Between requests: plugins are in order, and validators are exactly those of them that validate, in order. */
    ghost predicate Settled()
      reads this
    {
      InOrder(plugins) && InOrder(validators) && multiset(validators) == multiset(Validating(plugins))
    }

    method RemoveClosedPlugins()
      modifies this
      ensures plugins == Active(old(plugins)) && validators == Validating(plugins)
      ensures old(Settled()) ==> Settled()
    {
      hide InOrder;
      var active, checking := [], [];
      for i := 0 to |plugins|
        invariant active == Active(plugins[..i]) && checking == Validating(active)
      {
        assert plugins[..i + 1][..i] == plugins[..i];
        var p := plugins[i];
        if !p.closed {
          active := active + [p];
          if p.validates {
            checking := checking + [p];
          }
          assert active[..|active| - 1] == Active(plugins[..i]);
        }
      }
      assert plugins[..|plugins|] == plugins;
      ActiveKeepsOrder(plugins);
      ValidatingKeepsOrder(active);
      plugins, validators := active, checking;
    }

    method SortPlugins()
      modifies this
      ensures Settled() && multiset(plugins) == multiset(Active(old(plugins)))
    {
      hide *;
      RemoveClosedPlugins();
      var sorted := Sort(plugins);
      ValidatingOfPermutation(plugins, sorted);
      plugins := sorted;
      validators := Sort(validators);
      SettledIs();
    }

    lemma SettledIs()
      ensures Settled() <==>
              InOrder(plugins) && InOrder(validators) && multiset(validators) == multiset(Validating(plugins))
    {
    }

    /** A plugin that has been synchronized joins. */
    method Join(p: Plugin)
      modifies this
      ensures Settled() && multiset(plugins) == multiset(Active(old(plugins) + [p]))
    {
      plugins := plugins + [p];
      if p.validates {
        validators := validators + [p];
      }
      SortPlugins();
    }

    /** The pre-installed plugins that could be synchronized. */
    method StartPlugins(ps: seq<Plugin>)
      modifies this
      ensures Settled() && multiset(plugins) == multiset(Active(ps))
    {
      plugins := ps;
      SortPlugins();
    }

    // ---------------------------------------------------------------- creating a container

    /**
      A response is given if and only if every plugin's reply is accepted and every validator passes
      it; it then holds what the accepted replies come to. The plugins whose connections are closed are
      those that die on being asked, as plugins or as validators.
     */
    method CreateContainer(container: Container, ghost o: Original, calls: seq<Outcome<CreateReply>>,
                           verdicts: seq<Outcome<bool>>, ghost start: Creating) returns (result: Result?)
      requires |calls| == |plugins| && |verdicts| == |validators| && Orderly(calls)
      requires IsOriginal(container, o) && start == StartCreating(container.id, o)
      modifies this, plugins`closed, validators`closed, container, container.resources.Repr()
      ensures old(Settled()) ==> Settled()
      ensures plugins == Active(old(plugins)) && validators == Validating(plugins)
      ensures Responds(result, container, Response(start, old(plugins), calls, old(validators), verdicts))
      ensures result != null ==>
                (forall i :: 0 <= i < |verdicts| && old(validators)[i].validates ==> verdicts[i] == Answers(true)) &&
                (forall i :: 0 <= i < |calls| && old(plugins)[i].creates ==> calls[i] != Fails)
      ensures Accepted(start, old(plugins), calls).Some? &&
              (forall i :: 0 <= i < |verdicts| && old(validators)[i].validates ==> verdicts[i] == Answers(true)) ==>
                result != null
      ensures forall p :: p in old(plugins) || p in old(validators) ==>
                            (p.closed <==> old(p.closed) ||
                                           p in Fatal(start, old(plugins), calls, old(validators), verdicts))
    {
      ghost var (ps, vs) := (plugins, validators);
      hide Accepted, StartCreating, Settled, Orderly, Passed, Responds, Dying, CountAsked, Active, Validating;
      result := CollectReplies(container, o, calls, start);
      ghost var accepted := Accepted(start, ps, calls);
      RespondsIs(result, container, accepted);
      PassedIff(vs, verdicts);
      if accepted.Some? {
        FailureRefuses(start, ps, calls);
      }
      DyingAreAsked(Creates, ps, calls, CountAsked(start, ps, calls));
      if result != null {
        var ok := ValidateContainerAdjustment(verdicts, result, container, accepted.value);
        DyingAreAsked(Validates, vs, verdicts, |vs|);
        if !ok {
          result := null;
        }
      }
      Finish(result, container, accepted);
      RespondsIs(result, container, accepted);
      RespondsIs(result, container, None);
    }

    /** Whatever comes of a request, plugins that have been closed are dropped at its end. */
    method Finish(result: Result?, ghost container: Container, ghost s: Option<Creating>)
      requires result != null ==> s.Some? && Collecting(result, container, s.value)
      modifies this
      ensures plugins == Active(old(plugins)) && validators == Validating(plugins)
      ensures old(Settled()) ==> Settled()
      ensures result != null ==> Collecting(result, container, s.value)
    {
      hide Result.Holds, LinuxResources.Value, Away, OwnersFor, Active, Validating, Settled;
      RemoveClosedPlugins();
    }

    /** The request goes to every plugin in turn; each sees it as adjusted by those before. */
    method CollectReplies(container: Container, ghost o: Original, calls: seq<Outcome<CreateReply>>,
                          ghost start: Creating)
      returns (result: Result?)
      requires |calls| == |plugins| && Orderly(calls)
      requires IsOriginal(container, o) && start == StartCreating(container.id, o)
      modifies plugins`closed, container, container.resources.Repr()
      ensures Responds(result, container, Accepted(start, plugins, calls))
      ensures forall p :: p in plugins ==>
                            (p.closed <==> old(p.closed) ||
                                           p in Dying(Creates, plugins, calls, CountAsked(start, plugins, calls)))
    {
      hide Accepted, StartCreating, Orderly, Responds, Dying, CountAsked, ClosedAre, Relaying, Refused, Collecting;
      hide IsOriginal, Fed, LinuxResources.Repr, Result.Folds, Result.Holds, RunReplies, Replies, ApplyReply;
      ghost var ps := plugins;
      ghost var was := set p | p in ps && p.closed;
      ghost var repr := container.resources.Repr();
      NoPluginsIn(container, ps);
      ClosedIs(ps, was);
      var r := StartCollecting(container, o, start);
      ClosedIs(ps, was);
      BeforeAsking(r, container, start, ps, calls, was);
      ghost var s := start;
      for i := 0 to |plugins|
        invariant Relaying(r, container, start, s, ps, calls, was, i)
        invariant fresh(r.Changing() - repr)
      {
        ghost var changing := r.Changing();
        ghost var next := Fed(s, ps[i], calls[i]);
        var ok := RelayNext(plugins[i], calls[i], r, s, container, start, ps, calls, was, i);
        assert r.Changing() - repr <= (r.Changing() - changing) + (changing - repr);
        if !ok {
          AfterAsking(null, container, start, s, ps, calls, was);
          ClosedIs(ps, was + Dying(Creates, ps, calls, CountAsked(start, ps, calls)));
          return null;
        }
        s := next.value;
      }
      AfterAsking(r, container, start, s, ps, calls, was);
      ClosedIs(ps, was + Dying(Creates, ps, calls, CountAsked(start, ps, calls)));
      result := r;
    }

    /** One step of the loop; after a failure no later plugin is asked, so that none of them is closed. */
    method RelayNext(p: Plugin, call: Outcome<CreateReply>, r: Result, ghost s: Creating, ghost container: Container,
                     ghost start: Creating, ghost ps: seq<Plugin>, ghost calls: seq<Outcome<CreateReply>>,
                     ghost was: set<Plugin>, ghost i: nat) returns (ok: bool)
      requires i < |ps| == |calls| && p == ps[i] && call == calls[i] && Orderly(calls)
      requires Relaying(r, container, start, s, ps, calls, was, i)
      requires forall q :: q in ps ==> q !in r.Changing()
      modifies p`closed, container, r.Changing()
      ensures fresh(r.Changing() - old(r.Changing()))
      ensures ok ==> Fed(s, p, call).Some? &&
                     Relaying(r, container, start, Fed(s, p, call).value, ps, calls, was, i + 1)
      ensures !ok ==> Refused(start, ps, calls, was)
    {
      hide *;
      RelayingIs(r, container, start, s, ps, calls, was, i);
      ClosedIs(ps, was + Dying(Creates, ps, calls, i));
      EachOrderly(calls, i);
      UpToNext(start, s, ps, calls, i);
      if Fed(s, p, call) == None {
        CountUpTo(start, s, ps, calls, i);
      }
      DyingNext(Creates, ps, calls, i);
      ok := RelayCreate(p, call, r, s, container);
      RespondsIs(if ok then r else null, container, Fed(s, p, call));
      ClosedIs(ps, was + Dying(Creates, ps, calls, i + 1));
      if ok {
        RelayingIs(r, container, start, Fed(s, p, call).value, ps, calls, was, i + 1);
      } else {
        RefusedIs(start, ps, calls, was);
      }
    }

    lemma NoPluginsIn(container: Container, ps: seq<Plugin>)
      ensures this !in container.resources.Repr() && forall p :: p in ps ==> p !in container.resources.Repr()
    {
    }

    method StartCollecting(container: Container, ghost o: Original, ghost start: Creating) returns (r: Result)
      requires IsOriginal(container, o) && start == StartCreating(container.id, o)
      ensures Collecting(r, container, start) && this !in r.Changing() &&
              fresh(r.Changing() - container.resources.Repr())
    {
      r := new Result.CollectCreate(container);
      r.NothingCollected(o);
    }

    /** Asking a plugin does not touch the result. */
    method Ask(p: Plugin, call: Outcome<CreateReply>, r: Result, ghost s: Creating, ghost container: Container)
      returns (relayed: Relayed<CreateReply>)
      requires Collecting(r, container, s)
      modifies p`closed
      ensures relayed == RelayedAs(p.creates, call) && Collecting(r, container, s)
      ensures p.closed == (old(p.closed) || (p.Subscribed(Creates) && call.Dies?))
    {
      hide Result.Holds, LinuxResources.Value, Away, OwnersFor;
      relayed := p.Relay(p.creates, call);
    }

    /** One plugin is asked and its reply, if there is one, collected. */
    method RelayCreate(p: Plugin, call: Outcome<CreateReply>, r: Result, ghost s: Creating, ghost container: Container)
      returns (ok: bool)
      requires Collecting(r, container, s) && Orderly([call])
      modifies p`closed, container, r.Changing()
      ensures fresh(r.Changing() - old(r.Changing()))
      ensures Responds(if ok then r else null, container, Fed(s, p, call))
      ensures p !in old(r.Changing()) ==> p.closed == (old(p.closed) || (p.Subscribed(Creates) && call.Dies?))
    {
      hide ApplyReply, Result.Holds, Result.CollectsBeside;
      var relayed := Ask(p, call, r, s, container);
      match relayed
      case Error => ok := false;
      case Nothing => ok := true;
      case Reply(rpl) =>
        assert [call][0] == call;
        ok := r.Apply(rpl, p.Name(), s);
    }

    /** Every validator is asked. */
    method ValidateContainerAdjustment(verdicts: seq<Outcome<bool>>, ghost r: Result, ghost container: Container,
                                       ghost s: Creating)
      returns (ok: bool)
      requires |verdicts| == |validators| && Collecting(r, container, s)
      modifies validators`closed
      ensures ok == Passed(validators, verdicts) && Collecting(r, container, s)
      ensures ok <==> forall i :: 0 <= i < |verdicts| && validators[i].validates ==> verdicts[i] == Answers(true)
      ensures forall p :: p in validators ==>
                            (p.closed <==> old(p.closed) || p in Dying(Validates, validators, verdicts, |verdicts|))
    {
      hide Collecting;
      PassedIff(validators, verdicts);
      ok := true;
      for i := 0 to |validators|
        invariant ok <==> forall j :: 0 <= j < i ==> Passes(validators[j].validates, verdicts[j])
        invariant Collecting(r, container, s)
        invariant forall p :: p in validators ==>
                                (p.closed <==> old(p.closed) || p in Dying(Validates, validators, verdicts, i))
      {
        var passed := AskValidator(validators[i], verdicts[i], r, container, s);
        ok := ok && passed;
      }
    }

    method AskValidator(p: Plugin, verdict: Outcome<bool>, ghost r: Result, ghost container: Container,
                        ghost s: Creating)
      returns (ok: bool)
      requires Collecting(r, container, s)
      modifies p`closed
      ensures ok == Passes(p.validates, verdict) && Collecting(r, container, s)
      ensures p.closed == (old(p.closed) || (p.validates && verdict.Dies?))
    {
      hide Result.Holds, LinuxResources.Value, Away, OwnersFor;
      ok := p.ValidateContainerAdjustment(verdict);
    }

    // ---------------------------------------------------------------- updating a container

    /**
      The updates that plugins ask for are collected; the request goes on to the next plugin as updated by
      those before. There is a response if and only if no plugin fails and no update ends the request.
     */
    method UpdateContainer(req: UpdateRequest, calls: seq<Outcome<seq<Update>>>, ghost start: Updating)
      returns (response: Option<seq<ContainerUpdate?>>)
      requires |calls| == |plugins|
      requires start == StartUpdates(None, Some(req.containerId), req.resources.Value(), map[])
      modifies this, plugins`closed, req`resources
      ensures plugins == Active(old(plugins)) && validators == Validating(plugins)
      ensures old(Settled()) ==> Settled()
      ensures response.Some? <==> UpdatesAccepted(start, old(plugins), calls).Some?
      ensures response.Some? ==> forall i :: 0 <= i < |calls| && old(plugins)[i].updates ==> calls[i] != Fails
      ensures response.Some? ==> AnswersUpdate(response.value, req, start, AskedFor(old(plugins), calls).value)
      ensures forall p :: p in old(plugins) ==>
                            (p.closed <==> old(p.closed) ||
                                           p in Dying(Updates, old(plugins), calls,
                                                      CountUpdating(start, old(plugins), calls)))
    {
      hide UpdatesAccepted, Result.Collects, Settled, Active, Validating, AnswersUpdate, Dying, CountUpdating;
      ghost var ps := plugins;
      var result := CollectUpdates(req, calls, start);
      if result == null {
        response := None;
      } else {
        var updates := Respond(result, start, ps, calls);
        ghost var _ := AskedForAre(ps, calls);
        response := Some(updates);
      }
      FinishUpdate(response, req, start, if response.Some? then AskedFor(ps, calls).value else []);
    }

    method Respond(result: Result, ghost start: Updating, ghost ps: seq<Plugin>, ghost calls: seq<Outcome<seq<Update>>>)
      returns (response: seq<ContainerUpdate?>)
      requires result.request != null && |ps| == |calls| && UpdatesAccepted(start, ps, calls).Some?
      requires result.Collects(UpdatesAccepted(start, ps, calls).value)
      requires start.pending == map[] && start.listed == []
      ensures AskedFor(ps, calls).Some? && AnswersUpdate(response, result.request, start, AskedFor(ps, calls).value)
    {
      hide Shaped, IsResponse, LinuxResources.Value, Result.HoldsPending, Result.HoldsListed, Result.HoldsOwners;
      ghost var asked := AskedFor(ps, calls).value;
      ResponseIsShaped(start, asked);
      response := result.UpdateContainerResponse(RunUpdates(start, asked).0, asked);
    }

    method FinishUpdate(response: Option<seq<ContainerUpdate?>>, ghost req: UpdateRequest, ghost start: Updating,
                        ghost asked: seq<Asked>)
      requires response.Some? ==> AnswersUpdate(response.value, req, start, asked)
      modifies this
      ensures plugins == Active(old(plugins)) && validators == Validating(plugins)
      ensures old(Settled()) ==> Settled()
      ensures response.Some? ==> AnswersUpdate(response.value, req, start, asked)
    {
      hide LinuxResources.Value, RunUpdates, Shaped, Active, Validating, Settled, PendingOf;
      RemoveClosedPlugins();
    }

    method CollectUpdates(req: UpdateRequest, calls: seq<Outcome<seq<Update>>>, ghost start: Updating)
      returns (result: Result?)
      requires |calls| == |plugins|
      requires start == StartUpdates(None, Some(req.containerId), req.resources.Value(), map[])
      modifies plugins`closed, req`resources
      ensures result != null <==> UpdatesAccepted(start, plugins, calls).Some?
      ensures result != null ==> result.request == req && result.Collects(UpdatesAccepted(start, plugins, calls).value)
      ensures forall p :: p in plugins ==>
                            (p.closed <==> old(p.closed) ||
                                           p in Dying(Updates, plugins, calls, CountUpdating(start, plugins, calls)))
    {
      hide *;
      ghost var ps := plugins;
      ghost var was := set p | p in ps && p.closed;
      ClosedIs(ps, was);
      var r := StartUpdating(req, start);
      ClosedIs(ps, was);
      BeforeUpdates(r, start, ps, calls, was);
      ghost var s := start;
      for i := 0 to |plugins|
        invariant RelayingUpdates(r, start, s, ps, calls, was, i)
        invariant r.request == req && fresh(r) && fresh(r.owners) && fresh(r.updates.Values)
      {
        ghost var next := GivenUpdates(s, ps[i], calls[i]);
        var ok := RelayUpdateNext(plugins[i], calls[i], r, s, start, ps, calls, was, i);
        if !ok {
          ClosedIs(ps, was + Dying(Updates, ps, calls, CountUpdating(start, ps, calls)));
          return null;
        }
        s := next.value;
      }
      AfterUpdates(r, start, s, ps, calls, was);
      ClosedIs(ps, was + Dying(Updates, ps, calls, CountUpdating(start, ps, calls)));
      result := r;
    }

    /** One step of the loop. */
    method RelayUpdateNext(p: Plugin, call: Outcome<seq<Update>>, r: Result, ghost s: Updating, ghost start: Updating,
                           ghost ps: seq<Plugin>, ghost calls: seq<Outcome<seq<Update>>>, ghost was: set<Plugin>,
                           ghost i: nat)
      returns (ok: bool)
      requires i < |ps| == |calls| && p == ps[i] && call == calls[i]
      requires RelayingUpdates(r, start, s, ps, calls, was, i) && r.request != null
      modifies p`closed, r`updates, r`listed, r.updates.Values, r.owners, r.request`resources
      ensures fresh(r.updates.Values - old(r.updates.Values))
      ensures ok ==> GivenUpdates(s, p, call).Some? &&
                     RelayingUpdates(r, start, GivenUpdates(s, p, call).value, ps, calls, was, i + 1)
      ensures !ok ==> UpdatesAccepted(start, ps, calls) == None &&
                      ClosedAre(ps, was + Dying(Updates, ps, calls, CountUpdating(start, ps, calls)))
    {
      hide *;
      RelayingUpdatesIs(r, start, s, ps, calls, was, i);
      ClosedIs(ps, was + Dying(Updates, ps, calls, i));
      UpdatedToNext(start, s, ps, calls, i);
      if GivenUpdates(s, p, call) == None {
        CountUpdatedTo(start, s, ps, calls, i);
      }
      DyingNext(Updates, ps, calls, i);
      ok := RelayUpdate(p, call, r, s);
      ClosedIs(ps, was + Dying(Updates, ps, calls, i + 1));
      if ok {
        RelayingUpdatesIs(r, start, GivenUpdates(s, p, call).value, ps, calls, was, i + 1);
      }
    }

    method StartUpdating(req: UpdateRequest, ghost start: Updating) returns (r: Result)
      requires start == StartUpdates(None, Some(req.containerId), req.resources.Value(), map[])
      ensures r.request == req && r.Collects(start) && fresh(r) && fresh(r.owners) && fresh(r.updates.Values)
    {
      r := new Result.CollectUpdate(req);
      assert r.Ids([]) == [];
      assert forall id :: OwnersFor(r.owners.owners, id) == r.owners.For(id);
    }

    method RelayUpdate(p: Plugin, call: Outcome<seq<Update>>, r: Result, ghost s: Updating) returns (ok: bool)
      requires r.Collects(s) && r.request != null
      modifies p`closed, r`updates, r`listed, r.updates.Values, r.owners, r.request`resources
      ensures fresh(r.updates.Values - old(r.updates.Values))
      ensures ok == GivenUpdates(s, p, call).Some? && (ok ==> r.Collects(GivenUpdates(s, p, call).value))
      ensures p.closed == (old(p.closed) || (p.Subscribed(Updates) && call.Dies?))
    {
      hide RunUpdates, AskedBy, Result.Collects;
      var relayed := AskUpdate(p, call, r, s);
      match relayed
      case Error => ok := false;
      case Nothing => ok := true;
      case Reply(us) => ok := r.UpdateAll(us, p.Name(), s);
    }

    method AskUpdate(p: Plugin, call: Outcome<seq<Update>>, r: Result, ghost s: Updating)
      returns (relayed: Relayed<seq<Update>>)
      requires r.Collects(s)
      modifies p`closed
      ensures relayed == RelayedAs(p.updates, call) && r.Collects(s)
      ensures p.closed == (old(p.closed) || (p.Subscribed(Updates) && call.Dies?))
    {
      hide LinuxResources.Value, Away, OwnersFor;
      relayed := p.Relay(p.updates, call);
    }
  }
}
