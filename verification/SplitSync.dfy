/**
  Split synchronization: a plugin is sent the pods and containers of the runtime, in smaller
  chunks if a message turns out to be oversized, and the plugin's stub puts the chunks together.
 */
module SplitSync {
  import opened Prelude

  const MIN_OBJS_PER_MSG: nat := 8

  datatype Batch<+P, +C> = Batch(pods: seq<P>, ctrs: seq<C>)

  datatype Request<+P, +C> = Request(objs: Batch<P, C>, more: bool)

  datatype Reply<+U> = Reply(update: seq<U>, more: bool)

  function Plus<P, C>(a: Batch<P, C>, b: Batch<P, C>): Batch<P, C> {
    Batch(a.pods + b.pods, a.ctrs + b.ctrs)
  }

  /**
    How a plugin takes sync requests: it collects chunks, it takes each message as the whole state, or it has no
    handler.
   */
  datatype Kind = Splits | Whole | NoHandler

  /** What becomes of one message; handled is the result of the plugin's handler, None if it fails. */
  datatype Verdict<+U> =
    | Delivered(handled: Option<seq<U>>)
    | Oversized(maxLen: nat, msgLen: nat)
    | Exhausted
    | Failed(reached: bool)

  datatype Outcome<+U> = Synced(update: seq<U>) | Refused | TimedOut | Panicked

  // ---------------------------------------------------------------- the receiving stub

  /** The plugin as the protocol sees it: the chunks collected so far and the batches its handler ran on. */
  datatype Peer<+P, +C> = Peer(kind: Kind, syncReq: Option<Batch<P, C>>, runs: seq<Batch<P, C>>) {
    function Collected(): Batch<P, C> {
      if syncReq.Some? then syncReq.value else Batch([], [])
    }

    function Receive(req: Request<P, C>): Peer<P, C> {
      match kind
      case NoHandler => this
      case Whole => this.(runs := runs + [req.objs])
      case Splits =>
        if req.more then this.(syncReq := Some(Plus(Collected(), req.objs)))
        else this.(syncReq := None, runs := runs + [Plus(Collected(), req.objs)])
    }
  }

  function Answer<P, C, U>(kind: Kind, req: Request<P, C>, handled: Option<seq<U>>): Option<Reply<U>> {
    match kind
    case NoHandler => Some(Reply([], req.more))
    case Whole => if handled.Some? then Some(Reply(handled.value, false)) else None
    case Splits =>
      if req.more then Some(Reply([], true))
      else if handled.Some? then Some(Reply(handled.value, false))
      else None
  }

  class Stub<P, C, U> {
    const kind: Kind
    var started: bool
    var syncReq: Option<Batch<P, C>>
    ghost var runs: seq<Batch<P, C>>

    constructor (kind: Kind)
      ensures View() == Peer(kind, None, []) && !started
    {
      this.kind := kind;
      started, syncReq := false, None;
      runs := [];
    }

    ghost function View(): Peer<P, C>
      reads this
    {
      Peer(kind, syncReq, runs)
    }

    method Synchronize(req: Request<P, C>, handled: Option<seq<U>>) returns (rpl: Option<Reply<U>>)
      modifies this`syncReq, this`runs
      ensures View() == old(View()).Receive(req)
      ensures rpl == Answer(kind, req, handled)
    {
      match kind
      case NoHandler => return Some(Reply([], req.more));
      case Whole =>
        runs := runs + [req.objs];
        return if handled.Some? then Some(Reply(handled.value, false)) else None;
      case Splits =>
        if req.more {
          rpl := CollectSync(req);
        } else {
          rpl := DeliverSync(req, handled);
        }
    }

    method CollectSync(req: Request<P, C>) returns (rpl: Option<Reply<U>>)
      requires kind == Splits && req.more
      modifies this`syncReq, this`runs
      ensures View() == old(View()).Receive(req) && rpl == Some(Reply([], true))
    {
      PlusNothing(req.objs);
      if syncReq == None {
        syncReq := Some(req.objs);
      } else {
        syncReq := Some(Batch(syncReq.value.pods + req.objs.pods, syncReq.value.ctrs + req.objs.ctrs));
      }
      rpl := Some(Reply([], req.more));
    }

    method DeliverSync(req: Request<P, C>, handled: Option<seq<U>>) returns (rpl: Option<Reply<U>>)
      requires kind == Splits && !req.more
      modifies this`syncReq, this`runs
      ensures View() == old(View()).Receive(req) && rpl == Answer(kind, req, handled)
    {
      PlusNothing(req.objs);
      var all := syncReq;
      syncReq := None;
      if all == None {
        all := Some(req.objs);
      } else {
        all := Some(Batch(all.value.pods + req.objs.pods, all.value.ctrs + req.objs.ctrs));
      }
      runs := runs + [all.value];
      rpl := if handled.Some? then Some(Reply(handled.value, false)) else None;
    }

    /** Starting fails if the stub is started, or does not come up: cannot connect, register or be configured. */
    method Start(comesUp: bool) returns (ok: bool)
      modifies this`started
      ensures ok == (!old(started) && comesUp) && started == (old(started) || comesUp)
    {
      if started {
        return false;
      }
      started := comesUp;
      ok := comesUp;
    }

    method Close()
      modifies this`started, this`syncReq
      ensures !started && View() == if old(started) then old(View()).(syncReq := None) else old(View())
    {
      if !started {
        return;
      }
      started, syncReq := false, None;
    }
  }

  // ---------------------------------------------------------------- the sender

  /** n * num / den, cut off towards zero. */
  function Scale(n: nat, num: nat, den: nat): (r: nat)
    requires 0 < den
    ensures num < den ==> r <= n && (n > 0 ==> r < n)
  {
    assert n * num >= 0;
    assert n * num / den >= 0;
    if num < den then
      Scaled(n, num, den);
      n * num / den
    else
      n * num / den
  }

  /** The factor by which to shrink: maxLen / msgLen, but at most 9 / 10. */
  function Factor(maxLen: nat, msgLen: nat): (r: (nat, nat))
    requires 0 < maxLen < msgLen
    ensures 0 < r.0 < r.1 && 10 * r.0 <= 9 * r.1
  {
    if 10 * maxLen > 9 * msgLen then (9, 10) else (maxLen, msgLen)
  }

  /** The new counts per message after one was rejected; None gives up. */
  function Recalc(pods: nat, ctrs: nat, maxLen: nat, msgLen: nat): Option<(nat, nat)> {
    if pods + ctrs <= MIN_OBJS_PER_MSG then None
    else if msgLen == 0 || maxLen == 0 || msgLen <= maxLen then None
    else
      var (num, den) := Factor(maxLen, msgLen);
      var (p, c) := (Scale(pods, num, den), Scale(ctrs, num, den));
      Some(if p + c < MIN_OBJS_PER_MSG then (MIN_OBJS_PER_MSG / 2, MIN_OBJS_PER_MSG / 2) else (p, c))
  }

  /** What is left to send, what lies behind it in the same backing arrays, and how much goes into a message. */
  datatype Sender<+P, +C> = Sender(left: Batch<P, C>, spare: Batch<P, C>, podsPerMsg: nat, ctrsPerMsg: nat) {
    /** Slicing beyond the capacity panics; slicing beyond the length takes what lies behind. */
    predicate BeyondCapacity() {
      podsPerMsg > |left.pods| + |spare.pods| || ctrsPerMsg > |left.ctrs| + |spare.ctrs|
    }

    predicate Within() {
      podsPerMsg <= |left.pods| && ctrsPerMsg <= |left.ctrs|
    }

    predicate More() {
      |left.pods| > podsPerMsg || |left.ctrs| > ctrsPerMsg
    }

    function Message(): Request<P, C>
      requires !BeyondCapacity()
    {
      Request(Batch((left.pods + spare.pods)[..podsPerMsg], (left.ctrs + spare.ctrs)[..ctrsPerMsg]), More())
    }

    function Acknowledged(): Sender<P, C>
      requires Within()
    {
      var (pods, ctrs) := (left.pods[podsPerMsg..], left.ctrs[ctrsPerMsg..]);
      Sender(Batch(pods, ctrs), spare,
             if podsPerMsg > |pods| then |pods| else podsPerMsg,
             if ctrsPerMsg > |ctrs| then |ctrs| else ctrsPerMsg)
    }

    predicate Stuck() {
      podsPerMsg == 0 && ctrsPerMsg == 0 && More()
    }

    /** A list has objects left, but no message will take any. */
    predicate Starved() {
      (podsPerMsg == 0 && left.pods != []) || (ctrsPerMsg == 0 && left.ctrs != [])
    }

    function Measure(): nat {
      |left.pods| + |left.ctrs| + podsPerMsg + ctrsPerMsg
    }
  }

  datatype Next<+P, +C, +U> = Done(outcome: Outcome<U>) | Again(sender: Sender<P, C>)

  function Start<P, C>(objs: Batch<P, C>, spare: Batch<P, C>): Sender<P, C> {
    Sender(objs, spare, |objs.pods|, |objs.ctrs|)
  }

  function OnReply<P, C, U>(s: Sender<P, C>, rpl: Option<Reply<U>>): Next<P, C, U> {
    if rpl == None then Done(Refused)
    else if !s.More() then Done(Synced(rpl.value.update))
    else if rpl.value.update != [] || !rpl.value.more then Done(Refused)
    else if !s.Within() then Done(Panicked)
    else Again(s.Acknowledged())
  }

  function OnOversized<P, C, U>(s: Sender<P, C>, maxLen: nat, msgLen: nat): Next<P, C, U> {
    match Recalc(s.podsPerMsg, s.ctrsPerMsg, maxLen, msgLen)
    case None => Done(Refused)
    case Some((pods, ctrs)) => Again(s.(podsPerMsg := pods, ctrsPerMsg := ctrs))
  }

  function Step<P, C, U>(s: Sender<P, C>, p: Peer<P, C>, v: Verdict<U>): (Next<P, C, U>, Peer<P, C>) {
    if s.BeyondCapacity() then (Done(Panicked), p)
    else
      match v
      case Delivered(handled) => (OnReply(s, Answer(p.kind, s.Message(), handled)), p.Receive(s.Message()))
      case Oversized(maxLen, msgLen) => (OnOversized(s, maxLen, msgLen), p)
      case Exhausted => (Done(Refused), p)
      case Failed(reached) => (Done(Refused), if reached then p.Receive(s.Message()) else p)
  }

  /** A whole synchronization; the request times out once the script of verdicts has run out. */
  function Exchange<P, C, U>(s: Sender<P, C>, p: Peer<P, C>, script: seq<Verdict<U>>): (Outcome<U>, Peer<P, C>)
    decreases |script|
  {
    if script == [] then (if s.BeyondCapacity() then Panicked else TimedOut, p)
    else
      var (next, q) := Step(s, p, script[0]);
      match next
      case Done(outcome) => (outcome, q)
      case Again(t) => Exchange(t, q, script[1..])
  }

  class Plugin<P, C, U> {
    const impl: Stub<P, C, U>
    var closed: bool

    constructor (impl: Stub<P, C, U>)
      ensures this.impl == impl && !closed
    {
      this.impl := impl;
      closed := false;
    }

    /** Sends everything; on a panic nothing after it is part of this model. */
    method Synchronize(objs: Batch<P, C>, spare: Batch<P, C>, script: seq<Verdict<U>>) returns (outcome: Outcome<U>)
      modifies this, impl
      ensures (outcome, impl.View()) == Exchange(Start(objs, spare), old(impl.View()), script)
      ensures closed == (old(closed) || outcome.Refused? || outcome.TimedOut?)
    {
      var podsToSend, ctrsToSend := objs.pods, objs.ctrs;
      var podsPerMsg: nat, ctrsPerMsg: nat := |podsToSend|, |ctrsToSend|;
      var i := 0;
      ghost var before := impl.View();
      while true
        invariant i <= |script| && closed == old(closed)
        invariant Exchange(Sender(Batch(podsToSend, ctrsToSend), spare, podsPerMsg, ctrsPerMsg), impl.View(),
                           script[i..]) ==
                  Exchange(Start(objs, spare), before, script)
        decreases |script| - i
      {
        ghost var s := Sender(Batch(podsToSend, ctrsToSend), spare, podsPerMsg, ctrsPerMsg);
        var podArray, ctrArray := podsToSend + spare.pods, ctrsToSend + spare.ctrs;
        if podsPerMsg > |podArray| || ctrsPerMsg > |ctrArray| {
          return Panicked;
        }
        var req := Request(Batch(podArray[..podsPerMsg], ctrArray[..ctrsPerMsg]),
                           |podsToSend| > podsPerMsg || |ctrsToSend| > ctrsPerMsg);
        if i == |script| {
          closed := true;
          return TimedOut;
        }
        var verdict := script[i];
        assert script[i..][0] == verdict && script[i..][1..] == script[i + 1..];
        i := i + 1;
        match verdict
        case Delivered(handled) =>
          var rpl := impl.Synchronize(req, handled);
          if rpl == None {
            closed := true;
            return Refused;
          }
          if !req.more {
            return Synced(rpl.value.update);
          }
          if |rpl.value.update| > 0 || rpl.value.more != req.more {
            closed := true;
            return Refused;
          }
          if podsPerMsg > |podsToSend| || ctrsPerMsg > |ctrsToSend| {
            return Panicked;
          }
          podsToSend, ctrsToSend := podsToSend[podsPerMsg..], ctrsToSend[ctrsPerMsg..];
          if podsPerMsg > |podsToSend| {
            podsPerMsg := |podsToSend|;
          }
          if ctrsPerMsg > |ctrsToSend| {
            ctrsPerMsg := |ctrsToSend|;
          }
        case Oversized(maxLen, msgLen) =>
          var counts := Recalc(podsPerMsg, ctrsPerMsg, maxLen, msgLen);
          if counts == None {
            closed := true;
            return Refused;
          }
          podsPerMsg, ctrsPerMsg := counts.value.0, counts.value.1;
        case Exhausted =>
          closed := true;
          return Refused;
        case Failed(reached) =>
          if reached {
            var _ := impl.Synchronize(req, None);
          }
          closed := true;
          return Refused;
      }
    }
  }

  // ---------------------------------------------------------------- chunk sizes

  lemma TimesIsMonotone(a: nat, b: nat, c: nat)
    requires a <= b
    ensures a * c <= b * c
  {
  }

  lemma TimesReflects(a: nat, b: nat, c: nat)
    requires a * c < b * c
    ensures a < b
  {
    if a >= b {
      TimesIsMonotone(b, a, c);
    }
  }

  lemma Scaled(n: nat, num: nat, den: nat)
    requires num < den
    ensures n * num / den <= n && (n > 0 ==> n * num / den < n)
  {
    var q := n * num / den;
    TimesIsMonotone(num, den, n);
    if n == 0 {
      assert n * num == 0;
    } else {
      assert q * den <= n * num < n * den;
      TimesReflects(q, n, den);
    }
  }

  /**
    When a rejection is the end: at most 8 objects were sent, the error does not say how long the message
    was and may be, or it says that it was not too long.
   */
  lemma RecalcGivesUpIff(pods: nat, ctrs: nat, maxLen: nat, msgLen: nat)
    ensures Recalc(pods, ctrs, maxLen, msgLen) == None <==>
            pods + ctrs <= 8 || maxLen == 0 || msgLen == 0 || msgLen <= maxLen
  {
  }

  /** An accepted recalculation asks for at least 8 objects and for fewer than before. */
  lemma RecalcShrinks(pods: nat, ctrs: nat, maxLen: nat, msgLen: nat)
    requires Recalc(pods, ctrs, maxLen, msgLen).Some?
    ensures var (p, c) := Recalc(pods, ctrs, maxLen, msgLen).value;
            8 <= p + c < pods + ctrs && ((p <= pods && c <= ctrs) || (p, c) == (4, 4))
  {
  }

  /**
    What a count is shrunk to: as much as would fit at the rejected message's size for each object, and at most
    nine tenths.
   */
  lemma ScaleFits(n: nat, k: nat, maxLen: nat, msgLen: nat)
    requires 0 < maxLen < msgLen
    ensures var (num, den) := Factor(maxLen, msgLen);
            k <= Scale(n, num, den) <==> k * msgLen <= n * maxLen && 10 * k <= 9 * n
  {
    var (num, den) := Factor(maxLen, msgLen);
    AtMostQuotient(k, n * num, den);
    if 10 * maxLen > 9 * msgLen {
      if 10 * k <= 9 * n {
        TenthsFit(n, k, maxLen, msgLen);
      }
    } else if k * msgLen <= n * maxLen {
      FitIsTenths(n, k, maxLen, msgLen);
    }
  }

  lemma TenthsFit(n: nat, k: nat, maxLen: nat, msgLen: nat)
    requires 9 * msgLen <= 10 * maxLen && 10 * k <= 9 * n
    ensures k * msgLen <= n * maxLen
  {
    TimesIsMonotone(10 * k, 9 * n, msgLen);
    TimesIsMonotone(9 * msgLen, 10 * maxLen, n);
    assert (10 * k) * msgLen == 10 * (k * msgLen);
    assert (9 * n) * msgLen == (9 * msgLen) * n;
    assert (10 * maxLen) * n == 10 * (n * maxLen);
  }

  lemma FitIsTenths(n: nat, k: nat, maxLen: nat, msgLen: nat)
    requires 0 < msgLen && 10 * maxLen <= 9 * msgLen && k * msgLen <= n * maxLen
    ensures 10 * k <= 9 * n
  {
    TimesIsMonotone(10 * maxLen, 9 * msgLen, n);
    assert (10 * k) * msgLen == 10 * (k * msgLen);
    assert (10 * maxLen) * n == 10 * (n * maxLen);
    assert (9 * msgLen) * n == (9 * n) * msgLen;
    TimesReflectsAtMost(10 * k, 9 * n, msgLen);
  }

  lemma AtMostQuotient(k: nat, a: nat, den: nat)
    requires 0 < den
    ensures k <= a / den <==> k * den <= a
  {
    assert a == den * (a / den) + a % den;
    if k <= a / den {
      TimesIsMonotone(k, a / den, den);
    } else {
      TimesIsMonotone(a / den + 1, k, den);
    }
  }

  lemma TimesReflectsAtMost(a: nat, b: nat, c: nat)
    requires 0 < c && a * c <= b * c
    ensures a <= b
  {
    if a > b {
      TimesIsMonotone(b + 1, a, c);
    }
  }

  /**
    Unless it falls back, a recalculation asks for as many of each kind as fit, by the share of the
    rejected message that was allowed: one more would not.
   */
  lemma RecalcAsksForWhatFits(pods: nat, ctrs: nat, maxLen: nat, msgLen: nat, n: nat)
    requires Recalc(pods, ctrs, maxLen, msgLen).Some? && !FallsBack(pods, ctrs, maxLen, msgLen)
    ensures var (p, c) := Recalc(pods, ctrs, maxLen, msgLen).value;
            (n <= p <==> n * msgLen <= pods * maxLen && 10 * n <= 9 * pods) &&
            (n <= c <==> n * msgLen <= ctrs * maxLen && 10 * n <= 9 * ctrs)
  {
    ScaleFits(pods, n, maxLen, msgLen);
    ScaleFits(ctrs, n, maxLen, msgLen);
  }

  /** Whether a recalculation falls back to 4 pods and 4 containers, however few there are. */
  predicate FallsBack(pods: nat, ctrs: nat, maxLen: nat, msgLen: nat)
    requires 0 < maxLen < msgLen
  {
    var (num, den) := Factor(maxLen, msgLen);
    Scale(pods, num, den) + Scale(ctrs, num, den) < MIN_OBJS_PER_MSG
  }

  /** It falls back if and only if no 8 objects fit. */
  lemma FallsBackIff(pods: nat, ctrs: nat, maxLen: nat, msgLen: nat)
    requires 0 < maxLen < msgLen
    ensures FallsBack(pods, ctrs, maxLen, msgLen) <==>
            forall n: nat, m: nat :: FitsIn(n, pods, maxLen, msgLen) && FitsIn(m, ctrs, maxLen, msgLen) ==> n + m < 8
  {
    var (num, den) := Factor(maxLen, msgLen);
    var (p, c) := (Scale(pods, num, den), Scale(ctrs, num, den));
    forall n: nat ensures FitsIn(n, pods, maxLen, msgLen) <==> n <= p {
      ScaleFits(pods, n, maxLen, msgLen);
    }
    forall m: nat ensures FitsIn(m, ctrs, maxLen, msgLen) <==> m <= c {
      ScaleFits(ctrs, m, maxLen, msgLen);
    }
    assert FitsIn(p, pods, maxLen, msgLen) && FitsIn(c, ctrs, maxLen, msgLen);
  }

  /** So many of the objects rejected fit, by the share of the message that was allowed and nine tenths at most. */
  predicate FitsIn(n: nat, objs: nat, maxLen: nat, msgLen: nat) {
    n * msgLen <= objs * maxLen && 10 * n <= 9 * objs
  }

  /** The only way to ask for more than there is: falling back with fewer than 4 objects of a kind left. */
  lemma RecalcStaysWithin<P, C>(s: Sender<P, C>, maxLen: nat, msgLen: nat)
    requires s.Within() && Recalc(s.podsPerMsg, s.ctrsPerMsg, maxLen, msgLen).Some?
    ensures var (p, c) := Recalc(s.podsPerMsg, s.ctrsPerMsg, maxLen, msgLen).value;
            s.(podsPerMsg := p, ctrsPerMsg := c).Within() <==>
            FallsBack(s.podsPerMsg, s.ctrsPerMsg, maxLen, msgLen) ==> |s.left.pods| >= 4 && |s.left.ctrs| >= 4
  {
  }

  // ---------------------------------------------------------------- delivery

  /** No message of the run takes more than what is left to send. */
  ghost predicate Fits<P, C, U>(s: Sender<P, C>, p: Peer<P, C>, script: seq<Verdict<U>>)
    decreases |script|
  {
    s.Within() &&
    (script != [] && Step(s, p, script[0]).0.Again? ==>
       Fits(Step(s, p, script[0]).0.sender, Step(s, p, script[0]).1, script[1..]))
  }

  /** Counts beyond what is left come from falling back only, and then one message cannot take it all. */
  predicate Tame<P, C>(s: Sender<P, C>) {
    s.Within() || (s.podsPerMsg == 4 && s.ctrsPerMsg == 4 && |s.left.pods| + |s.left.ctrs| > MIN_OBJS_PER_MSG)
  }

  lemma StepStaysTame<P, C, U>(s: Sender<P, C>, p: Peer<P, C>, v: Verdict<U>)
    requires Tame(s)
    ensures Step(s, p, v).0.Again? ==> Tame(Step(s, p, v).0.sender)
    ensures Step(s, p, v).0 == Done(Panicked) ==> !s.Within()
    ensures Step(s, p, v).0.Done? && Step(s, p, v).0.outcome.Synced? ==> s.Within()
    ensures v.Oversized? && !s.Within() ==> Step(s, p, v).0.Done?
  {
  }

  ghost predicate Collecting<P, C>(p: Peer<P, C>) {
    p.kind != NoHandler && (p.kind == Whole ==> p.syncReq == None)
  }

  lemma PlusNothing<P, C>(b: Batch<P, C>)
    ensures Plus(Batch([], []), b) == b
  {
    assert [] + b.pods == b.pods && [] + b.ctrs == b.ctrs;
  }

  lemma LastMessage<P, C>(s: Sender<P, C>)
    requires s.Within() && !s.More()
    ensures s.Message().objs == s.left
  {
    assert (s.left.pods + s.spare.pods)[..s.podsPerMsg] == s.left.pods;
    assert (s.left.ctrs + s.spare.ctrs)[..s.ctrsPerMsg] == s.left.ctrs;
  }

  lemma {:induction false} DeliveredOnce<P, C, U>(s: Sender<P, C>, p: Peer<P, C>, script: seq<Verdict<U>>)
    requires Collecting(p) && Tame(s) && Exchange(s, p, script).0.Synced?
    ensures Exchange(s, p, script).1 == p.(syncReq := None, runs := p.runs + [Plus(p.Collected(), s.left)])
    ensures Fits(s, p, script)
    decreases |script|
  {
    var (next, q) := Step(s, p, script[0]);
    StepStaysTame(s, p, script[0]);
    match next
    case Done(_) =>
      LastMessage(s);
      PlusNothing(s.left);
    case Again(t) =>
      DeliveredOnce(t, q, script[1..]);
      if script[0].Delivered? {
        AcknowledgedKeeps(s, p);
      }
  }

  /**
    Whatever messages are rejected as oversized, whatever lies behind the two lists: if the
    synchronization of a plugin that has collected nothing succeeds, the plugin's handler ran exactly
    once, on exactly the pods and containers in order, and the plugin is left with nothing collected.
   */
  lemma DeliveredExactly<P, C, U>(objs: Batch<P, C>, spare: Batch<P, C>, p: Peer<P, C>, script: seq<Verdict<U>>)
    requires p.kind != NoHandler && p.syncReq == None
    requires Exchange(Start(objs, spare), p, script).0.Synced?
    ensures Exchange(Start(objs, spare), p, script).1 == p.(runs := p.runs + [objs])
    ensures Fits(Start(objs, spare), p, script)
  {
    DeliveredOnce(Start(objs, spare), p, script);
    PlusNothing(objs);
  }

  /**
    What a successful synchronization returns: the updates of the message that ended it, on which the
    plugin's handler ran, or none for a plugin without a handler. No message before it ran the handler.
   */
  lemma {:induction false} OutcomeIsAnswer<P, C, U>(s: Sender<P, C>, p: Peer<P, C>, script: seq<Verdict<U>>)
    returns (i: nat)
    requires Tame(s) && Exchange(s, p, script).0.Synced?
    ensures i < |script| && script[i].Delivered?
    ensures p.kind == NoHandler ==> Exchange(s, p, script).0 == Synced([])
    ensures p.kind != NoHandler ==> script[i] == Delivered(Some(Exchange(s, p, script).0.update))
    ensures var (before, after) := (Exchange(s, p, script[..i]).1, Exchange(s, p, script[..i + 1]).1);
            && before.runs == p.runs && after == Exchange(s, p, script).1
            && |after.runs| == |p.runs| + if p.kind == NoHandler then 0 else 1
    decreases |script|
  {
    var (next, q) := Step(s, p, script[0]);
    StepStaysTame(s, p, script[0]);
    match next
    case Done(_) =>
      i := 0;
      assert script[..0] == [] && script[..1][0] == script[0];
    case Again(t) =>
      AgainRunsNothing(s, p, script[0]);
      var j := OutcomeIsAnswer(t, q, script[1..]);
      i := j + 1;
      assert script[..i][0] == script[0] && script[..i][1..] == script[1..][..j];
      assert script[..i + 1][0] == script[0] && script[..i + 1][1..] == script[1..][..j + 1];
  }

  /** A message that is acknowledged with more to come has not run the handler, unless it is taken as the whole. */
  lemma AgainRunsNothing<P, C, U>(s: Sender<P, C>, p: Peer<P, C>, v: Verdict<U>)
    requires Step(s, p, v).0.Again?
    ensures Step(s, p, v).1.runs == p.runs && Step(s, p, v).1.kind == p.kind
  {
  }

  /** What has been collected and what is left add up to the same after an acknowledged chunk. */
  lemma AcknowledgedKeeps<P, C>(s: Sender<P, C>, p: Peer<P, C>)
    requires p.kind == Splits && s.Within() && s.More()
    ensures Plus(p.Receive(s.Message()).Collected(), s.Acknowledged().left) == Plus(p.Collected(), s.left)
  {
    var n, m := s.podsPerMsg, s.ctrsPerMsg;
    Cut(s.left.pods, s.spare.pods, n, p.Collected().pods);
    Cut(s.left.ctrs, s.spare.ctrs, m, p.Collected().ctrs);
  }

  lemma Cut<T>(left: seq<T>, spare: seq<T>, n: nat, before: seq<T>)
    requires n <= |left|
    ensures (before + (left + spare)[..n]) + left[n..] == before + left
  {
    assert (left + spare)[..n] == left[..n] && left == left[..n] + left[n..];
  }

  // ---------------------------------------------------------------- panics

  /** The sender after a script that does not end the synchronization. */
  ghost function After<P, C, U>(s: Sender<P, C>, p: Peer<P, C>, script: seq<Verdict<U>>): Option<Sender<P, C>>
    decreases |script|
  {
    if script == [] then Some(s)
    else if Step(s, p, script[0]).0.Again? then
      After(Step(s, p, script[0]).0.sender, Step(s, p, script[0]).1, script[1..])
    else None
  }

  // ---------------------------------------------------------------- how a synchronization ends

  /** The verdict on a message that leaves more to send, or not, ends the synchronization in failure. */
  predicate Refuses<P, C, U>(t: Sender<P, C>, kind: Kind, v: Verdict<U>) {
    var last := t.podsPerMsg >= |t.left.pods| && t.ctrsPerMsg >= |t.left.ctrs|;
    || v == Exhausted || v.Failed?
    || (v.Oversized? && (t.podsPerMsg + t.ctrsPerMsg <= 8 || v.maxLen == 0 || v.msgLen <= v.maxLen))
    || (v == Delivered(None) && kind != NoHandler && (last || kind == Whole))
    || (v.Delivered? && kind == Whole && !last)
  }

  /** The message that takes all that is left gets through to a plugin whose handler, if it has one, succeeds. */
  predicate Completes<P, C, U>(t: Sender<P, C>, kind: Kind, v: Verdict<U>) {
    t.podsPerMsg >= |t.left.pods| && t.ctrsPerMsg >= |t.left.ctrs| && v.Delivered? &&
    (kind == NoHandler || v.handled.Some?)
  }

  /** The i-th message is sent. */
  ghost predicate SentAt<P, C, U>(s: Sender<P, C>, p: Peer<P, C>, script: seq<Verdict<U>>, i: nat)
    requires i <= |script|
  {
    After(s, p, script[..i]).Some? && !After(s, p, script[..i]).value.BeyondCapacity()
  }

  ghost predicate FailsAt<P, C, U>(s: Sender<P, C>, p: Peer<P, C>, script: seq<Verdict<U>>, i: nat)
    requires i < |script|
  {
    SentAt(s, p, script, i) && Refuses(After(s, p, script[..i]).value, p.kind, script[i])
  }

  ghost predicate SucceedsAt<P, C, U>(s: Sender<P, C>, p: Peer<P, C>, script: seq<Verdict<U>>, i: nat)
    requires i < |script|
  {
    SentAt(s, p, script, i) && Completes(After(s, p, script[..i]).value, p.kind, script[i])
  }

  lemma LaterSent<P, C, U>(s: Sender<P, C>, p: Peer<P, C>, script: seq<Verdict<U>>, i: nat)
    requires i + 1 < |script|
    ensures var (next, q) := Step(s, p, script[0]);
            (FailsAt(s, p, script, i + 1) <==> next.Again? && FailsAt(next.sender, q, script[1..], i)) &&
            (SucceedsAt(s, p, script, i + 1) <==> next.Again? && SucceedsAt(next.sender, q, script[1..], i))
  {
    assert script[..i + 1][0] == script[0] && script[..i + 1][1..] == script[1..][..i];
    if Step(s, p, script[0]).0.Again? {
      AgainRunsNothing(s, p, script[0]);
    }
  }

  lemma FirstSent<P, C, U>(s: Sender<P, C>, p: Peer<P, C>, script: seq<Verdict<U>>)
    requires script != []
    ensures FailsAt(s, p, script, 0) <==> Step(s, p, script[0]).0 == Done(Refused)
    ensures SucceedsAt(s, p, script, 0) <==> Step(s, p, script[0]).0.Done? && Step(s, p, script[0]).0.outcome.Synced?
  {
    assert script[..0] == [];
    RecalcGivesUpIff(s.podsPerMsg, s.ctrsPerMsg, if script[0].Oversized? then script[0].maxLen else 0,
                     if script[0].Oversized? then script[0].msgLen else 0);
  }

  /**
    How a synchronization ends: it fails if and only if some message that is sent gets a verdict that
    refuses it, and succeeds if and only if one that takes all that is left is answered.
   */
  lemma {:induction false} EndsIff<P, C, U>(s: Sender<P, C>, p: Peer<P, C>, script: seq<Verdict<U>>)
    ensures Exchange(s, p, script).0.Refused? <==> exists i :: 0 <= i < |script| && FailsAt(s, p, script, i)
    ensures Exchange(s, p, script).0.Synced? <==> exists i :: 0 <= i < |script| && SucceedsAt(s, p, script, i)
    decreases |script|
  {
    if script != [] {
      hide FailsAt, SucceedsAt;
      FirstSent(s, p, script);
      var (next, q) := Step(s, p, script[0]);
      forall i | 1 <= i < |script|
        ensures FailsAt(s, p, script, i) <==> next.Again? && FailsAt(next.sender, q, script[1..], i - 1)
        ensures SucceedsAt(s, p, script, i) <==> next.Again? && SucceedsAt(next.sender, q, script[1..], i - 1)
      {
        LaterSent(s, p, script, i - 1);
      }
      if next.Again? {
        EndsIff(next.sender, q, script[1..]);
        if i :| 0 <= i < |script| - 1 && FailsAt(next.sender, q, script[1..], i) {
          assert FailsAt(s, p, script, i + 1);
        }
        if i :| 0 <= i < |script| - 1 && SucceedsAt(next.sender, q, script[1..], i) {
          assert SucceedsAt(s, p, script, i + 1);
        }
      }
    }
  }

  /** A rejection after which the counts fall back although fewer than 4 of a kind are left. */
  predicate Overreaches<P, C>(s: Sender<P, C>, maxLen: nat, msgLen: nat) {
    Recalc(s.podsPerMsg, s.ctrsPerMsg, maxLen, msgLen).Some? && FallsBack(s.podsPerMsg, s.ctrsPerMsg, maxLen, msgLen) &&
    (|s.left.pods| < 4 || |s.left.ctrs| < 4)
  }

  /** Slicing 4 of each kind goes beyond the capacity of one of the two slices. */
  predicate OutOfRoom<P, C>(s: Sender<P, C>) {
    |s.left.pods| + |s.spare.pods| < 4 || |s.left.ctrs| + |s.spare.ctrs| < 4
  }

  /** The i-th message is rejected in that way, and there is no room for the next one, or it is acknowledged. */
  ghost predicate TripsAt<P, C, U>(s: Sender<P, C>, p: Peer<P, C>, script: seq<Verdict<U>>, i: nat)
    requires i < |script|
  {
    var t := After(s, p, script[..i]);
    script[i].Oversized? && t.Some? && Overreaches(t.value, script[i].maxLen, script[i].msgLen) &&
    (OutOfRoom(t.value) || (p.kind != Whole && i + 1 < |script| && script[i + 1].Delivered?))
  }

  lemma FirstTrips<P, C, U>(s: Sender<P, C>, p: Peer<P, C>, script: seq<Verdict<U>>)
    requires script != [] && s.Within()
    ensures var v := script[0];
            TripsAt(s, p, script, 0) <==>
            v.Oversized? && Overreaches(s, v.maxLen, v.msgLen) &&
            (OutOfRoom(s) || (p.kind != Whole && |script| > 1 && script[1].Delivered?))
  {
    assert script[..0] == [];
  }

  lemma LaterTrips<P, C, U>(s: Sender<P, C>, p: Peer<P, C>, script: seq<Verdict<U>>, i: nat)
    requires i + 1 < |script|
    ensures var (next, q) := Step(s, p, script[0]);
            TripsAt(s, p, script, i + 1) <==> next.Again? && TripsAt(next.sender, q, script[1..], i)
  {
    assert script[..i + 1][0] == script[0] && script[..i + 1][1..] == script[1..][..i];
  }

  /** A sender that overreaches panics at the next message, unless it ends without an acknowledgement. */
  lemma Overreached<P, C, U>(s: Sender<P, C>, p: Peer<P, C>, script: seq<Verdict<U>>, maxLen: nat, msgLen: nat)
    requires s.Within() && Overreaches(s, maxLen, msgLen)
    ensures var t := s.(podsPerMsg := 4, ctrsPerMsg := 4);
            Step<P, C, U>(s, p, Oversized(maxLen, msgLen)) == (Again(t), p) &&
            (Exchange(t, p, script).0.Panicked? <==>
             OutOfRoom(s) || (p.kind != Whole && script != [] && script[0].Delivered?)) &&
            (script != [] ==> Step(t, p, script[0]).0.Done?) && !Overreaches(t, maxLen, msgLen)
  {
    var t := s.(podsPerMsg := 4, ctrsPerMsg := 4);
    assert Tame(t) && !t.Within();
    assert t.BeyondCapacity() <==> OutOfRoom(s);
    if script != [] {
      StepStaysTame(t, p, script[0]);
    }
  }

  lemma NothingTripsAfter<P, C, U>(s: Sender<P, C>, p: Peer<P, C>, script: seq<Verdict<U>>, maxLen: nat, msgLen: nat)
    requires s.Within() && Overreaches(s, maxLen, msgLen)
    ensures forall i :: 0 <= i < |script| ==> !TripsAt(s.(podsPerMsg := 4, ctrsPerMsg := 4), p, script, i)
  {
    var t := s.(podsPerMsg := 4, ctrsPerMsg := 4);
    Overreached(s, p, script, maxLen, msgLen);
    forall i | 0 <= i < |script| ensures !TripsAt(t, p, script, i) {
      if i == 0 {
        assert script[..0] == [];
      } else {
        LaterTrips(t, p, script, i - 1);
      }
    }
  }

  ghost predicate Trips<P, C, U>(s: Sender<P, C>, p: Peer<P, C>, script: seq<Verdict<U>>) {
    exists i :: 0 <= i < |script| && TripsAt(s, p, script, i)
  }

  lemma TripsNowOrLater<P, C, U>(s: Sender<P, C>, p: Peer<P, C>, script: seq<Verdict<U>>)
    requires script != []
    ensures var (next, q) := Step(s, p, script[0]);
            Trips(s, p, script) <==> TripsAt(s, p, script, 0) || (next.Again? && Trips(next.sender, q, script[1..]))
  {
    hide TripsAt;
    var (next, q) := Step(s, p, script[0]);
    if i :| 0 < i < |script| && TripsAt(s, p, script, i) {
      LaterTrips(s, p, script, i - 1);
    }
    if next.Again? {
      if i :| 0 <= i < |script[1..]| && TripsAt(next.sender, q, script[1..], i) {
        LaterTrips(s, p, script, i);
      }
    }
  }

  /**
    When a synchronization panics: some rejection of the run makes the counts fall back with fewer
    than 4 pods or 4 containers left, and then the slices have no room for 4 of each, or the next
    message gets through to a plugin that acknowledges it.
   */
  lemma {:induction false} PanicsIffTrips<P, C, U>(s: Sender<P, C>, p: Peer<P, C>, script: seq<Verdict<U>>)
    requires s.Within()
    ensures Exchange(s, p, script).0.Panicked? <==> Trips(s, p, script)
    decreases |script|
  {
    if script != [] {
      hide TripsAt, After;
      var v, rest := script[0], script[1..];
      var (next, q) := Step(s, p, v);
      StepStaysTame(s, p, v);
      FirstTrips(s, p, script);
      TripsNowOrLater(s, p, script);
      if v.Oversized? && Overreaches(s, v.maxLen, v.msgLen) {
        Overreached(s, p, rest, v.maxLen, v.msgLen);
        NothingTripsAfter(s, p, rest, v.maxLen, v.msgLen);
      } else if next.Again? {
        StaysWithin(s, p, v);
        PanicsIffTrips(next.sender, q, rest);
      }
    }
  }

  lemma StaysWithin<P, C, U>(s: Sender<P, C>, p: Peer<P, C>, v: Verdict<U>)
    requires s.Within() && Step(s, p, v).0.Again? && !(v.Oversized? && Overreaches(s, v.maxLen, v.msgLen))
    ensures Step(s, p, v).0.sender.Within() && Step(s, p, v).1.kind == p.kind
  {
    if v.Oversized? {
      RecalcStaysWithin(s, v.maxLen, v.msgLen);
    }
  }

  /** With enough of both kinds to begin with, a second rejection can still panic: 4 pods and 200 containers. */
  lemma SecondRejectionPanics<P, C, U>(objs: Batch<P, C>, p: Peer<P, C>)
    requires |objs.pods| == 4 && |objs.ctrs| == 200 && p.kind == Splits
    ensures var script: seq<Verdict<U>> := [Oversized(9, 10), Delivered(None), Oversized(1, 100)];
            Exchange(Start(objs, Batch([], [])), p, script).0.Panicked?
  {
    var s := Start(objs, Batch([], []));
    var script: seq<Verdict<U>> := [Oversized(9, 10), Delivered(None), Oversized(1, 100)];
    assert script[1..] == [Delivered(None), Oversized(1, 100)] && script[1..][1..] == [Oversized(1, 100)];
    var t := s.(podsPerMsg := 3, ctrsPerMsg := 180);
    assert Step(s, p, script[0]) == (Again(t), p);
    var (u, q) := (t.Acknowledged(), p.Receive(t.Message()));
    assert Step(t, p, script[1]) == (Again(u), q) && u.podsPerMsg == 1 && u.ctrsPerMsg == 20;
    Overreached<P, C, U>(u, q, [], 1, 100);
    assert Exchange(u, q, [Oversized(1, 100)]) == Exchange<P, C, U>(u.(podsPerMsg := 4, ctrsPerMsg := 4), q, []);
  }

  /** In short: a run in which every message fits what is left does not panic. */
  lemma {:induction false} PanicNeedsMisfit<P, C, U>(s: Sender<P, C>, p: Peer<P, C>, script: seq<Verdict<U>>)
    requires Fits(s, p, script)
    ensures !Exchange(s, p, script).0.Panicked?
    decreases |script|
  {
    if script != [] && Step(s, p, script[0]).0.Again? {
      PanicNeedsMisfit(Step(s, p, script[0]).0.sender, Step(s, p, script[0]).1, script[1..]);
    }
  }

  /** The simplest case: the first message is rejected and the second acknowledged. */
  lemma FallingBackPanics<P, C, U>(objs: Batch<P, C>, spare: Batch<P, C>, p: Peer<P, C>, maxLen: nat, msgLen: nat,
                                   handled: Option<seq<U>>)
    requires p.kind == Splits && Recalc(|objs.pods|, |objs.ctrs|, maxLen, msgLen).Some?
    ensures Exchange(Start(objs, spare), p, [Oversized(maxLen, msgLen), Delivered(handled)]).0.Panicked? <==>
            FallsBack(|objs.pods|, |objs.ctrs|, maxLen, msgLen) && (|objs.pods| < 4 || |objs.ctrs| < 4)
  {
    var script := [Oversized(maxLen, msgLen), Delivered(handled)];
    var s := Start(objs, spare);
    FirstTrips(s, p, script);
    assert script[..1] == [script[0]] && [script[0]][1..] == [];
    PanicsIffTrips(s, p, script);
  }

  /**
    Whatever happens, the handler of a plugin that collects chunks runs at most once, and not on failures short
    of it.
   */
  lemma {:induction false} RunsAtMostOnce<P, C, U>(s: Sender<P, C>, p: Peer<P, C>, script: seq<Verdict<U>>)
    requires p.kind == Splits
    ensures var (outcome, q) := Exchange(s, p, script);
            q.kind == Splits && p.runs <= q.runs && |q.runs| <= |p.runs| + 1 &&
            (outcome.Synced? ==> |q.runs| == |p.runs| + 1) && (outcome.TimedOut? ==> q.runs == p.runs)
    decreases |script|
  {
    if script != [] && Step(s, p, script[0]).0.Again? {
      RunsAtMostOnce(Step(s, p, script[0]).0.sender, Step(s, p, script[0]).1, script[1..]);
    }
  }

  /** One attempt of a plugin to connect; it is synchronized only if it comes up. */
  datatype Session<+P, +C, +U> = Session(comesUp: bool, objs: Batch<P, C>, spare: Batch<P, C>, script: seq<Verdict<U>>)

  /** A plugin that connects again and again: the connection is closed whenever a synchronization fails. */
  function Sessions<P, C, U>(p: Peer<P, C>, sessions: seq<Session<P, C, U>>): Peer<P, C> {
    if sessions == [] then p
    else
      var last, before := sessions[|sessions| - 1], Sessions(p, sessions[..|sessions| - 1]);
      if !last.comesUp then before
      else
        var (outcome, q) := Exchange(Start(last.objs, last.spare), before, last.script);
        if outcome.Synced? then q else q.(syncReq := None)
  }

  /** Nothing of an earlier session, however it ended, gets into a later one. */
  lemma {:induction false} SessionsAreSeparate<P, C, U>(p: Peer<P, C>, sessions: seq<Session<P, C, U>>,
                                                        last: Session<P, C, U>)
    requires p.kind == Splits && p.syncReq == None
    ensures var q := Sessions(p, sessions);
            q.kind == Splits && q.syncReq == None &&
            (last.comesUp && Exchange(Start(last.objs, last.spare), q, last.script).0.Synced? ==>
               Sessions(p, sessions + [last]) == q.(runs := q.runs + [last.objs]))
    decreases |sessions|
  {
    assert (sessions + [last])[..|sessions|] == sessions;
    var q := Sessions(p, sessions);
    if sessions != [] {
      var front, session := sessions[..|sessions| - 1], sessions[|sessions| - 1];
      assert sessions == front + [session];
      SessionsAreSeparate(p, front, session);
      RunsAtMostOnce(Start(session.objs, session.spare), Sessions(p, front), session.script);
    }
    if Exchange(Start(last.objs, last.spare), q, last.script).0.Synced? {
      DeliveredExactly(last.objs, last.spare, q, last.script);
    }
  }

  // ---------------------------------------------------------------- termination

  /** Every step that is not the last makes the measure smaller, unless no more objects will ever be sent. */
  lemma StepShrinks<P, C, U>(s: Sender<P, C>, p: Peer<P, C>, v: Verdict<U>)
    requires Step(s, p, v).0.Again?
    ensures var t := Step(s, p, v).0.sender;
            if s.Stuck() then t == s && v.Delivered? else t.Measure() < s.Measure()
  {
    if v.Oversized? {
      RecalcShrinks(s.podsPerMsg, s.ctrsPerMsg, v.maxLen, v.msgLen);
    } else if s.Stuck() {
      assert s.left.pods[0..] == s.left.pods && s.left.ctrs[0..] == s.left.ctrs;
    }
  }

  /** A run either ends the synchronization or has taken fewer steps than there were objects and counts, or is stuck. */
  lemma {:induction false} EndsUnlessStuck<P, C, U>(s: Sender<P, C>, p: Peer<P, C>, script: seq<Verdict<U>>)
    ensures var t := After(s, p, script); t.Some? && !t.value.Stuck() ==> t.value.Measure() + |script| <= s.Measure()
    ensures Exchange(s, p, script).0.TimedOut? ==> After(s, p, script).Some?
    decreases |script|
  {
    if script != [] && Step(s, p, script[0]).0.Again? {
      StepShrinks(s, p, script[0]);
      EndsUnlessStuck(Step(s, p, script[0]).0.sender, Step(s, p, script[0]).1, script[1..]);
      if s.Stuck() {
        StuckStays(s, Step(s, p, script[0]).1, script[1..]);
      }
    }
  }

  lemma {:induction false} StuckStays<P, C, U>(s: Sender<P, C>, p: Peer<P, C>, script: seq<Verdict<U>>)
    requires s.Stuck()
    ensures After(s, p, script).Some? ==> After(s, p, script) == Some(s)
    ensures p.kind != Whole && (forall v :: v in script ==> v.Delivered?) ==> Exchange(s, p, script).0.TimedOut?
    decreases |script|
  {
    if script != [] {
      assert p.kind != Whole && script[0].Delivered? ==> Step(s, p, script[0]).0.Again?;
      if Step(s, p, script[0]).0.Again? {
        StepShrinks(s, p, script[0]);
        StuckStays(s, Step(s, p, script[0]).1, script[1..]);
      }
    }
  }

  /**
    A synchronization of n objects that has not ended after 2n messages never will: it has come to
    send empty chunks with something left, and an acknowledging plugin keeps it there.
   */
  lemma LongRunsAreStuck<P, C, U>(objs: Batch<P, C>, spare: Batch<P, C>, p: Peer<P, C>, script: seq<Verdict<U>>)
    requires Exchange(Start(objs, spare), p, script).0.TimedOut?
    requires |script| > 2 * (|objs.pods| + |objs.ctrs|)
    ensures After(Start(objs, spare), p, script).Some? && After(Start(objs, spare), p, script).value.Stuck()
  {
    EndsUnlessStuck(Start(objs, spare), p, script);
  }

  /** From a point on at which nothing is rejected any more, everything gets sent if and only if no list is starved. */
  lemma {:induction false} DrainsUnlessStarved<P, C, U>(s: Sender<P, C>, p: Peer<P, C>, script: seq<Verdict<U>>)
    requires p.kind == Splits && s.Within() && |script| > |s.left.pods| + |s.left.ctrs|
    requires forall v :: v in script ==> v.Delivered? && v.handled.Some?
    ensures if s.Starved() then Exchange(s, p, script).0.TimedOut? else Exchange(s, p, script).0.Synced?
    decreases |script|
  {
    var (next, q) := Step(s, p, script[0]);
    assert script[0] in script;
    if s.Stuck() {
      StuckStays(s, p, script);
    } else if next.Again? {
      DrainsUnlessStarved(next.sender, q, script[1..]);
    }
  }

  /** Starving takes one oversized message: a single pod beside a hundred containers. */
  lemma OneRejectionStarves<P, C, U>(pod: P, ctrs: seq<C>, spare: Batch<P, C>, p: Peer<P, C>)
    requires |ctrs| == 100
    ensures var s := Start(Batch([pod], ctrs), spare);
            var t := After<P, C, U>(s, p, [Oversized(9, 10)]); t.Some? && t.value.Within() && t.value.Starved()
  {
    var script: seq<Verdict<U>> := [Oversized(9, 10)];
    assert script[1..] == [];
  }
}
