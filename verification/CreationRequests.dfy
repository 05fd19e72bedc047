/**
  A creation request as a whole: the replies of the plugins, each with an adjustment and updates of other
  containers.
 */
module CreationRequests {
  import opened Prelude
  import opened Owners
  import opened Resources
  import opened CreateRuns
  import opened UpdateRuns

  datatype CreateReply = CreateReply(adjust: Option<Adjustment>, updates: seq<Update>)

  /** A reply and the plugin it is from. */
  datatype Replied = Replied(plugin: string, reply: CreateReply)

  /** Updates leave the records of the container under creation to its adjustments. */
  datatype Creating = Creating(creation: Creation, updating: Updating)

  function StartCreating(id: string, o: Original): Creating {
    Creating(StartCreate(o), StartUpdates(Some(id), None, NO_RESOURCES, map[]))
  }

  function AdjustedBy(c: Creation, r: Replied): Option<Creation> {
    if r.reply.adjust.Some? then MergeAdjustment(c, r.plugin, r.reply.adjust.value) else Some(c)
  }

  function ApplyReply(s: Creating, r: Replied): Option<Creating> {
    var (u, ok) := RunUpdates(s.updating, AskedBy(r.plugin, r.reply.updates));
    if AdjustedBy(s.creation, r).Some? && ok then Some(Creating(AdjustedBy(s.creation, r).value, u)) else None
  }

  function RunReplies(s: Creating, replies: seq<Replied>): Option<Creating> {
    if replies == [] then Some(s)
    else
      match RunReplies(s, replies[..|replies| - 1])
      case None => None
      case Some(t) => ApplyReply(t, replies[|replies| - 1])
  }

  function AdjustmentOf(r: Replied): seq<Reply> {
    if r.reply.adjust.Some? then [Reply(r.plugin, r.reply.adjust.value)] else []
  }

  function Adjustments(replies: seq<Replied>): seq<Reply> {
    if replies == [] then []
    else Adjustments(replies[..|replies| - 1]) + AdjustmentOf(replies[|replies| - 1])
  }

  function AllAsked(replies: seq<Replied>): seq<Asked> {
    if replies == [] then []
    else
      var last := replies[|replies| - 1];
      AllAsked(replies[..|replies| - 1]) + AskedBy(last.plugin, last.reply.updates)
  }

  /** In the order of the replies and, within a reply, of its updates. */
  ghost predicate InSequence(at: seq<(nat, nat)>) {
    forall m, n :: 0 <= m < n < |at| ==> at[m].0 < at[n].0 || (at[m].0 == at[n].0 && at[m].1 < at[n].1)
  }

  function Row(i: nat, n: nat): (r: seq<(nat, nat)>)
    ensures |r| == n && forall j :: 0 <= j < n ==> r[j] == (i, j)
  {
    seq(n, j requires 0 <= j < n => (i, j))
  }

  lemma InSequenceMore(at: seq<(nat, nat)>, i: nat, n: nat)
    requires InSequence(at) && forall m :: 0 <= m < |at| ==> at[m].0 < i
    ensures InSequence(at + Row(i, n))
  {
  }

  /** The adjustments are those of the replies that have one, in order. */
  lemma {:induction false} AdjustmentsAre(replies: seq<Replied>) returns (at: seq<nat>)
    ensures |at| == |Adjustments(replies)| && (forall m, n :: 0 <= m < n < |at| ==> at[m] < at[n])
    ensures forall m :: 0 <= m < |at| ==>
                          at[m] < |replies| && replies[at[m]].reply.adjust.Some? &&
                          Adjustments(replies)[m] == Reply(replies[at[m]].plugin, replies[at[m]].reply.adjust.value)
    ensures forall i :: 0 <= i < |replies| && replies[i].reply.adjust.Some? ==> i in at
  {
    at := [];
    if replies != [] {
      var k := |replies| - 1;
      at := AdjustmentsAre(replies[..k]);
      if replies[k].reply.adjust.Some? {
        var before := at;
        at := at + [k];
        assert k in at && forall i :: i in before ==> i in at;
      }
    }
  }

  /** The updates asked for are those of all replies, in order. */
  lemma {:induction false} AllAskedAre(replies: seq<Replied>) returns (at: seq<(nat, nat)>)
    ensures |at| == |AllAsked(replies)| && InSequence(at)
    ensures forall m :: 0 <= m < |at| ==>
                          var (i, j) := at[m];
                          i < |replies| && j < |replies[i].reply.updates| &&
                          AllAsked(replies)[m] == Asked(replies[i].plugin, replies[i].reply.updates[j])
    ensures forall i, j :: 0 <= i < |replies| && 0 <= j < |replies[i].reply.updates| ==> (i, j) in at
  {
    at := [];
    if replies != [] {
      var k := |replies| - 1;
      var before := AllAskedAre(replies[..k]);
      var more := Row(k, |replies[k].reply.updates|);
      InSequenceMore(before, k, |replies[k].reply.updates|);
      at := before + more;
      forall i, j | 0 <= i < |replies| && 0 <= j < |replies[i].reply.updates| ensures (i, j) in at {
        if i == k {
          assert more[j] == (k, j) && (k, j) in more;
        } else {
          assert replies[..k][i] == replies[i] && (i, j) in before;
        }
      }
    }
  }

  /** Adjustments and updates do not interfere: a request is accepted if and only if both are, each on its own. */
  lemma {:induction false} RepliesSplit(s: Creating, replies: seq<Replied>)
    ensures RunReplies(s, replies) ==
            (var (c, u) := (RunCreate(s.creation, Adjustments(replies)), RunUpdates(s.updating, AllAsked(replies)));
             if c.Some? && u.1 then Some(Creating(c.value, u.0)) else None)
  {
    hide MergeAdjustment, ApplyUpdate;
    if replies == [] {
      assert RunCreate(s.creation, []) == Some(s.creation) && RunUpdates(s.updating, []) == (s.updating, true);
    } else {
      var (front, last) := (replies[..|replies| - 1], replies[|replies| - 1]);
      RepliesSplit(s, front);
      RunUpdatesConcat(s.updating, AllAsked(front), AskedBy(last.plugin, last.reply.updates));
      assert Adjustments(replies) == Adjustments(front) + AdjustmentOf(last);
      if last.reply.adjust.Some? {
        assert Adjustments(replies)[..|Adjustments(front)|] == Adjustments(front);
      } else {
        assert Adjustments(replies) == Adjustments(front);
      }
    }
  }

  /** Records of the container under creation make no difference to updates, and are not touched by them. */
  lemma {:induction false} UpdatesIgnoreCreating(s: Updating, o: FieldOwners, asked: seq<Asked>)
    requires s.creating.Some?
    ensures var id := s.creating.value;
            var (t, ok) := RunUpdates(s, asked);
            t.creating == s.creating &&
            RunUpdates(s.(owners := s.owners[id := o]), asked) == (t.(owners := t.owners[id := o]), ok)
  {
    if asked != [] {
      var (front, a) := (asked[..|asked| - 1], asked[|asked| - 1]);
      UpdatesIgnoreCreating(s, o, front);
      if RunUpdates(s, front).1 {
        UpdateIgnoresCreating(RunUpdates(s, front).0, o, a);
      }
    }
  }

  lemma UpdateIgnoresCreating(s: Updating, o: FieldOwners, a: Asked)
    requires s.creating.Some?
    ensures var id := s.creating.value;
            var (t, ok) := ApplyUpdate(s, a);
            t.creating == s.creating &&
            ApplyUpdate(s.(owners := s.owners[id := o]), a) == (t.(owners := t.owners[id := o]), ok)
  {
    var id := s.creating.value;
    var s' := s.(owners := s.owners[id := o]);
    if a.update.id != id {
      ClaimsIgnoreCreating(s, o, a);
      EntryIgnoresCreating(s, o, a.update);
      ResourcesIgnoreOwner(WithEntry(s, a.update), id, o, a.update.id, ClaimedBy(s, a), UpdatedBy(s, a));
    }
    hide ClaimedBy, UpdatedBy, WithEntry, WithResources;
  }

  lemma ClaimsIgnoreCreating(s: Updating, o: FieldOwners, a: Asked)
    requires s.creating.Some? && a.update.id != s.creating.value
    ensures var s' := s.(owners := s.owners[s.creating.value := o]);
            ClaimedBy(s', a) == ClaimedBy(s, a) && UpdatedBy(s', a) == UpdatedBy(s, a)
  {
    hide ClaimAll, UpdateClaims, Updated;
  }

  lemma EntryIgnoresCreating(s: Updating, o: FieldOwners, u: Update)
    requires s.creating.Some?
    ensures var (id, t) := (s.creating.value, WithEntry(s, u));
            t.creating == s.creating && t.owners == s.owners &&
            WithEntry(s.(owners := s.owners[id := o]), u) == t.(owners := t.owners[id := o])
  {
  }

  lemma ResourcesIgnoreOwner(s: Updating, id: string, o: FieldOwners, other: string, c: Claiming, r: Resources)
    requires id != other
    ensures var t := WithResources(s, other, c, r);
            t.creating == s.creating &&
            WithResources(s.(owners := s.owners[id := o]), other, c, r) == t.(owners := t.owners[id := o])
  {
    assert s.owners[id := o][other := c.owners] == s.owners[other := c.owners][id := o];
  }
}
