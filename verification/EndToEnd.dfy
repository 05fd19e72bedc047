/** From a creation request to the Spec: plugins are asked, validators consulted, and the adjustment applied. */
module EndToEnd {
  import opened Prelude
  import opened KeyedLists
  import opened ListMerge
  import opened MountOrder
  import opened Owners
  import opened SpecEdits
  import opened CreateRuns
  import opened UpdateRuns
  import opened CreationRequests
  import opened MergeResult
  import opened Adaptation
  import opened SpecApplier
  import opened Coherence
  import opened ResourceObjects
  import opened Markers
  import opened NamespaceMerge

  /** A response means that the adjustments and the updates of the replies have been accepted, each as one sequence. */
  lemma ResponseIsFold(start: Creating, ps: seq<Plugin>, calls: seq<Outcome<CreateReply>>, vs: seq<Plugin>,
                       verdicts: seq<Outcome<bool>>)
    requires |ps| == |calls| && |vs| == |verdicts|
    requires Response(start, ps, calls, vs, verdicts).Some?
    ensures Passed(vs, verdicts) && Replies(ps, calls).Some?
    ensures var (t, replies) := (Response(start, ps, calls, vs, verdicts).value, Replies(ps, calls).value);
            RunCreate(start.creation, Adjustments(replies)) == Some(t.creation) &&
            RunUpdates(start.updating, AllAsked(replies)) == (t.updating, true)
  {
    hide RunCreate, RunUpdates, ApplyReply, Passed;
    RepliesSplit(start, Replies(ps, calls).value);
  }

  /** The plugins' names and variables are proper, and the original names nothing twice. */
  ghost predicate Proper(o: Original, replies: seq<Reply>) {
    ProperReplies(replies) && ProperSettings(replies) &&
    DistinctKeys(o.mounts) && ProperEnv(o.env) && DistinctKeys(o.devices) && DistinctKeys(o.namespaces)
  }

  /** No original mount, variable or device has been removed without the collected reply saying so. */
  ghost predicate NothingLost(o: Original, replies: seq<Reply>) {
    Lost(true, MountSteps(replies)) !! KeysOf(o.mounts) && Lost(false, EnvSteps(replies)) !! Vars(o.env).Keys &&
    Lost(false, DeviceSteps(replies)) !! KeysOf(o.devices)
  }

  /** Plugins that use no second marker on mounts, and set every variable and device they remove, lose nothing. */
  lemma CarefulPluginsLoseNothing(o: Original, replies: seq<Reply>)
    requires forall i, k :: 0 <= i < |replies| && k in RemovedKeys(replies[i].adjustment.mounts) ==> !Marked(k)
    requires forall i :: 0 <= i < |replies| ==>
                           RemovedKeys(replies[i].adjustment.env) <= KeysOf(Added(replies[i].adjustment.env))
    requires forall i :: 0 <= i < |replies| ==>
                           var devices := Linux(replies[i].adjustment).devices;
                           RemovedKeys(devices) <= KeysOf(Added(devices))
    ensures NothingLost(o, replies)
  {
    hide RemovedKeys, Added, KeysOf, Lost;
    NothingLostWhenRecorded(MountSteps(replies));
    NothingLostWhenPaired(EnvSteps(replies));
    NothingLostWhenPaired(DeviceSteps(replies));
  }

  /** Every namespace type in the collected reply is known to the generator. */
  ghost predicate AllKnown(known: string -> bool, namespaces: seq<Namespace>) {
    forall i :: 0 <= i < |namespaces| ==> known(Bare(namespaces[i].key))
  }

  /** The Spec agrees with the container as the last plugin was shown it. */
  ghost predicate Agrees(spec: Generator, container: Container)
    reads spec, container
  {
    MapOf(spec.mounts) == MapOf(container.mounts) && Vars(spec.env) == Vars(container.env) &&
    MapOf(spec.devices) == MapOf(container.devices) && MapOf(spec.namespaces) == MapOf(container.namespaces)
  }

  /** The same of the values: what applying the collected reply makes of the original. */
  ghost predicate AgreesWith(o: Original, c: Creation, namespaces: seq<Namespace>) {
    MapOf(AdjustedMounts(o.mounts, c.mounts.reply)) == MapOf(c.mounts.view) &&
    Vars(AdjustedEnv(o.env, c.env.reply)) == Vars(c.env.view) &&
    MapOf(Replayed(o.devices, c.devices.reply)) == MapOf(c.devices.view) &&
    MapOf(namespaces) == c.namespaces.view
  }

  ghost predicate Sound(mounts: seq<Mount>, collected: seq<Mount>) {
    DistinctKeys(mounts) && (collected != [] ==> Ordered(mounts))
  }

  lemma AppliedAgrees(known: string -> bool, o: Original, replies: seq<Reply>, c: Creation)
    requires Proper(o, replies) && ComesTo(o, replies, c) &&
             AdjustedNamespaces(known, o.namespaces, c.namespaces.reply).Some?
    ensures AgreesWith(o, c, AdjustedNamespaces(known, o.namespaces, c.namespaces.reply).value) <==>
            NothingLost(o, replies)
    ensures Sound(AdjustedMounts(o.mounts, c.mounts.reply), c.mounts.reply)
  {
    hide ComesTo, MapOf, Vars, AdjustedMounts, AdjustedEnv, AdjustedNamespaces, DistinctKeys, Replayed, Lost,
      Ordered, KeysOf;
    MountsCoherent(o, replies, c);
    EnvCoherent(o, replies, c);
    DevicesCoherent(o, replies, c);
    NamespacesAgree(known, o, replies, c);
  }

  /** What the objects of a response hold, field by field. */
  lemma CollectedFields(r: Result, container: Container, s: Creating)
    requires Collecting(r, container, s)
    ensures r.create == container && r.adjust != null
    ensures r.adjust.mounts == s.creation.mounts.reply && container.mounts == s.creation.mounts.view
    ensures r.adjust.env == s.creation.env.reply && container.env == s.creation.env.view
    ensures r.adjust.devices == s.creation.devices.reply && container.devices == s.creation.devices.view
    ensures r.adjust.namespaces == s.creation.namespaces.reply &&
            MapOf(container.namespaces) == s.creation.namespaces.view
    ensures r.adjust.resources.Value() == s.creation.resources.reply
    ensures container.resources.Value() == s.creation.resources.view
  {
    hide Result.CollectsBeside, LinuxResources.Value, MapOf;
  }

  /** The records of the response, kind by kind. */
  lemma CollectedOwners(r: Result, container: Container, s: Creating)
    requires Collecting(r, container, s)
    ensures var o := r.owners.For(container.id);
            && (forall k :: o.Owner(Compound(Mounts, k)) == Lookup(s.creation.mounts.own, k))
            && (forall k :: o.Owner(Compound(Env, k)) == Lookup(s.creation.env.own, k))
            && (forall k :: o.Owner(Compound(Devices, k)) == Lookup(s.creation.devices.own, k))
            && (forall k :: o.Owner(Compound(Field.Namespace, k)) == Lookup(s.creation.namespaces.own, k))
            && (forall f :: o.Owner(Simple(f)) == s.creation.resources.owners.Owner(Simple(f)))
            && (forall k :: o.Owner(Compound(HugepageLimits, k)) ==
                            s.creation.resources.owners.Owner(Compound(HugepageLimits, k)))
            && (forall k :: o.Owner(Compound(CgroupsUnified, k)) ==
                            s.creation.resources.owners.Owner(Compound(CgroupsUnified, k)))
  {
    hide Result.CollectsBeside, LinuxResources.Value, MapOf;
  }

  /** The updates of other containers in the response are those pending, as listed. */
  lemma CollectedUpdates(r: Result, container: Container, s: Creating)
    requires Collecting(r, container, s)
    ensures |r.listed| == |s.updating.listed|
    ensures forall i :: 0 <= i < |r.listed| ==> r.listed[i].containerId == s.updating.listed[i]
    ensures forall i :: 0 <= i < |r.listed| ==>
                          Lookup(s.updating.pending, s.updating.listed[i]) ==
                          Some(Pending(r.listed[i].resources.Value(), r.listed[i].ignoreFailure))
  {
    hide Result.Holds, LinuxResources.Value, Away, MapOf;
    assert forall i :: 0 <= i < |r.listed| ==> r.listed[i] in r.listed;
  }

  /**
    Creates a container and applies the response. This succeeds if and only if there is a response and
    every namespace type in it is known. Then the Spec ends up with what the last plugin was shown if
    and only if nothing is lost; its mounts are distinct and, if any were collected, in order.
   */
  method CreateAndApply(r: Adaptation, container: Container, ghost o: Original, calls: seq<Outcome<CreateReply>>,
                        verdicts: seq<Outcome<bool>>, ghost start: Creating, known: string -> bool, spec: Generator)
    returns (ok: bool)
    requires |calls| == |r.plugins| && |verdicts| == |r.validators| && Orderly(calls)
    requires IsOriginal(container, o) && start == StartCreating(container.id, o)
    requires spec.mounts == o.mounts && spec.env == o.env && spec.devices == o.devices &&
             spec.namespaces == o.namespaces
    modifies r, r.plugins`closed, r.validators`closed, container, container.resources.Repr(), spec
    ensures old(r.Settled()) ==> r.Settled()
    ensures var response := Response(start, old(r.plugins), calls, old(r.validators), verdicts);
            && (ok <==> response.Some? && AllKnown(known, response.value.creation.namespaces.reply))
            && (ok && Proper(o, AllReplies(old(r.plugins), calls)) ==>
                  && (Agrees(spec, container) <==> NothingLost(o, AllReplies(old(r.plugins), calls)))
                  && Sound(spec.mounts, response.value.creation.mounts.reply))
  {
    hide Accepted, Passed, RunCreate, RunUpdates, Proper, Collecting, Replies, Adjustments, Orderly,
      Adaptation.Settled, AllKnown;
    hide MapOf, Vars, AdjustedMounts, AdjustedEnv, AdjustedNamespaces, DistinctKeys, Replayed, NothingLost, Sound,
      Response;
    var result := r.CreateContainer(container, o, calls, verdicts, start);
    ghost var response := Response(start, old(r.plugins), calls, old(r.validators), verdicts);
    RespondsIs(result, container, response);
    if result == null {
      return false;
    }
    ghost var c := response.value.creation;
    CollectedFields(result, container, response.value);
    KnownIff(known, o.namespaces, c.namespaces.reply);
    ok := spec.Adjust(known, result.adjust.env, result.adjust.devices, result.adjust.namespaces, result.adjust.mounts);
    if ok {
      ResponseIsFold(start, old(r.plugins), calls, old(r.validators), verdicts);
      ghost var replies := AllReplies(old(r.plugins), calls);
      if Proper(o, replies) {
        AppliedAgrees(known, o, replies, c);
      }
    }
  }

  /** The adjustments in the replies of the plugins, if none of them fails. */
  function AllReplies(ps: seq<Plugin>, calls: seq<Outcome<CreateReply>>): seq<Reply>
    requires |ps| == |calls|
  {
    match Replies(ps, calls)
    case None => []
    case Some(replies) => Adjustments(replies)
  }

  lemma {:induction false} KnownIff(known: string -> bool, original: seq<Namespace>, edits: seq<Namespace>)
    ensures AdjustedNamespaces(known, original, edits).Some? <==> AllKnown(known, edits)
  {
    if edits != [] {
      KnownIff(known, original, edits[..|edits| - 1]);
    }
  }
}
