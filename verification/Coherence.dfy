/**
  The two outcomes of a creation agree: what the runtime makes of the original Spec with the
  collected reply is the container the last plugin was shown.
 */
module Coherence {
  import opened Prelude
  import opened Markers
  import opened KeyedLists
  import opened ListMerge
  import opened EnvMerge
  import opened NamespaceMerge
  import opened ResourceRuns
  import opened CreateRuns
  import opened MountOrder
  import opened SpecEdits

  /** The variables set have names that can be told from their values. */
  ghost predicate ProperSettings(replies: seq<Reply>) {
    forall i :: 0 <= i < |replies| ==> Named(Added(replies[i].adjustment.env))
  }

  /** The replies are accepted, and "c" is what they come to. */
  ghost predicate ComesTo(o: Original, replies: seq<Reply>, c: Creation) {
    RunCreate(StartCreate(o), replies) == Some(c)
  }

  lemma AcceptedKinds(o: Original, replies: seq<Reply>, c: Creation)
    ensures ComesTo(o, replies, c) ==>
              && Run(true, Start(o.mounts), MountSteps(replies)) == Some(c.mounts)
              && RunEnv(StartEnv(o.env), EnvSteps(replies)) == Some(c.env)
              && Run(false, Start(o.devices), DeviceSteps(replies)) == Some(c.devices)
              && RunResources(StartResources(o.resources), ResourceSteps(replies)) == Some(c.resources)
              && RunNamespaces(StartNamespaces(o.namespaces), NamespaceSteps(replies)) == Some(c.namespaces)
  {
    hide Run, RunEnv, RunResources, RunNamespaces;
    KindsAreIndependent(StartCreate(o), replies);
  }

  /**
    Mounts: the Spec ends up with the mounts of the view, in order, if and only if no original
    mount is lost, that is, removed by one plugin and its removal taken back by another with a
    second marker.
   */
  lemma MountsCoherent(o: Original, replies: seq<Reply>, c: Creation)
    requires ProperReplies(replies) && DistinctKeys(o.mounts)
    ensures ComesTo(o, replies, c) ==>
              var applied := AdjustedMounts(o.mounts, c.mounts.reply);
              && (MapOf(applied) == MapOf(c.mounts.view) <==> Lost(true, MountSteps(replies)) !! KeysOf(o.mounts))
              && DistinctKeys(applied) && (c.mounts.reply != [] ==> Ordered(applied))
  {
    hide RunCreate, Run, Lost;
    AcceptedKinds(o, replies, c);
    if ComesTo(o, replies, c) {
      ReplyMeansView(true, o.mounts, MountSteps(replies));
      AdjustedMountsMap(o.mounts, c.mounts.reply);
    }
  }

  /** If no plugin uses a second marker, nothing is lost. */
  lemma MountsCoherentWithoutDoubleMarkers(o: Original, replies: seq<Reply>, c: Creation)
    requires ProperReplies(replies) && DistinctKeys(o.mounts)
    requires forall i, k :: 0 <= i < |replies| && k in RemovedKeys(replies[i].adjustment.mounts) ==> !Marked(k)
    ensures ComesTo(o, replies, c) ==> MapOf(AdjustedMounts(o.mounts, c.mounts.reply)) == MapOf(c.mounts.view)
  {
    hide RunCreate;
    MountsCoherent(o, replies, c);
    NothingLostWhenRecorded(MountSteps(replies));
  }

  lemma EnvEffect(original: seq<string>, reply: seq<KeyValue>)
    requires ProperEnv(original) && Added(reply) == reply && Named(reply) && Settled(reply)
    ensures Vars(AdjustedEnv(original, reply)) == Effect(Vars(original), reply)
  {
    hide AdjustedEnv, Vars, Effect, MapOf, RemovedKeys, Settled, Added;
    AddedUnmarked(reply);
    AdjustedEnvMap(original, reply);
    EffectOfSettled(Vars(original), reply);
    assert Vars(original) - {} == Vars(original);
  }

  /** Environment: the Spec ends up with the variables of the view if and only if no original variable is lost. */
  lemma EnvCoherent(o: Original, replies: seq<Reply>, c: Creation)
    requires ProperReplies(replies) && ProperSettings(replies) && ProperEnv(o.env)
    ensures ComesTo(o, replies, c) ==>
              (Vars(AdjustedEnv(o.env, c.env.reply)) == Vars(c.env.view) <==>
               Lost(false, EnvSteps(replies)) !! Vars(o.env).Keys)
  {
    hide RunCreate, Lost, Coherent, AdjustedEnv, Effect, MergeEnv, Merge;
    var steps := EnvSteps(replies);
    AcceptedKinds(o, replies, c);
    if ComesTo(o, replies, c) {
      RunEnvParsed(o.env, steps);
      ReplyOnlySets(o.env, steps);
      ReplySettled(false, ParsedEnv(o.env), steps);
      ReplyMeansView(false, ParsedEnv(o.env), steps);
      EnvEffect(o.env, c.env.reply);
      MapOfKeys(ParsedEnv(o.env));
    }
  }

  lemma ReplySettled<T>(recorded: bool, original: seq<Entry<T>>, steps: seq<Step<T>>)
    requires forall i :: 0 <= i < |steps| ==> ValidStep(recorded, steps[i])
    requires Run(recorded, Start(original), steps).Some?
    ensures Settled(Run(recorded, Start(original), steps).value.reply)
  {
    RunCoherent(recorded, original, steps);
  }

  /** If every removal of a variable comes with a new value for it, nothing is lost. */
  lemma EnvCoherentWhenPaired(o: Original, replies: seq<Reply>, c: Creation)
    requires ProperReplies(replies) && ProperSettings(replies) && ProperEnv(o.env)
    requires forall i :: 0 <= i < |replies| ==>
                           RemovedKeys(replies[i].adjustment.env) <= KeysOf(Added(replies[i].adjustment.env))
    ensures ComesTo(o, replies, c) ==> Vars(AdjustedEnv(o.env, c.env.reply)) == Vars(c.env.view)
  {
    hide RunCreate;
    EnvCoherent(o, replies, c);
    NothingLostWhenPaired(EnvSteps(replies));
  }

  /** Devices: the same as for the environment. */
  lemma DevicesCoherent(o: Original, replies: seq<Reply>, c: Creation)
    requires ProperReplies(replies) && DistinctKeys(o.devices)
    ensures ComesTo(o, replies, c) ==>
              (MapOf(Replayed(o.devices, c.devices.reply)) == MapOf(c.devices.view) <==>
               Lost(false, DeviceSteps(replies)) !! KeysOf(o.devices))
  {
    hide RunCreate, Run, Lost;
    AcceptedKinds(o, replies, c);
    if ComesTo(o, replies, c) {
      ReplyMeansView(false, o.devices, DeviceSteps(replies));
      ReplayedMap(o.devices, c.devices.reply);
    }
  }

  /**
    Namespaces: each type is touched at most once; if all types touched are known to the
    generator, the Spec ends up with the namespaces of the view, and otherwise applying fails.
   */
  lemma NamespacesAgree(known: string -> bool, o: Original, replies: seq<Reply>, c: Creation)
    requires ProperReplies(replies) && DistinctKeys(o.namespaces)
    ensures ComesTo(o, replies, c) ==>
              var applied := AdjustedNamespaces(known, o.namespaces, c.namespaces.reply);
              && Distinct(Touched(c.namespaces.reply))
              && (applied.Some? <==>
                  forall i :: 0 <= i < |c.namespaces.reply| ==> known(Bare(c.namespaces.reply[i].key)))
              && (applied.Some? ==> MapOf(applied.value) == c.namespaces.view)
  {
    hide RunCreate;
    AcceptedKinds(o, replies, c);
    if ComesTo(o, replies, c) {
      RunNamespacesCoherent(o.namespaces, NamespaceSteps(replies));
      AdjustedNamespacesMap(known, o.namespaces, c.namespaces.reply);
    }
  }

  /**
    Provenance: a resource value is in the reply if and only if it has an owner; it is the value
    the owner supplied, and the view holds it too. A mount is in the reply if and only if the
    record of its destination is a claim, and it is the mount the claiming plugin supplied.
   */
  lemma CreationProvenance(o: Original, replies: seq<Reply>, c: Creation)
    requires ProperReplies(replies)
    ensures ComesTo(o, replies, c) ==>
              && Traced(o.resources, c.resources, ResourceSteps(replies))
              && OwnersMatch(c.mounts) && Provenance(c.mounts, MountSteps(replies))
              && forall k :: k in MapOf(Added(c.mounts.reply)) ==>
                               Lookup(MapOf(c.mounts.view), k) == Lookup(MapOf(Added(c.mounts.reply)), k)
  {
    hide RunCreate, Run, RunResources, Traced, OwnersMatch, Provenance, MapOf, Added;
    AcceptedKinds(o, replies, c);
    if ComesTo(o, replies, c) {
      RunTraced(o.resources, ResourceSteps(replies));
      RunCoherent(true, o.mounts, MountSteps(replies));
      ReplyProvenance(true, o.mounts, MountSteps(replies));
      ViewHoldsReply(true, o.mounts, MountSteps(replies));
    }
  }
}
