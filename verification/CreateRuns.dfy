/** Container creation as a whole: every kind of adjustment of every plugin, folded in turn. */
module CreateRuns {
  import opened Prelude
  import opened Markers
  import opened KeyedLists
  import opened ListMerge
  import opened EnvMerge
  import opened NamespaceMerge
  import opened Resources
  import opened ResourceRuns

  /** A mount without its destination, which is the key. */
  datatype MountBody = MountBody(typ: string, source: string, options: seq<string>)
  type Mount = Entry<MountBody>

  /** A device node without its path, which is the key. */
  datatype DeviceBody = DeviceBody(typ: string, major: int, minor: int)
  type Device = Entry<DeviceBody>

  /** The adjustment in a plugin's reply; "order" is the order its mount removals are iterated in. */
  datatype Adjustment = Adjustment(mounts: seq<Mount>, order: seq<string>, env: seq<KeyValue>,
                                   linux: Option<LinuxAdjustment>)
  datatype LinuxAdjustment = LinuxAdjustment(devices: seq<Device>, resources: Option<Edits>,
                                             namespaces: seq<Option<Namespace>>)

  const NO_EDITS := Edits(None, None, [], [], [], None, None, None)
  const NO_LINUX := LinuxAdjustment([], None, [])

  function Linux(a: Adjustment): LinuxAdjustment { if a.linux.Some? then a.linux.value else NO_LINUX }
  function EditsOf(a: Adjustment): Edits { if Linux(a).resources.Some? then Linux(a).resources.value else NO_EDITS }

  function MountStep(plugin: string, a: Adjustment): Step<MountBody> { Step(plugin, a.mounts, a.order) }
  function EnvStepOf(plugin: string, a: Adjustment): EnvStep { Step(plugin, a.env, []) }
  function DeviceStep(plugin: string, a: Adjustment): Step<DeviceBody> { Step(plugin, Linux(a).devices, []) }

  /** What is collected and what the next plugin sees, kind by kind. */
  datatype Creation = Creation(mounts: Lists<MountBody>, env: EnvLists, devices: Lists<DeviceBody>,
                               resources: Adjusting,
                               namespaces: Namespaces)

  function WithMounts(c: Creation, mounts: Option<Lists<MountBody>>): Option<Creation> {
    if mounts.Some? then Some(c.(mounts := mounts.value)) else None
  }

  function WithEnv(c: Creation, env: Option<EnvLists>): Option<Creation> {
    if env.Some? then Some(c.(env := env.value)) else None
  }

  function WithDevices(c: Creation, devices: Option<Lists<DeviceBody>>): Option<Creation> {
    if devices.Some? then Some(c.(devices := devices.value)) else None
  }

  function WithAdjusting(c: Creation, resources: Option<Adjusting>): Option<Creation> {
    if resources.Some? then Some(c.(resources := resources.value)) else None
  }

  function WithNamespaces(c: Creation, namespaces: Option<Namespaces>): Option<Creation> {
    if namespaces.Some? then Some(c.(namespaces := namespaces.value)) else None
  }

  function MergeLists(c: Creation, plugin: string, a: Adjustment): (r: Option<Creation>)
    ensures r.Some? ==> r.value.resources == c.resources && r.value.namespaces == c.namespaces
  {
    var mounts := Merge(true, c.mounts, MountStep(plugin, a));
    var env := MergeEnv(c.env, EnvStepOf(plugin, a));
    var devices := Merge(false, c.devices, DeviceStep(plugin, a));
    if mounts.Some? && env.Some? && devices.Some?
    then Some(c.(mounts := mounts.value, env := env.value, devices := devices.value))
    else None
  }

  function MergeAdjustment(c: Creation, plugin: string, a: Adjustment): Option<Creation> {
    var lists := MergeLists(c, plugin, a);
    var resources := MergeResources(c.resources, ResourceStep(plugin, EditsOf(a)));
    var namespaces := MergeNamespaces(c.namespaces, plugin, Linux(a).namespaces);
    if lists.Some? && resources.Some? && namespaces.Some?
    then Some(lists.value.(resources := resources.value, namespaces := namespaces.value))
    else None
  }

  datatype Reply = Reply(plugin: string, adjustment: Adjustment)

  function RunCreate(c: Creation, replies: seq<Reply>): Option<Creation> {
    if replies == [] then Some(c)
    else
      match RunCreate(c, replies[..|replies| - 1])
      case None => None
      case Some(c') => MergeAdjustment(c', replies[|replies| - 1].plugin, replies[|replies| - 1].adjustment)
  }

  /** The container as it was requested. */
  datatype Original = Original(mounts: seq<Mount>, env: seq<string>, devices: seq<Device>, resources: Resources,
                               namespaces: seq<Namespace>)

  function StartCreate(o: Original): Creation {
    Creation(Start(o.mounts), StartEnv(o.env), Start(o.devices), StartResources(o.resources),
             StartNamespaces(o.namespaces))
  }

  function MountSteps(replies: seq<Reply>): (r: seq<Step<MountBody>>)
    ensures |r| == |replies| && forall i :: 0 <= i < |r| ==> r[i] == MountStep(replies[i].plugin, replies[i].adjustment)
  {
    seq(|replies|, i requires 0 <= i < |replies| => MountStep(replies[i].plugin, replies[i].adjustment))
  }

  function EnvSteps(replies: seq<Reply>): (r: seq<EnvStep>)
    ensures |r| == |replies| && forall i :: 0 <= i < |r| ==> r[i] == EnvStepOf(replies[i].plugin, replies[i].adjustment)
  {
    seq(|replies|, i requires 0 <= i < |replies| => EnvStepOf(replies[i].plugin, replies[i].adjustment))
  }

  function DeviceSteps(replies: seq<Reply>): (r: seq<Step<DeviceBody>>)
    ensures |r| == |replies| && forall i :: 0 <= i < |r| ==>
                                              r[i] == DeviceStep(replies[i].plugin, replies[i].adjustment)
  {
    seq(|replies|, i requires 0 <= i < |replies| => DeviceStep(replies[i].plugin, replies[i].adjustment))
  }

  function ResourceSteps(replies: seq<Reply>): (r: seq<ResourceStep>)
    ensures |r| == |replies| && forall i :: 0 <= i < |r| ==>
                                              r[i] == ResourceStep(replies[i].plugin, EditsOf(replies[i].adjustment))
  {
    seq(|replies|, i requires 0 <= i < |replies| => ResourceStep(replies[i].plugin, EditsOf(replies[i].adjustment)))
  }

  function NamespaceSteps(replies: seq<Reply>): (r: seq<NamespaceStep>)
    ensures |r| == |replies|
    ensures forall i :: 0 <= i < |r| ==>
                          r[i] == NamespaceStep(replies[i].plugin, Linux(replies[i].adjustment).namespaces)
  {
    seq(|replies|, i requires 0 <= i < |replies| =>
      NamespaceStep(replies[i].plugin, Linux(replies[i].adjustment).namespaces))
  }

  /** Plugin names carry no marker, and the order given lists the mount removals. */
  ghost predicate ProperReplies(replies: seq<Reply>) {
    forall i :: 0 <= i < |replies| ==>
                  !Marked(replies[i].plugin) &&
                  IsOrderOf(replies[i].adjustment.order, RemovedKeys(replies[i].adjustment.mounts))
  }

  /** The kinds do not interfere: a creation is accepted if and only if each kind is, and ends as each kind does. */
  lemma {:induction false} KindsAreIndependent(c: Creation, replies: seq<Reply>)
    ensures var mounts, env := Run(true, c.mounts, MountSteps(replies)), RunEnv(c.env, EnvSteps(replies));
            var devices, resources := Run(false, c.devices, DeviceSteps(replies)),
                                      RunResources(c.resources, ResourceSteps(replies));
            var namespaces := RunNamespaces(c.namespaces, NamespaceSteps(replies));
            RunCreate(c, replies) ==
            if mounts.Some? && env.Some? && devices.Some? && resources.Some? && namespaces.Some?
            then Some(Creation(mounts.value, env.value, devices.value, resources.value, namespaces.value))
            else None
  {
    hide Merge, MergeEnv, MergeResources, MergeNamespaces;
    if replies != [] {
      var front := replies[..|replies| - 1];
      KindsAreIndependent(c, front);
      assert MountSteps(replies)[..|replies| - 1] == MountSteps(front);
      assert EnvSteps(replies)[..|replies| - 1] == EnvSteps(front);
      assert DeviceSteps(replies)[..|replies| - 1] == DeviceSteps(front);
      assert ResourceSteps(replies)[..|replies| - 1] == ResourceSteps(front);
      assert NamespaceSteps(replies)[..|replies| - 1] == NamespaceSteps(front);
    }
  }
}
