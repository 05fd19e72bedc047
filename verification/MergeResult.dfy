/**
  The result of a request under way: the plugins' replies are folded, in place, into the
  collected reply and into the request the next plugin gets to see.
 */
module MergeResult {
  import opened Prelude
  import opened Markers
  import opened Owners
  import opened KeyedLists
  import opened ListMerge
  import opened EnvMerge
  import opened NamespaceMerge
  import opened Resources
  import opened ResourceObjects
  import opened ResourceRuns
  import opened CreateRuns
  import opened ListOps
  import opened UpdateRuns
  import opened CreationRequests

  /** The container of a creation request. */
  class Container {
    const id: string
    var mounts: seq<Mount>
    var env: seq<string>
    var devices: seq<Device>
    var namespaces: seq<Namespace>
    const resources: LinuxResources

    constructor (id: string, o: Original)
      ensures this.id == id && mounts == o.mounts && env == o.env && devices == o.devices && namespaces == o.namespaces
      ensures fresh(resources.Repr()) && resources.Value() == o.resources
    {
      this.id := id;
      mounts, env, devices, namespaces := o.mounts, o.env, o.devices, o.namespaces;
      resources := new LinuxResources(o.resources);
    }
  }

  /** The adjustment collected for the runtime. */
  class Collected {
    var mounts: seq<Mount>
    var env: seq<KeyValue>
    var devices: seq<Device>
    var namespaces: seq<Namespace>
    const resources: LinuxResources

    constructor ()
      ensures mounts == [] && env == [] && devices == [] && namespaces == []
      ensures fresh(resources.Repr()) && resources.Value() == NO_RESOURCES
    {
      mounts, env, devices, namespaces := [], [], [], [];
      resources := new LinuxResources(NO_RESOURCES);
    }
  }

  /** Deals with the fields of a memory edit in the order listed: each is claimed, then set, if it is given. */
  method LayMemory(owners: OwningPlugins, m: Memory, fields: seq<Field>, targetContainer: LinuxMemory,
                   targetReply: LinuxMemory?,
                   id: string, plugin: string) returns (ok: bool)
    requires targetContainer != targetReply
    modifies owners, targetContainer, targetReply
    ensures owners.Others(id) == old(owners.Others(id))
    ensures ClaimAll(old(owners.For(id)), FieldClaims(MemoryGiven(m), fields), plugin) == Claiming(owners.For(id), ok)
    ensures ok ==> targetContainer.fields == LaidMemory(old(targetContainer.fields), fields, m)
    ensures ok && targetReply != null ==> targetReply.fields == LaidMemory(old(targetReply.fields), fields, m)
  {
    ghost var start, given := owners.For(id), MemoryGiven(m);
    for i := 0 to |fields|
      invariant owners.Others(id) == old(owners.Others(id))
      invariant ClaimedUpTo(start, given, fields, i, plugin) == Claiming(owners.For(id), true)
      invariant targetContainer.fields == LaidMemory(old(targetContainer.fields), fields[..i], m)
      invariant targetReply != null ==> targetReply.fields == LaidMemory(old(targetReply.fields), fields[..i], m)
    {
      ClaimNext(start, given, fields, i, plugin);
      assert fields[..i + 1][..i] == fields[..i];
      if MemoryValue(m, fields[i]).Some? {
        var other := owners.ClaimSimple(id, fields[i], plugin);
        if other.Some? {
          return false;
        }
        targetContainer.fields := WithMemory(targetContainer.fields, fields[i], m);
        if targetReply != null {
          targetReply.fields := WithMemory(targetReply.fields, fields[i], m);
        }
      }
    }
    assert fields[..|fields|] == fields;
    ok := true;
  }

  /** Lays the edit over the container's memory and, if given, the reply's. */
  method AdjustMemoryResource(owners: OwningPlugins, mem: Option<Memory>, targetContainer: LinuxMemory,
                              targetReply: LinuxMemory?,
                              id: string, plugin: string) returns (ok: bool)
    requires targetContainer != targetReply
    modifies owners, targetContainer, targetReply
    ensures owners.Others(id) == old(owners.Others(id))
    ensures var m := if mem.Some? then mem.value else NO_MEMORY;
            && ClaimAll(old(owners.For(id)), MemoryClaims(m), plugin) == Claiming(owners.For(id), ok)
            && (ok ==> targetContainer.fields == OverlayMemory(m, old(targetContainer.fields)))
            && (ok && targetReply != null ==> targetReply.fields == OverlayMemory(m, old(targetReply.fields)))
  {
    if mem.None? {
      NoFieldClaims(MemoryGiven(NO_MEMORY), MEMORY_FIELDS);
      return true;
    }
    ok := LayMemory(owners, mem.value, MEMORY_FIELDS, targetContainer, targetReply, id, plugin);
    LaidMemoryAll(old(targetContainer.fields), mem.value);
    if targetReply != null {
      LaidMemoryAll(old(targetReply.fields), mem.value);
    }
  }

  /** Deals with the fields of a CPU edit in the order listed: each is claimed, then set, if it is given. */
  method LayCPU(owners: OwningPlugins, c: CPU, fields: seq<Field>, targetContainer: LinuxCPU, targetReply: LinuxCPU?,
                id: string, plugin: string) returns (ok: bool)
    requires targetContainer != targetReply
    modifies owners, targetContainer, targetReply
    ensures owners.Others(id) == old(owners.Others(id))
    ensures ClaimAll(old(owners.For(id)), FieldClaims(CPUGiven(c), fields), plugin) == Claiming(owners.For(id), ok)
    ensures ok ==> targetContainer.fields == LaidCPU(old(targetContainer.fields), fields, c)
    ensures ok && targetReply != null ==> targetReply.fields == LaidCPU(old(targetReply.fields), fields, c)
  {
    ghost var start, given := owners.For(id), CPUGiven(c);
    for i := 0 to |fields|
      invariant owners.Others(id) == old(owners.Others(id))
      invariant ClaimedUpTo(start, given, fields, i, plugin) == Claiming(owners.For(id), true)
      invariant targetContainer.fields == LaidCPU(old(targetContainer.fields), fields[..i], c)
      invariant targetReply != null ==> targetReply.fields == LaidCPU(old(targetReply.fields), fields[..i], c)
    {
      ClaimNext(start, given, fields, i, plugin);
      assert fields[..i + 1][..i] == fields[..i];
      if CPUValue(c, fields[i]).Some? {
        var other := owners.ClaimSimple(id, fields[i], plugin);
        if other.Some? {
          return false;
        }
        targetContainer.fields := WithCPU(targetContainer.fields, fields[i], c);
        if targetReply != null {
          targetReply.fields := WithCPU(targetReply.fields, fields[i], c);
        }
      }
    }
    assert fields[..|fields|] == fields;
    ok := true;
  }

  /** Lays the edit over the container's CPU resources and, if given, the reply's. */
  method AdjustCPUResource(owners: OwningPlugins, cpu: Option<CPU>, targetContainer: LinuxCPU, targetReply: LinuxCPU?,
                           id: string, plugin: string) returns (ok: bool)
    requires targetContainer != targetReply
    modifies owners, targetContainer, targetReply
    ensures owners.Others(id) == old(owners.Others(id))
    ensures var c := if cpu.Some? then cpu.value else NO_CPU;
            && ClaimAll(old(owners.For(id)), CPUClaims(c), plugin) == Claiming(owners.For(id), ok)
            && (ok ==> targetContainer.fields == OverlayCPU(c, old(targetContainer.fields)))
            && (ok && targetReply != null ==> targetReply.fields == OverlayCPU(c, old(targetReply.fields)))
  {
    if cpu.None? {
      NoFieldClaims(CPUGiven(NO_CPU), CPU_FIELDS);
      return true;
    }
    ok := LayCPU(owners, cpu.value, CPU_FIELDS, targetContainer, targetReply, id, plugin);
    LaidCPUAll(old(targetContainer.fields), cpu.value);
    if targetReply != null {
      LaidCPUAll(old(targetReply.fields), cpu.value);
    }
  }

  ghost function Objects(r: LinuxResources?): set<LinuxResources> {
    if r == null then {} else {r}
  }

  lemma {:induction false} NoFieldClaims(given: Field -> bool, fields: seq<Field>)
    requires forall f :: f in fields ==> !given(f)
    ensures FieldClaims(given, fields) == []
  {
    if fields != [] {
      assert fields == fields[..|fields| - 1] + [fields[|fields| - 1]];
      NoFieldClaims(given, fields[..|fields| - 1]);
    }
  }

  /** Claims the sizes one by one, appending each limit as it is claimed. */
  method AdjustHugepages(owners: OwningPlugins, limits: seq<Hugepage>, targetContainer: LinuxResources,
                         targetReply: LinuxResources?, id: string, plugin: string) returns (ok: bool)
    requires targetContainer != targetReply
    modifies owners, targetContainer`hugepages, Objects(targetReply)`hugepages
    ensures owners.Others(id) == old(owners.Others(id))
    ensures ClaimAll(old(owners.For(id)), EntryClaims(HugepageLimits, limits), plugin) == Claiming(owners.For(id), ok)
    ensures ok ==> targetContainer.hugepages == old(targetContainer.hugepages) + limits
    ensures ok && targetReply != null ==> targetReply.hugepages == old(targetReply.hugepages) + limits
  {
    hide ClaimAll, MapOf;
    ghost var all := ClaimAll(owners.For(id), EntryClaims(HugepageLimits, limits), plugin);
    assert limits[0..] == limits;
    for i := 0 to |limits|
      invariant owners.Others(id) == old(owners.Others(id))
      invariant all == ClaimAll(owners.For(id), EntryClaims(HugepageLimits, limits[i..]), plugin)
      invariant targetContainer.hugepages == old(targetContainer.hugepages) + limits[..i]
      invariant targetReply != null ==> targetReply.hugepages == old(targetReply.hugepages) + limits[..i]
    {
      var l := limits[i];
      EntryClaimsTail(HugepageLimits, limits, i);
      ClaimAllHead(owners.For(id), EntryClaims(HugepageLimits, limits[i..]), plugin);
      var other := owners.ClaimCompound(id, HugepageLimits, l.key, plugin);
      if other.Some? {
        return false;
      }
      targetContainer.hugepages := targetContainer.hugepages + [l];
      if targetReply != null {
        targetReply.hugepages := targetReply.hugepages + [l];
      }
    }
    ClaimNothing(owners.For(id), plugin);
    assert limits[|limits|..] == [];
    ok := true;
  }

  lemma ClaimAllHead(o: FieldOwners, keys: seq<Key>, plugin: string)
    requires keys != []
    ensures ClaimAll(o, keys, plugin) ==
            if Conflict(o.Owner(keys[0]), plugin).Some? then Claiming(o, false)
            else ClaimAll(o.Put(keys[0], plugin), keys[1..], plugin)
  {
  }

  lemma ClaimNothing(o: FieldOwners, plugin: string)
    ensures ClaimAll(o, [], plugin) == Claiming(o, true)
  {
  }

  lemma EntryClaimsTail<T>(field: Field, s: seq<Entry<T>>, i: nat)
    requires i < |s|
    ensures var keys := EntryClaims(field, s[i..]);
            keys[0] == Compound(field, s[i].key) && keys[1..] == EntryClaims(field, s[i + 1..])
  {
  }

  lemma OverrideNext<T>(m: map<string, T>, s: seq<Entry<T>>, i: nat)
    requires i < |s|
    ensures m + MapOf(s[..i + 1]) == (m + MapOf(s[..i]))[s[i].key := s[i].value]
  {
    assert s[..i + 1] == s[..i] + [s[i]];
    MapOfSnoc(s[..i], s[i]);
  }

  /** Claims the cgroup v2 parameters one by one, setting each as it is claimed. */
  method AdjustUnified(owners: OwningPlugins, params: seq<Entry<string>>, targetContainer: LinuxResources,
                       targetReply: LinuxResources?, id: string, plugin: string) returns (ok: bool)
    requires targetContainer != targetReply
    modifies owners, targetContainer`unified, Objects(targetReply)`unified
    ensures owners.Others(id) == old(owners.Others(id))
    ensures ClaimAll(old(owners.For(id)), EntryClaims(CgroupsUnified, params), plugin) == Claiming(owners.For(id), ok)
    ensures ok ==> targetContainer.unified == old(targetContainer.unified) + MapOf(params)
    ensures ok && targetReply != null ==> targetReply.unified == old(targetReply.unified) + MapOf(params)
  {
    assert params[..0] == [] && MapOf(params[..0]) == map[];
    hide ClaimAll, MapOf;
    ghost var all := ClaimAll(owners.For(id), EntryClaims(CgroupsUnified, params), plugin);
    assert params[0..] == params;
    for i := 0 to |params|
      invariant owners.Others(id) == old(owners.Others(id))
      invariant all == ClaimAll(owners.For(id), EntryClaims(CgroupsUnified, params[i..]), plugin)
      invariant targetContainer.unified == old(targetContainer.unified) + MapOf(params[..i])
      invariant targetReply != null ==> targetReply.unified == old(targetReply.unified) + MapOf(params[..i])
    {
      var e := params[i];
      EntryClaimsTail(CgroupsUnified, params, i);
      ClaimAllHead(owners.For(id), EntryClaims(CgroupsUnified, params[i..]), plugin);
      var other := owners.ClaimCompound(id, CgroupsUnified, e.key, plugin);
      if other.Some? {
        return false;
      }
      OverrideNext(old(targetContainer.unified), params, i);
      if targetReply != null {
        OverrideNext(old(targetReply.unified), params, i);
      }
      targetContainer.unified := targetContainer.unified[e.key := e.value];
      if targetReply != null {
        targetReply.unified := targetReply.unified[e.key := e.value];
      }
    }
    assert params[..|params|] == params;
    ClaimNothing(owners.For(id), plugin);
    assert params[|params|..] == [];
    ok := true;
  }

  method ClaimOptional(owners: OwningPlugins, id: string, field: Field, given: bool, plugin: string) returns (ok: bool)
    modifies owners
    ensures owners.Others(id) == old(owners.Others(id))
    ensures ClaimAll(old(owners.For(id)), ClaimIf(given, field), plugin) == Claiming(owners.For(id), ok)
  {
    ok := true;
    if given {
      assert [Simple(field)][1..] == [];
      var other := owners.ClaimSimple(id, field, plugin);
      ok := other.None?;
    }
  }

  /** Lays an edit over resources, group by group, all but the device rules and the pids limit. */
  method LayGroups(owners: OwningPlugins, e: Edits, target: LinuxResources, reply: LinuxResources?, id: string,
                   plugin: string)
    returns (ok: bool)
    requires reply != null ==> target.Repr() !! reply.Repr()
    modifies owners, target`hugepages, target`unified, target`blockioClass, target`rdtClass, target.memory, target.cpu
    modifies Objects(reply)`hugepages, Objects(reply)`unified, Objects(reply)`blockioClass, Objects(reply)`rdtClass
    modifies if reply == null then {} else {reply.memory, reply.cpu}
    ensures owners.Others(id) == old(owners.Others(id))
    ensures ClaimGroups(old(owners.For(id)), e, plugin) == Claiming(owners.For(id), ok)
    ensures ok ==> LaidOver(e, target, old(target.Value()))
    ensures ok && reply != null ==> LaidOver(e, reply, old(reply.Value()))
  {
    hide ClaimAll, ClaimGroups, OtherGroups, OverlayMemory, OverlayCPU, OthersLaid, LaidOver, LinuxResources.Value,
      LinuxResources.Repr, MemoryClaims, CPUClaims, OwningPlugins.For, OwningPlugins.Others;
    Apart(target, reply);
    GroupsOf(owners.For(id), e, plugin);
    if reply != null {
      Apart(reply, null);
    }
    ok := AdjustMemoryResource(owners, e.memory, target.memory, if reply == null then null else reply.memory, id,
                               plugin);
    if !ok { return; }
    ok := AdjustCPUResource(owners, e.cpu, target.cpu, if reply == null then null else reply.cpu, id, plugin);
    if !ok { return; }
    ok := LayOthers(owners, e, target, reply, id, plugin);
    if ok {
      LaidOverIs(e, target, old(target.Value()));
      if reply != null {
        LaidOverIs(e, reply, old(reply.Value()));
      }
    }
  }

  lemma Apart(target: LinuxResources, reply: LinuxResources?)
    ensures target.Value().memory == target.memory.fields && target.Value().cpu == target.cpu.fields
    ensures target.Value().hugepages == target.hugepages && target.Value().unified == target.unified
    ensures target.Value().blockioClass == target.blockioClass && target.Value().rdtClass == target.rdtClass
    ensures reply != null && target.Repr() !! reply.Repr() ==>
              target != reply && target.memory != reply.memory && target.cpu != reply.cpu
  {
  }

  lemma GroupsOf(owners: FieldOwners, e: Edits, plugin: string)
    ensures var c := ClaimAll(owners, MemoryClaims(MemoryEdits(e)), plugin);
            var d := if c.ok then ClaimAll(c.owners, CPUClaims(CPUEdits(e)), plugin) else c;
            ClaimGroups(owners, e, plugin) == if d.ok then OtherGroups(d.owners, e, plugin) else d
  {
    hide ClaimAll, OtherGroups;
  }

  lemma LaidOverIs(e: Edits, r: LinuxResources, before: Resources)
    ensures LaidOver(e, r, before) <==>
            && r.memory.fields == OverlayMemory(MemoryEdits(e), before.memory)
            && r.cpu.fields == OverlayCPU(CPUEdits(e), before.cpu)
            && OthersLaid(e, r, before.hugepages, before.unified, before.blockioClass, before.rdtClass)
  {
    hide OverlayMemory, OverlayCPU, OthersLaid;
  }

  method LayOthers(owners: OwningPlugins, e: Edits, target: LinuxResources, reply: LinuxResources?, id: string,
                   plugin: string)
    returns (ok: bool)
    requires target != reply
    modifies owners, target`hugepages, target`unified, target`blockioClass, target`rdtClass
    modifies Objects(reply)`hugepages, Objects(reply)`unified, Objects(reply)`blockioClass, Objects(reply)`rdtClass
    ensures owners.Others(id) == old(owners.Others(id))
    ensures OtherGroups(old(owners.For(id)), e, plugin) == Claiming(owners.For(id), ok)
    ensures ok ==> OthersLaid(e, target, old(target.hugepages), old(target.unified), old(target.blockioClass),
                              old(target.rdtClass))
    ensures ok && reply != null ==>
              OthersLaid(e, reply, old(reply.hugepages), old(reply.unified), old(reply.blockioClass),
                         old(reply.rdtClass))
  {
    ok := AdjustHugepages(owners, e.hugepages, target, reply, id, plugin);
    if !ok { return; }
    ok := AdjustUnified(owners, e.unified, target, reply, id, plugin);
    if !ok { return; }
    ok := AdjustClasses(owners, e, target, reply, id, plugin);
  }

  ghost predicate OthersLaid(e: Edits, r: LinuxResources, hugepages: seq<Hugepage>, unified: map<string, string>,
                             blockioClass: Option<string>, rdtClass: Option<string>)
    reads r
  {
    && r.hugepages == hugepages + e.hugepages
    && r.unified == unified + MapOf(e.unified)
    && r.blockioClass == Or(e.blockioClass, blockioClass)
    && r.rdtClass == Or(e.rdtClass, rdtClass)
  }

  ghost predicate LaidOver(e: Edits, r: LinuxResources, before: Resources)
    reads r, r.memory, r.cpu
  {
    && r.memory.fields == OverlayMemory(MemoryEdits(e), before.memory)
    && r.cpu.fields == OverlayCPU(CPUEdits(e), before.cpu)
    && OthersLaid(e, r, before.hugepages, before.unified, before.blockioClass, before.rdtClass)
  }

  lemma LaidIsUpdated(e: Edits, r: LinuxResources, before: Resources)
    requires LaidOver(e, r, before) && r.devices == before.devices && r.pids == before.pids
    ensures r.Value() == Updated(e, before)
  {
  }

  /** The same, as one change of the resources and one list of claims. */
  method LayCommon(owners: OwningPlugins, e: Edits, target: LinuxResources, reply: LinuxResources?, id: string,
                   plugin: string)
    returns (ok: bool)
    requires reply != null ==> target.Repr() !! reply.Repr()
    modifies owners, target.Repr()
    modifies if reply == null then {} else reply.Repr()
    ensures owners.Others(id) == old(owners.Others(id))
    ensures ClaimAll(old(owners.For(id)), CommonClaims(e), plugin) == Claiming(owners.For(id), ok)
    ensures ok ==> target.Value() == Updated(e, old(target.Value()))
    ensures ok && reply != null ==> reply.Value() == Updated(e, old(reply.Value()))
  {
    hide ClaimAll, CommonClaims, ClaimGroups, Updated, LaidOver;
    ok := LayGroups(owners, e, target, reply, id, plugin);
    assert ClaimAll(old(owners.For(id)), CommonClaims(e), plugin) == Claiming(owners.For(id), ok) by {
      ClaimsInGroups(old(owners.For(id)), e, plugin);
    }
    if ok {
      LaidIsUpdated(e, target, old(target.Value()));
      if reply != null {
        LaidIsUpdated(e, reply, old(reply.Value()));
      }
    }
  }

  method AdjustClasses(owners: OwningPlugins, e: Edits, target: LinuxResources, reply: LinuxResources?,
                       id: string, plugin: string)
    returns (ok: bool)
    requires target != reply
    modifies owners, target`blockioClass, target`rdtClass, Objects(reply)`blockioClass, Objects(reply)`rdtClass
    ensures owners.Others(id) == old(owners.Others(id))
    ensures Then(ClaimAll(old(owners.For(id)), ClaimIf(e.blockioClass.Some?, BlockioClass), plugin),
                 ClaimIf(e.rdtClass.Some?, RdtClass), plugin) == Claiming(owners.For(id), ok)
    ensures ok ==> target.blockioClass == Or(e.blockioClass, old(target.blockioClass)) &&
                   target.rdtClass == Or(e.rdtClass, old(target.rdtClass))
    ensures ok && reply != null ==> reply.blockioClass == Or(e.blockioClass, old(reply.blockioClass)) &&
                                    reply.rdtClass == Or(e.rdtClass, old(reply.rdtClass))
  {
    ok := ClaimOptional(owners, id, BlockioClass, e.blockioClass.Some?, plugin);
    if !ok { return; }
    if e.blockioClass.Some? {
      target.blockioClass := e.blockioClass;
      if reply != null { reply.blockioClass := e.blockioClass; }
    }
    ok := ClaimOptional(owners, id, RdtClass, e.rdtClass.Some?, plugin);
    if !ok { return; }
    if e.rdtClass.Some? {
      target.rdtClass := e.rdtClass;
      if reply != null { reply.rdtClass := e.rdtClass; }
    }
  }

  /** A container's pending update in the response. */
  class ContainerUpdate {
    const containerId: string
    var resources: LinuxResources
    var ignoreFailure: bool

    constructor (id: string, ignoreFailure: bool)
      ensures containerId == id && this.ignoreFailure == ignoreFailure
      ensures fresh(resources.Repr()) && resources.Value() == NO_RESOURCES
    {
      containerId, this.ignoreFailure := id, ignoreFailure;
      resources := new LinuxResources(NO_RESOURCES);
    }
  }

  ghost function PendingOf(u: ContainerUpdate): Pending
    reads u, u.resources, u.resources.memory, u.resources.cpu
  {
    Pending(u.resources.Value(), u.ignoreFailure)
  }

  ghost predicate IsEntry(u: ContainerUpdate?, id: string, pending: map<string, Pending>)
    reads u, if u == null then {} else {u.resources}
    reads if u == null then {} else {u.resources.memory}
    reads if u == null then {} else {u.resources.cpu}
  {
    u != null && u.containerId == id && Lookup(pending, id) == Some(PendingOf(u))
  }

  /** The pending updates as listed and then the one for the requested container, which is missing if there is none. */
  ghost predicate IsResponse(response: seq<ContainerUpdate?>, requested: string, s: Updating)
    reads *
  {
    && |response| == |s.listed| + 1
    && (forall i :: 0 <= i < |s.listed| ==> s.listed[i] != requested && IsEntry(response[i], s.listed[i], s.pending))
    && (if requested in s.pending then IsEntry(response[|s.listed|], requested, s.pending)
        else response[|s.listed|] == null)
  }

  /** A request to update a container. */
  class UpdateRequest {
    const containerId: string
    var resources: LinuxResources

    constructor (id: string, r: Resources)
      ensures containerId == id && fresh(resources.Repr()) && resources.Value() == r
    {
      containerId := id;
      resources := new LinuxResources(r);
    }
  }

  ghost predicate Away(r: LinuxResources, others: set<object>) {
    r.Repr() !! others
  }

  class Result {
    const create: Container?
    const adjust: Collected?
    const request: UpdateRequest?
    var updates: map<string, ContainerUpdate>
    var listed: seq<ContainerUpdate>
    const owners: OwningPlugins

    /** The result of a creation request. */
    constructor CollectCreate(container: Container)
      ensures create == container && adjust != null && request == null
      ensures fresh(owners) && forall id :: owners.For(id) == NO_OWNERS
      ensures fresh(adjust) && fresh(adjust.resources.Repr()) && adjust.resources.Value() == NO_RESOURCES
      ensures adjust.mounts == [] && adjust.env == [] && adjust.devices == [] && adjust.namespaces == []
      ensures updates == map[] && listed == []
    {
      create := container;
      adjust := new Collected();
      request := null;
      updates, listed := map[], [];
      owners := new OwningPlugins();
    }

    /** The result of a request to update a container, or to stop one, which has no request to keep up to date. */
    constructor CollectUpdate(req: UpdateRequest?)
      ensures create == null && adjust == null && request == req
      ensures fresh(owners) && forall id :: owners.For(id) == NO_OWNERS
      ensures updates == map[] && listed == []
    {
      create, adjust, request := null, null, req;
      updates, listed := map[], [];
      owners := new OwningPlugins();
    }

    // ----- creation -----

    /** Removals are iterated in the order given. */
    method AdjustMounts(mounts: seq<Mount>, order: seq<string>, plugin: string) returns (ok: bool)
      requires create != null && adjust != null
      requires IsOrderOf(order, RemovedKeys(mounts))
      modifies owners, create`mounts, adjust`mounts
      ensures owners.Others(create.id) == old(owners.Others(create.id))
      ensures OnlyEntries(old(owners.For(create.id)), owners.For(create.id), Mounts)
      ensures var r :=
                Merge(true, Lists(old(owners.For(create.id).Entries(Mounts)), old(adjust.mounts), old(create.mounts)),
                      Step(plugin, mounts, order));
              ok == r.Some? &&
              (ok ==> Lists(owners.For(create.id).Entries(Mounts), adjust.mounts, create.mounts) == r.value)
    {
      if |mounts| == 0 {
        MergeNothing(true, Lists(owners.For(create.id).Entries(Mounts), adjust.mounts, create.mounts),
                     Step(plugin, mounts, order));
        return true;
      }
      hide Claimed, Cleared, Without, Orphans, MapOf, KeysOf;
      var add, del, mod := Split(mounts);
      adjust.mounts := ClearCollected(owners, create.id, Mounts, adjust.mounts, del.Keys, plugin);
      create.mounts := Keep(create.mounts, del.Keys, mod);
      ok, adjust.mounts := ClaimCollected(owners, create.id, Mounts, adjust.mounts, add, plugin);
      if !ok {
        return;
      }
      adjust.mounts := PassOn(adjust.mounts, mounts, del, mod, order);
      create.mounts := create.mounts + add;
    }

    /** Appends the removals without a corresponding setting. */
    method PassOn(kept: seq<Mount>, ghost mounts: seq<Mount>, del: map<string, Mount>, mod: set<string>,
                  order: seq<string>)
      returns (r: seq<Mount>)
      requires del == RemovalMap(mounts) && mod == KeysOf(Added(mounts)) && forall k :: k in order ==> k in del
      ensures r == kept + Orphans(mounts, order)
    {
      r := kept;
      for i := 0 to |order|
        invariant r == kept + Orphans(mounts, order[..i])
      {
        assert order[..i + 1][..i] == order[..i];
        var m := del[order[i]];
        RemovalMapEntries(mounts);
        MarkerRoundTrip(order[i]);
        if ClearRemovalMarker(m.key) !in mod {
          r := r + [m];
        }
      }
      assert order[..|order|] == order;
    }

    method AdjustDevices(devices: seq<Device>, plugin: string) returns (ok: bool)
      requires create != null && adjust != null
      modifies owners, create`devices, adjust`devices
      ensures owners.Others(create.id) == old(owners.Others(create.id))
      ensures OnlyEntries(old(owners.For(create.id)), owners.For(create.id), Field.Devices)
      ensures var r :=
                Merge(false, Lists(old(owners.For(create.id).Entries(Field.Devices)), old(adjust.devices),
                                   old(create.devices)),
                      Step(plugin, devices, []));
              ok == r.Some? &&
              (ok ==> Lists(owners.For(create.id).Entries(Field.Devices), adjust.devices, create.devices) == r.value)
    {
      if |devices| == 0 {
        MergeNothing(false, Lists(owners.For(create.id).Entries(Field.Devices), adjust.devices, create.devices),
                     Step(plugin, devices, []));
        return true;
      }
      hide Claimed, Cleared, Without, MapOf, KeysOf;
      var add, del, mod := Split(devices);
      adjust.devices := ClearCollected(owners, create.id, Field.Devices, adjust.devices, del.Keys, plugin);
      create.devices := Keep(create.devices, del.Keys, mod);
      ok, adjust.devices := ClaimCollected(owners, create.id, Field.Devices, adjust.devices, add, plugin);
      if ok {
        create.devices := create.devices + add;
      }
    }

    method AdjustEnv(env: seq<KeyValue>, plugin: string) returns (ok: bool)
      requires create != null && adjust != null
      modifies owners, create`env, adjust`env
      ensures owners.Others(create.id) == old(owners.Others(create.id))
      ensures OnlyEntries(old(owners.For(create.id)), owners.For(create.id), Field.Env)
      ensures var r :=
                MergeEnv(EnvLists(old(owners.For(create.id).Entries(Field.Env)), old(adjust.env), old(create.env)),
                         Step(plugin, env, []));
              ok == r.Some? &&
              (ok ==> EnvLists(owners.For(create.id).Entries(Field.Env), adjust.env, create.env) == r.value)
    {
      hide Claimed, Cleared, Without, WithoutVars, MapOf, KeysOf;
      if |env| == 0 {
        MergeNoEnv(EnvLists(owners.For(create.id).Entries(Field.Env), adjust.env, create.env), Step(plugin, env, []));
        return true;
      }
      var add, del, mod := Split(env);
      adjust.env := ClearCollected(owners, create.id, Field.Env, adjust.env, del.Keys, plugin);
      create.env := KeepVars(create.env, del.Keys, mod);
      ok, adjust.env := ClaimCollected(owners, create.id, Field.Env, adjust.env, add, plugin);
      if !ok {
        return;
      }
      create.env := Print(create.env, add);
    }

    method Print(kept: seq<string>, add: seq<KeyValue>) returns (r: seq<string>)
      ensures r == kept + Printed(add)
    {
      r := kept;
      for i := 0 to |add|
        invariant r == kept + Printed(add)[..i]
      {
        r := r + [ToOCI(add[i])];
      }
      assert Printed(add)[..|add|] == Printed(add);
    }

    method KeepVars(env: seq<string>, del: set<string>, mod: set<string>) returns (cleared: seq<string>)
      ensures cleared == WithoutVars(env, del + mod)
    {
      cleared := [];
      for i := 0 to |env|
        invariant cleared == WithoutVars(env[..i], del + mod)
      {
        assert env[..i + 1][..i] == env[..i];
        var key := SplitEnvVar(env[i]).key;
        if key !in del && key !in mod {
          cleared := cleared + [env[i]];
        }
      }
      assert env[..|env|] == env;
    }

    /** The namespaces are put back into the request in no particular order. */
    method AdjustNamespaces(namespaces: seq<Option<Namespace>>, plugin: string) returns (ok: bool)
      requires create != null && adjust != null
      modifies owners, create`namespaces, adjust`namespaces
      ensures owners.Others(create.id) == old(owners.Others(create.id))
      ensures OnlyEntries(old(owners.For(create.id)), owners.For(create.id), Field.Namespace)
      ensures var r :=
                MergeNamespaces(Namespaces(old(owners.For(create.id).Entries(Field.Namespace)), old(adjust.namespaces),
                                           MapOf(old(create.namespaces))), plugin, namespaces);
              ok == r.Some? &&
              (ok ==> Namespaces(owners.For(create.id).Entries(Field.Namespace), adjust.namespaces,
                                 MapOf(create.namespaces)) == r.value)
    {
      assert OnlyEntries(owners.For(create.id), owners.For(create.id), Field.Namespace);
      if |namespaces| == 0 {
        return true;
      }
      var creatensmap := ByType(create.namespaces);
      ghost var s := Namespaces(owners.For(create.id).Entries(Field.Namespace), adjust.namespaces,
                                MapOf(create.namespaces));
      hide OnlyEntries, FieldOwners.Put, MapOf;
      for i := 0 to |namespaces|
        modifies owners, adjust`namespaces
        invariant owners.Others(create.id) == old(owners.Others(create.id))
        invariant OnlyEntries(old(owners.For(create.id)), owners.For(create.id), Field.Namespace)
        invariant MergeNamespaces(s, plugin, namespaces[..i]) ==
                  Some(Namespaces(owners.For(create.id).Entries(Field.Namespace), adjust.namespaces, creatensmap))
      {
        MergeNamespacesStops(s, plugin, namespaces, i + 1);
        assert namespaces[..i + 1][..i] == namespaces[..i];
        if namespaces[i].None? {
          continue;
        }
        var n := namespaces[i].value;
        var (key, marked) := IsMarkedForRemoval(n.key);
        PutKeepsOthers(old(owners.For(create.id)), owners.For(create.id), Field.Namespace, key, plugin);
        var other := owners.ClaimCompound(create.id, Field.Namespace, key, plugin);
        if other.Some? {
          return false;
        }
        MarkerRoundTrip(n.key);
        if marked {
          creatensmap := creatensmap - {key};
        } else {
          creatensmap := creatensmap[key := n.value];
        }
        adjust.namespaces := adjust.namespaces + [n];
      }
      assert namespaces[..|namespaces|] == namespaces;
      create.namespaces := Collect(creatensmap);
      ok := true;
    }

    method AdjustResources(resources: Option<Edits>, plugin: string) returns (ok: bool)
      requires create != null && adjust != null && create.resources.Repr() !! adjust.resources.Repr()
      modifies owners, create.resources.Repr(), adjust.resources.Repr()
      ensures owners.Others(create.id) == old(owners.Others(create.id))
      ensures var e := if resources.Some? then resources.value else NO_EDITS;
              && ClaimAll(old(owners.For(create.id)), Claims(e), plugin) == Claiming(owners.For(create.id), ok)
              && (ok ==> create.resources.Value() == Adjusted(e, old(create.resources.Value())))
              && (ok ==> adjust.resources.Value() == Adjusted(e, old(adjust.resources.Value())))
    {
      hide ClaimAll, Claims, CommonClaims, Updated;
      if resources.None? {
        NoEditsClaimNothing(owners.For(create.id), plugin);
        AdjustedByNothing(create.resources.Value());
        AdjustedByNothing(adjust.resources.Value());
        return true;
      }
      var e := resources.value;
      ClaimsThenPids(owners.For(create.id), e, plugin);
      var container, reply := create.resources, adjust.resources;
      UpdatedKeeps(e, container.Value());
      UpdatedKeeps(e, reply.Value());
      ok := LayCommon(owners, e, container, reply, create.id, plugin);
      if !ok { return; }
      ok := ClaimOptional(owners, create.id, PidsLimit, e.pids.Some?, plugin);
      if !ok { return; }
      container.devices := container.devices + e.devices;
      reply.devices := reply.devices + e.devices;
      if e.pids.Some? {
        container.pids := e.pids;
        reply.pids := e.pids;
      }
    }

    /** The request and the reply hold the creation "c", kind by kind, and the records are its records. */
    ghost predicate Holds(c: Creation)
      requires create != null && adjust != null
      reads owners, create, adjust, create.resources, create.resources.memory, create.resources.cpu
      reads adjust.resources, adjust.resources.memory, adjust.resources.cpu
    {
      HoldsBy(owners.For(create.id), c)
    }

    ghost predicate HoldsIf(ok: bool, c: Option<Creation>)
      requires create != null && adjust != null
      reads owners, create, adjust, create.resources, create.resources.memory, create.resources.cpu
      reads adjust.resources, adjust.resources.memory, adjust.resources.cpu
    {
      ok == c.Some? && (ok ==> Holds(c.value))
    }

    ghost predicate HoldsBy(o: FieldOwners, c: Creation)
      requires create != null && adjust != null
      reads create, adjust, create.resources, create.resources.memory, create.resources.cpu
      reads adjust.resources, adjust.resources.memory, adjust.resources.cpu
    {
      && Lists(o.Entries(Mounts), adjust.mounts, create.mounts) == c.mounts
      && EnvLists(o.Entries(Field.Env), adjust.env, create.env) == c.env
      && Lists(o.Entries(Field.Devices), adjust.devices, create.devices) == c.devices
      && Namespaces(o.Entries(Field.Namespace), adjust.namespaces, MapOf(create.namespaces)) == c.namespaces
      && adjust.resources.Value() == c.resources.reply && create.resources.Value() == c.resources.view
      && SameResourceOwners(o, c.resources.owners)
    }

    /** The mounts of an adjustment. */
    method FoldMounts(rpl: Adjustment, plugin: string, ghost c: Creation) returns (ok: bool)
      requires create != null && adjust != null && IsOrderOf(rpl.order, RemovedKeys(rpl.mounts)) && Holds(c)
      modifies owners, create`mounts, adjust`mounts
      ensures owners.Others(create.id) == old(owners.Others(create.id))
      ensures HoldsIf(ok, WithMounts(c, Merge(true, c.mounts, MountStep(plugin, rpl))))
    {
      hide Merge, MergeEnv, MapOf, SameResourceOwners, OnlyEntries, LinuxResources.Value, FieldOwners.Entries;
      ghost var before := owners.For(create.id);
      ok := AdjustMounts(rpl.mounts, rpl.order, plugin);
      if ok {
        ListOwnersKept(before, owners.For(create.id), Mounts, c.resources.owners);
      }
    }

    /** The environment of an adjustment. */
    method FoldEnv(rpl: Adjustment, plugin: string, ghost c: Creation) returns (ok: bool)
      requires create != null && adjust != null && IsOrderOf(rpl.order, RemovedKeys(rpl.mounts)) && Holds(c)
      modifies owners, create`env, adjust`env
      ensures owners.Others(create.id) == old(owners.Others(create.id))
      ensures HoldsIf(ok, WithEnv(c, MergeEnv(c.env, EnvStepOf(plugin, rpl))))
    {
      hide Merge, MergeEnv, MapOf, SameResourceOwners, OnlyEntries, LinuxResources.Value, FieldOwners.Entries;
      ghost var before := owners.For(create.id);
      ok := AdjustEnv(rpl.env, plugin);
      if ok {
        ListOwnersKept(before, owners.For(create.id), Field.Env, c.resources.owners);
      }
    }

    /** The devices of an adjustment. */
    method FoldDevices(rpl: Adjustment, plugin: string, ghost c: Creation) returns (ok: bool)
      requires create != null && adjust != null && IsOrderOf(rpl.order, RemovedKeys(rpl.mounts)) && Holds(c)
      modifies owners, create`devices, adjust`devices
      ensures owners.Others(create.id) == old(owners.Others(create.id))
      ensures HoldsIf(ok, WithDevices(c, Merge(false, c.devices, DeviceStep(plugin, rpl))))
    {
      hide Merge, MergeEnv, MapOf, SameResourceOwners, OnlyEntries, LinuxResources.Value, FieldOwners.Entries;
      ghost var before := owners.For(create.id);
      ok := AdjustDevices(Linux(rpl).devices, plugin);
      if ok {
        ListOwnersKept(before, owners.For(create.id), Field.Devices, c.resources.owners);
      }
    }

    /** The lists of an adjustment: mounts, environment and devices. */
    method AdjustLists(rpl: Adjustment, plugin: string, ghost c: Creation) returns (ok: bool)
      requires create != null && adjust != null
      requires IsOrderOf(rpl.order, RemovedKeys(rpl.mounts))
      requires Holds(c)
      modifies owners, create`mounts, create`env, create`devices, adjust`mounts, adjust`env, adjust`devices
      ensures owners.Others(create.id) == old(owners.Others(create.id))
      ensures HoldsIf(ok, MergeLists(c, plugin, rpl))
    {
      hide Merge, MergeEnv, Result.Holds;
      ok := FoldMounts(rpl, plugin, c);
      if !ok { return; }
      ghost var c1 := WithMounts(c, Merge(true, c.mounts, MountStep(plugin, rpl))).value;
      ok := FoldEnv(rpl, plugin, c1);
      if !ok { return; }
      ok := FoldDevices(rpl, plugin, WithEnv(c1, MergeEnv(c.env, EnvStepOf(plugin, rpl))).value);
    }

    /** The resources of an adjustment. */
    method FoldResources(rpl: Adjustment, plugin: string, ghost c: Creation) returns (ok: bool)
      requires create != null && adjust != null && create.resources.Repr() !! adjust.resources.Repr() && Holds(c)
      modifies owners, create.resources.Repr(), adjust.resources.Repr()
      ensures owners.Others(create.id) == old(owners.Others(create.id))
      ensures HoldsIf(ok, WithAdjusting(c, MergeResources(c.resources, ResourceStep(plugin, EditsOf(rpl)))))
    {
      hide ClaimAll, Claims, Adjusted, MapOf, SameResourceOwners, FieldOwners.Entries, LinuxResources.Value;
      ghost var before := owners.For(create.id);
      ResourceClaims(before, c.resources.owners, EditsOf(rpl), plugin);
      ok := AdjustResources(Linux(rpl).resources, plugin);
    }

    /** The namespaces of an adjustment. */
    method FoldNamespaces(rpl: Adjustment, plugin: string, ghost c: Creation) returns (ok: bool)
      requires create != null && adjust != null && Holds(c)
      modifies owners, create`namespaces, adjust`namespaces
      ensures owners.Others(create.id) == old(owners.Others(create.id))
      ensures HoldsIf(ok, WithNamespaces(c, MergeNamespaces(c.namespaces, plugin, Linux(rpl).namespaces)))
    {
      hide MergeNamespaces, MapOf, SameResourceOwners, OnlyEntries, LinuxResources.Value, FieldOwners.Entries;
      ghost var before := owners.For(create.id);
      ok := AdjustNamespaces(Linux(rpl).namespaces, plugin);
      if ok {
        ListOwnersKept(before, owners.For(create.id), Field.Namespace, c.resources.owners);
      }
    }

    /** One plugin's adjustment, accepted if and only if the fold accepts it. */
    method Adjust(rpl: Adjustment, plugin: string, ghost c: Creation) returns (ok: bool)
      requires create != null && adjust != null && create.resources.Repr() !! adjust.resources.Repr()
      requires IsOrderOf(rpl.order, RemovedKeys(rpl.mounts))
      requires Holds(c)
      modifies owners, create, adjust, create.resources.Repr(), adjust.resources.Repr()
      ensures owners.Others(create.id) == old(owners.Others(create.id))
      ensures HoldsIf(ok, MergeAdjustment(c, plugin, rpl))
    {
      hide MergeLists, MergeNamespaces, MergeResources, Result.Holds;
      ok := AdjustLists(rpl, plugin, c);
      if !ok { return; }
      ghost var c1 := MergeLists(c, plugin, rpl).value;
      ok := FoldResources(rpl, plugin, c1);
      if !ok { return; }
      ok := FoldNamespaces(rpl, plugin,
                           WithAdjusting(c1, MergeResources(c.resources, ResourceStep(plugin, EditsOf(rpl)))).value);
    }

    // ----- updates -----

    /** The objects that adjustments change. */
    ghost function Adjustables(): set<object> {
      (if create == null then {} else create.resources.Repr()) +
      (if adjust == null then {} else adjust.resources.Repr())
    }

    /** An entry holds what is pending, and shares no object with what adjustments change. */
    ghost predicate IsPending(u: ContainerUpdate, id: string, p: Pending)
      reads u, u.resources, u.resources.memory, u.resources.cpu
    {
      u.containerId == id && PendingOf(u) == p && Away(u.resources, Adjustables())
    }

    ghost predicate HoldsPending(pending: map<string, Pending>)
      reads *
    {
      updates.Keys == pending.Keys && forall id :: id in updates ==> IsPending(updates[id], id, pending[id])
    }

    /** The list in the response shares its entries with the table of updates. */
    ghost predicate HoldsListed(ids: seq<string>)
      reads this
    {
      Ids(listed) == ids && forall u :: u in listed ==> u.containerId in updates && updates[u.containerId] == u
    }

    ghost predicate HoldsOwners(all: map<string, FieldOwners>)
      reads owners
    {
      forall id :: OwnersFor(owners.owners, id) == OwnersFor(all, id)
    }

    ghost predicate HoldsRequest(creating: Option<string>, requested: Option<string>, view: Resources)
      reads request, if request == null then {} else {request.resources}
      reads if request == null then {} else {request.resources.memory}
      reads if request == null then {} else {request.resources.cpu}
    {
      && creating == (if create == null then None else Some(create.id))
      && requested == (if request == null then None else Some(request.containerId))
      && (request != null ==> request.resources.Value() == view)
    }

    /** The updates collected, the request and the records are those of "s". */
    ghost predicate Collects(s: Updating)
      reads *
    {
      HoldsRequest(s.creating, s.requested, s.view) && HoldsPending(s.pending) && HoldsListed(s.listed) &&
      HoldsOwners(s.owners)
    }

    ghost function Ids(us: seq<ContainerUpdate>): (r: seq<string>)
      ensures |r| == |us| && forall i :: 0 <= i < |us| ==> r[i] == us[i].containerId
    {
      seq(|us|, i requires 0 <= i < |us| => us[i].containerId)
    }

    /** Finds or creates the pending update; there is none for the container under creation. */
    method GetContainerUpdate(u: Update, plugin: string, ghost s: Updating) returns (update: ContainerUpdate?)
      requires Collects(s)
      modifies this`updates, this`listed, updates.Values
      ensures update == null <==> s.creating == Some(u.id)
      ensures update == null ==> Collects(s)
      ensures update != null ==> Collects(WithEntry(s, u)) && u.id in updates && updates[u.id] == update
      ensures fresh(updates.Values - old(updates.Values))
    {
      hide WithEntry, Result.HoldsListed, Result.HoldsOwners, Away, Result.Adjustables;
      if create != null && create.id == u.id {
        return null;
      }
      if u.id in updates {
        update := updates[u.id];
        ShareUpdate(update, u, s);
      } else {
        update := NewUpdate(u, s);
      }
    }

    /** The failures of a pending update may be ignored if those of all updates collected in it may. */
    method ShareUpdate(update: ContainerUpdate, u: Update, ghost s: Updating)
      requires Collects(s) && u.id in updates && updates[u.id] == update
      modifies update`ignoreFailure
      ensures Collects(WithEntry(s, u))
    {
      hide LinuxResources.Value, Result.HoldsOwners, Result.HoldsListed, Result.HoldsRequest, Away, Result.Adjustables;
      assert forall id :: id in updates && id != u.id ==> updates[id] != update;
      update.ignoreFailure := update.ignoreFailure && u.ignoreFailure;
    }

    method NewUpdate(u: Update, ghost s: Updating) returns (update: ContainerUpdate)
      requires Collects(s) && u.id !in updates
      modifies this`updates, this`listed
      ensures fresh(update) && updates == old(updates)[u.id := update]
      ensures Collects(WithEntry(s, u))
    {
      hide Away, Result.Adjustables, Result.IsPending, Result.HoldsListed;
      assert s.requested == Some(u.id) <==> request != null && request.containerId == u.id;
      hide Result.HoldsOwners, Result.HoldsRequest;
      update := Register(u, s);
      hide Result.HoldsPending;
      if request == null || request.containerId != u.id {
        Enlist(update, s.listed);
      }
    }

    method Register(u: Update, ghost s: Updating) returns (update: ContainerUpdate)
      requires HoldsPending(s.pending) && HoldsListed(s.listed) && u.id !in updates
      modifies this`updates
      ensures fresh(update) && updates == old(updates)[u.id := update] && update.containerId == u.id
      ensures HoldsPending(s.pending[u.id := Pending(NO_RESOURCES, u.ignoreFailure)]) && HoldsListed(s.listed)
    {
      hide Result.Ids;
      update := new ContainerUpdate(u.id, u.ignoreFailure);
      assert Away(update.resources, Adjustables());
      hide Away, Result.Adjustables;
      updates := updates[u.id := update];
    }

    method Enlist(update: ContainerUpdate, ghost ids: seq<string>)
      requires HoldsListed(ids) && update.containerId in updates && updates[update.containerId] == update
      modifies this`listed
      ensures HoldsListed(ids + [update.containerId])
    {
      IdsSnoc(listed, update);
      listed := listed + [update];
    }

    lemma IdsSnoc(us: seq<ContainerUpdate>, u: ContainerUpdate)
      ensures Ids(us + [u]) == Ids(us) + [u.containerId]
    {
    }

    ghost predicate Requested(id: string) {
      request != null && request.containerId == id
    }

    ghost function RequestIfAny(): set<UpdateRequest> {
      if request == null then {} else {request}
    }

    /**
      Lays an update over a copy of what is pending, or of the request, and puts copies of the
      outcome in place. A conflict leaves nothing behind but the claims made before it.
     */
    method UpdateResources(reply: ContainerUpdate, e: Edits, id: string, plugin: string) returns (ok: bool)
      requires reply.containerId == id
      modifies owners, reply`resources, RequestIfAny()`resources
      ensures owners.Others(id) == old(owners.Others(id))
      ensures var base := old(if Requested(id) then request.resources.Value() else reply.resources.Value());
              && ClaimAll(old(owners.For(id)), UpdateClaims(e, base), plugin) == Claiming(owners.For(id), ok)
              && (ok ==> reply.resources.Value() == Updated(e, base))
              && (ok && Requested(id) ==> request.resources.Value() == Updated(e, base))
      ensures !ok ==> unchanged(reply) && unchanged(RequestIfAny())
      ensures !Requested(id) ==> unchanged(RequestIfAny())
      ensures ok ==> fresh(reply.resources.Repr())
    {
      hide ClaimAll, Updated, CommonClaims;
      var base := if request != null && request.containerId == id then request.resources else reply.resources;
      var resources := base.Copy();
      UpdatedKeeps(e, base.Value());
      ClaimAllConcat(owners.For(id), CommonClaims(e), ClaimIf(base.pids.Some?, PidsLimit), plugin);
      ok := LayCommon(owners, e, resources, null, id, plugin);
      if !ok { return; }
      ok := ClaimOptional(owners, id, PidsLimit, resources.pids.Some?, plugin);
      if !ok { return; }
      var copy := resources.Copy();
      reply.resources := copy;
      if request != null && request.containerId == id {
        copy := resources.Copy();
        request.resources := copy;
      }
    }

    /** The claims an update makes and what it comes to, laid over the request for the requested container. */
    ghost predicate Asks(id: string, e: Edits, plugin: string, pending: Resources, view: Resources,
                         claims: Claiming, updated: Resources)
      reads *
    {
      var base := if Requested(id) then request.resources.Value() else pending;
      && claims == ClaimAll(owners.For(id), UpdateClaims(e, base), plugin)
      && updated == Updated(e, base)
      && (request != null ==> request.resources.Value() == view)
    }

    /** The claims have been made, and the request shows the outcome if it is for the container. */
    ghost predicate ShowsAfter(ok: bool, id: string, view: Resources, claims: Claiming, updated: Resources)
      reads *
    {
      && claims == Claiming(owners.For(id), ok)
      && (request != null ==> request.resources.Value() == if ok && Requested(id) then updated else view)
    }

    /** The update of a pending entry, which leaves the others alone. */
    method UpdatePending(reply: ContainerUpdate, e: Edits, plugin: string, ghost p: Pending, ghost view: Resources,
                         ghost claims: Claiming, ghost updated: Resources) returns (ok: bool)
      requires IsPending(reply, reply.containerId, p)
      requires Asks(reply.containerId, e, plugin, p.resources, view, claims, updated)
      modifies owners, reply`resources, RequestIfAny()`resources
      ensures owners.Others(reply.containerId) == old(owners.Others(reply.containerId))
      ensures IsPending(reply, reply.containerId, if ok then p.(resources := updated) else p)
      ensures ShowsAfter(ok, reply.containerId, view, claims, updated)
    {
      hide ClaimAll, Updated, UpdateClaims, LinuxResources.Value;
      ok := UpdateResources(reply, e, reply.containerId, plugin);
    }

    /** The same, among all pending entries. */
    method UpdateInTable(id: string, reply: ContainerUpdate, e: Edits, plugin: string,
                         ghost pending: map<string, Pending>,
                         ghost view: Resources, ghost claims: Claiming, ghost updated: Resources) returns (ok: bool)
      requires HoldsPending(pending) && id in updates && updates[id] == reply && id in pending
      requires Asks(id, e, plugin, pending[id].resources, view, claims, updated)
      modifies owners, reply`resources, RequestIfAny()`resources
      ensures owners.Others(id) == old(owners.Others(id))
      ensures HoldsPending(pending[id := if ok then pending[id].(resources := updated) else pending[id]])
      ensures ShowsAfter(ok, id, view, claims, updated)
    {
      hide *;
      EntriesDiffer(pending);
      PendingIs(pending);
      ok := UpdatePending(reply, e, plugin, pending[id], view, claims, updated);
      PendingIs(pending[id := if ok then pending[id].(resources := updated) else pending[id]]);
    }

    lemma PendingIs(pending: map<string, Pending>)
      ensures HoldsPending(pending) <==>
              updates.Keys == pending.Keys && forall id :: id in updates ==> IsPending(updates[id], id, pending[id])
    {
      hide Result.IsPending;
    }

    lemma EntriesDiffer(pending: map<string, Pending>)
      requires HoldsPending(pending)
      ensures forall i :: i in updates ==> updates[i].containerId == i
    {
      hide Away, PendingOf, Result.Adjustables;
    }

    ghost predicate CollectsAfter(ok: bool, s: (Updating, bool))
      reads *
    {
      ok == s.1 && Collects(s.0)
    }

    /** The update of resources in the table. */
    method UpdateCollected(reply: ContainerUpdate, a: Asked, ghost s: Updating) returns (ok: bool)
      requires a.update.resources.Some? && Collects(s) && a.update.id in updates && updates[a.update.id] == reply
      modifies owners, reply`resources, RequestIfAny()`resources
      ensures CollectsAfter(ok, UpdateEntry(s, a))
    {
      hide ClaimedBy, UpdatedBy, Base, UpdateEntry, WithResources, LinuxResources.Value, Result.Asks,
        Result.HoldsPending, Result.HoldsListed;
      CollectedAsks(a, s);
      EntryParts(s, a);
      ghost var records := owners.owners;
      ok := UpdateInTable(a.update.id, reply, a.update.resources.value, a.plugin, s.pending, s.view,
                          ClaimedBy(s, a), UpdatedBy(s, a));
      OwnersAfter(records, owners.owners, s.owners, a.update.id);
      hide UpdateRuns.OwnersFor;
    }

    /** The claims and the outcome of an update in terms of the objects. */
    lemma CollectedAsks(a: Asked, s: Updating)
      requires a.update.resources.Some? && Collects(s) && a.update.id in updates
      ensures a.update.id in s.pending &&
              Asks(a.update.id, a.update.resources.value, a.plugin, s.pending[a.update.id].resources, s.view,
                   ClaimedBy(s, a), UpdatedBy(s, a))
    {
      hide ClaimAll, Updated, UpdateClaims, LinuxResources.Value, Result.HoldsListed;
    }

    /** One update of a reply; it ends the request if it fails and its failure may not be ignored. */
    method UpdateOne(a: Asked, ghost s: Updating) returns (ok: bool)
      requires Collects(s)
      modifies this`updates, this`listed, updates.Values, owners, RequestIfAny()`resources
      ensures fresh(updates.Values - old(updates.Values))
      ensures Collects(ApplyUpdate(s, a).0) && ok == ApplyUpdate(s, a).1
    {
      EntryKeepsBase(s, a);
      hide WithEntry, WithResources, ClaimAll, Updated, Base, Result.HoldsPending, Result.HoldsOwners,
        Result.HoldsListed;
      var reply := GetContainerUpdate(a.update, a.plugin, s);
      if reply == null {
        return false;
      }
      if a.update.resources.None? {
        return true;
      }
      assert reply in updates.Values;
      assert reply !in old(updates.Values) ==> reply in updates.Values - old(updates.Values);
      ok := UpdateCollected(reply, a, WithEntry(s, a.update));
      ok := ok || a.update.ignoreFailure;
    }

    /** The updates of one reply, up to the first one that ends the request. */
    method UpdateAll(us: seq<Update>, plugin: string, ghost s: Updating) returns (ok: bool)
      requires Collects(s)
      modifies this`updates, this`listed, updates.Values, owners, RequestIfAny()`resources
      ensures fresh(updates.Values - old(updates.Values))
      ensures ok == RunUpdates(s, AskedBy(plugin, us)).1
      ensures ok ==> Collects(RunUpdates(s, AskedBy(plugin, us)).0)
    {
      hide ApplyUpdate, Result.Collects;
      ghost var asked := AskedBy(plugin, us);
      for i := 0 to |us|
        invariant fresh(updates.Values - old(updates.Values))
        invariant RunUpdates(s, asked[..i]).1 && Collects(RunUpdates(s, asked[..i]).0)
      {
        assert asked[..i + 1][..i] == asked[..i];
        ok := UpdateOne(Asked(plugin, us[i]), RunUpdates(s, asked[..i]).0);
        if !ok {
          RunUpdatesStops(s, asked, i + 1);
          return;
        }
      }
      assert asked[..|asked|] == asked;
      ok := true;
    }

    // ----- whole replies -----

    /** The updates collected are those of "s", with the records of the container under creation added to its own. */
    ghost predicate CollectsBeside(s: Updating)
      requires create != null
      reads *
    {
      Collects(s.(owners := s.owners[create.id := owners.For(create.id)]))
    }

    /** All objects that folding a reply into the result may change, but for the container. */
    ghost function Changing(): set<object>
      reads this, updates.Values
    {
      {this, owners} + updates.Values + (if adjust == null then {} else {adjust}) + Adjustables()
    }

    lemma NothingCollected(o: Original)
      requires create != null && adjust != null && request == null
      requires create.mounts == o.mounts && create.env == o.env && create.devices == o.devices &&
               create.namespaces == o.namespaces
      requires create.resources.Value() == o.resources && adjust.resources.Value() == NO_RESOURCES
      requires adjust.mounts == [] && adjust.env == [] && adjust.devices == [] && adjust.namespaces == []
      requires (forall id :: owners.For(id) == NO_OWNERS) && updates == map[] && listed == []
      ensures Holds(StartCreating(create.id, o).creation) && CollectsBeside(StartCreating(create.id, o).updating)
    {
      hide MapOf;
      assert Ids([]) == [];
      assert forall id :: OwnersFor(owners.owners, id) == owners.For(id);
    }

    /** The result of a creation request is what the fold has come to. */
    ghost predicate Folds(s: Creating)
      reads *
    {
      create != null && adjust != null && request == null && create.resources.Repr() !! adjust.resources.Repr() &&
      Holds(s.creation) && CollectsBeside(s.updating)
    }

    ghost predicate FoldsIf(ok: bool, s: Option<Creating>)
      reads *
    {
      ok == s.Some? && (ok ==> Folds(s.value))
    }

    ghost predicate IsOrderly(rpl: CreateReply) {
      rpl.adjust.Some? ==> IsOrderOf(rpl.adjust.value.order, RemovedKeys(rpl.adjust.value.mounts))
    }

    /** What an adjustment may change. */
    ghost function Touched(): set<object> {
      {owners} + Adjustables() + (if create == null then {} else {create}) + (if adjust == null then {} else {adjust})
    }

    /** One plugin's reply to a creation request, accepted if and only if the fold accepts it. */
    method Apply(rpl: CreateReply, plugin: string, ghost s: Creating) returns (ok: bool)
      requires IsOrderly(rpl) && Folds(s)
      modifies this`updates, this`listed, updates.Values, Touched()
      ensures fresh(updates.Values - old(updates.Values))
      ensures FoldsIf(ok, ApplyReply(s, Replied(plugin, rpl)))
    {
      hide ApplyReply, MergeAdjustment, RunUpdates, AskedBy, Result.Holds, Result.CollectsBeside;
      ReplyParts(s, plugin, rpl);
      ghost var c := s.creation;
      if rpl.adjust.Some? {
        ok := AdjustBeside(rpl.adjust.value, plugin, s);
        if !ok { return; }
        c := MergeAdjustment(s.creation, plugin, rpl.adjust.value).value;
      }
      ok := UpdateBeside(rpl.updates, plugin, s.updating, c);
    }

    /** An adjustment leaves the pending updates alone. */
    method AdjustApart(rpl: Adjustment, plugin: string, ghost c: Creation, ghost pending: map<string, Pending>)
      returns (ok: bool)
      requires create != null && adjust != null && create.resources.Repr() !! adjust.resources.Repr()
      requires IsOrderOf(rpl.order, RemovedKeys(rpl.mounts)) && Holds(c) && HoldsPending(pending)
      modifies owners, create, adjust, Adjustables()
      ensures owners.Others(create.id) == old(owners.Others(create.id))
      ensures HoldsIf(ok, MergeAdjustment(c, plugin, rpl)) && HoldsPending(pending)
    {
      hide MergeAdjustment, Result.Holds, LinuxResources.Value, MapOf, FieldOwners.Entries;
      assert forall id :: id in updates ==> updates[id].resources.Repr() !! Adjustables();
      ok := Adjust(rpl, plugin, c);
    }

    /** An adjustment leaves the updates alone. */
    method AdjustBeside(rpl: Adjustment, plugin: string, ghost s: Creating) returns (ok: bool)
      requires create != null && adjust != null && request == null && create.resources.Repr() !! adjust.resources.Repr()
      requires IsOrderOf(rpl.order, RemovedKeys(rpl.mounts))
      requires Holds(s.creation) && CollectsBeside(s.updating)
      modifies owners, create, adjust, Adjustables()
      ensures HoldsIf(ok, MergeAdjustment(s.creation, plugin, rpl)) && (ok ==> CollectsBeside(s.updating))
    {
      hide MergeAdjustment, Result.Holds, Result.HoldsPending;
      ghost var records, all := owners.owners, s.updating.owners[create.id := owners.For(create.id)];
      ok := AdjustApart(rpl, plugin, s.creation, s.updating.pending);
      OwnersAfter(records, owners.owners, all, create.id);
      assert all[create.id := owners.For(create.id)] == s.updating.owners[create.id := owners.For(create.id)];
    }

    /** Updates leave the creation alone. */
    method UpdateBeside(us: seq<Update>, plugin: string, ghost s: Updating, ghost c: Creation) returns (ok: bool)
      requires create != null && adjust != null && request == null
      requires Holds(c) && CollectsBeside(s)
      modifies this`updates, this`listed, updates.Values, owners
      ensures fresh(updates.Values - old(updates.Values))
      ensures ok == RunUpdates(s, AskedBy(plugin, us)).1
      ensures ok ==> Holds(c) && CollectsBeside(RunUpdates(s, AskedBy(plugin, us)).0)
    {
      hide RunUpdates, AskedBy, Result.HoldsBy, Result.Collects;
      ghost var o := owners.For(create.id);
      OwnCreation(s.(owners := s.owners[create.id := o]));
      UpdatesIgnoreCreating(s, o, AskedBy(plugin, us));
      ok := UpdateAll(us, plugin, s.(owners := s.owners[create.id := o]));
      if ok {
        OwnRecords(RunUpdates(s, AskedBy(plugin, us)).0, o);
      }
    }

    lemma OwnCreation(s: Updating)
      requires create != null && Collects(s)
      ensures s.creating == Some(create.id)
    {
    }

    lemma OwnRecords(s: Updating, o: FieldOwners)
      requires create != null && Collects(s.(owners := s.owners[create.id := o]))
      ensures owners.For(create.id) == o
    {
      var all := s.owners[create.id := o];
      assert OwnersFor(owners.owners, create.id) == OwnersFor(all, create.id);
    }

    /** For an update request the requested container comes last; it is missing if no plugin touched it. */
    method UpdateContainerResponse(ghost s: Updating, ghost asked: seq<Asked>) returns (response: seq<ContainerUpdate?>)
      requires request != null && Collects(s) && Shaped(s, asked)
      ensures IsResponse(response, request.containerId, s)
    {
      assert forall id :: id in s.listed ==> id in s.pending && s.requested != Some(id);
      forall i | 0 <= i < |listed|
        ensures IsEntry(listed[i], s.listed[i], s.pending)
      {
        assert listed[i] in listed && Ids(listed)[i] == s.listed[i];
        assert s.listed[i] in s.listed;
      }
      var requested: ContainerUpdate? := if request.containerId in updates then updates[request.containerId] else null;
      response := listed + [requested];
    }

    method ByType(namespaces: seq<Namespace>) returns (m: map<string, string>)
      ensures m == MapOf(namespaces)
    {
      m := map[];
      for i := 0 to |namespaces|
        invariant m == MapOf(namespaces[..i])
      {
        assert namespaces[..i + 1][..i] == namespaces[..i];
        m := m[namespaces[i].key := namespaces[i].value];
      }
      assert namespaces[..|namespaces|] == namespaces;
    }

    method Collect(m: map<string, string>) returns (s: seq<Namespace>)
      ensures MapOf(s) == m && DistinctKeys(s)
    {
      assert MapOf<string>([]) == map[] && DistinctKeys<string>([]);
      hide MapOf, DistinctKeys;
      s := [];
      var left := m.Keys;
      while left != {}
        invariant left <= m.Keys && MapOf(s) == m - left && DistinctKeys(s)
        decreases left
      {
        var k :| k in left;
        MapOfSnoc(s, Entry(k, m[k]));
        DistinctSnoc(s, Entry(k, m[k]));
        assert (m - left)[k := m[k]] == m - (left - {k});
        s := s + [Entry(k, m[k])];
        left := left - {k};
      }
      assert m - {} == m;
    }
  }

  /** A conflict on one namespace is a conflict on the list. */
  lemma {:induction false} MergeNamespacesStops(s: Namespaces, plugin: string, items: seq<Option<Namespace>>, k: nat)
    requires k <= |items|
    ensures MergeNamespaces(s, plugin, items[..k]).None? ==> MergeNamespaces(s, plugin, items).None?
    decreases |items| - k
  {
    if k == |items| {
      assert items[..k] == items;
    } else {
      assert items[..k + 1][..k] == items[..k];
      MergeNamespacesStops(s, plugin, items, k + 1);
    }
  }

  lemma UpdatedKeeps(e: Edits, r: Resources)
    ensures Updated(e, r).devices == r.devices && Updated(e, r).pids == r.pids
  {
  }

  lemma ClaimsThenPids(o: FieldOwners, e: Edits, plugin: string)
    ensures ClaimAll(o, Claims(e), plugin) ==
            Then(ClaimAll(o, CommonClaims(e), plugin), ClaimIf(e.pids.Some?, PidsLimit), plugin)
  {
    ClaimAllConcat(o, CommonClaims(e), ClaimIf(e.pids.Some?, PidsLimit), plugin);
  }

  lemma NoEditsClaimNothing(o: FieldOwners, plugin: string)
    ensures ClaimAll(o, Claims(NO_EDITS), plugin) == Claiming(o, true)
  {
    NoFieldClaims(MemoryGiven(NO_MEMORY), MEMORY_FIELDS);
    NoFieldClaims(CPUGiven(NO_CPU), CPU_FIELDS);
  }

  lemma AdjustedByNothing(r: Resources)
    ensures Adjusted(NO_EDITS, r) == r
  {
    assert r.hugepages + [] == r.hugepages && r.devices + [] == r.devices;
    assert r.unified + MapOf<string>([]) == r.unified;
  }

  predicate IsResourceKey(k: Key) {
    k.Simple? || k.field == HugepageLimits || k.field == CgroupsUnified
  }

  ghost predicate SameResourceOwners(o: FieldOwners, p: FieldOwners) {
    forall k :: IsResourceKey(k) ==> o.Owner(k) == p.Owner(k)
  }

  lemma ListOwnersKept(before: FieldOwners, after: FieldOwners, field: Field, p: FieldOwners)
    requires OnlyEntries(before, after, field) && field != HugepageLimits && field != CgroupsUnified
    requires SameResourceOwners(before, p)
    ensures SameResourceOwners(after, p) && forall f :: f != field ==> after.Entries(f) == before.Entries(f)
  {
    OtherEntriesKept(before, after, field);
  }

  /** Claims of resources depend on, and change, the records of resources only. */
  lemma ResourceClaims(o: FieldOwners, p: FieldOwners, e: Edits, plugin: string)
    requires SameResourceOwners(o, p)
    ensures var c, d := ClaimAll(o, Claims(e), plugin), ClaimAll(p, Claims(e), plugin);
            && c.ok == d.ok
            && SameResourceOwners(c.owners, d.owners)
            && forall f :: f != HugepageLimits && f != CgroupsUnified ==> c.owners.Entries(f) == o.Entries(f)
  {
    forall k | k in Claims(e) ensures IsResourceKey(k) {
      ClaimsWhatItSets(e, k);
    }
    ClaimAllFrame(o, p, Claims(e), plugin);
    ClaimAllFrame(p, o, Claims(e), plugin);
    var c := ClaimAll(o, Claims(e), plugin);
    forall f | f != HugepageLimits && f != CgroupsUnified ensures c.owners.Entries(f) == o.Entries(f) {
      forall k ensures Lookup(c.owners.Entries(f), k) == Lookup(o.Entries(f), k) {
        assert c.owners.Owner(Compound(f, k)) == o.Owner(Compound(f, k));
      }
      SameLookups(c.owners.Entries(f), o.Entries(f));
    }
  }

  lemma EntryParts(s: Updating, a: Asked)
    requires a.update.id in s.pending
    ensures var (id, c, r) := (a.update.id, ClaimedBy(s, a), UpdatedBy(s, a));
            UpdateEntry(s, a) ==
            (s.(owners := s.owners[id := c.owners],
             pending := s.pending[id := if c.ok then s.pending[id].(resources := r) else s.pending[id]],
             view := if c.ok && s.requested == Some(id) then r else s.view),
             c.ok)
  {
    hide ClaimedBy, UpdatedBy;
    assert s.pending[a.update.id := s.pending[a.update.id]] == s.pending;
  }

  lemma ReplyParts(s: Creating, plugin: string, rpl: CreateReply)
    ensures var c := if rpl.adjust.Some? then MergeAdjustment(s.creation, plugin, rpl.adjust.value)
                     else Some(s.creation);
            var (u, ok) := RunUpdates(s.updating, AskedBy(plugin, rpl.updates));
            ApplyReply(s, Replied(plugin, rpl)) == if c.Some? && ok then Some(Creating(c.value, u)) else None
  {
    hide MergeAdjustment, RunUpdates;
  }

  lemma EntryKeepsBase(s: Updating, a: Asked)
    ensures var s1 := WithEntry(s, a.update);
            && Base(s1, a.update.id) == Base(s, a.update.id) && s1.owners == s.owners && s1.requested == s.requested
            && s1.creating == s.creating && s1.view == s.view
  {
  }

  lemma OwnersAfter(before: map<string, FieldOwners>, after: map<string, FieldOwners>,
                    all: map<string, FieldOwners>, id: string)
    requires forall i :: OwnersFor(before, i) == OwnersFor(all, i)
    requires before - {id} == after - {id}
    ensures forall i :: OwnersFor(after, i) == OwnersFor(all[id := OwnersFor(after, id)], i)
  {
    OthersKept(before, after, id);
    forall i ensures OwnersFor(after, i) == OwnersFor(all[id := OwnersFor(after, id)], i) {
      assert OwnersFor(before, i) == OwnersFor(all, i);
    }
  }
}
