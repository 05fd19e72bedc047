/** Linux resources as values, the edits plugins make to them, and the claims those edits need. */
module Resources {
  import opened Prelude
  import opened Markers
  import opened Owners
  import opened KeyedLists

  datatype Memory = Memory(
    limit: Option<int>, reservation: Option<int>, swap: Option<int>, kernel: Option<int>, kernelTcp: Option<int>,
    swappiness: Option<int>, disableOomKiller: Option<bool>, useHierarchy: Option<bool>)

  /** An empty CPU or memory set is one that is not given. */
  datatype CPU = CPU(
    shares: Option<int>, quota: Option<int>, period: Option<int>, realtimeRuntime: Option<int>,
    realtimePeriod: Option<int>,
    cpus: string, mems: string)

  const NO_MEMORY := Memory(None, None, None, None, None, None, None, None)
  const NO_CPU := CPU(None, None, None, None, None, "", "")

  /** A page size and its limit. */
  type Hugepage = Entry<int>

  datatype DeviceRule = DeviceRule(allow: bool, typ: string, major: Option<int>, minor: Option<int>, access: string)

  /** The resources of a container, or those collected so far. */
  datatype Resources = Resources(
    memory: Memory, cpu: CPU, hugepages: seq<Hugepage>, devices: seq<DeviceRule>, unified: map<string, string>,
    blockioClass: Option<string>, rdtClass: Option<string>, pids: Option<int>)

  const NO_RESOURCES := Resources(NO_MEMORY, NO_CPU, [], [], map[], None, None, None)

  /** The resources in a plugin's reply. "unified" lists its map in the order it is iterated. */
  datatype Edits = Edits(
    memory: Option<Memory>, cpu: Option<CPU>, hugepages: seq<Hugepage>, devices: seq<DeviceRule>,
    unified: seq<Entry<string>>,
    blockioClass: Option<string>, rdtClass: Option<string>, pids: Option<int>)

  // ----- claims -----

  const MEMORY_FIELDS := [MemLimit, MemReservation, MemSwapLimit, MemKernelLimit, MemTCPLimit, MemSwappiness,
                          MemDisableOomKiller, MemUseHierarchy]
  const CPU_FIELDS := [CPUShares, CPUQuota, CPUPeriod, CPURealtimeRuntime, CPURealtimePeriod, CPUSetCPUs, CPUSetMems]

  function ClaimIf(given: bool, field: Field): seq<Key> {
    if given then [Simple(field)] else []
  }

  /** Claims of the fields that are given, in the order listed. */
  function FieldClaims(given: Field -> bool, fields: seq<Field>): seq<Key> {
    if fields == [] then []
    else
      var front, f := fields[..|fields| - 1], fields[|fields| - 1];
      FieldClaims(given, front) + ClaimIf(given(f), f)
  }

  function MemoryGiven(m: Memory): Field -> bool { f => MemoryValue(m, f).Some? }
  function CPUGiven(c: CPU): Field -> bool { f => CPUValue(c, f).Some? }

  function MemoryClaims(m: Memory): seq<Key> { FieldClaims(MemoryGiven(m), MEMORY_FIELDS) }
  function CPUClaims(c: CPU): seq<Key> { FieldClaims(CPUGiven(c), CPU_FIELDS) }

  function EntryClaims<T>(field: Field, s: seq<Entry<T>>): (r: seq<Key>)
    ensures |r| == |s| && forall i :: 0 <= i < |s| ==> r[i] == Compound(field, s[i].key)
  {
    seq(|s|, i requires 0 <= i < |s| => Compound(field, s[i].key))
  }

  function MemoryEdits(e: Edits): Memory { if e.memory.Some? then e.memory.value else NO_MEMORY }
  function CPUEdits(e: Edits): CPU { if e.cpu.Some? then e.cpu.value else NO_CPU }

  /** What an edit claims apart from the pids limit, in order. */
  function CommonClaims(e: Edits): seq<Key> {
    MemoryClaims(MemoryEdits(e)) + CPUClaims(CPUEdits(e)) +
    EntryClaims(HugepageLimits, e.hugepages) + EntryClaims(CgroupsUnified, e.unified) +
    ClaimIf(e.blockioClass.Some?, BlockioClass) + ClaimIf(e.rdtClass.Some?, RdtClass)
  }

  /** What an adjustment of a container under creation claims. */
  function Claims(e: Edits): seq<Key> {
    CommonClaims(e) + ClaimIf(e.pids.Some?, PidsLimit)
  }

  datatype Claiming = Claiming(owners: FieldOwners, ok: bool)

  /** Claims one key after the other, up to the first conflict; earlier claims stand. */
  function ClaimAll(owners: FieldOwners, keys: seq<Key>, plugin: string): Claiming
    decreases keys
  {
    if keys == [] then Claiming(owners, true)
    else if Conflict(owners.Owner(keys[0]), plugin).Some? then Claiming(owners, false)
    else ClaimAll(owners.Put(keys[0], plugin), keys[1..], plugin)
  }

  lemma {:induction false} ClaimAllConcat(owners: FieldOwners, a: seq<Key>, b: seq<Key>, plugin: string)
    ensures var c := ClaimAll(owners, a, plugin);
            ClaimAll(owners, a + b, plugin) == if c.ok then ClaimAll(c.owners, b, plugin) else c
    decreases a
  {
    if a == [] {
      assert a + b == b;
    } else {
      assert (a + b)[1..] == a[1..] + b;
      ClaimAllConcat(owners.Put(a[0], plugin), a[1..], b, plugin);
    }
  }

  /** The claims once the first k of the fields have been dealt with. */
  function ClaimedUpTo(owners: FieldOwners, given: Field -> bool, fields: seq<Field>, k: nat, plugin: string): Claiming
    requires k <= |fields|
  {
    ClaimAll(owners, FieldClaims(given, fields[..k]), plugin)
  }

  /** Dealing with the next field; a conflict settles the outcome for all fields. */
  lemma ClaimNext(owners: FieldOwners, given: Field -> bool, fields: seq<Field>, k: nat, plugin: string)
    requires k < |fields|
    ensures var c, f := ClaimedUpTo(owners, given, fields, k, plugin), fields[k];
            c.ok ==> ClaimedUpTo(owners, given, fields, k + 1, plugin) ==
                     if !given(f) then c
                     else if Conflict(c.owners.Owner(Simple(f)), plugin).Some? then Claiming(c.owners, false)
                     else Claiming(c.owners.Put(Simple(f), plugin), true)
    ensures var c := ClaimedUpTo(owners, given, fields, k + 1, plugin);
            !c.ok ==> c == ClaimAll(owners, FieldClaims(given, fields), plugin)
  {
    assert fields[..k + 1][..k] == fields[..k];
    ClaimAllConcat(owners, FieldClaims(given, fields[..k]), ClaimIf(given(fields[k]), fields[k]), plugin);
    ConflictSettles(owners, given, fields, k + 1, plugin);
  }

  lemma {:induction false} ConflictSettles(owners: FieldOwners, given: Field -> bool, fields: seq<Field>, k: nat,
                                           plugin: string)
    requires k <= |fields|
    ensures var c := ClaimedUpTo(owners, given, fields, k, plugin);
            !c.ok ==> c == ClaimAll(owners, FieldClaims(given, fields), plugin)
    decreases |fields| - k
  {
    if k == |fields| {
      assert fields[..k] == fields;
    } else {
      assert fields[..k + 1][..k] == fields[..k];
      ClaimAllConcat(owners, FieldClaims(given, fields[..k]), ClaimIf(given(fields[k]), fields[k]), plugin);
      ConflictSettles(owners, given, fields, k + 1, plugin);
    }
  }

  /** Further claims, unless an earlier one conflicted. */
  function Then(c: Claiming, keys: seq<Key>, plugin: string): Claiming {
    if c.ok then ClaimAll(c.owners, keys, plugin) else c
  }

  /** The common claims of an edit, group by group. */
  function ClaimGroups(owners: FieldOwners, e: Edits, plugin: string): Claiming {
    var c := ClaimAll(owners, MemoryClaims(MemoryEdits(e)), plugin);
    var c := Then(c, CPUClaims(CPUEdits(e)), plugin);
    if c.ok then OtherGroups(c.owners, e, plugin) else c
  }

  /** The groups after memory and CPU. */
  function OtherGroups(owners: FieldOwners, e: Edits, plugin: string): Claiming {
    var c := ClaimAll(owners, EntryClaims(HugepageLimits, e.hugepages), plugin);
    var c := Then(c, EntryClaims(CgroupsUnified, e.unified), plugin);
    var c := Then(c, ClaimIf(e.blockioClass.Some?, BlockioClass), plugin);
    Then(c, ClaimIf(e.rdtClass.Some?, RdtClass), plugin)
  }

  lemma ClaimsInGroups(owners: FieldOwners, e: Edits, plugin: string)
    ensures ClaimAll(owners, CommonClaims(e), plugin) == ClaimGroups(owners, e, plugin)
  {
    var a := MemoryClaims(MemoryEdits(e));
    var b := a + CPUClaims(CPUEdits(e));
    var c := b + EntryClaims(HugepageLimits, e.hugepages);
    var d := c + EntryClaims(CgroupsUnified, e.unified);
    var f := d + ClaimIf(e.blockioClass.Some?, BlockioClass);
    ClaimAllConcat(owners, a, CPUClaims(CPUEdits(e)), plugin);
    ClaimAllConcat(owners, b, EntryClaims(HugepageLimits, e.hugepages), plugin);
    ClaimAllConcat(owners, c, EntryClaims(CgroupsUnified, e.unified), plugin);
    ClaimAllConcat(owners, d, ClaimIf(e.blockioClass.Some?, BlockioClass), plugin);
    ClaimAllConcat(owners, f, ClaimIf(e.rdtClass.Some?, RdtClass), plugin);
  }

  /** The outcome depends only on the records of the keys claimed, and touches no other record. */
  lemma {:induction false} ClaimAllFrame(o1: FieldOwners, o2: FieldOwners, keys: seq<Key>, plugin: string)
    requires forall k :: k in keys ==> o1.Owner(k) == o2.Owner(k)
    ensures ClaimAll(o1, keys, plugin).ok == ClaimAll(o2, keys, plugin).ok
    ensures forall k :: k in keys ==>
                          ClaimAll(o1, keys, plugin).owners.Owner(k) == ClaimAll(o2, keys, plugin).owners.Owner(k)
    ensures forall k :: k !in keys ==> ClaimAll(o1, keys, plugin).owners.Owner(k) == o1.Owner(k)
    decreases keys
  {
    if keys != [] && Conflict(o1.Owner(keys[0]), plugin).None? {
      var p1, p2 := o1.Put(keys[0], plugin), o2.Put(keys[0], plugin);
      ClaimAllFrame(p1, p2, keys[1..], plugin);
      assert keys == [keys[0]] + keys[1..];
      if keys[0] !in keys[1..] {
        ClaimAllFrame(p2, p1, keys[1..], plugin);
      }
    }
  }

  /**
    Claims are made one by one up to the first that is taken, by an earlier record or by the list itself;
    those made stand, and nothing else changes.
   */
  lemma {:induction false} ClaimAllStops(owners: FieldOwners, keys: seq<Key>, plugin: string) returns (n: nat)
    requires !Marked(plugin)
    requires forall k :: k in keys && owners.Owner(k).Some? ==> !Marked(owners.Owner(k).value)
    ensures var c := ClaimAll(owners, keys, plugin);
            && n <= |keys| && (c.ok <==> n == |keys|)
            && (!c.ok ==> owners.Owner(keys[n]).Some? || keys[n] in keys[..n])
            && Distinct(keys[..n]) && (forall k :: k in keys[..n] ==> owners.Owner(k).None?)
            && forall k :: c.owners.Owner(k) == if k in keys[..n] then Some(plugin) else owners.Owner(k)
    decreases keys
  {
    if keys == [] || owners.Owner(keys[0]).Some? {
      if keys != [] {
        MarkerRoundTrip(owners.Owner(keys[0]).value);
      }
      n := 0;
    } else {
      var rest := keys[1..];
      var m := ClaimAllStops(owners.Put(keys[0], plugin), rest, plugin);
      n := m + 1;
      assert keys[..n] == [keys[0]] + rest[..n - 1];
      DistinctConcat([keys[0]], rest[..n - 1]);
    }
  }

  /** With no clears about, claims succeed if and only if they are distinct and nobody made one before. */
  lemma {:induction false} ClaimAllIff(owners: FieldOwners, keys: seq<Key>, plugin: string)
    requires !Marked(plugin)
    requires forall k :: k in keys && owners.Owner(k).Some? ==> !Marked(owners.Owner(k).value)
    ensures ClaimAll(owners, keys, plugin).ok <==> Distinct(keys) && forall k :: k in keys ==> owners.Owner(k).None?
    ensures ClaimAll(owners, keys, plugin).ok ==>
              forall k :: ClaimAll(owners, keys, plugin).owners.Owner(k) ==
                          if k in keys then Some(plugin) else owners.Owner(k)
    decreases keys
  {
    if keys != [] {
      var rest := keys[1..];
      assert keys == [keys[0]] + rest;
      DistinctConcat([keys[0]], rest);
      if owners.Owner(keys[0]).None? {
        ClaimAllIff(owners.Put(keys[0], plugin), rest, plugin);
      }
    }
  }

  /** However the claims end, no record is lost, and no ordinary name becomes a clear. */
  lemma {:induction false} ClaimAllGrows(owners: FieldOwners, keys: seq<Key>, plugin: string)
    requires !Marked(plugin)
    ensures var after := ClaimAll(owners, keys, plugin).owners;
            && (forall k :: owners.Owner(k).Some? ==> after.Owner(k).Some?)
            && ((forall k :: owners.Owner(k).Some? ==> !Marked(owners.Owner(k).value)) ==>
                  forall k :: after.Owner(k).Some? ==> !Marked(after.Owner(k).value))
    decreases keys
  {
    if keys != [] && Conflict(owners.Owner(keys[0]), plugin).None? {
      ClaimAllGrows(owners.Put(keys[0], plugin), keys[1..], plugin);
    }
  }

  // ----- values -----

  function OverlayMemory(a: Memory, m: Memory): Memory {
    Memory(Or(a.limit, m.limit), Or(a.reservation, m.reservation), Or(a.swap, m.swap), Or(a.kernel, m.kernel),
           Or(a.kernelTcp, m.kernelTcp), Or(a.swappiness, m.swappiness),
           Or(a.disableOomKiller, m.disableOomKiller), Or(a.useHierarchy, m.useHierarchy))
  }

  function OverlayCPU(a: CPU, c: CPU): CPU {
    CPU(Or(a.shares, c.shares), Or(a.quota, c.quota), Or(a.period, c.period),
        Or(a.realtimeRuntime, c.realtimeRuntime), Or(a.realtimePeriod, c.realtimePeriod),
        if a.cpus != "" then a.cpus else c.cpus, if a.mems != "" then a.mems else c.mems)
  }

  /** The edit laid over the resources: the effect of an update, which leaves devices and pids alone. */
  function Updated(e: Edits, r: Resources): Resources {
    Resources(OverlayMemory(MemoryEdits(e), r.memory), OverlayCPU(CPUEdits(e), r.cpu),
              r.hugepages + e.hugepages, r.devices, r.unified + MapOf(e.unified),
              Or(e.blockioClass, r.blockioClass), Or(e.rdtClass, r.rdtClass), r.pids)
  }

  /** The effect of an adjustment of a container under creation. */
  function Adjusted(e: Edits, r: Resources): Resources {
    Updated(e, r).(devices := r.devices + e.devices, pids := Or(e.pids, r.pids))
  }

  datatype Value = Int(int) | Bool(bool) | Str(string)

  function IntValue(v: Option<int>): Option<Value> { if v.Some? then Some(Int(v.value)) else None }
  function BoolValue(v: Option<bool>): Option<Value> { if v.Some? then Some(Bool(v.value)) else None }
  function StrValue(v: Option<string>): Option<Value> { if v.Some? then Some(Str(v.value)) else None }
  function SetValue(v: string): Option<Value> { if v != "" then Some(Str(v)) else None }

  function MemoryValue(m: Memory, field: Field): Option<Value> {
    match field
    case MemLimit => IntValue(m.limit)
    case MemReservation => IntValue(m.reservation)
    case MemSwapLimit => IntValue(m.swap)
    case MemKernelLimit => IntValue(m.kernel)
    case MemTCPLimit => IntValue(m.kernelTcp)
    case MemSwappiness => IntValue(m.swappiness)
    case MemDisableOomKiller => BoolValue(m.disableOomKiller)
    case MemUseHierarchy => BoolValue(m.useHierarchy)
    case _ => None
  }

  function CPUValue(c: CPU, field: Field): Option<Value> {
    match field
    case CPUShares => IntValue(c.shares)
    case CPUQuota => IntValue(c.quota)
    case CPUPeriod => IntValue(c.period)
    case CPURealtimeRuntime => IntValue(c.realtimeRuntime)
    case CPURealtimePeriod => IntValue(c.realtimePeriod)
    case CPUSetCPUs => SetValue(c.cpus)
    case CPUSetMems => SetValue(c.mems)
    case _ => None
  }

  function SimpleValue(r: Resources, field: Field): Option<Value> {
    if field in MEMORY_FIELDS then MemoryValue(r.memory, field)
    else if field in CPU_FIELDS then CPUValue(r.cpu, field)
    else if field == BlockioClass then StrValue(r.blockioClass)
    else if field == RdtClass then StrValue(r.rdtClass)
    else if field == PidsLimit then IntValue(r.pids)
    else None
  }

  function EntryValue(r: Resources, field: Field, entry: string): Option<Value> {
    if field == HugepageLimits then IntValue(Lookup(MapOf(r.hugepages), entry))
    else if field == CgroupsUnified then StrValue(Lookup(r.unified, entry))
    else None
  }

  /** The value resources hold for a key, if any. */
  function ValueOf(r: Resources, key: Key): Option<Value> {
    match key
    case Simple(f) => SimpleValue(r, f)
    case Compound(f, e) => EntryValue(r, f, e)
  }

  /** The value an edit supplies for a key, if any. */
  function EditOf(e: Edits, key: Key): Option<Value> {
    ValueOf(Adjusted(e, NO_RESOURCES), key)
  }

  lemma MemoryOverlayValue(a: Memory, m: Memory, f: Field)
    ensures MemoryValue(OverlayMemory(a, m), f) == Or(MemoryValue(a, f), MemoryValue(m, f))
  {
  }

  lemma CPUOverlayValue(a: CPU, c: CPU, f: Field)
    ensures CPUValue(OverlayCPU(a, c), f) == Or(CPUValue(a, f), CPUValue(c, f))
  {
  }

  lemma MemoryFieldsOnly(m: Memory, f: Field)
    requires f !in MEMORY_FIELDS
    ensures MemoryValue(m, f).None?
  {
  }

  lemma CPUFieldsOnly(c: CPU, f: Field)
    requires f !in CPU_FIELDS
    ensures CPUValue(c, f).None?
  {
  }

  lemma EditsOnNothing(e: Edits)
    ensures var r := Adjusted(e, NO_RESOURCES);
            && r.memory == MemoryEdits(e) && r.cpu == CPUEdits(e) && r.hugepages == e.hugepages
            && r.unified == MapOf(e.unified) && r.blockioClass == e.blockioClass && r.rdtClass == e.rdtClass &&
               r.pids == e.pids
  {
    assert [] + e.hugepages == e.hugepages;
    assert map[] + MapOf(e.unified) == MapOf(e.unified);
  }

  lemma AdjustedSimple(e: Edits, r: Resources, f: Field)
    ensures SimpleValue(Adjusted(e, r), f) == Or(SimpleValue(Adjusted(e, NO_RESOURCES), f), SimpleValue(r, f))
  {
    hide MemoryValue, CPUValue, OverlayMemory, OverlayCPU, MapOf;
    EditsOnNothing(e);
    if f in MEMORY_FIELDS {
      MemoryOverlayValue(MemoryEdits(e), r.memory, f);
    } else if f in CPU_FIELDS {
      CPUOverlayValue(CPUEdits(e), r.cpu, f);
    }
  }

  lemma AdjustedEntry(e: Edits, r: Resources, f: Field, entry: string)
    ensures EntryValue(Adjusted(e, r), f, entry) ==
            Or(EntryValue(Adjusted(e, NO_RESOURCES), f, entry), EntryValue(r, f, entry))
  {
    hide MapOf, OverlayMemory, OverlayCPU;
    EditsOnNothing(e);
    MapOfConcat(r.hugepages, e.hugepages);
  }

  /** An adjustment overrides exactly the values it supplies. */
  lemma AdjustedValue(e: Edits, r: Resources, key: Key)
    ensures ValueOf(Adjusted(e, r), key) == Or(EditOf(e, key), ValueOf(r, key))
  {
    match key {
      case Simple(f) => AdjustedSimple(e, r, f);
      case Compound(f, entry) => AdjustedEntry(e, r, f, entry);
    }
  }

  lemma {:induction false} FieldClaimsMembers(given: Field -> bool, fields: seq<Field>, key: Key)
    ensures key in FieldClaims(given, fields) <==> key.Simple? && key.field in fields && given(key.field)
  {
    if fields != [] {
      assert fields == fields[..|fields| - 1] + [fields[|fields| - 1]];
      FieldClaimsMembers(given, fields[..|fields| - 1], key);
    }
  }

  lemma EntryClaimsWhatItSets<T>(field: Field, s: seq<Entry<T>>, key: Key)
    ensures key in EntryClaims(field, s) <==> key.Compound? && key.field == field && key.entry in MapOf(s)
  {
    MapOfKeys(s);
    if key in EntryClaims(field, s) {
      var i :| 0 <= i < |s| && EntryClaims(field, s)[i] == key;
      KeyAt(s, i);
    }
    if key.Compound? && key.field == field && key.entry in KeysOf(s) {
      var i :| 0 <= i < |s| && s[i].key == key.entry;
      assert EntryClaims(field, s)[i] == key;
    }
  }

  lemma ClaimsParts(e: Edits, key: Key)
    ensures key in Claims(e) <==>
            || key in MemoryClaims(MemoryEdits(e)) || key in CPUClaims(CPUEdits(e))
            || key in EntryClaims(HugepageLimits, e.hugepages) || key in EntryClaims(CgroupsUnified, e.unified)
            || (key == Simple(BlockioClass) && e.blockioClass.Some?) || (key == Simple(RdtClass) && e.rdtClass.Some?)
            || (key == Simple(PidsLimit) && e.pids.Some?)
  {
  }

  lemma OwnFieldsClaimed(e: Edits, f: Field)
    ensures Simple(f) in MemoryClaims(MemoryEdits(e)) <==>
            f in MEMORY_FIELDS && MemoryValue(MemoryEdits(e), f).Some?
    ensures Simple(f) in CPUClaims(CPUEdits(e)) <==>
            f in CPU_FIELDS && CPUValue(CPUEdits(e), f).Some?
    ensures Simple(f) !in EntryClaims(HugepageLimits, e.hugepages) &&
            Simple(f) !in EntryClaims(CgroupsUnified, e.unified)
  {
    FieldClaimsMembers(MemoryGiven(MemoryEdits(e)), MEMORY_FIELDS, Simple(f));
    FieldClaimsMembers(CPUGiven(CPUEdits(e)), CPU_FIELDS, Simple(f));
    EntryClaimsWhatItSets(HugepageLimits, e.hugepages, Simple(f));
    EntryClaimsWhatItSets(CgroupsUnified, e.unified, Simple(f));
  }

  lemma FieldsApart(f: Field)
    ensures f in MEMORY_FIELDS ==> f !in CPU_FIELDS && f != BlockioClass && f != RdtClass && f != PidsLimit
    ensures f in CPU_FIELDS ==> f != BlockioClass && f != RdtClass && f != PidsLimit
  {
  }

  function SimpleEdit(e: Edits, f: Field): Option<Value> {
    if f in MEMORY_FIELDS then MemoryValue(MemoryEdits(e), f)
    else if f in CPU_FIELDS then CPUValue(CPUEdits(e), f)
    else if f == BlockioClass then StrValue(e.blockioClass)
    else if f == RdtClass then StrValue(e.rdtClass)
    else if f == PidsLimit then IntValue(e.pids)
    else None
  }

  lemma EditSimple(e: Edits, f: Field)
    ensures SimpleValue(Adjusted(e, NO_RESOURCES), f) == SimpleEdit(e, f)
  {
    EditsOnNothing(e);
  }

  lemma ClaimsSimple(e: Edits, f: Field)
    ensures Simple(f) in Claims(e) <==> SimpleValue(Adjusted(e, NO_RESOURCES), f).Some?
  {
    EditSimple(e, f);
    ClaimsParts(e, Simple(f));
    OwnFieldsClaimed(e, f);
    FieldsApart(f);
  }

  lemma ClaimsEntry(e: Edits, f: Field, entry: string)
    ensures Compound(f, entry) in Claims(e) <==> EntryValue(Adjusted(e, NO_RESOURCES), f, entry).Some?
  {
    var key := Compound(f, entry);
    EditsOnNothing(e);
    ClaimsParts(e, key);
    FieldClaimsMembers(MemoryGiven(MemoryEdits(e)), MEMORY_FIELDS, key);
    FieldClaimsMembers(CPUGiven(CPUEdits(e)), CPU_FIELDS, key);
    EntryClaimsWhatItSets(HugepageLimits, e.hugepages, key);
    EntryClaimsWhatItSets(CgroupsUnified, e.unified, key);
  }

  /** An adjustment claims exactly the keys it supplies a value for. */
  lemma ClaimsWhatItSets(e: Edits, key: Key)
    ensures key in Claims(e) <==> EditOf(e, key).Some?
  {
    match key {
      case Simple(f) => ClaimsSimple(e, f);
      case Compound(f, entry) => ClaimsEntry(e, f, entry);
    }
  }

  lemma SameMemory(m: Memory, n: Memory)
    requires forall f :: MemoryValue(m, f) == MemoryValue(n, f)
    ensures m == n
  {
    assert MemoryValue(m, MemLimit) == MemoryValue(n, MemLimit) &&
           MemoryValue(m, MemReservation) == MemoryValue(n, MemReservation);
    assert MemoryValue(m, MemSwapLimit) == MemoryValue(n, MemSwapLimit) &&
           MemoryValue(m, MemKernelLimit) == MemoryValue(n, MemKernelLimit);
    assert MemoryValue(m, MemTCPLimit) == MemoryValue(n, MemTCPLimit) &&
           MemoryValue(m, MemSwappiness) == MemoryValue(n, MemSwappiness);
    assert MemoryValue(m, MemDisableOomKiller) == MemoryValue(n, MemDisableOomKiller);
    assert MemoryValue(m, MemUseHierarchy) == MemoryValue(n, MemUseHierarchy);
  }

  lemma SameCPU(c: CPU, d: CPU)
    requires forall f :: CPUValue(c, f) == CPUValue(d, f)
    ensures c == d
  {
    assert CPUValue(c, CPUShares) == CPUValue(d, CPUShares) && CPUValue(c, CPUQuota) == CPUValue(d, CPUQuota);
    assert CPUValue(c, CPUPeriod) == CPUValue(d, CPUPeriod) &&
           CPUValue(c, CPURealtimeRuntime) == CPUValue(d, CPURealtimeRuntime);
    assert CPUValue(c, CPURealtimePeriod) == CPUValue(d, CPURealtimePeriod);
    assert CPUValue(c, CPUSetCPUs) == CPUValue(d, CPUSetCPUs) && CPUValue(c, CPUSetMems) == CPUValue(d, CPUSetMems);
  }

  /** The field taken over from the edit. */
  function WithMemory(o: Memory, field: Field, m: Memory): Memory {
    match field
    case MemLimit => o.(limit := m.limit)
    case MemReservation => o.(reservation := m.reservation)
    case MemSwapLimit => o.(swap := m.swap)
    case MemKernelLimit => o.(kernel := m.kernel)
    case MemTCPLimit => o.(kernelTcp := m.kernelTcp)
    case MemSwappiness => o.(swappiness := m.swappiness)
    case MemDisableOomKiller => o.(disableOomKiller := m.disableOomKiller)
    case MemUseHierarchy => o.(useHierarchy := m.useHierarchy)
    case _ => o
  }

  /** The fields the edit gives, of those listed, taken over one after the other. */
  function LaidMemory(o: Memory, fields: seq<Field>, m: Memory): Memory {
    if fields == [] then o
    else
      var front, f := LaidMemory(o, fields[..|fields| - 1], m), fields[|fields| - 1];
      if MemoryValue(m, f).Some? then WithMemory(front, f, m) else front
  }

  lemma WithMemoryValue(o: Memory, field: Field, m: Memory, f: Field)
    requires field in MEMORY_FIELDS
    ensures MemoryValue(WithMemory(o, field, m), f) == if f == field then MemoryValue(m, f) else MemoryValue(o, f)
  {
  }

  lemma {:induction false} LaidMemoryValue(o: Memory, fields: seq<Field>, m: Memory, f: Field)
    requires forall g :: g in fields ==> g in MEMORY_FIELDS
    ensures MemoryValue(LaidMemory(o, fields, m), f) ==
            if f in fields then Or(MemoryValue(m, f), MemoryValue(o, f)) else MemoryValue(o, f)
  {
    if fields != [] {
      var front, last := fields[..|fields| - 1], fields[|fields| - 1];
      assert fields == front + [last];
      LaidMemoryValue(o, front, m, f);
      WithMemoryValue(LaidMemory(o, front, m), last, m, f);
    }
  }

  /** Taking over all fields that are given is laying the edit over the value. */
  lemma LaidMemoryAll(o: Memory, m: Memory)
    ensures LaidMemory(o, MEMORY_FIELDS, m) == OverlayMemory(m, o)
  {
    forall f ensures MemoryValue(LaidMemory(o, MEMORY_FIELDS, m), f) == MemoryValue(OverlayMemory(m, o), f) {
      LaidMemoryValue(o, MEMORY_FIELDS, m, f);
      MemoryOverlayValue(m, o, f);
      if f !in MEMORY_FIELDS {
        MemoryFieldsOnly(m, f);
      }
    }
    SameMemory(LaidMemory(o, MEMORY_FIELDS, m), OverlayMemory(m, o));
  }

  /** The field taken over from the edit. */
  function WithCPU(o: CPU, field: Field, c: CPU): CPU {
    match field
    case CPUShares => o.(shares := c.shares)
    case CPUQuota => o.(quota := c.quota)
    case CPUPeriod => o.(period := c.period)
    case CPURealtimeRuntime => o.(realtimeRuntime := c.realtimeRuntime)
    case CPURealtimePeriod => o.(realtimePeriod := c.realtimePeriod)
    case CPUSetCPUs => o.(cpus := c.cpus)
    case CPUSetMems => o.(mems := c.mems)
    case _ => o
  }

  /** The fields the edit gives, of those listed, taken over one after the other. */
  function LaidCPU(o: CPU, fields: seq<Field>, c: CPU): CPU {
    if fields == [] then o
    else
      var front, f := LaidCPU(o, fields[..|fields| - 1], c), fields[|fields| - 1];
      if CPUValue(c, f).Some? then WithCPU(front, f, c) else front
  }

  lemma WithCPUValue(o: CPU, field: Field, c: CPU, f: Field)
    requires field in CPU_FIELDS
    ensures CPUValue(WithCPU(o, field, c), f) == if f == field then CPUValue(c, f) else CPUValue(o, f)
  {
  }

  lemma {:induction false} LaidCPUValue(o: CPU, fields: seq<Field>, c: CPU, f: Field)
    requires forall g :: g in fields ==> g in CPU_FIELDS
    ensures CPUValue(LaidCPU(o, fields, c), f) ==
            if f in fields then Or(CPUValue(c, f), CPUValue(o, f)) else CPUValue(o, f)
  {
    if fields != [] {
      var front, last := fields[..|fields| - 1], fields[|fields| - 1];
      assert fields == front + [last];
      LaidCPUValue(o, front, c, f);
      WithCPUValue(LaidCPU(o, front, c), last, c, f);
    }
  }

  /** Taking over all fields that are given is laying the edit over the value. */
  lemma LaidCPUAll(o: CPU, c: CPU)
    ensures LaidCPU(o, CPU_FIELDS, c) == OverlayCPU(c, o)
  {
    forall f ensures CPUValue(LaidCPU(o, CPU_FIELDS, c), f) == CPUValue(OverlayCPU(c, o), f) {
      LaidCPUValue(o, CPU_FIELDS, c, f);
      CPUOverlayValue(c, o, f);
      if f !in CPU_FIELDS {
        CPUFieldsOnly(c, f);
      }
    }
    SameCPU(LaidCPU(o, CPU_FIELDS, c), OverlayCPU(c, o));
  }

  /** Resources that hold the same values agree in every part but the order of hugepage limits and device rules. */
  lemma SameValues(r: Resources, t: Resources)
    requires forall key :: ValueOf(r, key) == ValueOf(t, key)
    ensures r.memory == t.memory && r.cpu == t.cpu && MapOf(r.hugepages) == MapOf(t.hugepages) && r.unified == t.unified
    ensures r.blockioClass == t.blockioClass && r.rdtClass == t.rdtClass && r.pids == t.pids
  {
    hide MemoryValue, CPUValue, MapOf;
    SameSimpleValues(r, t);
    SameMemoryValues(r, t);
    SameCPUValues(r, t);
    SameEntries(r, t);
    hide ValueOf;
    assert SimpleValue(r, BlockioClass) == SimpleValue(t, BlockioClass);
    assert SimpleValue(r, RdtClass) == SimpleValue(t, RdtClass);
    assert SimpleValue(r, PidsLimit) == SimpleValue(t, PidsLimit);
  }

  lemma SameSimpleValues(r: Resources, t: Resources)
    requires forall key :: ValueOf(r, key) == ValueOf(t, key)
    ensures forall f :: SimpleValue(r, f) == SimpleValue(t, f)
  {
    hide SimpleValue;
    forall f ensures SimpleValue(r, f) == SimpleValue(t, f) {
      assert ValueOf(r, Simple(f)) == ValueOf(t, Simple(f));
    }
  }

  lemma SameMemoryValues(r: Resources, t: Resources)
    requires forall f :: SimpleValue(r, f) == SimpleValue(t, f)
    ensures r.memory == t.memory
  {
    forall f ensures MemoryValue(r.memory, f) == MemoryValue(t.memory, f) {
      if f in MEMORY_FIELDS {
        assert SimpleValue(r, f) == SimpleValue(t, f);
      } else {
        MemoryFieldsOnly(r.memory, f);
        MemoryFieldsOnly(t.memory, f);
      }
    }
    SameMemory(r.memory, t.memory);
  }

  lemma SameCPUValues(r: Resources, t: Resources)
    requires forall f :: SimpleValue(r, f) == SimpleValue(t, f)
    ensures r.cpu == t.cpu
  {
    forall f ensures CPUValue(r.cpu, f) == CPUValue(t.cpu, f) {
      if f in CPU_FIELDS {
        assert f !in MEMORY_FIELDS;
        assert SimpleValue(r, f) == SimpleValue(t, f);
      } else {
        CPUFieldsOnly(r.cpu, f);
        CPUFieldsOnly(t.cpu, f);
      }
    }
    SameCPU(r.cpu, t.cpu);
  }

  lemma SameEntries(r: Resources, t: Resources)
    requires forall key :: ValueOf(r, key) == ValueOf(t, key)
    ensures MapOf(r.hugepages) == MapOf(t.hugepages) && r.unified == t.unified
  {
    forall k
      ensures Lookup(MapOf(r.hugepages), k) == Lookup(MapOf(t.hugepages), k)
      ensures Lookup(r.unified, k) == Lookup(t.unified, k)
    {
      assert ValueOf(r, Compound(HugepageLimits, k)) == ValueOf(t, Compound(HugepageLimits, k));
      assert ValueOf(r, Compound(CgroupsUnified, k)) == ValueOf(t, Compound(CgroupsUnified, k));
    }
    SameLookups(MapOf(r.hugepages), MapOf(t.hugepages));
    SameLookups(r.unified, t.unified);
  }

  lemma SameLookups<V>(m: map<string, V>, n: map<string, V>)
    requires forall k :: Lookup(m, k) == Lookup(n, k)
    ensures m == n
  {
    forall k ensures (k in m <==> k in n) && (k in m ==> m[k] == n[k]) {
      assert Lookup(m, k) == Lookup(n, k);
    }
  }
}
