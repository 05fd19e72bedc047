/**
  Ownership records: which plugin set which field of which container.

  A record is the name of the plugin that claimed the field, or that name with a removal
  marker when the plugin cleared it. Fields are either simple (one record a container) or
  compound (one record for each entry, such as a mount destination).
 */
module Owners {
  import opened Prelude
  import opened Markers

  datatype Field =
    | Mounts | Devices | Env | Namespace
    | MemLimit | MemReservation | MemSwapLimit | MemKernelLimit | MemTCPLimit
    | MemSwappiness | MemDisableOomKiller | MemUseHierarchy
    | CPUShares | CPUQuota | CPUPeriod | CPURealtimeRuntime | CPURealtimePeriod
    | CPUSetCPUs | CPUSetMems
    | PidsLimit | HugepageLimits | BlockioClass | RdtClass | CgroupsUnified
    | RdtClosID | RdtSchemata | RdtEnableMonitoring

  /** What is owned within one container. */
  datatype Key = Simple(field: Field) | Compound(field: Field, entry: string)

  /** The records of one container. */
  datatype FieldOwners = FieldOwners(simple: map<Field, string>, compound: map<Field, map<string, string>>) {

    function Entries(field: Field): map<string, string> {
      if field in compound then compound[field] else map[]
    }

    function Owner(key: Key): Option<string> {
      match key
      case Simple(f) => Lookup(simple, f)
      case Compound(f, e) => Lookup(Entries(f), e)
    }

    function Put(key: Key, record: string): (r: FieldOwners)
      ensures forall k :: r.Owner(k) == if k == key then Some(record) else Owner(k)
    {
      match key
      case Simple(f) => this.(simple := simple[f := record])
      case Compound(f, e) => this.(compound := compound[f := Entries(f)[e := record]])
    }
  }

  const NO_OWNERS := FieldOwners(map[], map[])

  /** The plugin a claim by "plugin" conflicts with, given the record it finds. */
  function Conflict(record: Option<string>, plugin: string): Option<string> {
    if record.None? then None
    else
      var (clearer, marked) := IsMarkedForRemoval(record.value);
      if marked && clearer == plugin then None
      else if marked then Some(clearer)
      else record
  }

  /** Only a missing record or the plugin's own clear lets a claim through; else the record says whose it is. */
  lemma ConflictNames(record: Option<string>, plugin: string)
    ensures var other := Conflict(record, plugin);
            (other == None <==> record == None || record == Some("-" + plugin)) &&
            (other != None ==> record == Some(if "-" <= record.value then "-" + other.value else other.value))
  {
    if record.Some? {
      MarkerRoundTrip(record.value);
      MarkerRoundTrip(plugin);
    }
  }

  /** Equal records of the other containers, seen one container at a time. */
  lemma OthersKept(before: map<string, FieldOwners>, after: map<string, FieldOwners>, id: string)
    requires before - {id} == after - {id}
    ensures forall i :: i != id ==> (i in before <==> i in after) && (i in before ==> before[i] == after[i])
  {
    forall i | i != id ensures (i in before <==> i in after) && (i in before ==> before[i] == after[i]) {
      assert i in before <==> i in before - {id};
      assert i in after <==> i in after - {id};
      if i in before {
        assert (before - {id})[i] == (after - {id})[i];
      }
    }
  }

  class OwningPlugins {
    var owners: map<string, FieldOwners>

    constructor ()
      ensures forall id :: For(id) == NO_OWNERS
    {
      owners := map[];
    }

    ghost function For(id: string): FieldOwners
      reads this
    {
      if id in owners then owners[id] else NO_OWNERS
    }

    /** The records of all other containers. */
    ghost function Others(id: string): map<string, FieldOwners>
      reads this
    {
      owners - {id}
    }

    method MustOwnersFor(id: string) returns (f: FieldOwners)
      modifies this
      ensures f == For(id) && id in owners && owners[id] == f
      ensures For(id) == old(For(id)) && Others(id) == old(Others(id))
    {
      if id !in owners {
        owners := owners[id := NO_OWNERS];
      }
      f := owners[id];
    }

    /** Finds the conflicting plugin, if any; creates the table of a field it has not seen. */
    method IsCompoundConflict(id: string, field: Field, entry: string, plugin: string) returns (other: Option<string>)
      modifies this
      ensures other == Conflict(old(For(id)).Owner(Compound(field, entry)), plugin)
      ensures id in owners && field in owners[id].compound
      ensures Others(id) == old(Others(id))
      ensures For(id) == old(For(id)).(compound := old(For(id)).compound[field := old(For(id)).Entries(field)])
    {
      var f := MustOwnersFor(id);
      if field !in f.compound {
        owners := owners[id := f.(compound := f.compound[field := map[]])];
        return None;
      }
      assert f.compound == f.compound[field := f.Entries(field)];
      if entry !in f.compound[field] {
        return None;
      }
      var current := f.compound[field][entry];
      var (clearer, marked) := IsMarkedForRemoval(current);
      if marked {
        if clearer == plugin {
          return None;
        }
        current := clearer;
      }
      return Some(current);
    }

    method IsSimpleConflict(id: string, field: Field, plugin: string) returns (other: Option<string>)
      modifies this
      ensures other == Conflict(old(For(id)).Owner(Simple(field)), plugin)
      ensures id in owners
      ensures For(id) == old(For(id)) && Others(id) == old(Others(id))
    {
      var f := MustOwnersFor(id);
      if field !in f.simple {
        return None;
      }
      var current := f.simple[field];
      var (clearer, marked) := IsMarkedForRemoval(current);
      if marked {
        if clearer == plugin {
          return None;
        }
        current := clearer;
      }
      return Some(current);
    }

    /** Records the plugin as owner unless it conflicts; a conflict changes nothing. */
    method ClaimCompound(id: string, field: Field, entry: string, plugin: string) returns (other: Option<string>)
      modifies this
      ensures other == Conflict(old(For(id)).Owner(Compound(field, entry)), plugin)
      ensures Others(id) == old(Others(id))
      ensures For(id) == if other.Some? then old(For(id)) else old(For(id)).Put(Compound(field, entry), plugin)
    {
      other := IsCompoundConflict(id, field, entry, plugin);
      if other.None? {
        var f := owners[id];
        var entries := f.compound[field][entry := plugin];
        owners := owners[id := f.(compound := f.compound[field := entries])];
        assert For(id).compound == old(For(id)).compound[field := old(For(id)).Entries(field)[entry := plugin]];
      } else {
        assert old(For(id)).compound[field := old(For(id)).Entries(field)] == old(For(id)).compound;
      }
    }

    method ClaimSimple(id: string, field: Field, plugin: string) returns (other: Option<string>)
      modifies this
      ensures other == Conflict(old(For(id)).Owner(Simple(field)), plugin)
      ensures Others(id) == old(Others(id))
      ensures For(id) == if other.Some? then old(For(id)) else old(For(id)).Put(Simple(field), plugin)
    {
      other := IsSimpleConflict(id, field, plugin);
      if other.None? {
        var f := owners[id];
        owners := owners[id := f.(simple := f.simple[field := plugin])];
      }
    }

    method ClearCompound(id: string, field: Field, entry: string, plugin: string)
      modifies this
      ensures Others(id) == old(Others(id))
      ensures For(id) == old(For(id)).Put(Compound(field, entry), MarkForRemoval(plugin))
    {
      var f := MustOwnersFor(id);
      if field !in f.compound {
        f := f.(compound := f.compound[field := map[]]);
      }
      var entries := f.compound[field][entry := MarkForRemoval(plugin)];
      f := f.(compound := f.compound[field := entries]);
      owners := owners[id := f];
      assert f.compound == old(For(id)).compound[field := old(For(id)).Entries(field)[entry := MarkForRemoval(plugin)]];
    }

    method ClearSimple(id: string, field: Field, plugin: string)
      modifies this
      ensures Others(id) == old(Others(id))
      ensures For(id) == old(For(id)).Put(Simple(field), MarkForRemoval(plugin))
    {
      var f := MustOwnersFor(id);
      owners := owners[id := f.(simple := f.simple[field := MarkForRemoval(plugin)])];
    }

    /** Clears the three fields of an RDT configuration, and no other record. */
    method ClearRdt(id: string, plugin: string)
      modifies this
      ensures Others(id) == old(Others(id))
      ensures forall k :: For(id).Owner(k) ==
                          if k in {Simple(RdtClosID), Simple(RdtSchemata), Simple(RdtEnableMonitoring)}
                          then Some(MarkForRemoval(plugin))
                          else old(For(id)).Owner(k)
    {
      ClearSimple(id, RdtClosID, plugin);
      ClearSimple(id, RdtSchemata, plugin);
      ClearSimple(id, RdtEnableMonitoring, plugin);
    }
  }
}

/** What claims succeed over a whole history of claims and clears. */
module OwnerTraces {
  import opened Prelude
  import opened Markers
  import opened Owners

  datatype Slot = Slot(id: string, key: Key)

  datatype Op =
    | Claim(slot: Slot, plugin: string)
    | Clear(slot: Slot, plugin: string)

  datatype Event = Event(op: Op, granted: bool)

  /** The latest operation that left a record on the slot: a claim that was granted, or a clear. */
  function Latest(history: seq<Event>, slot: Slot): Option<Op> {
    if history == [] then None
    else
      var last := history[|history| - 1];
      if last.granted && last.op.slot == slot then Some(last.op)
      else Latest(history[..|history| - 1], slot)
  }

  /**
    When a claim is due: the slot has no record, or the latest one is a clear by the plugin itself.
    A name that carries a marker is misread, so a claim by "-p" also lets "p" in.
   */
  predicate Due(latest: Option<Op>, plugin: string) {
    latest.None? ||
    latest.value == Clear(latest.value.slot, plugin) ||
    latest.value == Claim(latest.value.slot, MarkForRemoval(plugin))
  }

  ghost predicate Lawful(history: seq<Event>) {
    forall n :: 0 <= n < |history| ==>
                  history[n].granted ==
                  (history[n].op.Clear? || Due(Latest(history[..n], history[n].op.slot), history[n].op.plugin))
  }

  function RecordOf(latest: Option<Op>): Option<string> {
    match latest
    case None => None
    case Some(Claim(_, p)) => Some(p)
    case Some(Clear(_, p)) => Some(MarkForRemoval(p))
  }

  /** Finding no conflict with the recorded name is the same as being due. */
  lemma ConflictMeansNotDue(latest: Option<Op>, plugin: string)
    ensures Conflict(RecordOf(latest), plugin).None? <==> Due(latest, plugin)
  {
    if latest.Some? {
      var record := RecordOf(latest).value;
      MarkerRoundTrip(latest.value.plugin);
      MarkerRoundTrip(record);
      MarkerRoundTrip(plugin);
    }
  }

  /** A refused claim names the plugin of the latest record, less a marker that the name of a claim carries. */
  lemma ConflictIsLatest(latest: Option<Op>, plugin: string)
    requires !Due(latest, plugin)
    ensures Conflict(RecordOf(latest), plugin) ==
            Some(if latest.value.Claim? then Bare(latest.value.plugin) else latest.value.plugin)
  {
    MarkerRoundTrip(latest.value.plugin);
    ConflictMeansNotDue(latest, plugin);
  }

  /** Whom a refused claim is told to be in conflict with: the plugin that left the record, by its own name. */
  ghost predicate Blames(history: seq<Event>, slot: Slot, who: string) {
    exists i :: 0 <= i < |history| && history[i].granted && history[i].op.slot == slot &&
                (history[i].op.plugin == who || (history[i].op.Claim? && history[i].op.plugin == "-" + who)) &&
                forall j :: i < j < |history| && history[j].granted ==> history[j].op.slot != slot
  }

  lemma ConflictBlames(history: seq<Event>, slot: Slot, plugin: string)
    ensures var other := Conflict(RecordOf(Latest(history, slot)), plugin);
            (other.None? <==> Due(Latest(history, slot), plugin)) &&
            (other.Some? ==> Blames(history, slot, other.value))
  {
    var latest := Latest(history, slot);
    ConflictMeansNotDue(latest, plugin);
    if Due(latest, plugin) {
      return;
    }
    ConflictIsLatest(latest, plugin);
    LatestIsEvent(history, slot);
    MarkerRoundTrip(latest.value.plugin);
    var who := Conflict(RecordOf(latest), plugin).value;
    var i :| 0 <= i < |history| && history[i].granted && history[i].op == latest.value &&
             history[i].op.slot == slot &&
             forall j :: i < j < |history| && history[j].granted ==> history[j].op.slot != slot;
    assert history[i].op.plugin == who || (history[i].op.Claim? && history[i].op.plugin == "-" + who);
  }

  /** For ordinary names only a clear by the plugin itself reopens a slot. */
  lemma DueForOrdinaryNames(history: seq<Event>, slot: Slot, plugin: string)
    requires forall i :: 0 <= i < |history| ==> !Marked(history[i].op.plugin)
    ensures Due(Latest(history, slot), plugin) <==>
            Latest(history, slot).None? || Latest(history, slot) == Some(Clear(slot, plugin))
  {
    MarkerRoundTrip(plugin);
    LatestIsEvent(history, slot);
  }

  lemma {:induction false} LatestIsEvent(history: seq<Event>, slot: Slot)
    ensures Latest(history, slot).Some? ==>
              exists i :: 0 <= i < |history| && history[i].granted && history[i].op == Latest(history, slot).value &&
                          history[i].op.slot == slot &&
                          forall j :: i < j < |history| && history[j].granted ==> history[j].op.slot != slot
    ensures Latest(history, slot).None? ==> forall i :: 0 <= i < |history| && history[i].granted ==>
                                                          history[i].op.slot != slot
  {
    if history != [] {
      var front := history[..|history| - 1];
      LatestIsEvent(front, slot);
      var last := history[|history| - 1];
      if last.granted && last.op.slot == slot {
        assert history[|history| - 1].op == Latest(history, slot).value;
      } else if Latest(front, slot).Some? {
        var i :| 0 <= i < |front| && front[i].granted && front[i].op == Latest(front, slot).value &&
                 front[i].op.slot == slot &&
                 forall j :: i < j < |front| && front[j].granted ==> front[j].op.slot != slot;
        assert history[i] == front[i];
        forall j | i < j < |history| && history[j].granted ensures history[j].op.slot != slot {
          if j < |front| {
            assert front[j] == history[j];
          }
        }
      } else {
        forall i | 0 <= i < |history| && history[i].granted ensures history[i].op.slot != slot {
          if i < |front| {
            assert front[i] == history[i];
          }
        }
      }
    }
  }

  /** The law fails if and only if the latest record is a claim by the marked name: it is taken for a clear. */
  lemma MarkedNameBreaksLaw(history: seq<Event>, slot: Slot, plugin: string)
    ensures var latest := Latest(history, slot);
            (Due(latest, plugin) <==> latest.None? || latest == Some(Clear(slot, plugin))) <==>
            latest != Some(Claim(slot, MarkForRemoval(plugin)))
  {
    LatestIsEvent(history, slot);
  }

  /** A built-in plugin with index "-1" claims a slot, and one with index "1" is granted it as well. */
  lemma MarkedIndexSharesSlot(slot: Slot)
    ensures var history := [Event(Claim(slot, "-1" + "-" + "a"), true), Event(Claim(slot, "1" + "-" + "a"), true)];
            Lawful(history) && Latest(history, slot) == Some(history[1].op)
  {
    var history := [Event(Claim(slot, "-1" + "-" + "a"), true), Event(Claim(slot, "1" + "-" + "a"), true)];
    assert "-1" + "-" + "a" == MarkForRemoval("1" + "-" + "a");
    assert history[..1] == [history[0]] && history[..0] == [];
    assert Latest([history[0]], slot) == Some(history[0].op);
  }

  ghost predicate Tracks(table: OwningPlugins, history: seq<Event>)
    reads table
  {
    forall id, key :: table.For(id).Owner(key) == RecordOf(Latest(history, Slot(id, key)))
  }

  method ClaimSlot(table: OwningPlugins, slot: Slot, plugin: string) returns (other: Option<string>)
    modifies table
    ensures other == Conflict(old(table.For(slot.id)).Owner(slot.key), plugin)
    ensures table.Others(slot.id) == old(table.Others(slot.id))
    ensures var before := old(table.For(slot.id));
            table.For(slot.id) == if other.Some? then before else before.Put(slot.key, plugin)
  {
    match slot.key {
      case Simple(f) => other := table.ClaimSimple(slot.id, f, plugin);
      case Compound(f, e) => other := table.ClaimCompound(slot.id, f, e, plugin);
    }
  }

  method ClearSlot(table: OwningPlugins, slot: Slot, plugin: string)
    modifies table
    ensures table.Others(slot.id) == old(table.Others(slot.id))
    ensures table.For(slot.id) == old(table.For(slot.id)).Put(slot.key, MarkForRemoval(plugin))
  {
    match slot.key {
      case Simple(f) => table.ClearSimple(slot.id, f, plugin);
      case Compound(f, e) => table.ClearCompound(slot.id, f, e, plugin);
    }
  }

  /** One operation on the table; its outcome is the one the history so far makes due. */
  method Apply(table: OwningPlugins, op: Op, ghost history: seq<Event>) returns (other: Option<string>)
    requires Tracks(table, history)
    modifies table
    ensures other.None? <==> op.Clear? || Due(Latest(history, op.slot), op.plugin)
    ensures other.Some? ==> Blames(history, op.slot, other.value)
    ensures Tracks(table, history + [Event(op, other.None?)])
  {
    hide Blames, Due, Conflict, FieldOwners.Put, FieldOwners.Owner;
    ghost var before := table.owners;
    ConflictBlames(history, op.slot, op.plugin);
    assert op.slot == Slot(op.slot.id, op.slot.key);
    var id := op.slot.id;
    other := None;
    match op {
      case Claim(slot, p) => other := ClaimSlot(table, slot, p);
      case Clear(slot, p) => ClearSlot(table, slot, p);
    }
    ghost var after := history + [Event(op, other.None?)];
    assert after[..|after| - 1] == history;
    OthersKept(before, table.owners, id);
  }

  /** Runs any operations on a fresh table: every outcome obeys the law, whatever was tried before. */
  method Play(ops: seq<Op>) returns (history: seq<Event>, others: seq<Option<string>>)
    ensures |history| == |ops| == |others| && forall n :: 0 <= n < |ops| ==> history[n].op == ops[n]
    ensures Lawful(history)
    ensures forall n :: 0 <= n < |ops| ==>
                          if history[n].granted then others[n] == None
                          else others[n].Some? && Blames(history[..n], ops[n].slot, others[n].value)
  {
    var table := new OwningPlugins();
    history, others := [], [];
    for n := 0 to |ops|
      invariant |history| == n == |others| && forall i :: 0 <= i < n ==> history[i].op == ops[i]
      invariant Lawful(history)
      invariant forall i :: 0 <= i < n ==>
                              if history[i].granted then others[i] == None
                              else others[i].Some? && Blames(history[..i], ops[i].slot, others[i].value)
      invariant Tracks(table, history)
    {
      var other := Apply(table, ops[n], history);
      ghost var before := history;
      history, others := history + [Event(ops[n], other.None?)], others + [other];
      assert history[..n] == before;
      assert forall i :: 0 <= i < n ==> history[..i] == before[..i];
    }
  }
}
