/**
  What the updates of a container come to, field by field: a field is what the one successful update
  that gives it says, and else as it was.
 */
module UpdateContents {
  import opened Prelude
  import opened Markers
  import opened Owners
  import opened KeyedLists
  import opened Resources
  import opened UpdateRuns
  import opened CreationContents

  ghost predicate FieldUpdated<V>(get: Edits -> Option<V>, done: seq<Edits>, original: Option<V>, now: Option<V>) {
    && (forall e :: e in done && get(e).Some? ==> now == get(e))
    && ((forall e :: e in done ==> get(e).None?) ==> now == original)
  }

  ghost predicate MemoryUpdated<V>(get: Memory -> Option<V>, done: seq<Edits>, original: Memory, now: Memory) {
    FieldUpdated((e: Edits) => if e.memory.Some? then get(e.memory.value) else None, done, get(original), get(now))
  }

  ghost predicate CPUUpdated<V>(get: CPU -> Option<V>, done: seq<Edits>, original: CPU, now: CPU) {
    FieldUpdated((e: Edits) => if e.cpu.Some? then get(e.cpu.value) else None, done, get(original), get(now))
  }

  ghost predicate MemoryShows(done: seq<Edits>, original: Memory, now: Memory) {
    && MemoryUpdated((m: Memory) => m.limit, done, original, now)
    && MemoryUpdated((m: Memory) => m.reservation, done, original, now)
    && MemoryUpdated((m: Memory) => m.swap, done, original, now)
    && MemoryUpdated((m: Memory) => m.kernel, done, original, now)
    && MemoryUpdated((m: Memory) => m.kernelTcp, done, original, now)
    && MemoryUpdated((m: Memory) => m.swappiness, done, original, now)
    && MemoryUpdated((m: Memory) => m.disableOomKiller, done, original, now)
    && MemoryUpdated((m: Memory) => m.useHierarchy, done, original, now)
  }

  ghost predicate CPUShows(done: seq<Edits>, original: CPU, now: CPU) {
    && CPUUpdated((c: CPU) => c.shares, done, original, now)
    && CPUUpdated((c: CPU) => c.quota, done, original, now)
    && CPUUpdated((c: CPU) => c.period, done, original, now)
    && CPUUpdated((c: CPU) => c.realtimeRuntime, done, original, now)
    && CPUUpdated((c: CPU) => c.realtimePeriod, done, original, now)
    && CPUUpdated((c: CPU) => SetOf(c.cpus), done, original, now)
    && CPUUpdated((c: CPU) => SetOf(c.mems), done, original, now)
  }

  function LimitsIn(e: Edits): seq<Hugepage> { e.hugepages }
  function UnifiedIn(e: Edits): seq<Entry<string>> { e.unified }

  /** Hugepage limits are appended and unified settings put in; device rules and the pids limit stay. */
  ghost predicate OthersShow(done: seq<Edits>, original: Resources, now: Resources) {
    && FieldUpdated((e: Edits) => e.blockioClass, done, original.blockioClass, now.blockioClass)
    && FieldUpdated((e: Edits) => e.rdtClass, done, original.rdtClass, now.rdtClass)
    && now.hugepages == original.hugepages + FlatMap((e: Edits) => e.hugepages, done)
    && now.unified == original.unified + MapOf(FlatMap((e: Edits) => e.unified, done))
    && now.devices == original.devices && now.pids == original.pids
  }

  ghost predicate Shows(done: seq<Edits>, original: Resources, now: Resources) {
    MemoryShows(done, original.memory, now.memory) && CPUShows(done, original.cpu, now.cpu) &&
    OthersShow(done, original, now)
  }

  // ---------------------------------------------------------------- values

  lemma UpdatedValue(e: Edits, r: Resources, k: Key)
    requires k != Simple(PidsLimit)
    ensures ValueOf(Updated(e, r), k) == Or(EditOf(e, k), ValueOf(r, k))
    ensures k in CommonClaims(e) <==> EditOf(e, k).Some?
  {
    hide ValueOf, EditOf, Claims, CommonClaims;
    var f := e.(pids := None);
    AdjustedValue(f, r, k);
    SameApartFromPids(e, r, k);
    ClaimsWhatItSets(f, k);
  }

  lemma SameApartFromPids(e: Edits, r: Resources, k: Key)
    requires k != Simple(PidsLimit)
    ensures var f := e.(pids := None);
            ValueOf(Updated(e, r), k) == ValueOf(Adjusted(f, r), k) && EditOf(f, k) == EditOf(e, k) &&
            Claims(f) == CommonClaims(e)
  {
    hide OverlayMemory, OverlayCPU, MapOf, MemoryValue, CPUValue, FieldClaims, EntryClaims;
    var f := e.(pids := None);
    assert Claims(f) == CommonClaims(f) && CommonClaims(f) == CommonClaims(e);
    EditsOnNothing(e);
    EditsOnNothing(f);
  }

  /** The value after any successful updates: the one that is given, or the old one. */
  lemma {:induction false} AllUpdatedValue(r: Resources, done: seq<Edits>, k: Key)
    requires Distinct(ClaimsOver(done, false)) && k != Simple(PidsLimit)
    ensures forall e :: e in done && EditOf(e, k).Some? ==> ValueOf(AllUpdated(r, done), k) == EditOf(e, k)
    ensures (forall e :: e in done ==> EditOf(e, k).None?) ==> ValueOf(AllUpdated(r, done), k) == ValueOf(r, k)
  {
    hide ValueOf, EditOf, Updated, Distinct, CommonClaims;
    if done != [] {
      var front, last := done[..|done| - 1], done[|done| - 1];
      assert done == front + [last];
      ClaimsOverSnoc(front, last, false);
      assert CommonClaims(last) + [] == CommonClaims(last);
      DistinctConcat(ClaimsOver(front, false), CommonClaims(last));
      AllUpdatedValue(r, front, k);
      UpdatedValue(last, AllUpdated(r, front), k);
      forall e | e in front && EditOf(e, k).Some? ensures EditOf(last, k).None? {
        UpdatedValue(e, r, k);
        ClaimsOfMember(front, e, k);
      }
    }
  }

  lemma {:induction false} ClaimsOfMember(done: seq<Edits>, e: Edits, k: Key)
    requires e in done && k in CommonClaims(e)
    ensures k in ClaimsOver(done, false)
  {
    hide CommonClaims;
    var front, last := done[..|done| - 1], done[|done| - 1];
    assert done == front + [last];
    if e != last {
      ClaimsOfMember(front, e, k);
    }
  }

  lemma FieldIsUpdated<V(!new)>(get: Edits -> Option<V>, wrap: Option<V> -> Option<Value>, k: Key, r: Resources,
                                done: seq<Edits>, original: Option<V>, now: Option<V>)
    requires Distinct(ClaimsOver(done, false)) && k != Simple(PidsLimit) && wrap(None) == None
    requires forall x, y :: wrap(x) == wrap(y) ==> x == y
    requires forall e :: wrap(get(e)) == EditOf(e, k)
    requires wrap(original) == ValueOf(r, k) && wrap(now) == ValueOf(AllUpdated(r, done), k)
    ensures FieldUpdated(get, done, original, now)
  {
    hide EditOf, ValueOf, AllUpdated, Distinct;
    AllUpdatedValue(r, done, k);
    assert forall x :: wrap(x) == None ==> x == None;
  }

  lemma MemoryFieldUpdated<V(!new)>(get: Memory -> Option<V>, wrap: Option<V> -> Option<Value>, f: Field,
                                    r: Resources, done: seq<Edits>)
    requires Distinct(ClaimsOver(done, false)) && f in MEMORY_FIELDS && get(NO_MEMORY) == None && wrap(None) == None
    requires forall x, y :: wrap(x) == wrap(y) ==> x == y
    requires forall m :: wrap(get(m)) == MemoryValue(m, f)
    ensures MemoryUpdated(get, done, r.memory, AllUpdated(r, done).memory)
  {
    hide EditOf, MemoryValue, AllUpdated, Distinct, FieldUpdated;
    FieldsApart(f);
    var ofEdits := (e: Edits) => if e.memory.Some? then get(e.memory.value) else None;
    forall e ensures wrap(ofEdits(e)) == EditOf(e, Simple(f)) {
      MemoryEdit(e, f);
    }
    FieldIsUpdated(ofEdits, wrap, Simple(f), r, done, get(r.memory), get(AllUpdated(r, done).memory));
  }

  lemma CPUFieldUpdated<V(!new)>(get: CPU -> Option<V>, wrap: Option<V> -> Option<Value>, f: Field, r: Resources,
                                 done: seq<Edits>)
    requires Distinct(ClaimsOver(done, false)) && f in CPU_FIELDS && get(NO_CPU) == None && wrap(None) == None
    requires forall x, y :: wrap(x) == wrap(y) ==> x == y
    requires forall m :: wrap(get(m)) == CPUValue(m, f)
    ensures CPUUpdated(get, done, r.cpu, AllUpdated(r, done).cpu)
  {
    hide EditOf, CPUValue, AllUpdated, Distinct, FieldUpdated;
    FieldsApart(f);
    var ofEdits := (e: Edits) => if e.cpu.Some? then get(e.cpu.value) else None;
    forall e ensures wrap(ofEdits(e)) == EditOf(e, Simple(f)) {
      CPUEdit(e, f);
    }
    FieldIsUpdated(ofEdits, wrap, Simple(f), r, done, get(r.cpu), get(AllUpdated(r, done).cpu));
  }

  lemma MemoryIntUpdated(get: Memory -> Option<int>, f: Field, r: Resources, done: seq<Edits>)
    requires Distinct(ClaimsOver(done, false)) && f in MEMORY_FIELDS && get(NO_MEMORY) == None
    requires forall m :: IntValue(get(m)) == MemoryValue(m, f)
    ensures MemoryUpdated(get, done, r.memory, AllUpdated(r, done).memory)
  {
    hide MemoryValue, AllUpdated, Distinct, MemoryUpdated;
    WrapsAreInjective();
    MemoryFieldUpdated(get, IntValue, f, r, done);
  }

  lemma MemoryBoolUpdated(get: Memory -> Option<bool>, f: Field, r: Resources, done: seq<Edits>)
    requires Distinct(ClaimsOver(done, false)) && f in MEMORY_FIELDS && get(NO_MEMORY) == None
    requires forall m :: BoolValue(get(m)) == MemoryValue(m, f)
    ensures MemoryUpdated(get, done, r.memory, AllUpdated(r, done).memory)
  {
    hide MemoryValue, AllUpdated, Distinct, MemoryUpdated;
    WrapsAreInjective();
    MemoryFieldUpdated(get, BoolValue, f, r, done);
  }

  lemma CPUIntUpdated(get: CPU -> Option<int>, f: Field, r: Resources, done: seq<Edits>)
    requires Distinct(ClaimsOver(done, false)) && f in CPU_FIELDS && get(NO_CPU) == None
    requires forall m :: IntValue(get(m)) == CPUValue(m, f)
    ensures CPUUpdated(get, done, r.cpu, AllUpdated(r, done).cpu)
  {
    hide CPUValue, AllUpdated, Distinct, CPUUpdated;
    WrapsAreInjective();
    CPUFieldUpdated(get, IntValue, f, r, done);
  }

  lemma CPUSetUpdated(get: CPU -> Option<string>, f: Field, r: Resources, done: seq<Edits>)
    requires Distinct(ClaimsOver(done, false)) && f in CPU_FIELDS && get(NO_CPU) == None
    requires forall m :: StrValue(get(m)) == CPUValue(m, f)
    ensures CPUUpdated(get, done, r.cpu, AllUpdated(r, done).cpu)
  {
    hide CPUValue, AllUpdated, Distinct, CPUUpdated;
    WrapsAreInjective();
    CPUFieldUpdated(get, StrValue, f, r, done);
  }

  lemma FirstMemoryShows(r: Resources, done: seq<Edits>)
    requires Distinct(ClaimsOver(done, false))
    ensures MemoryUpdated((m: Memory) => m.limit, done, r.memory, AllUpdated(r, done).memory)
    ensures MemoryUpdated((m: Memory) => m.reservation, done, r.memory, AllUpdated(r, done).memory)
    ensures MemoryUpdated((m: Memory) => m.swap, done, r.memory, AllUpdated(r, done).memory)
    ensures MemoryUpdated((m: Memory) => m.kernel, done, r.memory, AllUpdated(r, done).memory)
  {
    hide AllUpdated, Distinct, MemoryUpdated, CPUUpdated, ClaimsOver, CommonClaims, Updated, EditOf, ValueOf,
      SimpleValue;
    MemoryIntUpdated((m: Memory) => m.limit, MemLimit, r, done);
    MemoryIntUpdated((m: Memory) => m.reservation, MemReservation, r, done);
    MemoryIntUpdated((m: Memory) => m.swap, MemSwapLimit, r, done);
    MemoryIntUpdated((m: Memory) => m.kernel, MemKernelLimit, r, done);
  }

  lemma MoreMemoryShows(r: Resources, done: seq<Edits>)
    requires Distinct(ClaimsOver(done, false))
    ensures MemoryUpdated((m: Memory) => m.kernelTcp, done, r.memory, AllUpdated(r, done).memory)
    ensures MemoryUpdated((m: Memory) => m.swappiness, done, r.memory, AllUpdated(r, done).memory)
    ensures MemoryUpdated((m: Memory) => m.disableOomKiller, done, r.memory, AllUpdated(r, done).memory)
    ensures MemoryUpdated((m: Memory) => m.useHierarchy, done, r.memory, AllUpdated(r, done).memory)
  {
    hide AllUpdated, Distinct, MemoryUpdated, CPUUpdated, ClaimsOver, CommonClaims, Updated, EditOf, ValueOf,
      SimpleValue;
    MemoryIntUpdated((m: Memory) => m.kernelTcp, MemTCPLimit, r, done);
    MemoryIntUpdated((m: Memory) => m.swappiness, MemSwappiness, r, done);
    MemoryBoolUpdated((m: Memory) => m.disableOomKiller, MemDisableOomKiller, r, done);
    MemoryBoolUpdated((m: Memory) => m.useHierarchy, MemUseHierarchy, r, done);
  }

  lemma FirstCPUShows(r: Resources, done: seq<Edits>)
    requires Distinct(ClaimsOver(done, false))
    ensures CPUUpdated((c: CPU) => c.shares, done, r.cpu, AllUpdated(r, done).cpu)
    ensures CPUUpdated((c: CPU) => c.quota, done, r.cpu, AllUpdated(r, done).cpu)
    ensures CPUUpdated((c: CPU) => c.period, done, r.cpu, AllUpdated(r, done).cpu)
    ensures CPUUpdated((c: CPU) => c.realtimeRuntime, done, r.cpu, AllUpdated(r, done).cpu)
  {
    hide AllUpdated, Distinct, MemoryUpdated, CPUUpdated, ClaimsOver, CommonClaims, Updated, EditOf, ValueOf,
      SimpleValue;
    CPUIntUpdated((c: CPU) => c.shares, CPUShares, r, done);
    CPUIntUpdated((c: CPU) => c.quota, CPUQuota, r, done);
    CPUIntUpdated((c: CPU) => c.period, CPUPeriod, r, done);
    CPUIntUpdated((c: CPU) => c.realtimeRuntime, CPURealtimeRuntime, r, done);
  }

  lemma MoreCPUShows(r: Resources, done: seq<Edits>)
    requires Distinct(ClaimsOver(done, false))
    ensures CPUUpdated((c: CPU) => c.realtimePeriod, done, r.cpu, AllUpdated(r, done).cpu)
    ensures CPUUpdated((c: CPU) => SetOf(c.cpus), done, r.cpu, AllUpdated(r, done).cpu)
    ensures CPUUpdated((c: CPU) => SetOf(c.mems), done, r.cpu, AllUpdated(r, done).cpu)
  {
    hide AllUpdated, Distinct, MemoryUpdated, CPUUpdated, ClaimsOver, CommonClaims, Updated, EditOf, ValueOf,
      SimpleValue;
    CPUIntUpdated((c: CPU) => c.realtimePeriod, CPURealtimePeriod, r, done);
    CPUSetUpdated((c: CPU) => SetOf(c.cpus), CPUSetCPUs, r, done);
    CPUSetUpdated((c: CPU) => SetOf(c.mems), CPUSetMems, r, done);
  }

  lemma BlockioShows(r: Resources, done: seq<Edits>)
    requires Distinct(ClaimsOver(done, false))
    ensures FieldUpdated((e: Edits) => e.blockioClass, done, r.blockioClass, AllUpdated(r, done).blockioClass)
  {
    hide EditOf, AllUpdated, Distinct, FieldUpdated, ClaimsOver, CommonClaims, Updated;
    WrapsAreInjective();
    forall e ensures StrValue(((e: Edits) => e.blockioClass)(e)) == EditOf(e, Simple(BlockioClass)) {
      OtherEdit(e);
    }
    FieldIsUpdated((e: Edits) => e.blockioClass, StrValue, Simple(BlockioClass), r, done, r.blockioClass,
                   AllUpdated(r, done).blockioClass);
  }

  lemma RdtShows(r: Resources, done: seq<Edits>)
    requires Distinct(ClaimsOver(done, false))
    ensures FieldUpdated((e: Edits) => e.rdtClass, done, r.rdtClass, AllUpdated(r, done).rdtClass)
  {
    hide EditOf, AllUpdated, Distinct, FieldUpdated, ClaimsOver, CommonClaims, Updated;
    WrapsAreInjective();
    forall e ensures StrValue(((e: Edits) => e.rdtClass)(e)) == EditOf(e, Simple(RdtClass)) {
      OtherEdit(e);
    }
    FieldIsUpdated((e: Edits) => e.rdtClass, StrValue, Simple(RdtClass), r, done, r.rdtClass,
                   AllUpdated(r, done).rdtClass);
  }

  lemma {:induction false} ListsShow(r: Resources, done: seq<Edits>)
    ensures var now := AllUpdated(r, done);
            && now.hugepages == r.hugepages + FlatMap(LimitsIn, done) && now.devices == r.devices && now.pids == r.pids
            && now.unified == r.unified + MapOf(FlatMap(UnifiedIn, done))
  {
    hide OverlayMemory, OverlayCPU, MapOf, MemoryEdits, CPUEdits, FlatMap;
    if done == [] {
      NothingShows(r);
    } else {
      var front, last := done[..|done| - 1], done[|done| - 1];
      ListsShow(r, front);
      assert done == front + [last];
      FlatMapSnoc(LimitsIn, front, last);
      FlatMapSnoc(UnifiedIn, front, last);
      MapOfConcat(FlatMap(UnifiedIn, front), last.unified);
    }
  }

  lemma NothingShows(r: Resources)
    ensures r.hugepages == r.hugepages + FlatMap(LimitsIn, []) && r.unified == r.unified + MapOf(FlatMap(UnifiedIn, []))
  {
  }

  lemma {:induction false} FlatMapSame<S, T>(f: S -> seq<T>, g: S -> seq<T>, s: seq<S>)
    requires forall x :: x in s ==> f(x) == g(x)
    ensures FlatMap(f, s) == FlatMap(g, s)
  {
    if s != [] {
      FlatMapSame(f, g, s[..|s| - 1]);
    }
  }

  lemma AllShows(r: Resources, done: seq<Edits>)
    requires Distinct(ClaimsOver(done, false))
    ensures Shows(done, r, AllUpdated(r, done))
  {
    hide AllUpdated, Distinct, MemoryUpdated, CPUUpdated, FieldUpdated, FlatMap, MapOf;
    FirstMemoryShows(r, done);
    MoreMemoryShows(r, done);
    FirstCPUShows(r, done);
    MoreCPUShows(r, done);
    BlockioShows(r, done);
    RdtShows(r, done);
    ListsShow(r, done);
    FlatMapSame(LimitsIn, (e: Edits) => e.hugepages, done);
    FlatMapSame(UnifiedIn, (e: Edits) => e.unified, done);
  }

  // ---------------------------------------------------------------- requests

  /** The claims of the successful updates are distinct, with or without the pids limit. */
  lemma {:induction false} WithoutPidsDistinct(done: seq<Edits>, pids: bool)
    requires Distinct(ClaimsOver(done, pids))
    ensures Distinct(ClaimsOver(done, false)) && forall k :: k in ClaimsOver(done, false) ==>
                                                               k in ClaimsOver(done, pids)
  {
    hide CommonClaims, Distinct;
    if done == [] {
      assert ClaimsOver(done, pids) == ClaimsOver(done, false);
    } else {
      var front, last := done[..|done| - 1], done[|done| - 1];
      assert done == front + [last];
      ClaimsOverSnoc(front, last, pids);
      ClaimsOverSnoc(front, last, false);
      DistinctConcat(ClaimsOver(front, pids), ClaimsOfOne(last, pids));
      DistinctConcat(CommonClaims(last), ClaimIf(pids, PidsLimit));
      WithoutPidsDistinct(front, pids);
      assert ClaimsOfOne(last, false) == CommonClaims(last);
      DistinctConcat(ClaimsOver(front, false), ClaimsOfOne(last, false));
    }
  }

  /**
    The resources that a request to update ends up with, container by container: those of the successful
    updates, laid over nothing, or over the request for the requested container, which shows the same.
   */
  lemma UpdatesShow(start: Updating, asked: seq<Asked>, id: string)
    requires start.pending == map[] && start.owners == map[] && RunUpdates(start, asked).1 && OrdinaryPlugins(asked)
    ensures var (t, done) := (RunUpdates(start, asked).0, Successful(start, asked, id));
            && (start.requested != Some(id) && id in t.pending ==> Shows(done, NO_RESOURCES, t.pending[id].resources))
            && (start.requested == Some(id) ==> Shows(done, start.view, t.view))
            && (start.requested == Some(id) && done != [] ==>
                  id in t.pending && Shows(done, start.view, t.pending[id].resources))
  {
    hide RunUpdates, Successful, Shows, AllUpdated, Distinct;
    var t, done := RunUpdates(start, asked).0, Successful(start, asked, id);
    NoFieldUpdatedTwice(start, asked, id);
    WithoutPidsDistinct(done, ClaimsPids(start, id));
    PendingFoldsSuccesses(start, asked);
    AllShows(NO_RESOURCES, done);
    AllShows(start.view, done);
    assert PendingFolds(start, t, asked, id);
  }

  /** The i-th update gives resources for the container, and all it claims is free. */
  ghost predicate FindsFree(start: Updating, asked: seq<Asked>, i: nat, id: string)
    requires i < |asked|
  {
    asked[i].update.id == id && asked[i].update.resources.Some? && ClaimsFree(start, asked[..i], asked[i])
  }

  /** Which updates are the successful ones: those that give resources and find all they claim free, in order. */
  lemma {:induction false} SuccessfulAre(start: Updating, asked: seq<Asked>, id: string) returns (at: seq<nat>)
    requires start.pending == map[] && start.owners == map[] && RunUpdates(start, asked).1 && OrdinaryPlugins(asked)
    ensures var done := Successful(start, asked, id);
            && |at| == |done| && (forall m, n :: 0 <= m < n < |at| ==> at[m] < at[n])
            && (forall m :: 0 <= m < |at| ==>
                              at[m] < |asked| && FindsFree(start, asked, at[m], id) &&
                              asked[at[m]].update.resources == Some(done[m]))
            && (forall i :: 0 <= i < |asked| && FindsFree(start, asked, i, id) ==> i in at)
  {
    hide ClaimsFree, ApplyUpdate, ClaimedBy, FindsFree, RunUpdates, Successful;
    at := [];
    if asked != [] {
      var k := |asked| - 1;
      var front, a := asked[..k], asked[k];
      assert front + [a] == asked;
      RunsOn(start, front, a);
      var before := SuccessfulAre(start, front, id);
      at := before;
      SuccessfulSnoc(start, front, a, id);
      SameFree(start, front, a, id);
      LastFindsFree(start, front, a, id);
      if FindsFree(start, asked, k, id) {
        at := before + [k];
        assert k in at && forall i :: i in before ==> i in at;
      }
    } else {
      NothingToClaim(start, id);
    }
  }

  lemma SameFree(start: Updating, front: seq<Asked>, a: Asked, id: string)
    ensures forall i :: 0 <= i < |front| ==> (FindsFree(start, front + [a], i, id) <==> FindsFree(start, front, i, id))
  {
    hide ClaimsFree;
    assert forall i :: 0 <= i < |front| ==> front[i] == (front + [a])[i] && front[..i] == (front + [a])[..i];
  }

  lemma LastFindsFree(start: Updating, front: seq<Asked>, a: Asked, id: string)
    requires start.pending == map[] && start.owners == map[] && RunUpdates(start, front).1
    requires OrdinaryPlugins(front) && !Marked(a.plugin) && RunUpdates(start, front).0.creating != Some(a.update.id)
    ensures FindsFree(start, front + [a], |front|, id) <==>
            a.update.id == id && Succeeds(RunUpdates(start, front).0, a)
    ensures FindsFree(start, front + [a], |front|, id) ==> a.update.resources.Some?
  {
    hide ClaimsFree, ClaimedBy, RunUpdates;
    assert (front + [a])[..|front|] == front;
    if a.update.resources.Some? {
      SucceedsIffFree(start, front, a);
    }
  }

  lemma RunsOn(start: Updating, front: seq<Asked>, a: Asked)
    requires RunUpdates(start, front + [a]).1
    ensures RunUpdates(start, front).1 && RunUpdates(start, front).0.creating != Some(a.update.id)
  {
    hide ClaimedBy, UpdatedBy, WithResources;
    assert (front + [a])[..|front|] == front;
  }
}
