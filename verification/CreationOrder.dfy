/**
  The order of the plugins. As long as nobody else touches what a plugin removes, a creation is accepted
  if and only if no two settings are about the same thing, and what comes of it does not depend on the order.
 */
module CreationOrder {
  import opened Prelude
  import opened Markers
  import opened KeyedLists
  import opened ListMerge
  import opened EnvMerge
  import opened NamespaceMerge
  import opened Resources
  import opened ResourceRuns
  import opened CreateRuns

  // ---------------------------------------------------------------- settings and their owners

  /** The same keys in the same places. */
  ghost predicate SameKeys<S, T>(a: seq<Entry<S>>, b: seq<Entry<T>>) {
    |a| == |b| && forall i :: 0 <= i < |a| ==> a[i].key == b[i].key
  }

  lemma SameKeysMeans<S, T>(a: seq<Entry<S>>, b: seq<Entry<T>>)
    requires SameKeys(a, b)
    ensures KeysOf(a) == KeysOf(b) && (DistinctKeys(a) <==> DistinctKeys(b))
  {
    forall k ensures k in KeysOf(a) <==> k in KeysOf(b) {
      if k in KeysOf(a) {
        var i :| 0 <= i < |a| && a[i].key == k;
        assert b[i].key == k;
      }
      if k in KeysOf(b) {
        var i :| 0 <= i < |b| && b[i].key == k;
        assert a[i].key == k;
      }
    }
  }

  /** The keys of some settings with the name of the plugin that makes them. */
  function Names<T>(plugin: string, settings: seq<Entry<T>>): (r: seq<Entry<string>>)
    ensures SameKeys(settings, r) && forall i :: 0 <= i < |r| ==> r[i].value == plugin
  {
    seq(|settings|, i requires 0 <= i < |settings| => Entry(settings[i].key, plugin))
  }

  lemma {:induction false} OneName(s: seq<Entry<string>>, plugin: string)
    requires forall i :: 0 <= i < |s| ==> s[i].value == plugin
    ensures forall k :: k in MapOf(s) ==> MapOf(s)[k] == plugin
  {
    if s != [] {
      OneName(s[..|s| - 1], plugin);
    }
  }

  /** The records are those of the plugins that have made the settings, none of them a clear. */
  ghost predicate OwnedAs<T>(own: map<string, string>, all: seq<Entry<T>>, owned: seq<Entry<string>>) {
    own == MapOf(owned) && SameKeys(all, owned) && forall k :: k in own ==> !Marked(own[k])
  }

  lemma OwnedKeys<T>(own: map<string, string>, all: seq<Entry<T>>, owned: seq<Entry<string>>)
    requires OwnedAs(own, all, owned)
    ensures own.Keys == KeysOf(all)
  {
    SameKeysMeans(all, owned);
    MapOfKeys(owned);
  }

  /** Claims are granted if and only if they are distinct and about nothing that is set. */
  lemma ClaimedMore<T>(own: map<string, string>, all: seq<Entry<T>>, owned: seq<Entry<string>>, add: seq<Entry<T>>,
                       plugin: string)
    requires !Marked(plugin) && OwnedAs(own, all, owned)
    ensures Claimed(own, add, plugin).Some? <==> DistinctKeys(add) && KeysOf(add) !! KeysOf(all)
    ensures Claimed(own, add, plugin).Some? ==>
              OwnedAs(Claimed(own, add, plugin).value, all + add, owned + Names(plugin, add))
  {
    hide Claimed, MapOf, KeysOf, DistinctKeys;
    OwnedKeys(own, all, owned);
    ClaimedIff(own, add, plugin);
    MarkerRoundTrip(plugin);
    if Claimed(own, add, plugin).Some? {
      ClaimedOwns(own, add, plugin);
      OneName(Names(plugin, add), plugin);
      SameKeysMeans(add, Names(plugin, add));
      MapOfKeys(Names(plugin, add));
      MapOfConcat(owned, Names(plugin, add));
    }
  }

  lemma {:induction false} DistinctKeysConcat<T>(a: seq<Entry<T>>, b: seq<Entry<T>>)
    ensures DistinctKeys(a + b) <==> DistinctKeys(a) && DistinctKeys(b) && KeysOf(a) !! KeysOf(b)
    decreases |a|
  {
    hide KeysOf, DistinctKeys;
    if a == [] {
      NoKeys(a);
      assert a + b == b;
    } else {
      KeysHead(a);
      KeysHead(a + b);
      assert (a + b)[1..] == a[1..] + b;
      DistinctKeysConcat(a[1..], b);
      KeysOfConcat(a[1..], b);
    }
  }

  /** In any order: the same keys are set to the same values by the same plugins. */
  lemma SettingsPermuted<T>(all: seq<Entry<T>>, owned: seq<Entry<string>>, all': seq<Entry<T>>,
                            owned': seq<Entry<string>>)
    requires SameKeys(all, owned) && SameKeys(all', owned')
    requires multiset(all) == multiset(all') && multiset(owned) == multiset(owned')
    ensures DistinctKeys(all) <==> DistinctKeys(all')
    ensures DistinctKeys(all) ==> MapOf(all) == MapOf(all') && MapOf(owned) == MapOf(owned')
  {
    hide MapOf, DistinctKeys, SameKeys;
    SameKeysMeans(all, owned);
    if DistinctKeys(all) {
      PermutationKeepsMap(all, all');
      PermutationKeepsMap(owned, owned');
    } else if DistinctKeys(all') {
      PermutationKeepsMap(all', all);
    }
  }

  // ---------------------------------------------------------------- one kind of list

  function SettingsOf<T>(step: Step<T>): seq<Entry<T>> { Added(step.items) }

  function OwnedBy<T>(step: Step<T>): seq<Entry<string>> { Names(step.plugin, SettingsOf(step)) }

  /** What a plugin adds to the collected reply: its settings and, if they are passed on, its lone removals. */
  function EntriesOf<T>(recorded: bool, step: Step<T>): seq<Entry<T>> {
    SettingsOf(step) + if recorded then Orphans(step.items, step.order) else []
  }

  function Settings<T>(steps: seq<Step<T>>): seq<Entry<T>> { FlatMap(SettingsOf, steps) }
  function Owned<T>(steps: seq<Step<T>>): seq<Entry<string>> { FlatMap(OwnedBy, steps) }
  function Collected<T>(recorded: bool, steps: seq<Step<T>>): seq<Entry<T>> {
    FlatMap((step: Step<T>) => EntriesOf(recorded, step), steps)
  }

  function Removed<T>(steps: seq<Step<T>>): set<string> {
    set i, k | 0 <= i < |steps| && k in RemovedKeys(steps[i].items) :: k
  }

  /** The keys a plugin removes, and the entries that remove them. */
  function Removing<T>(step: Step<T>): set<string> {
    RemovedKeys(step.items) + set k | k in RemovedKeys(step.items) :: MarkForRemoval(k)
  }

  function Touching<T>(step: Step<T>): set<string> {
    KeysOf(SettingsOf(step)) + Removing(step)
  }

  /** Nobody else touches what a plugin removes. */
  ghost predicate Undisturbed<T>(steps: seq<Step<T>>) {
    forall x, y :: x in steps && y in steps && (x == y ==> multiset(steps)[x] > 1) ==> Removing(x) !! Touching(y)
  }

  ghost predicate ProperSteps<T>(recorded: bool, steps: seq<Step<T>>) {
    Undisturbed(steps) && forall i :: 0 <= i < |steps| ==> ValidStep(recorded, steps[i])
  }

  /** What has been set and removed, by whom, and what that makes of the original. */
  ghost predicate Reached<T>(recorded: bool, original: map<string, T>, s: Lists<T>, steps: seq<Step<T>>) {
    && s.reply == Collected(recorded, steps)
    && OwnedAs(s.own, Settings(steps), Owned(steps))
    && MapOf(s.view) == (original - Removed(steps)) + MapOf(Settings(steps))
  }

  lemma UndisturbedLast<T>(front: seq<Step<T>>, last: Step<T>)
    requires Undisturbed(front + [last])
    ensures Undisturbed(front)
    ensures forall x :: x in front ==> Removing(x) !! Touching(last) && Removing(last) !! Touching(x)
  {
    hide Removing, Touching;
    var steps := front + [last];
    assert last in steps && forall x :: x in front ==> x in steps;
    assert forall x :: multiset(steps)[x] == multiset(front)[x] + if x == last then 1 else 0;
    assert forall x :: x in front ==> multiset(front)[x] > 0;
  }

  lemma {:induction false} OrphanKeys<T>(items: seq<Entry<T>>, order: seq<string>)
    requires Distinct(order)
    ensures DistinctKeys(Orphans(items, order))
    ensures forall x :: x in KeysOf(Orphans(items, order)) ==>
                          exists k :: k in order && k in RemovedKeys(items) && x == MarkForRemoval(k)
  {
    hide KeysOf, DistinctKeys, RemovalMap, Added;
    if order == [] {
      NoKeys(Orphans(items, order));
    } else {
      var front, k := order[..|order| - 1], order[|order| - 1];
      assert order == front + [k];
      OrphanKeys(items, front);
      if k in RemovalMap(items) && k !in KeysOf(Added(items)) {
        var r, e := Orphans(items, front), RemovalMap(items)[k];
        RemovalMapEntries(items);
        KeysOfSnoc(r, e);
        assert e.key !in KeysOf(r) by {
          if e.key in KeysOf(r) {
            var x :| x in front && x in RemovedKeys(items) && e.key == MarkForRemoval(x);
            MarkerRoundTrip(x);
            MarkerRoundTrip(k);
          }
        }
        MapOfKeys(r);
        DistinctSnoc(r, e);
      }
    }
  }

  /** What a plugin adds to the reply is about keys it touches, each once if its settings are distinct. */
  lemma EntriesAre<T>(recorded: bool, step: Step<T>)
    requires ValidStep(recorded, step)
    ensures KeysOf(EntriesOf(recorded, step)) <= Touching(step)
    ensures DistinctKeys(SettingsOf(step)) ==> DistinctKeys(EntriesOf(recorded, step))
  {
    hide KeysOf, DistinctKeys, Added, RemovedKeys, Orphans;
    if recorded {
      var orphans := Orphans(step.items, step.order);
      OrphanKeys(step.items, step.order);
      KeysOfConcat(SettingsOf(step), orphans);
      DistinctKeysConcat(SettingsOf(step), orphans);
      forall x | x in KeysOf(orphans) ensures x !in KeysOf(SettingsOf(step)) && x in Removing(step) {
        var k :| k in RemovedKeys(step.items) && x == MarkForRemoval(k);
        MarkerRoundTrip(k);
        if x in KeysOf(SettingsOf(step)) {
          SettingsUnmarked(step, x);
        }
      }
    } else {
      assert SettingsOf(step) + [] == SettingsOf(step);
    }
  }

  lemma SettingsUnmarked<T>(step: Step<T>, x: string)
    requires x in KeysOf(SettingsOf(step))
    ensures !Marked(x)
  {
    AddedUnmarked(step.items);
  }

  lemma {:induction false} WithoutOthers<T>(s: seq<Entry<T>>, drop: set<string>)
    requires KeysOf(s) !! drop
    ensures Without(s, drop) == s
  {
    if s != [] {
      var front, last := s[..|s| - 1], s[|s| - 1];
      assert s == front + [last];
      KeysOfSnoc(front, last);
      WithoutOthers(front, drop);
    }
  }

  lemma RemovedSnoc<T>(front: seq<Step<T>>, last: Step<T>)
    ensures Removed(front + [last]) == Removed(front) + RemovedKeys(last.items)
  {
    var steps := front + [last];
    assert steps[|front|] == last && forall i :: 0 <= i < |front| ==> steps[i] == front[i];
    hide RemovedKeys;
    forall k ensures k in Removed(steps) <==> k in Removed(front) || k in RemovedKeys(last.items) {
      if k in RemovedKeys(last.items) {
        assert k in RemovedKeys(steps[|front|].items);
      }
      if k in Removed(front) {
        var i :| 0 <= i < |front| && k in RemovedKeys(front[i].items);
        assert k in RemovedKeys(steps[i].items);
      }
    }
  }

  /** Where the keys of the settings and of the reply come from. */
  lemma {:induction false} KeysFrom<T>(recorded: bool, steps: seq<Step<T>>, x: string)
    requires forall i :: 0 <= i < |steps| ==> ValidStep(recorded, steps[i])
    requires x in KeysOf(Settings(steps)) || x in KeysOf(Collected(recorded, steps))
    ensures exists step :: step in steps && x in Touching(step)
  {
    hide KeysOf, Touching, ValidStep;
    if steps == [] {
      NoKeys(Settings(steps));
      NoKeys(Collected(recorded, steps));
    } else {
      var front, last := steps[..|steps| - 1], steps[|steps| - 1];
      KeysOfConcat(Settings(front), SettingsOf(last));
      KeysOfConcat(Collected(recorded, front), EntriesOf(recorded, last));
      if x in KeysOf(Settings(front)) || x in KeysOf(Collected(recorded, front)) {
        KeysFrom(recorded, front, x);
      } else {
        EntriesAre(recorded, last);
        SettingsTouched(last);
        assert last in steps;
      }
    }
  }

  lemma SettingsTouched<T>(step: Step<T>)
    ensures KeysOf(SettingsOf(step)) <= Touching(step)
  {
  }

  /** What has been reached is about other keys than the next plugin removes. */
  lemma NothingOfMine<T>(recorded: bool, front: seq<Step<T>>, last: Step<T>)
    requires ProperSteps(recorded, front + [last])
    ensures KeysOf(Settings(front)) !! RemovedKeys(last.items) &&
            KeysOf(Collected(recorded, front)) !! RemovedKeys(last.items)
    ensures KeysOf(Collected(recorded, front)) !! Removing(last)
  {
    hide KeysOf, RemovedKeys, Settings, Collected, ValidStep, Touching;
    UndisturbedLast(front, last);
    assert forall i :: 0 <= i < |front| ==> front[i] == (front + [last])[i];
    forall x | x in KeysOf(Settings(front)) || x in KeysOf(Collected(recorded, front)) ensures x !in Removing(last) {
      KeysFrom(recorded, front, x);
    }
  }

  /** The fold when the plugin removes nothing that is in the reply. */
  lemma UndisturbedMerge<T>(recorded: bool, s: Lists<T>, step: Step<T>)
    requires KeysOf(s.reply) !! RemovedKeys(step.items)
    ensures var (own, add) := (Claimed(s.own, SettingsOf(step), step.plugin), SettingsOf(step));
            Merge(recorded, s, step) ==
            if own.None? then None
            else Some(Lists(own.value, s.reply + EntriesOf(recorded, step),
                            Without(s.view, RemovedKeys(step.items) + KeysOf(add)) + add))
  {
    hide Claimed, Added, RemovedKeys, Orphans, Without;
    var del := RemovedKeys(step.items);
    WithoutOthers(s.reply, del);
    assert KeysOf(s.reply) * del == {};
    assert Cleared(s.own, s.reply, del, step.plugin) == s.own;
    assert s.reply + SettingsOf(step) + Orphans(step.items, step.order) ==
           s.reply + (SettingsOf(step) + Orphans(step.items, step.order));
    assert SettingsOf(step) + [] == SettingsOf(step);
  }

  lemma ViewMore<T>(original: map<string, T>, gone: set<string>, view: seq<Entry<T>>, all: seq<Entry<T>>,
                    del: set<string>, add: seq<Entry<T>>)
    requires MapOf(view) == (original - gone) + MapOf(all) && KeysOf(all) !! del
    ensures MapOf(Without(view, del + KeysOf(add)) + add) == (original - (gone + del)) + MapOf(all + add)
  {
    hide MapOf, KeysOf, Without;
    ViewKept(view, del + KeysOf(add), add);
    MapOfConcat(all, add);
    MapOfKeys(all);
    MapOfKeys(add);
    ViewMoreMaps(original, gone, MapOf(all), del, MapOf(add));
  }

  lemma ViewMoreMaps<T>(o: map<string, T>, gone: set<string>, all: map<string, T>, del: set<string>,
                        add: map<string, T>)
    requires all.Keys !! del
    ensures (((o - gone) + all) - (del + add.Keys)) + add == (o - (gone + del)) + (all + add)
  {
  }

  lemma ReachedMore<T>(recorded: bool, original: map<string, T>, s: Lists<T>, front: seq<Step<T>>, last: Step<T>)
    requires ProperSteps(recorded, front + [last]) && Reached(recorded, original, s, front)
    ensures Merge(recorded, s, last).Some? <==>
            DistinctKeys(SettingsOf(last)) && KeysOf(SettingsOf(last)) !! KeysOf(Settings(front))
    ensures Merge(recorded, s, last).Some? ==>
              Reached(recorded, original, Merge(recorded, s, last).value, front + [last])
  {
    assert (front + [last])[|front|] == last;
    assert !Marked(last.plugin);
    hide Merge, Claimed, MapOf, KeysOf, RemovedKeys, Without, DistinctKeys, FlatMap, EntriesOf, SettingsOf;
    hide OwnedBy, Removed, Undisturbed, ValidStep, OwnedAs;
    NothingOfMine(recorded, front, last);
    UndisturbedMerge(recorded, s, last);
    ClaimedMore(s.own, Settings(front), Owned(front), SettingsOf(last), last.plugin);
    FlatMapSnoc(SettingsOf, front, last);
    FlatMapSnoc(OwnedBy, front, last);
    CollectedSnoc(recorded, front, last);
    OwnedByIs(last);
    RemovedSnoc(front, last);
    ViewMore(original, Removed(front), s.view, Settings(front), RemovedKeys(last.items), SettingsOf(last));
  }

  lemma OwnedByIs<T>(step: Step<T>)
    ensures OwnedBy(step) == Names(step.plugin, SettingsOf(step))
  {
  }

  lemma CollectedSnoc<T>(recorded: bool, front: seq<Step<T>>, last: Step<T>)
    ensures Collected(recorded, front + [last]) == Collected(recorded, front) + EntriesOf(recorded, last)
  {
    assert (front + [last])[..|front|] == front;
  }

  lemma NothingReached<T>(recorded: bool, original: seq<Entry<T>>)
    ensures Reached(recorded, MapOf(original), Start(original), []) && DistinctKeys(Settings<T>([]))
  {
    assert Removed<T>([]) == {} && MapOf<T>([]) == map[] && MapOf(original) - {} == MapOf(original);
  }

  /** Accepted if and only if all settings are distinct. */
  lemma {:induction false} RunReaches<T>(recorded: bool, original: seq<Entry<T>>, steps: seq<Step<T>>)
    requires ProperSteps(recorded, steps)
    ensures Run(recorded, Start(original), steps).Some? <==> DistinctKeys(Settings(steps))
    ensures Run(recorded, Start(original), steps).Some? ==>
              Reached(recorded, MapOf(original), Run(recorded, Start(original), steps).value, steps)
  {
    hide Merge, MapOf, KeysOf, DistinctKeys, Reached, OwnedBy, SettingsOf, Undisturbed;
    if steps == [] {
      NothingReached(recorded, original);
    } else {
      var front, last := steps[..|steps| - 1], steps[|steps| - 1];
      assert front + [last] == steps;
      UndisturbedLast(front, last);
      RunReaches(recorded, original, front);
      DistinctKeysConcat(Settings(front), SettingsOf(last));
      if Run(recorded, Start(original), front).Some? {
        ReachedMore(recorded, MapOf(original), Run(recorded, Start(original), front).value, front, last);
      }
    }
  }

  /** The reply has each key once. */
  lemma {:induction false} CollectedDistinct<T>(recorded: bool, steps: seq<Step<T>>)
    requires ProperSteps(recorded, steps) && DistinctKeys(Settings(steps))
    ensures DistinctKeys(Collected(recorded, steps))
  {
    hide MapOf, KeysOf, DistinctKeys, EntriesOf, OwnedBy, SettingsOf, Undisturbed, ValidStep;
    if steps == [] {
      NoKeys(Collected(recorded, steps));
    } else {
      var front, last := steps[..|steps| - 1], steps[|steps| - 1];
      assert front + [last] == steps;
      UndisturbedLast(front, last);
      DistinctKeysConcat(Settings(front), SettingsOf(last));
      CollectedDistinct(recorded, front);
      DistinctKeysConcat(Collected(recorded, front), EntriesOf(recorded, last));
      EntriesAre(recorded, last);
      EntriesApart(recorded, front, last);
    }
  }

  /** A key of the reply that is not set is one that a plugin removes. */
  lemma {:induction false} CollectedFrom<T>(recorded: bool, steps: seq<Step<T>>, x: string)
    requires forall i :: 0 <= i < |steps| ==> ValidStep(recorded, steps[i])
    requires x in KeysOf(Collected(recorded, steps)) && x !in KeysOf(Settings(steps))
    ensures exists step :: step in steps && x in Removing(step)
  {
    hide KeysOf, Removing, ValidStep, SettingsOf, EntriesOf;
    if steps == [] {
      NoKeys(Collected(recorded, steps));
    } else {
      var front, last := steps[..|steps| - 1], steps[|steps| - 1];
      KeysOfConcat(Settings(front), SettingsOf(last));
      KeysOfConcat(Collected(recorded, front), EntriesOf(recorded, last));
      if x in KeysOf(Collected(recorded, front)) {
        CollectedFrom(recorded, front, x);
      } else {
        EntriesAre(recorded, last);
        assert last in steps;
      }
    }
  }

  lemma EntriesApart<T>(recorded: bool, front: seq<Step<T>>, last: Step<T>)
    requires ProperSteps(recorded, front + [last]) && KeysOf(Settings(front)) !! KeysOf(SettingsOf(last))
    ensures KeysOf(Collected(recorded, front)) !! KeysOf(EntriesOf(recorded, last))
  {
    assert (front + [last])[|front|] == last && forall i :: 0 <= i < |front| ==> front[i] == (front + [last])[i];
    hide KeysOf, Removing, ValidStep, SettingsOf, EntriesOf, Settings, Collected;
    UndisturbedLast(front, last);
    NothingOfMine(recorded, front, last);
    EntriesAre(recorded, last);
    forall x | x in KeysOf(Collected(recorded, front)) ensures x !in KeysOf(EntriesOf(recorded, last)) {
      if x !in KeysOf(Settings(front)) {
        CollectedFrom(recorded, front, x);
      }
    }
  }

  // ---------------------------------------------------------------- permutations of one kind

  lemma {:induction false} OwnedLikeSettings<T>(steps: seq<Step<T>>)
    ensures SameKeys(Settings(steps), Owned(steps))
  {
    if steps != [] {
      OwnedLikeSettings(steps[..|steps| - 1]);
    }
  }

  lemma ProperPermuted<T>(recorded: bool, steps: seq<Step<T>>, other: seq<Step<T>>)
    requires multiset(steps) == multiset(other) && ProperSteps(recorded, steps)
    ensures ProperSteps(recorded, other)
  {
    hide ValidStep, Removing, Touching;
    assert forall x :: x in other <==> x in multiset(other);
    assert forall x :: x in steps <==> x in multiset(steps);
    forall i | 0 <= i < |other| ensures ValidStep(recorded, other[i]) {
      assert other[i] in steps;
    }
  }

  lemma RemovedPermuted<T>(steps: seq<Step<T>>, other: seq<Step<T>>)
    requires multiset(steps) == multiset(other)
    ensures Removed(steps) == Removed(other)
  {
    RemovedSubset(steps, other);
    RemovedSubset(other, steps);
  }

  lemma RemovedSubset<T>(steps: seq<Step<T>>, other: seq<Step<T>>)
    requires multiset(steps) == multiset(other)
    ensures Removed(steps) <= Removed(other)
  {
    hide RemovedKeys;
    forall k | k in Removed(steps) ensures k in Removed(other) {
      var i :| 0 <= i < |steps| && k in RemovedKeys(steps[i].items);
      assert steps[i] in multiset(other);
      var j :| 0 <= j < |other| && other[j] == steps[i];
      assert k in RemovedKeys(other[j].items);
    }
  }

  /** The same owners and the same entries under every key, in the reply and in the view. */
  ghost predicate SameLists<T>(s: Lists<T>, t: Lists<T>) {
    s.own == t.own && MapOf(s.reply) == MapOf(t.reply) && MapOf(s.view) == MapOf(t.view)
  }

  lemma ListsInAnyOrder<T>(recorded: bool, original: seq<Entry<T>>, steps: seq<Step<T>>, other: seq<Step<T>>)
    requires ProperSteps(recorded, steps) && multiset(steps) == multiset(other)
    ensures var s, t := Run(recorded, Start(original), steps), Run(recorded, Start(original), other);
            (s.Some? <==> t.Some?) && (s.Some? ==> SameLists(s.value, t.value))
  {
    hide Run, MapOf, KeysOf, DistinctKeys, FlatMap, Undisturbed, SameKeys, Removed, EntriesOf;
    ProperPermuted(recorded, steps, other);
    RunReaches(recorded, original, steps);
    RunReaches(recorded, original, other);
    OwnedLikeSettings(steps);
    OwnedLikeSettings(other);
    FlatMapPermuted(SettingsOf, steps, other);
    FlatMapPermuted(OwnedBy, steps, other);
    SettingsPermuted(Settings(steps), Owned(steps), Settings(other), Owned(other));
    if DistinctKeys(Settings(steps)) {
      RemovedPermuted(steps, other);
      CollectedDistinct(recorded, steps);
      CollectedPermuted(recorded, steps, other);
      PermutationKeepsMap(Collected(recorded, steps), Collected(recorded, other));
    }
  }

  lemma CollectedPermuted<T>(recorded: bool, steps: seq<Step<T>>, other: seq<Step<T>>)
    requires multiset(steps) == multiset(other)
    ensures multiset(Collected(recorded, steps)) == multiset(Collected(recorded, other))
  {
    FlatMapPermuted((step: Step<T>) => EntriesOf(recorded, step), steps, other);
  }

  // ---------------------------------------------------------------- namespaces

  function Present(items: seq<Option<Namespace>>): seq<Namespace> {
    if items == [] then []
    else
      var front, last := Present(items[..|items| - 1]), items[|items| - 1];
      if last.None? then front else front + [last.value]
  }

  /** What an entry does to its type: the path it is set to, or nothing if it is removed. */
  function TypeEdit(n: Namespace): Entry<Option<string>> {
    Entry(Bare(n.key), if Marked(n.key) then None else Some(n.value))
  }

  function TypeEdits(s: seq<Namespace>): (r: seq<Entry<Option<string>>>)
    ensures |r| == |s| && forall i :: 0 <= i < |r| ==> r[i] == TypeEdit(s[i])
  {
    seq(|s|, i requires 0 <= i < |s| => TypeEdit(s[i]))
  }

  function NamespacesOf(step: NamespaceStep): seq<Namespace> { Present(step.items) }
  function TypesOwnedBy(step: NamespaceStep): seq<Entry<string>> { Names(step.plugin, TypeEdits(NamespacesOf(step))) }

  function AllNamespaces(steps: seq<NamespaceStep>): seq<Namespace> { FlatMap(NamespacesOf, steps) }
  function TypesOwned(steps: seq<NamespaceStep>): seq<Entry<string>> { FlatMap(TypesOwnedBy, steps) }

  ghost predicate OrdinaryNamespaces(steps: seq<NamespaceStep>) {
    forall i :: 0 <= i < |steps| ==> !Marked(steps[i].plugin)
  }

  /** Removals are claims like settings; the view is the original with all edits laid over it. */
  ghost predicate NamespacesReached(original: map<string, string>, s: Namespaces, raw: seq<Namespace>,
                                    owned: seq<Entry<string>>) {
    && s.reply == raw && OwnedAs(s.own, TypeEdits(raw), owned)
    && forall k :: Lookup(s.view, k) ==
                   if k in MapOf(TypeEdits(raw)) then MapOf(TypeEdits(raw))[k] else Lookup(original, k)
  }

  lemma TypeEditsConcat(a: seq<Namespace>, b: seq<Namespace>)
    ensures TypeEdits(a + b) == TypeEdits(a) + TypeEdits(b)
  {
  }

  lemma NamespacesOneMore(original: map<string, string>, s: Namespaces, plugin: string, n: Namespace,
                          raw: seq<Namespace>, owned: seq<Entry<string>>)
    requires !Marked(plugin) && NamespacesReached(original, s, raw, owned)
    ensures MergeOne(s, plugin, n).Some? <==> Bare(n.key) !in KeysOf(TypeEdits(raw))
    ensures MergeOne(s, plugin, n).Some? ==>
              NamespacesReached(original, MergeOne(s, plugin, n).value, raw + [n], owned + [Entry(Bare(n.key), plugin)])
  {
    hide KeysOf, MapOf, SameKeys;
    OwnedKeys(s.own, TypeEdits(raw), owned);
    MarkerRoundTrip(n.key);
    MarkerRoundTrip(plugin);
    TypeEditsConcat(raw, [n]);
    assert TypeEdits([n]) == [TypeEdit(n)];
    MapOfSnoc(TypeEdits(raw), TypeEdit(n));
    MapOfSnoc(owned, Entry(Bare(n.key), plugin));
    SameKeysSnoc(TypeEdits(raw), owned, TypeEdit(n), Entry(Bare(n.key), plugin));
  }

  lemma SameKeysSnoc<S, T>(a: seq<Entry<S>>, b: seq<Entry<T>>, x: Entry<S>, y: Entry<T>)
    requires SameKeys(a, b) && x.key == y.key
    ensures SameKeys(a + [x], b + [y])
  {
  }

  lemma {:induction false} NamespacesMore(original: map<string, string>, s: Namespaces, plugin: string,
                                          items: seq<Option<Namespace>>, raw: seq<Namespace>, owned: seq<Entry<string>>)
    requires !Marked(plugin) && NamespacesReached(original, s, raw, owned)
    ensures MergeNamespaces(s, plugin, items).Some? <==> DistinctFrom(TypeEdits(raw), TypeEdits(Present(items)))
    ensures MergeNamespaces(s, plugin, items).Some? ==>
              NamespacesReached(original, MergeNamespaces(s, plugin, items).value, raw + Present(items),
                                owned + Names(plugin, TypeEdits(Present(items))))
  {
    hide MergeOne, NamespacesReached, DistinctFrom;
    if items == [] {
      NoneMore(TypeEdits(raw), plugin);
      assert raw + [] == raw && owned + [] == owned;
    } else {
      var front, last := items[..|items| - 1], items[|items| - 1];
      var before := Present(front);
      NamespacesMore(original, s, plugin, front, raw, owned);
      if last.Some? {
        var n := last.value;
        TypeEditsConcat(before, [n]);
        TypeEditsConcat(raw, before);
        assert TypeEdits([n]) == [TypeEdit(n)];
        OneMoreType(TypeEdits(raw), TypeEdits(before), TypeEdit(n));
        var mine := Names(plugin, TypeEdits(before));
        NamesSnoc(plugin, TypeEdits(before), TypeEdit(n));
        assert owned + (mine + [Entry(Bare(n.key), plugin)]) == owned + mine + [Entry(Bare(n.key), plugin)];
        assert raw + (before + [n]) == raw + before + [n];
        if MergeNamespaces(s, plugin, front).Some? {
          NamespacesOneMore(original, MergeNamespaces(s, plugin, front).value, plugin, n, raw + before, owned + mine);
        }
      }
    }
  }

  /** Distinct among themselves, and about nothing that is set. */
  ghost predicate DistinctFrom<T>(all: seq<Entry<T>>, some: seq<Entry<T>>) {
    DistinctKeys(some) && KeysOf(some) !! KeysOf(all)
  }

  lemma NoneMore<T>(all: seq<Entry<T>>, plugin: string)
    ensures DistinctFrom(all, []) && Names<T>(plugin, []) == []
  {
  }

  lemma NamesSnoc<T>(plugin: string, s: seq<Entry<T>>, e: Entry<T>)
    ensures Names(plugin, s + [e]) == Names(plugin, s) + [Entry(e.key, plugin)]
  {
  }

  lemma OneMoreType<T>(all: seq<Entry<T>>, some: seq<Entry<T>>, e: Entry<T>)
    ensures DistinctFrom(all, some + [e]) <==> DistinctFrom(all, some) && e.key !in KeysOf(all + some)
  {
    hide KeysOf;
    DistinctKeysConcat(some, [e]);
    KeysOfSnoc(some, e);
    KeysOfSnoc([], e);
    assert [] + [e] == [e] && KeysOf<T>([]) == {} by {
      NoKeys<T>([]);
    }
    KeysOfConcat(all, some);
  }

  lemma NoNamespaces(original: seq<Namespace>)
    ensures NamespacesReached(MapOf(original), StartNamespaces(original), [], []) && DistinctKeys(TypeEdits([]))
  {
    assert MapOf(TypeEdits([])) == map[];
  }

  /** Namespaces are accepted if and only if no type is touched twice. */
  lemma {:induction false} NamespaceRunReaches(original: seq<Namespace>, steps: seq<NamespaceStep>)
    requires OrdinaryNamespaces(steps)
    ensures RunNamespaces(StartNamespaces(original), steps).Some? <==> DistinctKeys(TypeEdits(AllNamespaces(steps)))
    ensures RunNamespaces(StartNamespaces(original), steps).Some? ==>
              NamespacesReached(MapOf(original), RunNamespaces(StartNamespaces(original), steps).value,
                                AllNamespaces(steps), TypesOwned(steps))
  {
    hide MergeNamespaces, MapOf, KeysOf, DistinctKeys, NamespacesReached, Present;
    if steps == [] {
      NoNamespaces(original);
    } else {
      var front, last := steps[..|steps| - 1], steps[|steps| - 1];
      NamespaceRunReaches(original, front);
      TypeEditsConcat(AllNamespaces(front), NamespacesOf(last));
      DistinctKeysConcat(TypeEdits(AllNamespaces(front)), TypeEdits(NamespacesOf(last)));
      if RunNamespaces(StartNamespaces(original), front).Some? {
        NamespacesMore(MapOf(original), RunNamespaces(StartNamespaces(original), front).value, last.plugin, last.items,
                       AllNamespaces(front), TypesOwned(front));
      }
    }
  }

  ghost predicate SameNamespaces(s: Namespaces, t: Namespaces) {
    s.own == t.own && MapOf(s.reply) == MapOf(t.reply) && s.view == t.view
  }

  lemma {:induction false} OwnedLikeTypes(steps: seq<NamespaceStep>)
    ensures SameKeys(TypeEdits(AllNamespaces(steps)), TypesOwned(steps))
  {
    if steps != [] {
      OwnedLikeTypes(steps[..|steps| - 1]);
      TypeEditsConcat(AllNamespaces(steps[..|steps| - 1]), NamespacesOf(steps[|steps| - 1]));
    }
  }

  lemma TypesPermuted(raw: seq<Namespace>, other: seq<Namespace>)
    requires multiset(raw) == multiset(other)
    ensures multiset(TypeEdits(raw)) == multiset(TypeEdits(other))
    ensures DistinctKeys(TypeEdits(raw)) ==> MapOf(raw) == MapOf(other)
  {
    ImagesPermuted((n: Namespace) => [TypeEdit(n)], raw, other, TypeEdits(raw), TypeEdits(other));
    if DistinctKeys(TypeEdits(raw)) {
      forall i, j | 0 <= i < j < |raw| ensures raw[i].key != raw[j].key {
        assert TypeEdits(raw)[i].key != TypeEdits(raw)[j].key;
      }
      PermutationKeepsMap(raw, other);
    }
  }

  lemma NamespacesInAnyOrder(original: seq<Namespace>, steps: seq<NamespaceStep>, other: seq<NamespaceStep>)
    requires OrdinaryNamespaces(steps) && OrdinaryNamespaces(other) && multiset(steps) == multiset(other)
    ensures var s, t := RunNamespaces(StartNamespaces(original), steps),
                        RunNamespaces(StartNamespaces(original), other);
            (s.Some? <==> t.Some?) && (s.Some? ==> SameNamespaces(s.value, t.value))
  {
    hide RunNamespaces, MapOf, KeysOf, DistinctKeys, FlatMap, OrdinaryNamespaces, SameKeys;
    NamespaceRunReaches(original, steps);
    NamespaceRunReaches(original, other);
    OwnedLikeTypes(steps);
    OwnedLikeTypes(other);
    FlatMapPermuted(NamespacesOf, steps, other);
    FlatMapPermuted(TypesOwnedBy, steps, other);
    TypesPermuted(AllNamespaces(steps), AllNamespaces(other));
    SettingsPermuted(TypeEdits(AllNamespaces(steps)), TypesOwned(steps), TypeEdits(AllNamespaces(other)),
                     TypesOwned(other));
    var s, t := RunNamespaces(StartNamespaces(original), steps), RunNamespaces(StartNamespaces(original), other);
    if s.Some? {
      SameLookups(s.value.view, t.value.view);
    }
  }

  lemma SameLookups<T>(m: map<string, T>, n: map<string, T>)
    requires forall k :: Lookup(m, k) == Lookup(n, k)
    ensures m == n
  {
    assert forall k :: k in m <==> Lookup(m, k).Some?;
    assert forall k :: k in n <==> Lookup(n, k).Some?;
    assert forall k :: k in m ==> Lookup(m, k) == Some(m[k]);
    assert forall k :: k in n ==> Lookup(n, k) == Some(n[k]);
  }

  // ---------------------------------------------------------------- whole creations

  /** Nobody else touches the mounts, variables and devices a plugin removes. */
  ghost predicate RemovalsApart(replies: seq<Reply>) {
    Undisturbed(MountSteps(replies)) && Undisturbed(EnvSteps(replies)) && Undisturbed(DeviceSteps(replies))
  }

  /** The variables set have names that can be told from their values. */
  ghost predicate SplittableNames(replies: seq<Reply>) {
    forall i :: 0 <= i < |replies| ==> Splittable(Added(replies[i].adjustment.env))
  }

  /** No mount, variable, device or field of the resources is set twice, and no namespace type touched twice. */
  ghost predicate NothingTwice(replies: seq<Reply>) {
    DistinctKeys(Settings(MountSteps(replies))) && DistinctKeys(Settings(EnvSteps(replies))) &&
    DistinctKeys(Settings(DeviceSteps(replies))) && Distinct(AllClaims(ResourceSteps(replies))) &&
    DistinctKeys(TypeEdits(AllNamespaces(NamespaceSteps(replies))))
  }

  ghost predicate SameAdjusting(s: Adjusting, t: Adjusting) {
    forall k :: ValueOf(s.reply, k) == ValueOf(t.reply, k) && ValueOf(s.view, k) == ValueOf(t.view, k) &&
                s.owners.Owner(k) == t.owners.Owner(k)
  }

  ghost predicate SameCreation(c: Creation, d: Creation) {
    SameLists(c.mounts, d.mounts) && SameLists(Parsed(c.env), Parsed(d.env)) && SameLists(c.devices, d.devices) &&
    SameAdjusting(c.resources, d.resources) && SameNamespaces(c.namespaces, d.namespaces)
  }

  lemma StepsAreProper(replies: seq<Reply>)
    requires ProperReplies(replies) && RemovalsApart(replies)
    ensures ProperSteps(true, MountSteps(replies)) && ProperSteps(false, EnvSteps(replies)) &&
            ProperSteps(false, DeviceSteps(replies))
    ensures OrdinaryNames(ResourceSteps(replies)) && OrdinaryNamespaces(NamespaceSteps(replies))
  {
    hide Undisturbed, IsOrderOf;
  }

  /**
    If nobody else touches what a plugin removes, a creation is accepted if and only if nothing is set
    twice, and no namespace type touched twice.
   */
  lemma CreationAcceptedIff(o: Original, replies: seq<Reply>)
    requires ProperReplies(replies) && RemovalsApart(replies) && SplittableNames(replies)
    ensures RunCreate(StartCreate(o), replies).Some? <==> NothingTwice(replies)
  {
    hide Run, RunEnv, RunResources, RunNamespaces, RunCreate, DistinctKeys, Distinct, FlatMap, AllClaims,
      Settings, Reached, NamespacesReached, Traced, ProperSteps, OrdinaryNamespaces;
    StepsAreProper(replies);
    KindsAreIndependent(StartCreate(o), replies);
    RunReaches(true, o.mounts, MountSteps(replies));
    RunEnvParsed(o.env, EnvSteps(replies));
    RunReaches(false, ParsedEnv(o.env), EnvSteps(replies));
    RunReaches(false, o.devices, DeviceSteps(replies));
    RunTraced(o.resources, ResourceSteps(replies));
    NamespaceRunReaches(o.namespaces, NamespaceSteps(replies));
  }

  /** The same steps in another order, kind by kind. */
  lemma StepsPermuted(replies: seq<Reply>, other: seq<Reply>)
    requires multiset(replies) == multiset(other)
    ensures multiset(MountSteps(replies)) == multiset(MountSteps(other))
    ensures multiset(EnvSteps(replies)) == multiset(EnvSteps(other))
    ensures multiset(DeviceSteps(replies)) == multiset(DeviceSteps(other))
    ensures multiset(ResourceSteps(replies)) == multiset(ResourceSteps(other))
    ensures multiset(NamespaceSteps(replies)) == multiset(NamespaceSteps(other))
  {
    hide EditsOf, Linux;
    ImagesPermuted((r: Reply) => [MountStep(r.plugin, r.adjustment)], replies, other, MountSteps(replies),
                   MountSteps(other));
    ImagesPermuted((r: Reply) => [EnvStepOf(r.plugin, r.adjustment)], replies, other, EnvSteps(replies),
                   EnvSteps(other));
    ImagesPermuted((r: Reply) => [DeviceStep(r.plugin, r.adjustment)], replies, other, DeviceSteps(replies),
                   DeviceSteps(other));
    ImagesPermuted((r: Reply) => [ResourceStep(r.plugin, EditsOf(r.adjustment))], replies, other,
                   ResourceSteps(replies), ResourceSteps(other));
    ImagesPermuted((r: Reply) => [NamespaceStep(r.plugin, Linux(r.adjustment).namespaces)], replies, other,
                   NamespaceSteps(replies), NamespaceSteps(other));
  }

  lemma RepliesPermuted(replies: seq<Reply>, other: seq<Reply>)
    requires multiset(replies) == multiset(other) && ProperReplies(replies) && SplittableNames(replies)
    ensures ProperReplies(other) && SplittableNames(other)
  {
    hide Splittable, Added, IsOrderOf;
    forall i | 0 <= i < |other| ensures exists j :: 0 <= j < |replies| && replies[j] == other[i] {
      assert other[i] in multiset(replies);
    }
  }

  /**
    If nobody else touches what a plugin removes, the order of the plugins decides neither whether the
    creation is accepted nor what is set or removed by whom, in the reply and in the view of the last plugin.
   */
  lemma OrderOfPluginsDoesNotMatter(o: Original, replies: seq<Reply>, other: seq<Reply>)
    requires ProperReplies(replies) && RemovalsApart(replies) && SplittableNames(replies)
    requires multiset(replies) == multiset(other)
    ensures var c, d := RunCreate(StartCreate(o), replies), RunCreate(StartCreate(o), other);
            (c.Some? <==> d.Some?) && (c.Some? ==> SameCreation(c.value, d.value))
  {
    hide Run, RunEnv, RunResources, RunNamespaces, RunCreate, ProperSteps, SameLists, SameNamespaces, ValueOf,
      Splittable, Added, RemovalsApart, ProperReplies;
    StepsAreProper(replies);
    StepsPermuted(replies, other);
    RepliesPermuted(replies, other);
    NamesPermuted(other);
    KindsAreIndependent(StartCreate(o), replies);
    KindsAreIndependent(StartCreate(o), other);
    ListsInAnyOrder(true, o.mounts, MountSteps(replies), MountSteps(other));
    RunEnvParsed(o.env, EnvSteps(replies));
    RunEnvParsed(o.env, EnvSteps(other));
    ListsInAnyOrder(false, ParsedEnv(o.env), EnvSteps(replies), EnvSteps(other));
    ListsInAnyOrder(false, o.devices, DeviceSteps(replies), DeviceSteps(other));
    OrderDoesNotMatter(o.resources, ResourceSteps(replies), ResourceSteps(other));
    NamespacesInAnyOrder(o.namespaces, NamespaceSteps(replies), NamespaceSteps(other));
  }

  lemma NamesPermuted(replies: seq<Reply>)
    requires ProperReplies(replies)
    ensures OrdinaryNamespaces(NamespaceSteps(replies))
  {
    hide IsOrderOf;
  }

  /** With removals the order may matter: one plugin can take over what another has set, but not the other way round. */
  lemma RemovalMakesOrderMatter<T>(original: seq<Entry<T>>, sets: Step<T>, takes: Step<T>, e: Entry<T>, f: Entry<T>)
    requires !Marked(sets.plugin) && !Marked(takes.plugin) && e.key == f.key
    requires Added(sets.items) == [e] && RemovedKeys(sets.items) == {}
    requires Added(takes.items) == [f] && RemovedKeys(takes.items) == {e.key}
    ensures Run(false, Start(original), [sets, takes]).Some? && Run(false, Start(original), [takes, sets]).None?
  {
    hide Merge, Added, RemovedKeys, MapOf;
    var start := Start(original);
    AcceptedFirst(start, sets, e);
    AcceptedFirst(start, takes, f);
    var s, t := Merge(false, start, sets).value, Merge(false, start, takes).value;
    MergeAcceptedIff(false, s, takes);
    MergeAcceptedIff(false, t, sets);
    MarkerRoundTrip(sets.plugin);
    assert KeysOf([e]) == {e.key} && KeysOf([f]) == {e.key} by {
      KeysHead([e]);
      KeysHead([f]);
      NoKeys<T>([]);
    }
    assert !Free(t.own, sets.plugin, e.key);
    assert [sets, takes][..1] == [sets] && [takes, sets][..1] == [takes];
    assert Run(false, start, []) == Some(start);
    assert Run(false, start, [sets]) == Some(s) && Run(false, start, [takes]) == Some(t);
  }

  lemma AcceptedFirst<T>(start: Lists<T>, step: Step<T>, e: Entry<T>)
    requires !Marked(step.plugin) && start.own == map[] && start.reply == [] && Added(step.items) == [e]
    ensures var r := Merge(false, start, step);
            r.Some? && e.key in r.value.own && r.value.own[e.key] == step.plugin && e.key in KeysOf(r.value.reply)
  {
    hide Merge, RemovedKeys;
    MergeAcceptedIff(false, start, step);
    assert Added(start.reply) == [] && Settled(start.reply);
    MergeKept(start, step);
    var r := Merge(false, start, step).value;
    MapOfKeys(Added(r.reply));
    MapOfKeys(Added(step.items));
    AddedSubset(r.reply);
  }
}
