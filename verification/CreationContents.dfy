/**
  What an accepted creation holds, in terms of what the replies say: for every mount, variable, device and
  namespace type the last reply that touches it decides; every field of the resources is what the one
  reply that gives it says.
 */
module CreationContents {
  import opened Prelude
  import opened Markers
  import opened Owners
  import opened KeyedLists
  import opened ListMerge
  import opened EnvMerge
  import opened NamespaceMerge
  import opened Resources
  import opened ResourceRuns
  import opened CreateRuns
  import opened CreationOrder

  // ---------------------------------------------------------------- lists

  /** Some item sets the key or removes it. */
  ghost predicate Touched<T>(items: seq<Entry<T>>, key: string) {
    exists x :: x in items && (x.key == key || x.key == "-" + key)
  }

  ghost predicate Plain(key: string) {
    key == "" || key[0] != '-'
  }

  /** An entry of the list is the only one with its key. */
  ghost predicate OnlyOne<T>(s: seq<Entry<T>>, e: Entry<T>) {
    e in s && forall x :: x in s && x.key == e.key ==> x == e
  }

  ghost predicate NoneOf<T>(s: seq<Entry<T>>, key: string) {
    forall x :: x in s ==> x.key != key
  }

  /** Since the i-th reply, nothing has touched the key. */
  ghost predicate LeftAlone<T>(items: seq<seq<Entry<T>>>, i: int, key: string) {
    forall j :: 0 <= j < |items| && i < j ==> !Touched(items[j], key)
  }

  /** A setting that is left alone is in the reply and in the view, and owned by its plugin. */
  ghost predicate SettingsStand<T>(s: Lists<T>, names: seq<string>, items: seq<seq<Entry<T>>>)
    requires |names| == |items|
  {
    forall i, e :: 0 <= i < |items| && e in items[i] && Plain(e.key) && LeftAlone(items, i, e.key) ==>
                     OnlyOne(s.reply, e) && OnlyOne(s.view, e) && e.key in s.own && s.own[e.key] == names[i]
  }

  /** A removal, without a setting beside it, that is left alone leaves nothing under the key, nor a claim. */
  ghost predicate RemovalsStand<T>(s: Lists<T>, items: seq<seq<Entry<T>>>) {
    forall i, x, k :: 0 <= i < |items| && x in items[i] && x.key == "-" + k && Plain(k) && NoneOf(items[i], k) &&
                      LeftAlone(items, i, k) ==>
                        NoneOf(s.reply, k) && NoneOf(s.view, k) && (k in s.own ==> !Plain(s.own[k]))
  }

  /** Such a removal is in the reply, if nothing touches it there either. */
  ghost predicate RemovalsCollected<T>(s: Lists<T>, items: seq<seq<Entry<T>>>) {
    forall i, x, k :: 0 <= i < |items| && x in items[i] && x.key == "-" + k && Plain(k) && NoneOf(items[i], k) &&
                      LeftAlone(items, i, x.key) ==>
                        exists y :: y in s.reply && y in items[i] && y.key == x.key
  }

  /** What nobody touches is as it was, and not in the reply. */
  ghost predicate RestStands<T>(original: seq<Entry<T>>, s: Lists<T>, items: seq<seq<Entry<T>>>) {
    forall k :: LeftAlone(items, -1, k) ==>
                  NoneOf(s.reply, k) && k !in s.own &&
                  (forall x :: x in s.view && x.key == k ==> x in original) &&
                  (forall x :: x in original && x.key == k ==> x in s.view)
  }

  /** Everything collected is from a reply; lone removals are collected only if they are passed on. */
  ghost predicate NothingElse<T>(recorded: bool, s: Lists<T>, items: seq<seq<Entry<T>>>) {
    (forall x :: x in s.reply ==> exists i :: 0 <= i < |items| && x in items[i]) &&
    (!recorded ==> forall x :: x in s.reply ==> Plain(x.key))
  }

  ghost predicate Decided<T>(recorded: bool, original: seq<Entry<T>>, s: Lists<T>, names: seq<string>,
                             items: seq<seq<Entry<T>>>)
    requires |names| == |items|
  {
    SettingsStand(s, names, items) && RemovalsStand(s, items) && RestStands(original, s, items) &&
    NothingElse(recorded, s, items) && (recorded ==> RemovalsCollected(s, items))
  }

  lemma MarkedIs(key: string)
    ensures Marked(key) <==> !Plain(key)
    ensures MarkForRemoval(key) == "-" + key
  {
    MarkerRoundTrip(key);
  }

  lemma {:induction false} InAdded<T>(items: seq<Entry<T>>, e: Entry<T>)
    ensures e in Added(items) <==> e in items && !Marked(e.key)
  {
    if items != [] {
      InAdded(items[..|items| - 1], e);
      assert items == items[..|items| - 1] + [items[|items| - 1]];
    }
  }

  lemma {:induction false} InRemoved<T>(items: seq<Entry<T>>, k: string)
    ensures k in RemovedKeys(items) <==> exists x :: x in items && x.key == "-" + k
  {
    MarkedIs(k);
    MarkerRoundTrip(k);
    if items != [] {
      var front, last := items[..|items| - 1], items[|items| - 1];
      InRemoved(front, k);
      assert items == front + [last];
      MarkerRoundTrip(last.key);
      if last.key == "-" + k {
        assert last in items;
      }
    }
  }

  lemma {:induction false} InWithout<T>(s: seq<Entry<T>>, drop: set<string>, e: Entry<T>)
    ensures e in Without(s, drop) <==> e in s && e.key !in drop
  {
    if s != [] {
      InWithout(s[..|s| - 1], drop, e);
      assert s == s[..|s| - 1] + [s[|s| - 1]];
    }
  }

  lemma {:induction false} InOrphans<T>(items: seq<Entry<T>>, order: seq<string>, e: Entry<T>)
    requires e in Orphans(items, order)
    ensures e in items && Marked(e.key)
  {
    var front, k := order[..|order| - 1], order[|order| - 1];
    if e in Orphans(items, front) {
      InOrphans(items, front, e);
    } else {
      RemovalIn(items, k);
      MarkerRoundTrip(k);
    }
  }

  lemma {:induction false} RemovalIn<T>(items: seq<Entry<T>>, k: string)
    requires k in RemovalMap(items)
    ensures RemovalMap(items)[k] in items && RemovalMap(items)[k].key == MarkForRemoval(k)
  {
    var front, last := items[..|items| - 1], items[|items| - 1];
    assert items == front + [last];
    MarkerRoundTrip(last.key);
    if !(Marked(last.key) && Bare(last.key) == k) {
      RemovalIn(front, k);
    }
  }

  /** What one reply does, entry by entry. */
  ghost predicate MergedAs<T>(recorded: bool, s: Lists<T>, t: Lists<T>, plugin: string, items: seq<Entry<T>>) {
    && (forall e :: e in items && Plain(e.key) ==>
                      OnlyOne(t.reply, e) && OnlyOne(t.view, e) && e.key in t.own && t.own[e.key] == plugin)
    && (forall x, k :: x in items && x.key == "-" + k && Plain(k) && NoneOf(items, k) ==>
                         NoneOf(t.reply, k) && NoneOf(t.view, k) && (k in t.own ==> !Plain(t.own[k])))
    && (recorded ==>
          forall x, k :: x in items && x.key == "-" + k && Plain(k) && NoneOf(items, k) ==>
                           exists y :: y in t.reply && y in items && y.key == x.key)
    && (forall k :: !Touched(items, k) ==> SameAt(s, t, k))
    && (forall x :: x in t.reply ==> x in s.reply || (x in items && (recorded || Plain(x.key))))
  }

  /** The same entries under the key, and the same record. */
  ghost predicate SameAt<T>(s: Lists<T>, t: Lists<T>, k: string) {
    && (forall x :: x in s.reply && x.key == k ==> x in t.reply) &&
       (forall x :: x in t.reply && x.key == k ==> x in s.reply)
    && (forall x :: x in s.view && x.key == k ==> x in t.view) &&
       (forall x :: x in t.view && x.key == k ==> x in s.view)
    && Lookup(s.own, k) == Lookup(t.own, k)
  }

  /** The collected lists after one reply, by membership. */
  lemma MergeMembers<T>(recorded: bool, s: Lists<T>, step: Step<T>, x: Entry<T>)
    requires Merge(recorded, s, step).Some?
    ensures var t, add, del := Merge(recorded, s, step).value, Added(step.items), RemovedKeys(step.items);
            && (x in t.reply <==> (x in s.reply && x.key !in del) || x in add ||
                                  (recorded && x in Orphans(step.items, step.order)))
            && (x in t.view <==> (x in s.view && x.key !in del + KeysOf(add)) || x in add)
  {
    hide Added, RemovedKeys, Orphans, Without, Claimed, Cleared, KeysOf;
    var add, del := Added(step.items), RemovedKeys(step.items);
    InWithout(s.reply, del, x);
    InWithout(s.view, del + KeysOf(add), x);
  }

  /** The records after one reply. */
  lemma MergeRecords<T>(recorded: bool, s: Lists<T>, step: Step<T>, k: string)
    requires !Marked(step.plugin) && OwnersMatch(s) && Merge(recorded, s, step).Some?
    ensures var t, add, del := Merge(recorded, s, step).value, Added(step.items), RemovedKeys(step.items);
            && Lookup(t.own, k) == (if k in KeysOf(add) then Some(step.plugin)
                                    else if k in KeysOf(s.reply) * del then Some(MarkForRemoval(step.plugin))
                                    else Lookup(s.own, k))
            && DistinctKeys(add)
            && (k in KeysOf(add) ==> k !in KeysOf(Added(Without(s.reply, del))))
  {
    hide Added, RemovedKeys, Orphans, Without, Claimed, KeysOf, DistinctKeys, OwnersMatch;
    var add, del := Added(step.items), RemovedKeys(step.items);
    var own := Cleared(s.own, s.reply, del, step.plugin);
    ClearedMatches(s, del, step.plugin);
    AddedUnmarked(step.items);
    ClaimedOwns(own, add, step.plugin);
    ClaimedMatches(Lists(own, Without(s.reply, del), s.view), add, step.plugin, s.view);
  }

  lemma KeyMember<T>(s: seq<Entry<T>>, k: string)
    ensures k in KeysOf(s) <==> exists x :: x in s && x.key == k
  {
    if k in KeysOf(s) {
      var i :| 0 <= i < |s| && s[i].key == k;
      assert s[i] in s;
    }
  }

  /** No other entry with the key of a setting stays. */
  lemma SetAlone<T>(recorded: bool, s: Lists<T>, step: Step<T>, e: Entry<T>, x: Entry<T>)
    requires !Marked(step.plugin) && OwnersMatch(s) && Merge(recorded, s, step).Some? && e in step.items && Plain(e.key)
    requires x.key == e.key && (x in Merge(recorded, s, step).value.reply || x in Merge(recorded, s, step).value.view)
    ensures x == e
  {
    hide Merge, Added, RemovedKeys, Orphans, Without, KeysOf, OwnersMatch;
    var add, del := Added(step.items), RemovedKeys(step.items);
    MarkedIs(e.key);
    InAdded(step.items, e);
    KeyMember(add, e.key);
    MergeRecords(recorded, s, step, e.key);
    MergeMembers(recorded, s, step, x);
    if x in add {
      var i, j :| 0 <= i < |add| && 0 <= j < |add| && add[i] == e && add[j] == x;
      assert i == j;
    } else if recorded && x in Orphans(step.items, step.order) {
      InOrphans(step.items, step.order, x);
    } else if x in Merge(recorded, s, step).value.reply {
      InWithout(s.reply, del, x);
      InAdded(Without(s.reply, del), x);
      KeyMember(Added(Without(s.reply, del)), x.key);
    }
  }

  lemma SetHere<T>(recorded: bool, s: Lists<T>, step: Step<T>, e: Entry<T>)
    requires !Marked(step.plugin) && OwnersMatch(s) && Merge(recorded, s, step).Some? && e in step.items && Plain(e.key)
    ensures var t := Merge(recorded, s, step).value;
            OnlyOne(t.reply, e) && OnlyOne(t.view, e) && e.key in t.own && t.own[e.key] == step.plugin
  {
    hide Merge, Added, RemovedKeys, Orphans, Without, KeysOf, OwnersMatch;
    var t, add := Merge(recorded, s, step).value, Added(step.items);
    MarkedIs(e.key);
    InAdded(step.items, e);
    KeyMember(add, e.key);
    MergeRecords(recorded, s, step, e.key);
    MergeMembers(recorded, s, step, e);
    forall x | x in t.reply && x.key == e.key ensures x == e {
      SetAlone(recorded, s, step, e, x);
    }
    forall x | x in t.view && x.key == e.key ensures x == e {
      SetAlone(recorded, s, step, e, x);
    }
  }

  /** No entry under a removed key stays. */
  lemma RemovedEntry<T>(recorded: bool, s: Lists<T>, step: Step<T>, k: string, y: Entry<T>)
    requires Merge(recorded, s, step).Some? && k in RemovedKeys(step.items) && Plain(k) &&
             NoneOf(step.items, k) && y.key == k
    ensures var t := Merge(recorded, s, step).value; y !in t.reply && y !in t.view && y !in Added(step.items)
  {
    hide Merge, Added, RemovedKeys, Orphans, Without, KeysOf;
    MarkedIs(k);
    MergeMembers(recorded, s, step, y);
    InAdded(step.items, y);
    if recorded && y in Orphans(step.items, step.order) {
      InOrphans(step.items, step.order, y);
    }
  }

  lemma RemovedHere<T>(recorded: bool, s: Lists<T>, step: Step<T>, x: Entry<T>, k: string)
    requires !Marked(step.plugin) && OwnersMatch(s) && Merge(recorded, s, step).Some?
    requires x in step.items && x.key == "-" + k && Plain(k) && NoneOf(step.items, k)
    ensures var t := Merge(recorded, s, step).value;
            NoneOf(t.reply, k) && NoneOf(t.view, k) && (k in t.own ==> !Plain(t.own[k]))
  {
    hide Merge, Added, RemovedKeys, Orphans, Without, KeysOf;
    var t, add := Merge(recorded, s, step).value, Added(step.items);
    MarkedIs(step.plugin);
    InRemoved(step.items, k);
    MergeRecords(recorded, s, step, k);
    MarkerRoundTrip(step.plugin);
    MarkedIs(MarkForRemoval(step.plugin));
    forall y | y in t.reply ensures y.key != k {
      if y.key == k {
        RemovedEntry(recorded, s, step, k, y);
      }
    }
    forall y | y in t.view ensures y.key != k {
      if y.key == k {
        RemovedEntry(recorded, s, step, k, y);
      }
    }
    forall y | y in add ensures y.key != k {
      if y.key == k {
        RemovedEntry(recorded, s, step, k, y);
      }
    }
    KeyMember(add, k);
    if k !in KeysOf(s.reply) && k in s.own {
      AddedSubset(s.reply);
      MarkedIs(s.own[k]);
    }
  }

  lemma UntouchedEntry<T>(recorded: bool, s: Lists<T>, step: Step<T>, k: string, y: Entry<T>)
    requires Merge(recorded, s, step).Some? && !Touched(step.items, k) && y.key == k
    ensures var t := Merge(recorded, s, step).value;
            y !in Added(step.items) && (y in s.reply <==> y in t.reply) && (y in s.view <==> y in t.view)
  {
    hide Merge, Added, RemovedKeys, Orphans, Without, KeysOf;
    var add := Added(step.items);
    InRemoved(step.items, k);
    MergeMembers(recorded, s, step, y);
    InAdded(step.items, y);
    KeyMember(add, k);
    if k in KeysOf(add) {
      var x :| x in add && x.key == k;
      InAdded(step.items, x);
    }
    if recorded && y in Orphans(step.items, step.order) {
      InOrphans(step.items, step.order, y);
    }
  }

  lemma UntouchedHere<T>(recorded: bool, s: Lists<T>, step: Step<T>, k: string)
    requires !Marked(step.plugin) && OwnersMatch(s) && Merge(recorded, s, step).Some? && !Touched(step.items, k)
    ensures SameAt(s, Merge(recorded, s, step).value, k)
  {
    hide Merge, Added, RemovedKeys, Orphans, Without, KeysOf, OwnersMatch;
    var t, add := Merge(recorded, s, step).value, Added(step.items);
    InRemoved(step.items, k);
    MergeRecords(recorded, s, step, k);
    KeyMember(add, k);
    forall y | y in add ensures y.key != k {
      if y.key == k {
        UntouchedEntry(recorded, s, step, k, y);
      }
    }
    forall y | y in s.reply && y.key == k ensures y in t.reply { UntouchedEntry(recorded, s, step, k, y); }
    forall y | y in t.reply && y.key == k ensures y in s.reply { UntouchedEntry(recorded, s, step, k, y); }
    forall y | y in s.view && y.key == k ensures y in t.view { UntouchedEntry(recorded, s, step, k, y); }
    forall y | y in t.view && y.key == k ensures y in s.view { UntouchedEntry(recorded, s, step, k, y); }
  }

  lemma {:induction false} OrphanFor<T>(items: seq<Entry<T>>, order: seq<string>, k: string) returns (y: Entry<T>)
    requires k in order && k in RemovedKeys(items) && k !in KeysOf(Added(items))
    ensures y in Orphans(items, order) && y in items && y.key == "-" + k
  {
    hide Added, KeysOf, RemovalMap;
    var front, last := order[..|order| - 1], order[|order| - 1];
    assert order == front + [last];
    if k == last {
      RemovalIn(items, k);
      MarkedIs(k);
      y := RemovalMap(items)[k];
    } else {
      y := OrphanFor(items, front, k);
    }
  }

  lemma PassedOnHere<T>(s: Lists<T>, step: Step<T>, x: Entry<T>, k: string) returns (y: Entry<T>)
    requires ValidStep(true, step) && Merge(true, s, step).Some?
    requires x in step.items && x.key == "-" + k && Plain(k) && NoneOf(step.items, k)
    ensures y in Merge(true, s, step).value.reply && y in step.items && y.key == x.key
  {
    hide Merge, Added, RemovedKeys, Orphans, KeysOf;
    InRemoved(step.items, k);
    KeyMember(Added(step.items), k);
    forall z | z in Added(step.items) ensures z.key != k {
      InAdded(step.items, z);
    }
    y := OrphanFor(step.items, step.order, k);
    MergeMembers(true, s, step, y);
  }

  lemma MergedIs<T>(recorded: bool, s: Lists<T>, step: Step<T>)
    requires ValidStep(recorded, step) && OwnersMatch(s) && Merge(recorded, s, step).Some?
    ensures MergedAs(recorded, s, Merge(recorded, s, step).value, step.plugin, step.items)
  {
    hide Merge, Added, RemovedKeys, Orphans, OwnersMatch;
    var t := Merge(recorded, s, step).value;
    forall e | e in step.items && Plain(e.key)
      ensures OnlyOne(t.reply, e) && OnlyOne(t.view, e) && e.key in t.own && t.own[e.key] == step.plugin
    {
      SetHere(recorded, s, step, e);
    }
    forall x, k | x in step.items && x.key == "-" + k && Plain(k) && NoneOf(step.items, k)
      ensures NoneOf(t.reply, k) && NoneOf(t.view, k) && (k in t.own ==> !Plain(t.own[k]))
    {
      RemovedHere(recorded, s, step, x, k);
    }
    forall x, k | recorded && x in step.items && x.key == "-" + k && Plain(k) && NoneOf(step.items, k)
      ensures exists y :: y in t.reply && y in step.items && y.key == x.key
    {
      var y := PassedOnHere(s, step, x, k);
    }
    forall k | !Touched(step.items, k) ensures SameAt(s, t, k) {
      UntouchedHere(recorded, s, step, k);
    }
    forall x | x in t.reply ensures x in s.reply || (x in step.items && (recorded || Plain(x.key))) {
      MergeMembers(recorded, s, step, x);
      InAdded(step.items, x);
      MarkedIs(x.key);
      if recorded && x in Orphans(step.items, step.order) {
        InOrphans(step.items, step.order, x);
      }
    }
  }

  lemma LeftAloneMore<T>(items: seq<seq<Entry<T>>>, more: seq<Entry<T>>, i: int, key: string)
    requires i < |items|
    ensures LeftAlone(items + [more], i, key) <==> LeftAlone(items, i, key) && !Touched(more, key)
  {
    hide Touched;
    var all := items + [more];
    assert all[|items|] == more && forall j :: 0 <= j < |items| ==> all[j] == items[j];
  }

  lemma SettingsNext<T>(recorded: bool, s: Lists<T>, t: Lists<T>, names: seq<string>, items: seq<seq<Entry<T>>>,
                        plugin: string, more: seq<Entry<T>>)
    requires |names| == |items| && SettingsStand(s, names, items) && MergedAs(recorded, s, t, plugin, more)
    ensures SettingsStand(t, names + [plugin], items + [more])
  {
    hide LeftAlone, Touched;
    var all := items + [more];
    forall i, e: Entry<T> | 0 <= i < |all| && e in all[i] && Plain(e.key) && LeftAlone(all, i, e.key)
      ensures OnlyOne(t.reply, e) && OnlyOne(t.view, e) && e.key in t.own && t.own[e.key] == (names + [plugin])[i]
    {
      if i < |items| {
        LeftAloneMore(items, more, i, e.key);
        assert all[i] == items[i];
        assert OnlyOne(s.reply, e) && SameAt(s, t, e.key);
      }
    }
  }

  lemma RemovalsNext<T>(recorded: bool, s: Lists<T>, t: Lists<T>, items: seq<seq<Entry<T>>>, plugin: string,
                        more: seq<Entry<T>>)
    requires RemovalsStand(s, items) && MergedAs(recorded, s, t, plugin, more)
    ensures RemovalsStand(t, items + [more])
  {
    hide LeftAlone, Touched;
    var all := items + [more];
    forall i, x: Entry<T>, k | 0 <= i < |all| && x in all[i] && x.key == "-" + k && Plain(k) && NoneOf(all[i], k) &&
                               LeftAlone(all, i, k)
      ensures NoneOf(t.reply, k) && NoneOf(t.view, k) && (k in t.own ==> !Plain(t.own[k]))
    {
      if i < |items| {
        LeftAloneMore(items, more, i, k);
        assert all[i] == items[i];
        assert NoneOf(s.reply, k) && SameAt(s, t, k);
      }
    }
  }

  lemma CollectedNext<T>(s: Lists<T>, t: Lists<T>, items: seq<seq<Entry<T>>>, plugin: string, more: seq<Entry<T>>)
    requires RemovalsCollected(s, items) && MergedAs(true, s, t, plugin, more)
    ensures RemovalsCollected(t, items + [more])
  {
    hide LeftAlone, Touched;
    var all := items + [more];
    forall i, x: Entry<T>, k | 0 <= i < |all| && x in all[i] && x.key == "-" + k && Plain(k) && NoneOf(all[i], k) &&
                               LeftAlone(all, i, x.key)
      ensures exists y :: y in t.reply && y in all[i] && y.key == x.key
    {
      if i < |items| {
        LeftAloneMore(items, more, i, x.key);
        assert all[i] == items[i];
        var y :| y in s.reply && y in items[i] && y.key == x.key;
        assert SameAt(s, t, x.key) && y in t.reply;
      }
    }
  }

  lemma RestNext<T>(recorded: bool, original: seq<Entry<T>>, s: Lists<T>, t: Lists<T>, items: seq<seq<Entry<T>>>,
                    plugin: string, more: seq<Entry<T>>)
    requires RestStands(original, s, items) && MergedAs(recorded, s, t, plugin, more)
    ensures RestStands(original, t, items + [more])
  {
    hide LeftAlone, Touched;
    forall k | LeftAlone(items + [more], -1, k)
      ensures NoneOf(t.reply, k) && k !in t.own
      ensures (forall x :: x in t.view && x.key == k ==> x in original) &&
              (forall x :: x in original && x.key == k ==> x in t.view)
    {
      LeftAloneMore(items, more, -1, k);
      assert NoneOf(s.reply, k) && SameAt(s, t, k);
    }
  }

  lemma DecidedNext<T>(recorded: bool, original: seq<Entry<T>>, s: Lists<T>, t: Lists<T>, names: seq<string>,
                       items: seq<seq<Entry<T>>>, plugin: string, more: seq<Entry<T>>)
    requires |names| == |items| && Decided(recorded, original, s, names, items) &&
             MergedAs(recorded, s, t, plugin, more)
    ensures Decided(recorded, original, t, names + [plugin], items + [more])
  {
    SettingsNext(recorded, s, t, names, items, plugin, more);
    RemovalsNext(recorded, s, t, items, plugin, more);
    RestNext(recorded, original, s, t, items, plugin, more);
    if recorded {
      CollectedNext(s, t, items, plugin, more);
    }
    hide RemovalsCollected, SettingsStand, RemovalsStand, RestStands;
    var all := items + [more];
    forall x | x in t.reply ensures exists i :: 0 <= i < |all| && x in all[i] {
      if x in s.reply {
        var i :| 0 <= i < |items| && x in items[i];
        assert x in all[i];
      } else {
        assert x in all[|items|];
      }
    }
  }

  lemma NothingDecided<T>(recorded: bool, original: seq<Entry<T>>)
    ensures Decided(recorded, original, Start(original), [], [])
  {
  }

  function PluginsOf<T>(steps: seq<Step<T>>): (r: seq<string>)
    ensures |r| == |steps| && forall i :: 0 <= i < |r| ==> r[i] == steps[i].plugin
  {
    seq(|steps|, i requires 0 <= i < |steps| => steps[i].plugin)
  }

  function ItemsOf<T>(steps: seq<Step<T>>): (r: seq<seq<Entry<T>>>)
    ensures |r| == |steps| && forall i :: 0 <= i < |r| ==> r[i] == steps[i].items
  {
    seq(|steps|, i requires 0 <= i < |steps| => steps[i].items)
  }

  /** The last reply that touches a key decides. */
  lemma {:induction false} RunDecided<T>(recorded: bool, original: seq<Entry<T>>, steps: seq<Step<T>>)
    requires forall i :: 0 <= i < |steps| ==> ValidStep(recorded, steps[i])
    requires Run(recorded, Start(original), steps).Some?
    ensures Decided(recorded, original, Run(recorded, Start(original), steps).value, PluginsOf(steps), ItemsOf(steps))
  {
    hide Decided, Merge, MergedAs, OwnersMatch, Coherent;
    if steps == [] {
      NothingDecided(recorded, original);
    } else {
      var front, last := steps[..|steps| - 1], steps[|steps| - 1];
      RunDecided(recorded, original, front);
      RunCoherent(recorded, original, front);
      var s := Run(recorded, Start(original), front).value;
      MergedIs(recorded, s, last);
      DecidedNext(recorded, original, s, Merge(recorded, s, last).value, PluginsOf(front), ItemsOf(front),
                  last.plugin, last.items);
      assert PluginsOf(steps) == PluginsOf(front) + [last.plugin] && ItemsOf(steps) == ItemsOf(front) + [last.items];
    }
  }

  // ---------------------------------------------------------------- environment

  /** The strings of the view: those set and left alone, those of the original that nobody touches, and no other. */
  ghost predicate StringsStand(original: seq<string>, view: seq<string>, items: seq<seq<KeyValue>>) {
    && (forall i, e :: 0 <= i < |items| && e in items[i] && Plain(e.key) && LeftAlone(items, i, e.key) ==>
                         e.key + "=" + e.value in view)
    && (forall v :: v in original && LeftAlone(items, -1, SplitEnvVar(v).key) ==> v in view)
    && (forall v :: v in view ==> v in original || exists i, e :: 0 <= i < |items| && e in items[i] &&
                                                                  v == e.key + "=" + e.value)
  }

  lemma {:induction false} InWithoutVars(env: seq<string>, drop: set<string>, v: string)
    ensures v in WithoutVars(env, drop) <==> v in env && SplitEnvVar(v).key !in drop
  {
    if env != [] {
      InWithoutVars(env[..|env| - 1], drop, v);
      assert env == env[..|env| - 1] + [env[|env| - 1]];
    }
  }

  lemma InPrinted(vars: seq<KeyValue>, v: string)
    ensures v in Printed(vars) <==> exists e :: e in vars && v == e.key + "=" + e.value
  {
    if v in Printed(vars) {
      var i :| 0 <= i < |vars| && Printed(vars)[i] == v;
      assert vars[i] in vars;
    }
    if e :| e in vars && v == e.key + "=" + e.value {
      var i :| 0 <= i < |vars| && vars[i] == e;
      assert Printed(vars)[i] == v;
    }
  }

  lemma MergeEnvMembers(s: EnvLists, step: EnvStep, v: string)
    requires MergeEnv(s, step).Some?
    ensures v in MergeEnv(s, step).value.view <==>
            (v in s.view && SplitEnvVar(v).key !in RemovedKeys(step.items) + KeysOf(Added(step.items))) ||
            exists e :: e in Added(step.items) && v == e.key + "=" + e.value
  {
    hide Added, RemovedKeys, KeysOf, Claimed, Cleared, Without, WithoutVars;
    InWithoutVars(s.view, RemovedKeys(step.items) + KeysOf(Added(step.items)), v);
    InPrinted(Added(step.items), v);
  }

  /** A string stays if its name is not touched, and a setting puts one in. */
  ghost predicate StringsMerged(view: seq<string>, after: seq<string>, items: seq<KeyValue>) {
    && (forall e :: e in items && Plain(e.key) ==> e.key + "=" + e.value in after)
    && (forall v :: v in view && !Touched(items, SplitEnvVar(v).key) ==> v in after)
    && (forall v :: v in after ==> v in view || exists e :: e in items && v == e.key + "=" + e.value)
  }

  lemma NameTouched(items: seq<KeyValue>, k: string)
    ensures k in RemovedKeys(items) + KeysOf(Added(items)) ==> Touched(items, k)
  {
    hide RemovedKeys, KeysOf, Added;
    InRemoved(items, k);
    KeyMember(Added(items), k);
    if k in KeysOf(Added(items)) {
      var x :| x in Added(items) && x.key == k;
      InAdded(items, x);
    }
  }

  lemma StringsAreMerged(s: EnvLists, step: EnvStep)
    requires MergeEnv(s, step).Some?
    ensures StringsMerged(s.view, MergeEnv(s, step).value.view, step.items)
  {
    hide MergeEnv, RemovedKeys, KeysOf, Added, SplitEnvVar, Touched;
    var t := MergeEnv(s, step).value;
    forall e | e in step.items && Plain(e.key) ensures e.key + "=" + e.value in t.view {
      InAdded(step.items, e);
      MarkedIs(e.key);
      MergeEnvMembers(s, step, e.key + "=" + e.value);
    }
    forall v | v in s.view && !Touched(step.items, SplitEnvVar(v).key) ensures v in t.view {
      NameTouched(step.items, SplitEnvVar(v).key);
      MergeEnvMembers(s, step, v);
    }
    forall v | v in t.view ensures v in s.view || exists e :: e in step.items && v == e.key + "=" + e.value {
      MergeEnvMembers(s, step, v);
      if e :| e in Added(step.items) && v == e.key + "=" + e.value {
        InAdded(step.items, e);
      }
    }
  }

  lemma NameOf(key: string, value: string)
    requires '=' !in key
    ensures SplitEnvVar(key + "=" + value).key == key
  {
    EnvRoundTrip(Entry(key, value));
  }

  lemma StringsNext(original: seq<string>, view: seq<string>, after: seq<string>, items: seq<seq<KeyValue>>,
                    more: seq<KeyValue>)
    requires StringsStand(original, view, items) && StringsMerged(view, after, more)
    requires forall i, e :: 0 <= i < |items| && e in items[i] && Plain(e.key) ==> '=' !in e.key
    ensures StringsStand(original, after, items + [more])
  {
    hide LeftAlone, Touched, SplitEnvVar;
    var all := items + [more];
    forall i, e: KeyValue | 0 <= i < |all| && e in all[i] && Plain(e.key) && LeftAlone(all, i, e.key)
      ensures e.key + "=" + e.value in after
    {
      if i < |items| {
        assert all[i] == items[i];
        LeftAloneMore(items, more, i, e.key);
        NameOf(e.key, e.value);
        assert e.key + "=" + e.value in view;
      }
    }
    forall v | v in original && LeftAlone(all, -1, SplitEnvVar(v).key) ensures v in after {
      LeftAloneMore(items, more, -1, SplitEnvVar(v).key);
    }
    forall v | v in after
      ensures v in original || exists i, e: KeyValue :: 0 <= i < |all| && e in all[i] && v == e.key + "=" + e.value
    {
      if v in view && v !in original {
        var i, e :| 0 <= i < |items| && e in items[i] && v == e.key + "=" + e.value;
        assert e in all[i];
      } else if v !in view {
        assert all[|items|] == more;
      }
    }
  }

  lemma {:induction false} RunStrings(original: seq<string>, steps: seq<EnvStep>)
    requires forall i :: 0 <= i < |steps| ==> Splittable(Added(steps[i].items))
    requires RunEnv(StartEnv(original), steps).Some?
    ensures StringsStand(original, RunEnv(StartEnv(original), steps).value.view, ItemsOf(steps))
  {
    hide MergeEnv, StringsMerged, StringsStand, Added;
    if steps == [] {
      NoStrings(original);
    } else {
      var front, last := steps[..|steps| - 1], steps[|steps| - 1];
      RunStrings(original, front);
      var s := RunEnv(StartEnv(original), front).value;
      StringsAreMerged(s, last);
      SplittableItems(front);
      StringsNext(original, s.view, MergeEnv(s, last).value.view, ItemsOf(front), last.items);
      assert ItemsOf(steps) == ItemsOf(front) + [last.items];
    }
  }

  lemma NoStrings(original: seq<string>)
    ensures StringsStand(original, original, [])
  {
  }

  lemma SplittableItems(steps: seq<EnvStep>)
    requires forall i :: 0 <= i < |steps| ==> Splittable(Added(steps[i].items))
    ensures forall i, e :: 0 <= i < |ItemsOf(steps)| && e in ItemsOf(steps)[i] && Plain(e.key) ==> '=' !in e.key
  {
    hide Added;
    forall i, e | 0 <= i < |steps| && e in steps[i].items && Plain(e.key) ensures '=' !in e.key {
      MarkedIs(e.key);
      InAdded(steps[i].items, e);
      var j :| 0 <= j < |Added(steps[i].items)| && Added(steps[i].items)[j] == e;
      assert Splittable(Added(steps[i].items));
    }
  }

  // ---------------------------------------------------------------- namespaces

  /** Every entry of every reply is collected and has its effect; types nobody touches are as they were. */
  ghost predicate NamespacesStand(original: seq<Namespace>, s: Namespaces, names: seq<string>,
                                  items: seq<seq<Option<Namespace>>>)
    requires |names| == |items|
  {
    && (forall i, n :: 0 <= i < |items| && Some(n) in items[i] && Plain(n.key) ==>
                         n in s.reply && Lookup(s.view, n.key) == Some(n.value) &&
                         Lookup(s.own, n.key) == Some(names[i]))
    && (forall i, n, k :: 0 <= i < |items| && Some(n) in items[i] && n.key == "-" + k ==>
                            n in s.reply && k !in s.view && Lookup(s.own, k) == Some(names[i]))
    && (forall k :: (forall i, n :: 0 <= i < |items| && Some(n) in items[i] ==> n.key != k && n.key != "-" + k) ==>
                      k !in s.own && Lookup(s.view, k) == Lookup(MapOf(original), k))
    && (forall n :: n in s.reply ==> exists i :: 0 <= i < |items| && Some(n) in items[i])
  }

  lemma {:induction false} InPresent(items: seq<Option<Namespace>>, n: Namespace)
    ensures n in Present(items) <==> Some(n) in items
  {
    if items != [] {
      InPresent(items[..|items| - 1], n);
      assert items == items[..|items| - 1] + [items[|items| - 1]];
    }
  }

  lemma InAllNamespaces(steps: seq<NamespaceStep>, n: Namespace)
    ensures n in AllNamespaces(steps) <==> exists i :: 0 <= i < |steps| && Some(n) in steps[i].items
  {
    InFlatMap(NamespacesOf, steps, n);
    if i :| 0 <= i < |steps| && n in NamespacesOf(steps[i]) {
      InPresent(steps[i].items, n);
    }
    if i :| 0 <= i < |steps| && Some(n) in steps[i].items {
      InPresent(steps[i].items, n);
      assert n in NamespacesOf(steps[i]);
    }
  }

  /** An entry is the edit of its type, and its plugin the owner. */
  lemma NamespaceStands(original: seq<Namespace>, steps: seq<NamespaceStep>, i: nat, n: Namespace)
    requires OrdinaryNamespaces(steps) && RunNamespaces(StartNamespaces(original), steps).Some?
    requires i < |steps| && Some(n) in steps[i].items
    ensures var s := RunNamespaces(StartNamespaces(original), steps).value;
            && n in s.reply && Lookup(s.own, Bare(n.key)) == Some(steps[i].plugin)
            && Lookup(s.view, Bare(n.key)) == if Marked(n.key) then None else Some(n.value)
  {
    hide RunNamespaces, FlatMap, Present, MapOf, OrdinaryNamespaces, DistinctKeys, SameKeys;
    var s, raw, owned := RunNamespaces(StartNamespaces(original), steps).value, AllNamespaces(steps), TypesOwned(steps);
    NamespaceRunReaches(original, steps);
    InAllNamespaces(steps, n);
    var m :| 0 <= m < |raw| && raw[m] == n;
    assert TypeEdits(raw)[m] == TypeEdit(n);
    MapOfMember(TypeEdits(raw), TypeEdit(n));
    InPresent(steps[i].items, n);
    var j :| 0 <= j < |Present(steps[i].items)| && Present(steps[i].items)[j] == n;
    var mine := Names(steps[i].plugin, TypeEdits(NamespacesOf(steps[i])));
    SameKeysAt(TypeEdits(NamespacesOf(steps[i])), mine, j);
    var entry := Entry(Bare(n.key), steps[i].plugin);
    assert mine[j] == entry && entry in TypesOwnedBy(steps[i]);
    InFlatMap(TypesOwnedBy, steps, entry);
    OwnedLikeTypes(steps);
    SameKeysMeans(TypeEdits(raw), owned);
    MapOfMember(owned, entry);
  }

  lemma SameKeysAt<S, T>(a: seq<Entry<S>>, b: seq<Entry<T>>, i: nat)
    requires SameKeys(a, b) && i < |a|
    ensures i < |b| && a[i].key == b[i].key
  {
  }

  lemma TypeLeftAlone(original: seq<Namespace>, steps: seq<NamespaceStep>, k: string)
    requires OrdinaryNamespaces(steps) && RunNamespaces(StartNamespaces(original), steps).Some?
    requires forall i, n :: 0 <= i < |steps| && Some(n) in steps[i].items ==> n.key != k && n.key != "-" + k
    ensures var s := RunNamespaces(StartNamespaces(original), steps).value;
            k !in s.own && Lookup(s.view, k) == Lookup(MapOf(original), k)
  {
    hide RunNamespaces, FlatMap, Present, MapOf, OrdinaryNamespaces, DistinctKeys, SameKeys;
    var s, raw := RunNamespaces(StartNamespaces(original), steps).value, AllNamespaces(steps);
    NamespaceRunReaches(original, steps);
    OwnedKeys(s.own, TypeEdits(raw), TypesOwned(steps));
    MapOfKeys(TypeEdits(raw));
    if k in KeysOf(TypeEdits(raw)) {
      var m :| 0 <= m < |raw| && TypeEdits(raw)[m].key == k;
      InAllNamespaces(steps, raw[m]);
      MarkerRoundTrip(raw[m].key);
      MarkedIs(k);
    }
  }

  function NamespacePlugins(steps: seq<NamespaceStep>): (r: seq<string>)
    ensures |r| == |steps| && forall i :: 0 <= i < |r| ==> r[i] == steps[i].plugin
  {
    seq(|steps|, i requires 0 <= i < |steps| => steps[i].plugin)
  }

  function NamespaceItems(steps: seq<NamespaceStep>): (r: seq<seq<Option<Namespace>>>)
    ensures |r| == |steps| && forall i :: 0 <= i < |r| ==> r[i] == steps[i].items
  {
    seq(|steps|, i requires 0 <= i < |steps| => steps[i].items)
  }

  lemma PlainOrMarked(key: string)
    ensures Plain(key) ==> !Marked(key) && Bare(key) == key
    ensures forall k :: key == "-" + k ==> Marked(key) && Bare(key) == k
  {
    MarkedIs(key);
    MarkerRoundTrip(key);
    forall k | key == "-" + k ensures Bare(key) == k {
      MarkerRoundTrip(k);
    }
  }

  lemma RunNamespacesStand(original: seq<Namespace>, steps: seq<NamespaceStep>)
    requires OrdinaryNamespaces(steps) && RunNamespaces(StartNamespaces(original), steps).Some?
    ensures NamespacesStand(original, RunNamespaces(StartNamespaces(original), steps).value,
                            NamespacePlugins(steps), NamespaceItems(steps))
  {
    hide RunNamespaces, FlatMap, MapOf, OrdinaryNamespaces, SameKeys, Plain, IsMarkedForRemoval, Marked, Bare;
    var s, items := RunNamespaces(StartNamespaces(original), steps).value, NamespaceItems(steps);
    forall i, n: Namespace | 0 <= i < |items| && Some(n) in items[i]
      ensures Plain(n.key) ==>
                n in s.reply && Lookup(s.view, n.key) == Some(n.value) && Lookup(s.own, n.key) == Some(steps[i].plugin)
      ensures forall k :: n.key == "-" + k ==> n in s.reply && k !in s.view && Lookup(s.own, k) == Some(steps[i].plugin)
    {
      NamespaceStands(original, steps, i, n);
      PlainOrMarked(n.key);
    }
    forall k | forall i, n: Namespace :: 0 <= i < |items| && Some(n) in items[i] ==> n.key != k && n.key != "-" + k
      ensures k !in s.own && Lookup(s.view, k) == Lookup(MapOf(original), k)
    {
      assert forall i, n :: 0 <= i < |steps| && Some(n) in steps[i].items ==> Some(n) in items[i];
      TypeLeftAlone(original, steps, k);
    }
    NamespaceRunReaches(original, steps);
    forall n | n in s.reply ensures exists i :: 0 <= i < |items| && Some(n) in items[i] {
      InAllNamespaces(steps, n);
      var i :| 0 <= i < |steps| && Some(n) in steps[i].items;
      assert Some(n) in items[i];
    }
  }

  // ---------------------------------------------------------------- resources

  /**
    A field of the resources: what the one reply that gives it says, in the reply and in the view, owned
    by its plugin; if none gives it, it is as it was, and not in the reply.
   */
  ghost predicate FieldDecided<V>(get: Edits -> Option<V>, replies: seq<Reply>, original: Option<V>, reply: Option<V>,
                                  view: Option<V>, owner: Option<string>)
  {
    && (forall i :: 0 <= i < |replies| && replies[i].adjustment.linux.Some? &&
                    replies[i].adjustment.linux.value.resources.Some? &&
                    get(replies[i].adjustment.linux.value.resources.value).Some? ==>
                      reply == get(replies[i].adjustment.linux.value.resources.value) && view == reply &&
                      owner == Some(replies[i].plugin))
    && ((forall i :: 0 <= i < |replies| && replies[i].adjustment.linux.Some? &&
                     replies[i].adjustment.linux.value.resources.Some? ==>
                       get(replies[i].adjustment.linux.value.resources.value).None?) ==>
          reply == None && view == original && owner == None)
  }

  function SetOf(s: string): Option<string> {
    if s == "" then None else Some(s)
  }

  ghost predicate MemoryField<V>(get: Memory -> Option<V>, replies: seq<Reply>, original: Memory, reply: Memory,
                                 view: Memory, owner: Option<string>)
  {
    FieldDecided((e: Edits) => if e.memory.Some? then get(e.memory.value) else None, replies, get(original), get(reply),
                 get(view), owner)
  }

  ghost predicate CPUField<V>(get: CPU -> Option<V>, replies: seq<Reply>, original: CPU, reply: CPU, view: CPU,
                              owner: Option<string>)
  {
    FieldDecided((e: Edits) => if e.cpu.Some? then get(e.cpu.value) else None, replies, get(original), get(reply),
                 get(view), owner)
  }

  ghost predicate MemoryDecided(replies: seq<Reply>, original: Memory, reply: Memory, view: Memory, o: FieldOwners) {
    && MemoryField((m: Memory) => m.limit, replies, original, reply, view, o.Owner(Simple(MemLimit)))
    && MemoryField((m: Memory) => m.reservation, replies, original, reply, view, o.Owner(Simple(MemReservation)))
    && MemoryField((m: Memory) => m.swap, replies, original, reply, view, o.Owner(Simple(MemSwapLimit)))
    && MemoryField((m: Memory) => m.kernel, replies, original, reply, view, o.Owner(Simple(MemKernelLimit)))
    && MemoryField((m: Memory) => m.kernelTcp, replies, original, reply, view, o.Owner(Simple(MemTCPLimit)))
    && MemoryField((m: Memory) => m.swappiness, replies, original, reply, view, o.Owner(Simple(MemSwappiness)))
    && MemoryField((m: Memory) => m.disableOomKiller, replies, original, reply, view,
                   o.Owner(Simple(MemDisableOomKiller)))
    && MemoryField((m: Memory) => m.useHierarchy, replies, original, reply, view, o.Owner(Simple(MemUseHierarchy)))
  }

  ghost predicate CPUDecided(replies: seq<Reply>, original: CPU, reply: CPU, view: CPU, o: FieldOwners) {
    && CPUField((c: CPU) => c.shares, replies, original, reply, view, o.Owner(Simple(CPUShares)))
    && CPUField((c: CPU) => c.quota, replies, original, reply, view, o.Owner(Simple(CPUQuota)))
    && CPUField((c: CPU) => c.period, replies, original, reply, view, o.Owner(Simple(CPUPeriod)))
    && CPUField((c: CPU) => c.realtimeRuntime, replies, original, reply, view, o.Owner(Simple(CPURealtimeRuntime)))
    && CPUField((c: CPU) => c.realtimePeriod, replies, original, reply, view, o.Owner(Simple(CPURealtimePeriod)))
    && CPUField((c: CPU) => SetOf(c.cpus), replies, original, reply, view, o.Owner(Simple(CPUSetCPUs)))
    && CPUField((c: CPU) => SetOf(c.mems), replies, original, reply, view, o.Owner(Simple(CPUSetMems)))
  }

  ghost predicate OthersDecided(replies: seq<Reply>, original: Resources, reply: Resources, view: Resources,
                                o: FieldOwners) {
    && FieldDecided((e: Edits) => e.blockioClass, replies,
                    original.blockioClass, reply.blockioClass, view.blockioClass, o.Owner(Simple(BlockioClass)))
    && FieldDecided((e: Edits) => e.rdtClass, replies,
                    original.rdtClass, reply.rdtClass, view.rdtClass, o.Owner(Simple(RdtClass)))
    && FieldDecided((e: Edits) => e.pids, replies, original.pids, reply.pids, view.pids, o.Owner(Simple(PidsLimit)))
  }

  /** The lists that replies give, one after the other. */
  function AllOf<V>(get: Edits -> seq<V>, replies: seq<Reply>): seq<V> {
    FlatMap((r: Reply) =>
              if r.adjustment.linux.Some? && r.adjustment.linux.value.resources.Some?
              then get(r.adjustment.linux.value.resources.value)
              else [], replies)
  }

  /**
    Hugepage limits and device rules are appended, unified settings put in; each is owned by the plugin that
    gives it.
   */
  ghost predicate ListsDecided(replies: seq<Reply>, original: Resources, reply: Resources, view: Resources,
                               o: FieldOwners) {
    && reply.hugepages == AllOf((e: Edits) => e.hugepages, replies) &&
       view.hugepages == original.hugepages + reply.hugepages
    && reply.devices == AllOf((e: Edits) => e.devices, replies) && view.devices == original.devices + reply.devices
    && reply.unified == MapOf(AllOf((e: Edits) => e.unified, replies)) &&
       view.unified == original.unified + reply.unified
    && (forall i :: 0 <= i < |replies| && replies[i].adjustment.linux.Some? &&
                    replies[i].adjustment.linux.value.resources.Some? ==>
                      var e := replies[i].adjustment.linux.value.resources.value;
                      (forall h :: h in e.hugepages ==>
                                     o.Owner(Compound(HugepageLimits, h.key)) == Some(replies[i].plugin)) &&
                      (forall u :: u in e.unified ==>
                                     o.Owner(Compound(CgroupsUnified, u.key)) == Some(replies[i].plugin)))
  }

  ghost predicate ResourcesDecided(replies: seq<Reply>, original: Resources, s: Adjusting) {
    MemoryDecided(replies, original.memory, s.reply.memory, s.view.memory, s.owners) &&
    CPUDecided(replies, original.cpu, s.reply.cpu, s.view.cpu, s.owners) &&
    OthersDecided(replies, original, s.reply, s.view, s.owners) &&
    ListsDecided(replies, original, s.reply, s.view, s.owners)
  }

  lemma MemoryEdit(e: Edits, f: Field)
    requires f in MEMORY_FIELDS
    ensures EditOf(e, Simple(f)) == MemoryValue(MemoryEdits(e), f)
  {
    hide OverlayMemory, OverlayCPU, MapOf;
    EditsOnNothing(e);
  }

  lemma CPUEdit(e: Edits, f: Field)
    requires f in CPU_FIELDS
    ensures EditOf(e, Simple(f)) == CPUValue(CPUEdits(e), f)
  {
    hide OverlayMemory, OverlayCPU, MapOf;
    EditsOnNothing(e);
    FieldsApart(f);
  }

  lemma OtherEdit(e: Edits)
    ensures EditOf(e, Simple(BlockioClass)) == StrValue(e.blockioClass)
    ensures EditOf(e, Simple(RdtClass)) == StrValue(e.rdtClass)
    ensures EditOf(e, Simple(PidsLimit)) == IntValue(e.pids)
  {
    hide OverlayMemory, OverlayCPU, MapOf;
    EditsOnNothing(e);
  }

  lemma EditsGiven(replies: seq<Reply>, i: nat)
    requires i < |replies|
    ensures ResourceSteps(replies)[i].plugin == replies[i].plugin
    ensures ResourceSteps(replies)[i].edits ==
            if replies[i].adjustment.linux.Some? && replies[i].adjustment.linux.value.resources.Some?
            then replies[i].adjustment.linux.value.resources.value
            else NO_EDITS
  {
  }

  /** What is traced for a key decides its field. */
  lemma FieldTraced<V(!new)>(get: Edits -> Option<V>, wrap: Option<V> -> Option<Value>, key: Key, replies: seq<Reply>,
                             original: Resources, s: Adjusting, o: Option<V>, r: Option<V>, v: Option<V>)
    requires Traced(original, s, ResourceSteps(replies)) && get(NO_EDITS) == None && wrap(None) == None
    requires forall x, y :: wrap(x) == wrap(y) ==> x == y
    requires forall e :: wrap(get(e)) == EditOf(e, key)
    requires wrap(o) == ValueOf(original, key) && wrap(r) == ValueOf(s.reply, key) && wrap(v) == ValueOf(s.view, key)
    ensures FieldDecided(get, replies, o, r, v, s.owners.Owner(key))
  {
    hide EditOf, ValueOf, Claims, AllClaims;
    var steps := ResourceSteps(replies);
    forall i | 0 <= i < |replies| && replies[i].adjustment.linux.Some? &&
               replies[i].adjustment.linux.value.resources.Some? &&
               get(replies[i].adjustment.linux.value.resources.value).Some?
      ensures r == get(replies[i].adjustment.linux.value.resources.value) && v == r
      ensures s.owners.Owner(key) == Some(replies[i].plugin)
    {
      EditsGiven(replies, i);
      assert wrap(get(steps[i].edits)) != wrap(None);
      ClaimsWhatItSets(steps[i].edits, key);
      assert SetBy(s, steps[i], key);
    }
    if forall i :: 0 <= i < |replies| && replies[i].adjustment.linux.Some? &&
                   replies[i].adjustment.linux.value.resources.Some? ==>
                     get(replies[i].adjustment.linux.value.resources.value).None? {
      if key in AllClaims(steps) {
        var i := ClaimedSomewhere(steps, key);
        EditsGiven(replies, i);
        ClaimsWhatItSets(steps[i].edits, key);
        assert false;
      }
      assert wrap(r) == wrap(None) && wrap(v) == wrap(o);
    }
  }

  lemma WrapsAreInjective()
    ensures forall x, y :: IntValue(x) == IntValue(y) ==> x == y
    ensures forall x, y :: BoolValue(x) == BoolValue(y) ==> x == y
    ensures forall x, y :: StrValue(x) == StrValue(y) ==> x == y
  {
  }

  lemma MemoryFieldDecided<V(!new)>(get: Memory -> Option<V>, wrap: Option<V> -> Option<Value>, f: Field,
                                    replies: seq<Reply>,
                                    original: Resources, s: Adjusting)
    requires Traced(original, s, ResourceSteps(replies)) && f in MEMORY_FIELDS
    requires get(NO_MEMORY) == None && wrap(None) == None && forall x, y :: wrap(x) == wrap(y) ==> x == y
    requires forall m :: wrap(get(m)) == MemoryValue(m, f)
    ensures MemoryField(get, replies, original.memory, s.reply.memory, s.view.memory, s.owners.Owner(Simple(f)))
  {
    hide EditOf, Traced, FieldDecided, MemoryValue;
    var ofEdits := (e: Edits) => if e.memory.Some? then get(e.memory.value) else None;
    forall e ensures wrap(ofEdits(e)) == EditOf(e, Simple(f)) {
      MemoryEdit(e, f);
    }
    FieldTraced(ofEdits, wrap, Simple(f), replies, original, s, get(original.memory), get(s.reply.memory),
                get(s.view.memory));
  }

  lemma CPUFieldDecided<V(!new)>(get: CPU -> Option<V>, wrap: Option<V> -> Option<Value>, f: Field, replies: seq<Reply>,
                                 original: Resources, s: Adjusting)
    requires Traced(original, s, ResourceSteps(replies)) && f in CPU_FIELDS
    requires get(NO_CPU) == None && wrap(None) == None && forall x, y :: wrap(x) == wrap(y) ==> x == y
    requires forall m :: wrap(get(m)) == CPUValue(m, f)
    ensures CPUField(get, replies, original.cpu, s.reply.cpu, s.view.cpu, s.owners.Owner(Simple(f)))
  {
    hide EditOf, Traced, FieldDecided, CPUValue;
    FieldsApart(f);
    var ofEdits := (e: Edits) => if e.cpu.Some? then get(e.cpu.value) else None;
    forall e ensures wrap(ofEdits(e)) == EditOf(e, Simple(f)) {
      CPUEdit(e, f);
    }
    FieldTraced(ofEdits, wrap, Simple(f), replies, original, s, get(original.cpu), get(s.reply.cpu), get(s.view.cpu));
  }

  lemma MemoryInt(get: Memory -> Option<int>, f: Field, replies: seq<Reply>, original: Resources, s: Adjusting)
    requires Traced(original, s, ResourceSteps(replies)) && f in MEMORY_FIELDS && get(NO_MEMORY) == None
    requires forall m :: IntValue(get(m)) == MemoryValue(m, f)
    ensures MemoryField(get, replies, original.memory, s.reply.memory, s.view.memory, s.owners.Owner(Simple(f)))
  {
    hide Traced, MemoryField, MemoryValue;
    WrapsAreInjective();
    MemoryFieldDecided(get, IntValue, f, replies, original, s);
  }

  lemma MemoryBool(get: Memory -> Option<bool>, f: Field, replies: seq<Reply>, original: Resources, s: Adjusting)
    requires Traced(original, s, ResourceSteps(replies)) && f in MEMORY_FIELDS && get(NO_MEMORY) == None
    requires forall m :: BoolValue(get(m)) == MemoryValue(m, f)
    ensures MemoryField(get, replies, original.memory, s.reply.memory, s.view.memory, s.owners.Owner(Simple(f)))
  {
    hide Traced, MemoryField, MemoryValue;
    WrapsAreInjective();
    MemoryFieldDecided(get, BoolValue, f, replies, original, s);
  }

  lemma CPUInt(get: CPU -> Option<int>, f: Field, replies: seq<Reply>, original: Resources, s: Adjusting)
    requires Traced(original, s, ResourceSteps(replies)) && f in CPU_FIELDS && get(NO_CPU) == None
    requires forall c :: IntValue(get(c)) == CPUValue(c, f)
    ensures CPUField(get, replies, original.cpu, s.reply.cpu, s.view.cpu, s.owners.Owner(Simple(f)))
  {
    hide Traced, CPUField, CPUValue;
    WrapsAreInjective();
    CPUFieldDecided(get, IntValue, f, replies, original, s);
  }

  lemma CPUSet(get: CPU -> Option<string>, f: Field, replies: seq<Reply>, original: Resources, s: Adjusting)
    requires Traced(original, s, ResourceSteps(replies)) && f in CPU_FIELDS && get(NO_CPU) == None
    requires forall c :: StrValue(get(c)) == CPUValue(c, f)
    ensures CPUField(get, replies, original.cpu, s.reply.cpu, s.view.cpu, s.owners.Owner(Simple(f)))
  {
    hide Traced, CPUField, CPUValue;
    WrapsAreInjective();
    CPUFieldDecided(get, StrValue, f, replies, original, s);
  }

  lemma FirstMemoryDecided(replies: seq<Reply>, original: Resources, s: Adjusting)
    requires Traced(original, s, ResourceSteps(replies))
    ensures var (o, r, v) := (original.memory, s.reply.memory, s.view.memory);
            && MemoryField((m: Memory) => m.limit, replies, o, r, v, s.owners.Owner(Simple(MemLimit)))
            && MemoryField((m: Memory) => m.reservation, replies, o, r, v, s.owners.Owner(Simple(MemReservation)))
            && MemoryField((m: Memory) => m.swap, replies, o, r, v, s.owners.Owner(Simple(MemSwapLimit)))
            && MemoryField((m: Memory) => m.kernel, replies, o, r, v, s.owners.Owner(Simple(MemKernelLimit)))
  {
    hide Traced, FieldDecided, ResourceSteps, MemoryField, CPUField;
    MemoryInt((m: Memory) => m.limit, MemLimit, replies, original, s);
    MemoryInt((m: Memory) => m.reservation, MemReservation, replies, original, s);
    MemoryInt((m: Memory) => m.swap, MemSwapLimit, replies, original, s);
    MemoryInt((m: Memory) => m.kernel, MemKernelLimit, replies, original, s);
  }

  lemma MoreMemoryDecided(replies: seq<Reply>, original: Resources, s: Adjusting)
    requires Traced(original, s, ResourceSteps(replies))
    ensures var (o, r, v) := (original.memory, s.reply.memory, s.view.memory);
            && MemoryField((m: Memory) => m.kernelTcp, replies, o, r, v, s.owners.Owner(Simple(MemTCPLimit)))
            && MemoryField((m: Memory) => m.swappiness, replies, o, r, v, s.owners.Owner(Simple(MemSwappiness)))
            && MemoryField((m: Memory) => m.disableOomKiller, replies, o, r, v,
                           s.owners.Owner(Simple(MemDisableOomKiller)))
            && MemoryField((m: Memory) => m.useHierarchy, replies, o, r, v, s.owners.Owner(Simple(MemUseHierarchy)))
  {
    hide Traced, FieldDecided, ResourceSteps, MemoryField, CPUField;
    MemoryInt((m: Memory) => m.kernelTcp, MemTCPLimit, replies, original, s);
    MemoryInt((m: Memory) => m.swappiness, MemSwappiness, replies, original, s);
    MemoryBool((m: Memory) => m.disableOomKiller, MemDisableOomKiller, replies, original, s);
    MemoryBool((m: Memory) => m.useHierarchy, MemUseHierarchy, replies, original, s);
  }

  lemma MemoryIsDecided(replies: seq<Reply>, original: Resources, s: Adjusting)
    requires Traced(original, s, ResourceSteps(replies))
    ensures MemoryDecided(replies, original.memory, s.reply.memory, s.view.memory, s.owners)
  {
    hide Traced, ResourceSteps, MemoryField;
    FirstMemoryDecided(replies, original, s);
    MoreMemoryDecided(replies, original, s);
  }

  lemma FirstCPUDecided(replies: seq<Reply>, original: Resources, s: Adjusting)
    requires Traced(original, s, ResourceSteps(replies))
    ensures var (o, r, v) := (original.cpu, s.reply.cpu, s.view.cpu);
            && CPUField((c: CPU) => c.shares, replies, o, r, v, s.owners.Owner(Simple(CPUShares)))
            && CPUField((c: CPU) => c.quota, replies, o, r, v, s.owners.Owner(Simple(CPUQuota)))
            && CPUField((c: CPU) => c.period, replies, o, r, v, s.owners.Owner(Simple(CPUPeriod)))
            && CPUField((c: CPU) => c.realtimeRuntime, replies, o, r, v, s.owners.Owner(Simple(CPURealtimeRuntime)))
  {
    hide Traced, FieldDecided, ResourceSteps, MemoryField, CPUField;
    CPUInt((c: CPU) => c.shares, CPUShares, replies, original, s);
    CPUInt((c: CPU) => c.quota, CPUQuota, replies, original, s);
    CPUInt((c: CPU) => c.period, CPUPeriod, replies, original, s);
    CPUInt((c: CPU) => c.realtimeRuntime, CPURealtimeRuntime, replies, original, s);
  }

  lemma MoreCPUDecided(replies: seq<Reply>, original: Resources, s: Adjusting)
    requires Traced(original, s, ResourceSteps(replies))
    ensures var (o, r, v) := (original.cpu, s.reply.cpu, s.view.cpu);
            && CPUField((c: CPU) => c.realtimePeriod, replies, o, r, v, s.owners.Owner(Simple(CPURealtimePeriod)))
            && CPUField((c: CPU) => SetOf(c.cpus), replies, o, r, v, s.owners.Owner(Simple(CPUSetCPUs)))
            && CPUField((c: CPU) => SetOf(c.mems), replies, o, r, v, s.owners.Owner(Simple(CPUSetMems)))
  {
    hide Traced, FieldDecided, ResourceSteps, MemoryField, CPUField;
    CPUInt((c: CPU) => c.realtimePeriod, CPURealtimePeriod, replies, original, s);
    CPUSet((c: CPU) => SetOf(c.cpus), CPUSetCPUs, replies, original, s);
    CPUSet((c: CPU) => SetOf(c.mems), CPUSetMems, replies, original, s);
  }

  lemma CPUIsDecided(replies: seq<Reply>, original: Resources, s: Adjusting)
    requires Traced(original, s, ResourceSteps(replies))
    ensures CPUDecided(replies, original.cpu, s.reply.cpu, s.view.cpu, s.owners)
  {
    hide Traced, ResourceSteps, CPUField;
    FirstCPUDecided(replies, original, s);
    MoreCPUDecided(replies, original, s);
  }

  lemma BlockioIsDecided(replies: seq<Reply>, original: Resources, s: Adjusting)
    requires Traced(original, s, ResourceSteps(replies))
    ensures FieldDecided((e: Edits) => e.blockioClass, replies, original.blockioClass, s.reply.blockioClass,
                         s.view.blockioClass, s.owners.Owner(Simple(BlockioClass)))
  {
    hide EditOf, Traced, FieldDecided, ResourceSteps;
    WrapsAreInjective();
    forall e ensures StrValue(((e: Edits) => e.blockioClass)(e)) == EditOf(e, Simple(BlockioClass)) {
      OtherEdit(e);
    }
    FieldTraced((e: Edits) => e.blockioClass, StrValue, Simple(BlockioClass), replies, original, s,
                original.blockioClass, s.reply.blockioClass, s.view.blockioClass);
  }

  lemma RdtIsDecided(replies: seq<Reply>, original: Resources, s: Adjusting)
    requires Traced(original, s, ResourceSteps(replies))
    ensures FieldDecided((e: Edits) => e.rdtClass, replies, original.rdtClass, s.reply.rdtClass,
                         s.view.rdtClass, s.owners.Owner(Simple(RdtClass)))
  {
    hide EditOf, Traced, FieldDecided, ResourceSteps;
    WrapsAreInjective();
    forall e ensures StrValue(((e: Edits) => e.rdtClass)(e)) == EditOf(e, Simple(RdtClass)) {
      OtherEdit(e);
    }
    FieldTraced((e: Edits) => e.rdtClass, StrValue, Simple(RdtClass), replies, original, s,
                original.rdtClass, s.reply.rdtClass, s.view.rdtClass);
  }

  lemma PidsIsDecided(replies: seq<Reply>, original: Resources, s: Adjusting)
    requires Traced(original, s, ResourceSteps(replies))
    ensures FieldDecided((e: Edits) => e.pids, replies, original.pids, s.reply.pids,
                         s.view.pids, s.owners.Owner(Simple(PidsLimit)))
  {
    hide EditOf, Traced, FieldDecided, ResourceSteps;
    WrapsAreInjective();
    forall e ensures IntValue(((e: Edits) => e.pids)(e)) == EditOf(e, Simple(PidsLimit)) {
      OtherEdit(e);
    }
    FieldTraced((e: Edits) => e.pids, IntValue, Simple(PidsLimit), replies, original, s,
                original.pids, s.reply.pids, s.view.pids);
  }

  lemma OthersAreDecided(replies: seq<Reply>, original: Resources, s: Adjusting)
    requires Traced(original, s, ResourceSteps(replies))
    ensures OthersDecided(replies, original, s.reply, s.view, s.owners)
  {
    hide Traced, FieldDecided, ResourceSteps;
    BlockioIsDecided(replies, original, s);
    RdtIsDecided(replies, original, s);
    PidsIsDecided(replies, original, s);
  }

  // ----- lists of resources -----

  function LimitsOf(step: ResourceStep): seq<Hugepage> { step.edits.hugepages }
  function RulesOf(step: ResourceStep): seq<DeviceRule> { step.edits.devices }
  function SettingsIn(step: ResourceStep): seq<Entry<string>> { step.edits.unified }

  /** Folding the lists of resources is putting them one after the other. */
  ghost predicate ListsFolded(steps: seq<ResourceStep>, original: Resources, s: Adjusting) {
    && s.reply.hugepages == FlatMap(LimitsOf, steps) &&
       s.view.hugepages == original.hugepages + FlatMap(LimitsOf, steps)
    && s.reply.devices == FlatMap(RulesOf, steps) && s.view.devices == original.devices + FlatMap(RulesOf, steps)
    && s.reply.unified == MapOf(FlatMap(SettingsIn, steps))
    && s.view.unified == original.unified + MapOf(FlatMap(SettingsIn, steps))
  }

  lemma ListsFoldedNext(front: seq<ResourceStep>, last: ResourceStep, original: Resources, s: Adjusting)
    requires ListsFolded(front, original, s) && MergeResources(s, last).Some?
    ensures ListsFolded(front + [last], original, MergeResources(s, last).value)
  {
    hide MapOf, OverlayMemory, OverlayCPU, FlatMap, Claims;
    FlatMapSnoc(LimitsOf, front, last);
    FlatMapSnoc(RulesOf, front, last);
    FlatMapSnoc(SettingsIn, front, last);
    MapOfConcat(FlatMap(SettingsIn, front), last.edits.unified);
  }

  lemma {:induction false} RunFoldsLists(original: Resources, steps: seq<ResourceStep>)
    requires RunResources(StartResources(original), steps).Some?
    ensures ListsFolded(steps, original, RunResources(StartResources(original), steps).value)
  {
    hide MergeResources, ListsFolded;
    if steps == [] {
      NothingFolded(original);
    } else {
      var front, last := steps[..|steps| - 1], steps[|steps| - 1];
      RunFoldsLists(original, front);
      ListsFoldedNext(front, last, original, RunResources(StartResources(original), front).value);
      assert front + [last] == steps;
    }
  }

  lemma NothingFolded(original: Resources)
    ensures ListsFolded([], original, StartResources(original))
  {
    assert original.unified + map[] == original.unified;
  }

  lemma {:induction false} FlatMapOfReplies<V>(replies: seq<Reply>, f: ResourceStep -> seq<V>, get: Edits -> seq<V>)
    requires forall step :: f(step) == get(step.edits)
    requires get(NO_EDITS) == []
    ensures FlatMap(f, ResourceSteps(replies)) == AllOf(get, replies)
  {
    if replies != [] {
      var front := replies[..|replies| - 1];
      FlatMapOfReplies(front, f, get);
      EditsGiven(replies, |replies| - 1);
      assert ResourceSteps(replies)[..|replies| - 1] == ResourceSteps(front);
    }
  }

  lemma EntryOwned(replies: seq<Reply>, original: Resources, s: Adjusting, i: nat, key: Key)
    requires Traced(original, s, ResourceSteps(replies)) && i < |replies|
    requires EditOf(ResourceSteps(replies)[i].edits, key).Some?
    ensures s.owners.Owner(key) == Some(replies[i].plugin)
  {
    hide EditOf, ValueOf, Claims, AllClaims;
    EditsGiven(replies, i);
    ClaimsWhatItSets(ResourceSteps(replies)[i].edits, key);
    assert SetBy(s, ResourceSteps(replies)[i], key);
  }

  lemma EntryGiven(e: Edits)
    ensures forall h :: h in e.hugepages ==> EditOf(e, Compound(HugepageLimits, h.key)).Some?
    ensures forall u :: u in e.unified ==> EditOf(e, Compound(CgroupsUnified, u.key)).Some?
  {
    hide MapOf, OverlayMemory, OverlayCPU;
    EditsOnNothing(e);
    MapOfKeys(e.hugepages);
    MapOfKeys(e.unified);
  }

  lemma ListsAreDecided(replies: seq<Reply>, original: Resources, s: Adjusting)
    requires Traced(original, s, ResourceSteps(replies)) && ListsFolded(ResourceSteps(replies), original, s)
    ensures ListsDecided(replies, original, s.reply, s.view, s.owners)
  {
    hide Traced, EditOf, FlatMap, AllOf, MapOf, ResourceSteps;
    FlatMapOfReplies(replies, LimitsOf, (e: Edits) => e.hugepages);
    FlatMapOfReplies(replies, RulesOf, (e: Edits) => e.devices);
    FlatMapOfReplies(replies, SettingsIn, (e: Edits) => e.unified);
    forall i | 0 <= i < |replies| && replies[i].adjustment.linux.Some? &&
               replies[i].adjustment.linux.value.resources.Some?
      ensures var e := replies[i].adjustment.linux.value.resources.value;
              (forall h :: h in e.hugepages ==>
                             s.owners.Owner(Compound(HugepageLimits, h.key)) == Some(replies[i].plugin)) &&
              (forall u :: u in e.unified ==>
                             s.owners.Owner(Compound(CgroupsUnified, u.key)) == Some(replies[i].plugin))
    {
      var e := replies[i].adjustment.linux.value.resources.value;
      EditsGiven(replies, i);
      EntryGiven(e);
      forall h | h in e.hugepages ensures s.owners.Owner(Compound(HugepageLimits, h.key)) == Some(replies[i].plugin) {
        EntryOwned(replies, original, s, i, Compound(HugepageLimits, h.key));
      }
      forall u | u in e.unified ensures s.owners.Owner(Compound(CgroupsUnified, u.key)) == Some(replies[i].plugin) {
        EntryOwned(replies, original, s, i, Compound(CgroupsUnified, u.key));
      }
    }
  }

  lemma RunResourcesDecided(replies: seq<Reply>, original: Resources)
    requires OrdinaryNames(ResourceSteps(replies)) &&
             RunResources(StartResources(original), ResourceSteps(replies)).Some?
    ensures ResourcesDecided(replies, original, RunResources(StartResources(original), ResourceSteps(replies)).value)
  {
    hide Traced, ListsFolded, MemoryDecided, CPUDecided, OthersDecided, ListsDecided, RunResources, AllClaims, Distinct;
    var s := RunResources(StartResources(original), ResourceSteps(replies)).value;
    RunTraced(original, ResourceSteps(replies));
    RunFoldsLists(original, ResourceSteps(replies));
    MemoryIsDecided(replies, original, s);
    CPUIsDecided(replies, original, s);
    OthersAreDecided(replies, original, s);
    ListsAreDecided(replies, original, s);
  }

  // ---------------------------------------------------------------- whole creations

  /**
    What an accepted creation holds. For mounts, variables and devices: a setting stands, with its
    plugin as the owner, if no later reply touches its key, and so does a removal; what nobody touches is
    as it was; nothing else is collected. Each namespace entry and each field of the resources stands.
   */
  lemma CreationHolds(o: Original, replies: seq<Reply>, c: Creation)
    requires ProperReplies(replies) && (forall i :: 0 <= i < |replies| ==> Splittable(Added(replies[i].adjustment.env)))
    requires RunCreate(StartCreate(o), replies) == Some(c)
    ensures var names := seq(|replies|, i requires 0 <= i < |replies| => replies[i].plugin);
            && Decided(true, o.mounts, c.mounts, names,
                       seq(|replies|, i requires 0 <= i < |replies| => replies[i].adjustment.mounts))
            && Decided(false, ParsedEnv(o.env), Parsed(c.env), names,
                       seq(|replies|, i requires 0 <= i < |replies| => replies[i].adjustment.env))
            && StringsStand(o.env, c.env.view,
                            seq(|replies|, i requires 0 <= i < |replies| => replies[i].adjustment.env))
            && Decided(false, o.devices, c.devices, names,
                       seq(|replies|, i requires 0 <= i < |replies| =>
                         if replies[i].adjustment.linux.Some? then replies[i].adjustment.linux.value.devices else []))
            && NamespacesStand(o.namespaces, c.namespaces, names,
                               seq(|replies|, i requires 0 <= i < |replies| =>
                                 if replies[i].adjustment.linux.Some?
                                 then replies[i].adjustment.linux.value.namespaces else []))
            && ResourcesDecided(replies, o.resources, c.resources)
  {
    hide Decided, StringsStand, NamespacesStand, ResourcesDecided, Run, RunEnv, RunResources, RunNamespaces,
      RunCreate, IsOrderOf;
    KindsAreIndependent(StartCreate(o), replies);
    var names := seq(|replies|, i requires 0 <= i < |replies| => replies[i].plugin);
    assert PluginsOf(MountSteps(replies)) == names && PluginsOf(EnvSteps(replies)) == names;
    assert PluginsOf(DeviceSteps(replies)) == names && NamespacePlugins(NamespaceSteps(replies)) == names;
    assert ItemsOf(MountSteps(replies)) ==
           seq(|replies|, i requires 0 <= i < |replies| => replies[i].adjustment.mounts);
    assert ItemsOf(EnvSteps(replies)) == seq(|replies|, i requires 0 <= i < |replies| => replies[i].adjustment.env);
    assert ItemsOf(DeviceSteps(replies)) ==
           seq(|replies|, i requires 0 <= i < |replies| =>
             if replies[i].adjustment.linux.Some? then replies[i].adjustment.linux.value.devices else []);
    assert NamespaceItems(NamespaceSteps(replies)) ==
           seq(|replies|, i requires 0 <= i < |replies| =>
             if replies[i].adjustment.linux.Some? then replies[i].adjustment.linux.value.namespaces else []);
    RunDecided(true, o.mounts, MountSteps(replies));
    RunEnvParsed(o.env, EnvSteps(replies));
    RunDecided(false, ParsedEnv(o.env), EnvSteps(replies));
    RunStrings(o.env, EnvSteps(replies));
    RunDecided(false, o.devices, DeviceSteps(replies));
    RunNamespacesStand(o.namespaces, NamespaceSteps(replies));
    RunResourcesDecided(replies, o.resources);
  }
}
