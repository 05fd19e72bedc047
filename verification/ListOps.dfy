/** The loops that folding mounts, devices and environment variables have in common. */
module ListOps {
  import opened Prelude
  import opened Markers
  import opened Owners
  import opened KeyedLists
  import opened ListMerge

  /** All records but those of one compound field are the same. */
  ghost predicate OnlyEntries(before: FieldOwners, after: FieldOwners, field: Field) {
    before.simple == after.simple && before.compound - {field} == after.compound - {field}
  }

  lemma OtherEntriesKept(before: FieldOwners, after: FieldOwners, field: Field)
    requires OnlyEntries(before, after, field)
    ensures forall f :: f != field ==> after.Entries(f) == before.Entries(f)
  {
    forall f | f != field ensures after.Entries(f) == before.Entries(f) {
      assert f in after.compound <==> f in after.compound - {field};
      assert f in before.compound <==> f in before.compound - {field};
      if f in after.compound {
        assert (after.compound - {field})[f] == (before.compound - {field})[f];
      }
    }
  }

  /** Separates removals from settings. */
  method Split<T>(items: seq<Entry<T>>) returns (add: seq<Entry<T>>, del: map<string, Entry<T>>, mod: set<string>)
    ensures add == Added(items) && del == RemovalMap(items) && mod == KeysOf(add)
  {
    add, del, mod := [], map[], {};
    for i := 0 to |items|
      invariant add == Added(items[..i]) && del == RemovalMap(items[..i]) && mod == KeysOf(add)
    {
      var m := items[i];
      assert items[..i + 1][..i] == items[..i];
      var (key, marked) := IsMarkedForRemoval(m.key);
      if marked {
        del := del[key := m];
      } else {
        MarkerRoundTrip(m.key);
        KeysOfSnoc(add, m);
        add := add + [m];
        mod := mod + {key};
      }
    }
    assert items[..|items|] == items;
  }

  /** Keeps the entries that are neither removed nor modified. */
  method Keep<T>(s: seq<Entry<T>>, del: set<string>, mod: set<string>) returns (cleared: seq<Entry<T>>)
    ensures cleared == Without(s, del + mod)
  {
    cleared := [];
    for i := 0 to |s|
      invariant cleared == Without(s[..i], del + mod)
    {
      assert s[..i + 1][..i] == s[..i];
      if s[i].key !in del && s[i].key !in mod {
        cleared := cleared + [s[i]];
      }
    }
    assert s[..|s|] == s;
  }

  /** Drops collected entries that are removed, clearing their records. */
  method ClearCollected<T>(owners: OwningPlugins, id: string, field: Field, s: seq<Entry<T>>, del: set<string>,
                           plugin: string)
    returns (cleared: seq<Entry<T>>)
    modifies owners
    ensures cleared == Without(s, del)
    ensures owners.Others(id) == old(owners.Others(id))
    ensures OnlyEntries(old(owners.For(id)), owners.For(id), field)
    ensures owners.For(id).Entries(field) == Cleared(old(owners.For(id).Entries(field)), s, del, plugin)
  {
    cleared := [];
    ghost var own := owners.For(id).Entries(field);
    assert OnlyEntries(owners.For(id), owners.For(id), field);
    hide OnlyEntries, FieldOwners.Put, FieldOwners.Entries;
    for i := 0 to |s|
      invariant cleared == Without(s[..i], del)
      invariant owners.Others(id) == old(owners.Others(id))
      invariant OnlyEntries(old(owners.For(id)), owners.For(id), field)
      invariant owners.For(id).Entries(field) == Cleared(own, s[..i], del, plugin)
    {
      assert s[..i + 1] == s[..i] + [s[i]] && s[..i + 1][..i] == s[..i];
      ClearedSnoc(own, s[..i], s[i], del, plugin);
      if s[i].key in del {
        PutKeepsOthers(old(owners.For(id)), owners.For(id), field, s[i].key, MarkForRemoval(plugin));
        owners.ClearCompound(id, field, s[i].key, plugin);
        continue;
      }
      cleared := cleared + [s[i]];
    }
    assert s[..|s|] == s;
  }

  lemma PutKeepsOthers(before: FieldOwners, o: FieldOwners, field: Field, entry: string, v: string)
    requires OnlyEntries(before, o, field)
    ensures OnlyEntries(before, o.Put(Compound(field, entry), v), field)
    ensures o.Put(Compound(field, entry), v).Entries(field) == o.Entries(field)[entry := v]
  {
  }

  lemma ClearedSnoc<T>(own: map<string, string>, s: seq<Entry<T>>, e: Entry<T>, del: set<string>, plugin: string)
    ensures Cleared(own, s + [e], del, plugin) ==
            if e.key in del then Cleared(own, s, del, plugin)[e.key := MarkForRemoval(plugin)]
            else Cleared(own, s, del, plugin)
  {
    KeysOfSnoc(s, e);
    assert (KeysOf(s) + {e.key}) * del == if e.key in del then (KeysOf(s) * del) + {e.key} else KeysOf(s) * del;
  }

  /** Claims the settings one by one, collecting each as it is claimed. */
  method ClaimCollected<T>(owners: OwningPlugins, id: string, field: Field, s: seq<Entry<T>>, add: seq<Entry<T>>,
                           plugin: string)
    returns (ok: bool, collected: seq<Entry<T>>)
    modifies owners
    ensures owners.Others(id) == old(owners.Others(id))
    ensures OnlyEntries(old(owners.For(id)), owners.For(id), field)
    ensures var own := Claimed(old(owners.For(id).Entries(field)), add, plugin);
            ok == own.Some? && (ok ==> owners.For(id).Entries(field) == own.value && collected == s + add)
  {
    collected := s;
    ghost var all := Claimed(owners.For(id).Entries(field), add, plugin);
    assert add[0..] == add;
    for i := 0 to |add|
      invariant owners.Others(id) == old(owners.Others(id))
      invariant OnlyEntries(old(owners.For(id)), owners.For(id), field)
      invariant all == Claimed(owners.For(id).Entries(field), add[i..], plugin)
      invariant collected == s + add[..i]
    {
      assert add[i..][1..] == add[i + 1..];
      var other := owners.ClaimCompound(id, field, add[i].key, plugin);
      if other.Some? {
        return false, collected;
      }
      collected := collected + [add[i]];
    }
    ok := true;
  }
}
