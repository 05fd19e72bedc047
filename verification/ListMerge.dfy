/**
  Folding one plugin's mounts, devices or environment variables into the collected reply
  and into the container view, and what the two have in common after any number of plugins.
 */
module ListMerge {
  import opened Prelude
  import opened Markers
  import opened Owners
  import opened KeyedLists

  /** One kind of list during container creation, with the ownership records of that kind. */
  datatype Lists<T> = Lists(own: map<string, string>, reply: seq<Entry<T>>, view: seq<Entry<T>>)

  /** One plugin's reply. "order" is the order in which its removals are iterated. */
  datatype Step<T> = Step(plugin: string, items: seq<Entry<T>>, order: seq<string>)

  /** The keys are listed in some order, each once. */
  ghost predicate IsOrderOf(order: seq<string>, keys: set<string>) {
    Distinct(order) && forall k :: k in order <==> k in keys
  }

  ghost predicate ValidStep<T>(recorded: bool, step: Step<T>) {
    !Marked(step.plugin) && (recorded ==> IsOrderOf(step.order, RemovedKeys(step.items)))
  }

  /** The records once the plugin has cleared those of the collected entries it removes. */
  function Cleared<T>(own: map<string, string>, reply: seq<Entry<T>>, del: set<string>,
                      plugin: string): map<string, string> {
    own + map k | k in KeysOf(reply) * del :: MarkForRemoval(plugin)
  }

  /** The records once the plugin has claimed every key, or nothing if one of them conflicts. */
  function Claimed<T>(own: map<string, string>, add: seq<Entry<T>>, plugin: string): Option<map<string, string>>
    decreases add
  {
    if add == [] then Some(own)
    else if Conflict(Lookup(own, add[0].key), plugin).Some? then None
    else Claimed(own[add[0].key := plugin], add[1..], plugin)
  }

  /** The removals for which the reply sets nothing, in iteration order. */
  function Orphans<T>(items: seq<Entry<T>>, order: seq<string>): seq<Entry<T>> {
    if order == [] then []
    else
      var front, k := Orphans(items, order[..|order| - 1]), order[|order| - 1];
      if k in RemovalMap(items) && k !in KeysOf(Added(items)) then front + [RemovalMap(items)[k]] else front
  }

  /**
    The fold. "recorded" tells whether removals that come without a setting are passed on in
    the reply: they are for mounts, but not for devices and environment variables.
   */
  function Merge<T>(recorded: bool, s: Lists<T>, step: Step<T>): Option<Lists<T>> {
    var add, del := Added(step.items), RemovedKeys(step.items);
    match Claimed(Cleared(s.own, s.reply, del, step.plugin), add, step.plugin)
    case None => None
    case Some(own) =>
      var kept := Without(s.reply, del) + add;
      Some(Lists(own,
                 if recorded then kept + Orphans(step.items, step.order) else kept,
                 Without(s.view, del + KeysOf(add)) + add))
  }

  /** All plugins in turn; the request is over at the first conflict. */
  function Run<T>(recorded: bool, s: Lists<T>, steps: seq<Step<T>>): Option<Lists<T>> {
    if steps == [] then Some(s)
    else
      match Run(recorded, s, steps[..|steps| - 1])
      case None => None
      case Some(s') => Merge(recorded, s', steps[|steps| - 1])
  }

  function Start<T>(original: seq<Entry<T>>): Lists<T> {
    Lists(map[], [], original)
  }

  /**
    What the plugins asked for, without regard to owners, values or order: the keys whose
    removal stands recorded in the reply, and the keys the view has lost and not got back.
   */
  datatype Book = Book(recorded: set<string>, gone: set<string>)

  function BookAfter<T>(recorded: bool, b: Book, step: Step<T>): Book {
    var mod, del := KeysOf(Added(step.items)), RemovedKeys(step.items);
    Book(if recorded then (set x | x in b.recorded && MarkForRemoval(x) !in del) + (del - mod) else b.recorded,
         (b.gone + del) - mod)
  }

  function BookOf<T>(recorded: bool, steps: seq<Step<T>>): Book {
    if steps == [] then Book({}, {})
    else BookAfter(recorded, BookOf(recorded, steps[..|steps| - 1]), steps[|steps| - 1])
  }

  /** The keys the view has lost although the reply does not say so. */
  function Lost<T>(recorded: bool, steps: seq<Step<T>>): set<string> {
    var b := BookOf(recorded, steps);
    b.gone - b.recorded
  }

  ghost predicate Coherent<T>(original: map<string, T>, s: Lists<T>, b: Book) {
    && Settled(s.reply)
    && RemovedKeys(s.reply) == b.recorded
    && MapOf(s.view) == (original - b.gone) + MapOf(Added(s.reply))
    && b.gone !! KeysOf(Added(s.reply))
    && b.recorded <= b.gone + KeysOf(Added(s.reply))
  }

  /** The reply sets a key exactly when the latest record of the key is a claim. */
  ghost predicate OwnersMatch<T>(s: Lists<T>) {
    forall k :: k in KeysOf(Added(s.reply)) <==> k in s.own && !Marked(s.own[k])
  }

  lemma ClearedMatches<T>(s: Lists<T>, del: set<string>, plugin: string)
    requires OwnersMatch(s)
    ensures var s' := Lists(Cleared(s.own, s.reply, del, plugin), Without(s.reply, del), s.view); OwnersMatch(s')
    ensures var own := Cleared(s.own, s.reply, del, plugin);
            forall k :: k in own && own[k] != MarkForRemoval(plugin) ==> k in s.own && own[k] == s.own[k]
  {
    var own := Cleared(s.own, s.reply, del, plugin);
    AddedWithout(s.reply, del);
    MapOfWithout(Added(s.reply), del);
    AddedSubset(s.reply);
    MarkerRoundTrip(plugin);
  }

  lemma {:induction false} AddedSubset<T>(s: seq<Entry<T>>)
    ensures KeysOf(Added(s)) <= KeysOf(s)
  {
    if s != [] {
      var front, last := s[..|s| - 1], s[|s| - 1];
      AddedSubset(front);
      KeysOfConcat(front, [last]);
      assert front + [last] == s;
      KeysOfConcat(Added(front), [last]);
    }
  }

  /** Claiming all keys makes the plugin their owner; none was owned, and none occurs twice. */
  lemma {:induction false} ClaimedOwns<T>(own: map<string, string>, add: seq<Entry<T>>, plugin: string)
    requires !Marked(plugin)
    requires Claimed(own, add, plugin).Some?
    ensures Claimed(own, add, plugin).value == own + map k | k in KeysOf(add) :: plugin
    ensures forall k :: k in KeysOf(add) && k in own ==> Marked(own[k])
    ensures DistinctKeys(add)
    decreases add
  {
    hide KeysOf, DistinctKeys;
    if add == [] {
      NoKeys(add);
    } else {
      KeysHead(add);
      ClaimedOwns(own[add[0].key := plugin], add[1..], plugin);
    }
  }

  /** A list that only sets distinct keys is settled. */
  lemma {:induction false} SettledDistinct<T>(add: seq<Entry<T>>)
    requires forall i :: 0 <= i < |add| ==> !Marked(add[i].key)
    requires DistinctKeys(add)
    ensures Settled(add) && Added(add) == add
  {
    if add != [] {
      SettledDistinct(add[..|add| - 1]);
      MarkerRoundTrip(add[|add| - 1].key);
    }
  }

  lemma {:induction false} RemovalMapEntries<T>(items: seq<Entry<T>>)
    ensures forall k :: k in RemovalMap(items) ==> RemovalMap(items)[k].key == MarkForRemoval(k)
  {
    if items != [] {
      RemovalMapEntries(items[..|items| - 1]);
      MarkerRoundTrip(items[|items| - 1].key);
    }
  }

  /** The entries remove the keys and do nothing else. */
  ghost predicate Removals<T>(r: seq<Entry<T>>, keys: set<string>) {
    Added(r) == [] && Settled(r) && RemovedKeys(r) == keys && forall i :: 0 <= i < |r| ==> Bare(r[i].key) in keys
  }

  lemma {:induction false} OrphansRemove<T>(items: seq<Entry<T>>, order: seq<string>)
    ensures Removals(Orphans(items, order), set k | k in order && k in RemovedKeys(items) && k !in KeysOf(Added(items)))
  {
    hide Removals, RemovalMap, Added, KeysOf;
    if order == [] {
      NoRemovals<T>();
      assert (set k | k in order && k in RemovedKeys(items) && k !in KeysOf(Added(items))) == {};
    } else {
      var front, k := order[..|order| - 1], order[|order| - 1];
      var keys := set x | x in front && x in RemovedKeys(items) && x !in KeysOf(Added(items));
      OrphansRemove(items, front);
      assert order == front + [k] && forall x :: x in order <==> x in front || x == k;
      if k in RemovalMap(items) && k !in KeysOf(Added(items)) {
        RemovalMapEntries(items);
        OneMoreRemoval(Orphans(items, front), RemovalMap(items)[k], k, keys);
        assert (set x | x in order && x in RemovedKeys(items) && x !in KeysOf(Added(items))) == keys + {k};
      } else {
        assert (set x | x in order && x in RemovedKeys(items) && x !in KeysOf(Added(items))) == keys;
      }
    }
  }

  lemma NoRemovals<T>()
    ensures Removals<T>([], {})
  {
  }

  lemma OneMoreRemoval<T>(r: seq<Entry<T>>, e: Entry<T>, k: string, keys: set<string>)
    requires Removals(r, keys) && e.key == MarkForRemoval(k)
    ensures Removals(r + [e], keys + {k})
  {
    MarkerRoundTrip(k);
    AddedSnoc(r, e);
    SettledSnoc(r, e);
  }

  lemma SettledSnoc<T>(s: seq<Entry<T>>, e: Entry<T>)
    ensures Settled(s + [e]) <==> Settled(s) && Bare(e.key) !in KeysOf(Added(s))
  {
    assert (s + [e])[..|s|] == s;
  }

  /** After claims have been granted and their settings collected, records and reply still match. */
  lemma ClaimedMatches<T>(s: Lists<T>, add: seq<Entry<T>>, plugin: string, view: seq<Entry<T>>)
    requires OwnersMatch(s) && !Marked(plugin) && Added(add) == add && Claimed(s.own, add, plugin).Some?
    ensures var after := Claimed(s.own, add, plugin).value;
            && OwnersMatch(Lists(after, s.reply + add, view))
            && forall k :: k in KeysOf(add) ==> k in after && after[k] == plugin
    ensures DistinctKeys(add) && KeysOf(add) !! KeysOf(Added(s.reply))
  {
    hide Claimed, Added, KeysOf, DistinctKeys;
    ClaimedOwns(s.own, add, plugin);
    AddedConcat(s.reply, add);
    KeysOfConcat(Added(s.reply), add);
  }

  lemma ViewKept<T>(view: seq<Entry<T>>, drop: set<string>, add: seq<Entry<T>>)
    ensures MapOf(Without(view, drop) + add) == (MapOf(view) - drop) + MapOf(add)
  {
    hide MapOf, Without;
    MapOfWithout(view, drop);
    MapOfConcat(Without(view, drop), add);
  }

  /** The part of a reply that stays, and what a plugin adds to it. */
  lemma ReplyKept<T>(reply: seq<Entry<T>>, del: set<string>, add: seq<Entry<T>>)
    requires Settled(reply) && Added(add) == add && RemovedKeys(add) == {} && Settled(add)
    requires (forall e :: e in add ==> !Marked(e.key)) && KeysOf(add) !! KeysOf(Added(Without(reply, del)))
    ensures var r := Without(reply, del) + add;
            && Settled(r) && MapOf(Added(r)) == (MapOf(Added(reply)) - del) + MapOf(add)
            && RemovedKeys(r) == (set x | x in RemovedKeys(reply) && MarkForRemoval(x) !in del)
  {
    hide MapOf, Without, Settled, Added, RemovedKeys;
    var left := Without(reply, del);
    SettledWithout(reply, del);
    AddedWithout(reply, del);
    ViewKept(Added(reply), del, add);
    forall i | 0 <= i < |add| ensures Bare(add[i].key) !in KeysOf(Added(left)) {
      MarkerRoundTrip(add[i].key);
      KeyAt(add, i);
    }
    SettledConcat(left, add);
    AddedConcat(left, add);
  }

  /** The part of the fold that does not depend on whether removals are passed on. */
  lemma MergeKept<T>(s: Lists<T>, step: Step<T>)
    requires !Marked(step.plugin) && Settled(s.reply) && OwnersMatch(s)
    requires Merge(false, s, step).Some?
    ensures var s' := Merge(false, s, step).value;
            var add, del := Added(step.items), RemovedKeys(step.items);
            && Settled(s'.reply) && OwnersMatch(s')
            && MapOf(Added(s'.reply)) == (MapOf(Added(s.reply)) - del) + MapOf(add)
            && RemovedKeys(s'.reply) == (set x | x in RemovedKeys(s.reply) && MarkForRemoval(x) !in del)
            && MapOf(s'.view) == (MapOf(s.view) - (del + KeysOf(add))) + MapOf(add)
            && forall k :: k in KeysOf(add) ==> k in s'.own && s'.own[k] == step.plugin
  {
    hide Without, MapOf, KeysOf, Cleared, Claimed, DistinctKeys, Settled, OwnersMatch, Added, RemovedKeys;
    var add, del := Added(step.items), RemovedKeys(step.items);
    var own := Cleared(s.own, s.reply, del, step.plugin);
    ClearedMatches(s, del, step.plugin);
    AddedUnmarked(step.items);
    var view := Without(s.view, del + KeysOf(add)) + add;
    ClaimedMatches(Lists(own, Without(s.reply, del), s.view), add, step.plugin, view);
    var after := Claimed(own, add, step.plugin).value;
    assert Merge(false, s, step).value == Lists(after, Without(s.reply, del) + add, view);
    SettledDistinct(add);
    ReplyKept(s.reply, del, add);
    ViewKept(s.view, del + KeysOf(add), add);
  }

  /** Passing on the removals adds them to what the reply removes and changes nothing it sets. */
  lemma MergeRecorded<T>(s: Lists<T>, step: Step<T>)
    requires ValidStep(true, step) && Settled(s.reply) && OwnersMatch(s)
    requires Merge(true, s, step).Some?
    ensures Merge(false, s, step).Some?
    ensures var kept, s' := Merge(false, s, step).value, Merge(true, s, step).value;
            && Settled(s'.reply) && s'.own == kept.own && s'.view == kept.view
            && Added(s'.reply) == Added(kept.reply)
            && RemovedKeys(s'.reply) == RemovedKeys(kept.reply) + (RemovedKeys(step.items) - KeysOf(Added(step.items)))
  {
    hide Without, Claimed, Cleared, Orphans, MapOf, RemovedKeys, Added, KeysOf;
    var kept := Merge(false, s, step).value;
    var add, del := Added(step.items), RemovedKeys(step.items);
    var orphans := Orphans(step.items, step.order);
    MergeKept(s, step);
    OrphansRemove(step.items, step.order);
    assert RemovedKeys(orphans) == del - KeysOf(add);
    assert KeysOf(Added(kept.reply)) <= (KeysOf(Added(s.reply)) - del) + KeysOf(add) by {
      MapOfKeys(Added(s.reply));
      MapOfKeys(add);
      MapOfKeys(Added(kept.reply));
    }
    AppendRemovals(kept.reply, orphans);
    assert Merge(true, s, step).value.reply == kept.reply + orphans;
  }

  lemma AppendRemovals<T>(a: seq<Entry<T>>, b: seq<Entry<T>>)
    requires Settled(a) && Settled(b) && Added(b) == []
    requires forall i :: 0 <= i < |b| ==> Bare(b[i].key) !in KeysOf(Added(a))
    ensures Settled(a + b) && Added(a + b) == Added(a) && RemovedKeys(a + b) == RemovedKeys(a) + RemovedKeys(b)
  {
    SettledConcat(a, b);
    AddedConcat(a, b);
  }

  lemma MergeCoherent<T>(recorded: bool, original: map<string, T>, s: Lists<T>, b: Book, step: Step<T>)
    requires ValidStep(recorded, step) && Coherent(original, s, b) && OwnersMatch(s)
    requires Merge(recorded, s, step).Some?
    requires !recorded ==> b.recorded == {}
    ensures Coherent(original, Merge(recorded, s, step).value, BookAfter(recorded, b, step))
    ensures OwnersMatch(Merge(recorded, s, step).value)
    ensures !recorded ==> BookAfter(recorded, b, step).recorded == {}
  {
    MergeKept(s, step);
    if recorded {
      MergeRecorded(s, step);
    }
    var s', b' := Merge(recorded, s, step).value, BookAfter(recorded, b, step);
    var add, del := Added(step.items), RemovedKeys(step.items);
    MapOfKeys(add);
    MapOfKeys(Added(s.reply));
    MapOfKeys(Added(s'.reply));
    ViewAlgebra(original, b.gone, MapOf(Added(s.reply)), del, MapOf(add));
  }

  lemma ViewAlgebra<T>(o: map<string, T>, gone: set<string>, set0: map<string, T>, del: set<string>,
                       add: map<string, T>)
    ensures (((o - gone) + set0) - (del + add.Keys)) + add == (o - ((gone + del) - add.Keys)) + ((set0 - del) + add)
  {
  }

  lemma {:induction false} RunCoherent<T>(recorded: bool, original: seq<Entry<T>>, steps: seq<Step<T>>)
    requires forall i :: 0 <= i < |steps| ==> ValidStep(recorded, steps[i])
    requires Run(recorded, Start(original), steps).Some?
    ensures Coherent(MapOf(original), Run(recorded, Start(original), steps).value, BookOf(recorded, steps))
    ensures OwnersMatch(Run(recorded, Start(original), steps).value)
    ensures !recorded ==> BookOf(recorded, steps).recorded == {}
  {
    if steps != [] {
      var front := steps[..|steps| - 1];
      RunCoherent(recorded, original, front);
      MergeCoherent(recorded, MapOf(original), Run(recorded, Start(original), front).value,
                    BookOf(recorded, front), steps[|steps| - 1]);
    } else {
      assert MapOf(original) - {} == MapOf(original);
    }
  }

  lemma RemovalsAgree<T>(o: map<string, T>, adds: map<string, T>, b: Book)
    requires b.gone !! adds.Keys && b.recorded <= b.gone + adds.Keys
    ensures (o - b.recorded) + adds == (o - b.gone) + adds <==> (b.gone - b.recorded) !! o.Keys
  {
    var x, y := (o - b.recorded) + adds, (o - b.gone) + adds;
    if !((b.gone - b.recorded) !! o.Keys) {
      var k :| k in b.gone && k !in b.recorded && k in o;
      assert k in x && k !in y;
    } else {
      assert x.Keys == y.Keys;
    }
  }

  /**
    The reply and the view agree: applying the collected reply to the original gives exactly
    the view the last plugin left, if and only if no original key is lost.
   */
  lemma ReplyMeansView<T>(recorded: bool, original: seq<Entry<T>>, steps: seq<Step<T>>)
    requires forall i :: 0 <= i < |steps| ==> ValidStep(recorded, steps[i])
    requires Run(recorded, Start(original), steps).Some?
    ensures var s := Run(recorded, Start(original), steps).value;
            Effect(MapOf(original), s.reply) == MapOf(s.view) <==> Lost(recorded, steps) !! KeysOf(original)
  {
    var s, b := Run(recorded, Start(original), steps).value, BookOf(recorded, steps);
    RunCoherent(recorded, original, steps);
    EffectOfSettled(MapOf(original), s.reply);
    MapOfKeys(original);
    MapOfKeys(Added(s.reply));
    RemovalsAgree(MapOf(original), MapOf(Added(s.reply)), b);
  }

  /** Nothing is lost when removals are passed on and no key is given with two markers. */
  lemma {:induction false} NothingLostWhenRecorded<T>(steps: seq<Step<T>>)
    requires forall i, k :: 0 <= i < |steps| && k in RemovedKeys(steps[i].items) ==> !Marked(k)
    ensures Lost(true, steps) == {}
  {
    if steps != [] {
      var front, last := steps[..|steps| - 1], steps[|steps| - 1];
      NothingLostWhenRecorded(front);
      assert forall k :: k in RemovedKeys(steps[|steps| - 1].items) ==> !Marked(k);
      forall x | x in BookOf(true, front).recorded ensures MarkForRemoval(x) !in RemovedKeys(last.items) {
        MarkerRoundTrip(x);
        assert Marked(MarkForRemoval(x));
      }
    }
  }

  /** Nothing is lost when every removal comes with a setting of the same key. */
  lemma {:induction false} NothingLostWhenPaired<T>(steps: seq<Step<T>>)
    requires forall i :: 0 <= i < |steps| ==> RemovedKeys(steps[i].items) <= KeysOf(Added(steps[i].items))
    ensures Lost(false, steps) == {}
  {
    if steps != [] {
      NothingLostWhenPaired(steps[..|steps| - 1]);
    }
  }

  /** A lone removal of an environment variable or a device reaches the view but not the reply. */
  lemma UnpairedRemovalIsLost()
    ensures var steps := [Step("10-a", [Entry("-X", "")], ["X"])];
            Lost(false, steps) == {"X"} && Run(false, Start([Entry("X", "1")]), steps).Some?
  {
    var items := [Entry("-X", "")];
    var step := Step("10-a", items, ["X"]);
    assert "-X"[1..] == "X";
    assert items[..0] == [];
    assert Added(items) == [] && RemovedKeys(items) == {"X"};
    assert [step][..0] == [];
    assert BookOf(false, [step]) == BookAfter(false, Book({}, {}), step);
  }

  /** A second marker on a mount takes back the removal another plugin asked for, in the reply only. */
  lemma DoubleMarkerIsLost()
    ensures var steps := [Step("10-a", [Entry("-/a", "")], ["/a"]), Step("20-b", [Entry("--/a", "")], ["-/a"])];
            "/a" in Lost(true, steps) && forall value :: Run(true, Start([Entry("/a", value)]), steps).Some?
  {
    var one, two := Step("10-a", [Entry("-/a", "")], ["/a"]), Step("20-b", [Entry("--/a", "")], ["-/a"]);
    assert "-/a"[1..] == "/a" && "--/a"[1..] == "-/a";
    assert one.items[..0] == [] && two.items[..0] == [];
    assert RemovedKeys(one.items) == {"/a"} && RemovedKeys(two.items) == {"-/a"};
    assert [one][..0] == [] && [one, two][..1] == [one];
    assert BookOf(true, [one]) == BookAfter(true, Book({}, {}), one);
    assert BookOf(true, [one, two]) == BookAfter(true, BookOf(true, [one]), two);
    assert MarkForRemoval("/a") == "-/a";
    assert "/a" in BookOf(true, [one]).gone;
    assert Added(one.items) == [] && Added(two.items) == [];
    forall value: string ensures Run(true, Start([Entry("/a", value)]), [one, two]).Some? {
      var start := Start([Entry("/a", value)]);
      assert Run(true, start, []) == Some(start);
      assert Run(true, start, [one]) == Merge(true, start, one);
      assert Run(true, start, [one, two]) == Merge(true, Run(true, start, [one]).value, two);
    }
  }

  predicate Free(own: map<string, string>, plugin: string, key: string) {
    key !in own || own[key] == MarkForRemoval(plugin)
  }

  /** When a reply is accepted: its settings are distinct and each key is free, or cleared by the reply itself. */
  lemma MergeAcceptedIff<T>(recorded: bool, s: Lists<T>, step: Step<T>)
    requires !Marked(step.plugin)
    ensures var add, del := Added(step.items), RemovedKeys(step.items);
            Merge(recorded, s, step).Some? <==>
            DistinctKeys(add) &&
            forall k :: k in KeysOf(add) ==> (k in del && k in KeysOf(s.reply)) || Free(s.own, step.plugin, k)
  {
    var add, del := Added(step.items), RemovedKeys(step.items);
    var own := Cleared(s.own, s.reply, del, step.plugin);
    ClaimedIff(own, add, step.plugin);
    assert Merge(recorded, s, step).Some? <==> Claimed(own, add, step.plugin).Some?;
    forall k
      ensures Free(own, step.plugin, k) <==> (k in del && k in KeysOf(s.reply)) || Free(s.own, step.plugin, k)
    {
      assert k in KeysOf(s.reply) * del <==> k in KeysOf(s.reply) && k in del;
    }
  }

  lemma {:induction false} ClaimedIff<T>(own: map<string, string>, add: seq<Entry<T>>, plugin: string)
    requires !Marked(plugin)
    ensures Claimed(own, add, plugin).Some? <==>
            DistinctKeys(add) && forall k :: k in KeysOf(add) ==> Free(own, plugin, k)
    decreases add
  {
    MarkerRoundTrip(plugin);
    if add != [] {
      var k0, rest := add[0].key, add[1..];
      ClaimedIff(own[k0 := plugin], rest, plugin);
      DistinctFromFront(add);
      assert KeysOf(add) == {k0} + KeysOf(rest) by {
        assert [add[0]] + rest == add;
        KeysOfConcat([add[0]], rest);
      }
      if k0 in own {
        MarkerRoundTrip(own[k0]);
      }
      assert Conflict(Lookup(own, k0), plugin).None? <==> Free(own, plugin, k0);
      assert !Free(own[k0 := plugin], plugin, k0);
      assert forall k :: k != k0 ==> Free(own[k0 := plugin], plugin, k) == Free(own, plugin, k);
    }
  }

  lemma DistinctFromFront<T>(add: seq<Entry<T>>)
    requires add != []
    ensures DistinctKeys(add) <==> add[0].key !in KeysOf(add[1..]) && DistinctKeys(add[1..])
  {
    var rest := add[1..];
    if DistinctKeys(add) {
      forall i, j | 0 <= i < j < |rest| ensures rest[i].key != rest[j].key {
        assert rest[i] == add[i + 1] && rest[j] == add[j + 1];
      }
    }
    if add[0].key !in KeysOf(rest) && DistinctKeys(rest) {
      forall i, j | 0 <= i < j < |add| ensures add[i].key != add[j].key {
        assert add[j] == rest[j - 1] && rest[j - 1].key in KeysOf(rest);
        assert i > 0 ==> add[i] == rest[i - 1];
      }
    }
  }

  /** The plugin recorded as owner of a key supplied, in one of its replies, the value that stands. */
  ghost predicate Supplied<T>(steps: seq<Step<T>>, owner: string, key: string, value: T) {
    exists i :: 0 <= i < |steps| && steps[i].plugin == owner && Lookup(MapOf(Added(steps[i].items)), key) == Some(value)
  }

  ghost predicate Provenance<T>(s: Lists<T>, steps: seq<Step<T>>) {
    var adds := MapOf(Added(s.reply));
    forall k :: k in adds ==> k in s.own && Supplied(steps, s.own[k], k, adds[k])
  }

  /** Every value in the reply is its owner's. */
  lemma {:induction false} ReplyProvenance<T>(recorded: bool, original: seq<Entry<T>>, steps: seq<Step<T>>)
    requires forall i :: 0 <= i < |steps| ==> ValidStep(recorded, steps[i])
    requires Run(recorded, Start(original), steps).Some?
    ensures Provenance(Run(recorded, Start(original), steps).value, steps)
  {
    if steps != [] {
      var front, step := steps[..|steps| - 1], steps[|steps| - 1];
      ReplyProvenance(recorded, original, front);
      RunCoherent(recorded, original, front);
      var s, s' := Run(recorded, Start(original), front).value, Run(recorded, Start(original), steps).value;
      assert front + [step] == steps;
      forall k | k in MapOf(Added(s'.reply))
        ensures k in s'.own && Supplied(steps, s'.own[k], k, MapOf(Added(s'.reply))[k])
      {
        SuppliedAfter(recorded, s, front, step, k);
      }
    }
  }

  /** The view holds every value of the reply. */
  lemma ViewHoldsReply<T>(recorded: bool, original: seq<Entry<T>>, steps: seq<Step<T>>)
    requires forall i :: 0 <= i < |steps| ==> ValidStep(recorded, steps[i])
    requires Run(recorded, Start(original), steps).Some?
    ensures var s := Run(recorded, Start(original), steps).value;
            forall k :: k in MapOf(Added(s.reply)) ==> Lookup(MapOf(s.view), k) == Lookup(MapOf(Added(s.reply)), k)
  {
    RunCoherent(recorded, original, steps);
  }

  lemma SuppliedAfter<T>(recorded: bool, s: Lists<T>, front: seq<Step<T>>, step: Step<T>, k: string)
    requires ValidStep(recorded, step) && Settled(s.reply) && OwnersMatch(s) && Merge(recorded, s, step).Some?
    requires var adds := MapOf(Added(s.reply)); k in adds ==> k in s.own && Supplied(front, s.own[k], k, adds[k])
    requires k in MapOf(Added(Merge(recorded, s, step).value.reply))
    ensures var s' := Merge(recorded, s, step).value;
            k in s'.own && Supplied(front + [step], s'.own[k], k, MapOf(Added(s'.reply))[k])
  {
    MergeKept(s, step);
    if recorded {
      MergeRecorded(s, step);
    }
    var steps := front + [step];
    MapOfKeys(Added(step.items));
    if k in MapOf(Added(step.items)) {
      assert steps[|front|] == step;
    } else {
      OwnerKept(recorded, s, step, k);
      var i :| 0 <= i < |front| && front[i].plugin == s.own[k] &&
               Lookup(MapOf(Added(front[i].items)), k) == Some(MapOf(Added(s.reply))[k]);
      assert steps[i] == front[i];
    }
  }

  /** A reply that neither removes nor sets a key leaves its record alone. */
  lemma OwnerKept<T>(recorded: bool, s: Lists<T>, step: Step<T>, k: string)
    requires !Marked(step.plugin) && Merge(recorded, s, step).Some?
    requires k !in KeysOf(Added(step.items)) && k !in RemovedKeys(step.items)
    ensures Lookup(Merge(recorded, s, step).value.own, k) == Lookup(s.own, k)
  {
    ClaimedOwns(Cleared(s.own, s.reply, RemovedKeys(step.items), step.plugin), Added(step.items), step.plugin);
  }

  lemma {:induction false} WithoutNothing<T>(s: seq<Entry<T>>)
    ensures Without(s, {}) == s
  {
    if s != [] {
      WithoutNothing(s[..|s| - 1]);
    }
  }

  lemma {:induction false} NoOrphans<T>(items: seq<Entry<T>>, order: seq<string>)
    requires RemovedKeys(items) == {}
    ensures Orphans(items, order) == []
  {
    if order != [] {
      NoOrphans(items, order[..|order| - 1]);
    }
  }

  /** A reply without items of the kind changes nothing. */
  lemma MergeNothing<T>(recorded: bool, s: Lists<T>, step: Step<T>)
    requires step.items == []
    ensures Merge(recorded, s, step) == Some(s)
  {
    WithoutNothing(s.reply);
    WithoutNothing(s.view);
    NoOrphans(step.items, step.order);
    assert step.items == [] && Added(step.items) == [] && RemovedKeys(step.items) == {};
    assert {} + KeysOf(Added(step.items)) == {};
    assert KeysOf(s.reply) * {} == {};
    assert s.reply + [] == s.reply && s.view + [] == s.view;
    assert Cleared(s.own, s.reply, {}, step.plugin) == s.own;
  }
}
