/**
  Lists of entries looked up by key, as the container view, the collected reply and the
  OCI Spec hold them, and the map each of them denotes.

  An entry whose key carries a removal marker asks for that key to be removed.
 */
module KeyedLists {
  import opened Prelude
  import opened Markers

  /** The map a list denotes; a later entry overrides an earlier one with the same key. */
  function MapOf<T>(s: seq<Entry<T>>): map<string, T> {
    if s == [] then map[]
    else MapOf(s[..|s| - 1])[s[|s| - 1].key := s[|s| - 1].value]
  }

  function KeysOf<T>(s: seq<Entry<T>>): set<string> {
    set i | 0 <= i < |s| :: s[i].key
  }

  ghost predicate DistinctKeys<T>(s: seq<Entry<T>>) {
    forall i, j :: 0 <= i < j < |s| ==> s[i].key != s[j].key
  }

  lemma NoKeys<T>(s: seq<Entry<T>>)
    requires s == []
    ensures KeysOf(s) == {} && DistinctKeys(s)
  {
  }

  lemma KeysHead<T>(s: seq<Entry<T>>)
    requires s != []
    ensures KeysOf(s) == {s[0].key} + KeysOf(s[1..])
    ensures DistinctKeys(s) <==> s[0].key !in KeysOf(s[1..]) && DistinctKeys(s[1..])
  {
    assert forall i :: 0 < i < |s| ==> s[i] == s[1..][i - 1];
    assert forall i :: 0 <= i < |s| - 1 ==> s[1..][i] == s[i + 1];
  }

  /** The list without the entries whose key is to be dropped. */
  function Without<T>(s: seq<Entry<T>>, drop: set<string>): seq<Entry<T>> {
    if s == [] then []
    else
      var front, last := Without(s[..|s| - 1], drop), s[|s| - 1];
      if last.key in drop then front else front + [last]
  }

  /** The entries that set a key. */
  function Added<T>(s: seq<Entry<T>>): seq<Entry<T>> {
    if s == [] then []
    else
      var front, last := Added(s[..|s| - 1]), s[|s| - 1];
      if Marked(last.key) then front else front + [last]
  }

  /** The entries that remove a key, under the key they remove. */
  function RemovalMap<T>(s: seq<Entry<T>>): map<string, Entry<T>> {
    if s == [] then map[]
    else
      var front, last := RemovalMap(s[..|s| - 1]), s[|s| - 1];
      if Marked(last.key) then front[Bare(last.key) := last] else front
  }

  function RemovedKeys<T>(s: seq<Entry<T>>): set<string> {
    RemovalMap(s).Keys
  }

  /** What applying a list of settings and removals, in order, makes of a map. */
  function Effect<T>(o: map<string, T>, s: seq<Entry<T>>): map<string, T> {
    if s == [] then o
    else
      var m, last := Effect(o, s[..|s| - 1]), s[|s| - 1];
      if Marked(last.key) then m - {Bare(last.key)} else m[last.key := last.value]
  }

  /** No setting is followed by anything about the same key. */
  ghost predicate Settled<T>(s: seq<Entry<T>>) {
    s != [] ==>
      var front := s[..|s| - 1];
      Settled(front) && Bare(s[|s| - 1].key) !in KeysOf(Added(front))
  }

  lemma FrontOfConcat<T>(a: seq<T>, b: seq<T>)
    requires b != []
    ensures (a + b)[..|a + b| - 1] == a + b[..|b| - 1] && (a + b)[|a + b| - 1] == b[|b| - 1]
  {
  }

  lemma {:induction false} MapOfKeys<T>(s: seq<Entry<T>>)
    ensures MapOf(s).Keys == KeysOf(s)
  {
    if s != [] {
      MapOfKeys(s[..|s| - 1]);
      assert KeysOf(s) == KeysOf(s[..|s| - 1]) + {s[|s| - 1].key};
    }
  }

  lemma {:induction false} MapOfConcat<T>(a: seq<Entry<T>>, b: seq<Entry<T>>)
    ensures MapOf(a + b) == MapOf(a) + MapOf(b)
  {
    if b == [] {
      assert a + b == a;
    } else {
      FrontOfConcat(a, b);
      MapOfConcat(a, b[..|b| - 1]);
    }
  }

  lemma MapOfSnoc<T>(s: seq<Entry<T>>, e: Entry<T>)
    ensures MapOf(s + [e]) == MapOf(s)[e.key := e.value]
  {
    assert (s + [e])[..|s|] == s;
  }

  lemma KeyAt<T>(s: seq<Entry<T>>, i: nat)
    requires i < |s|
    ensures s[i].key in KeysOf(s)
  {
  }

  lemma DistinctMiddle<T>(a: seq<Entry<T>>, e: Entry<T>, b: seq<Entry<T>>)
    requires DistinctKeys(a + [e] + b)
    ensures DistinctKeys(a + b) && e.key !in KeysOf(a + b)
  {
    var s, r := a + [e] + b, a + b;
    assert s[|a|] == e;
    assert forall i :: 0 <= i < |r| ==> r[i] == s[if i < |a| then i else i + 1];
  }

  lemma OverrideCommutes<T>(x: map<string, T>, y: map<string, T>, k: string, v: T)
    requires k !in y
    ensures x[k := v] + y == (x + y)[k := v]
  {
  }

  /** Taking out one entry of a list with distinct keys takes out its key. */
  lemma MapOfMiddle<T>(a: seq<Entry<T>>, e: Entry<T>, b: seq<Entry<T>>)
    requires DistinctKeys(a + [e] + b)
    ensures DistinctKeys(a + b) && e.key !in MapOf(a + b)
    ensures MapOf(a + [e] + b) == MapOf(a + b)[e.key := e.value]
  {
    DistinctMiddle(a, e, b);
    MapOfKeys(a + b);
    MapOfConcat(a, b);
    MapOfConcat(a + [e], b);
    MapOfSnoc(a, e);
    OverrideCommutes(MapOf(a), MapOf(b), e.key, e.value);
  }

  lemma DistinctSnoc<T>(s: seq<Entry<T>>, e: Entry<T>)
    requires DistinctKeys(s) && e.key !in MapOf(s)
    ensures DistinctKeys(s + [e])
  {
    MapOfKeys(s);
    forall i | 0 <= i < |s| ensures s[i].key != e.key { KeyAt(s, i); }
  }

  lemma KeysOfConcat<T>(a: seq<Entry<T>>, b: seq<Entry<T>>)
    ensures KeysOf(a + b) == KeysOf(a) + KeysOf(b)
  {
    MapOfConcat(a, b);
    MapOfKeys(a);
    MapOfKeys(b);
    MapOfKeys(a + b);
  }

  lemma KeysOfSnoc<T>(s: seq<Entry<T>>, e: Entry<T>)
    ensures KeysOf(s + [e]) == KeysOf(s) + {e.key}
  {
    MapOfSnoc(s, e);
    MapOfKeys(s);
    MapOfKeys(s + [e]);
  }

  /** Reordering entries with distinct keys does not change the map. */
  lemma {:induction false} PermutationKeepsMap<T>(s: seq<Entry<T>>, t: seq<Entry<T>>)
    requires DistinctKeys(s) && multiset(s) == multiset(t)
    ensures DistinctKeys(t) && MapOf(t) == MapOf(s)
    decreases |t|
  {
    if t != [] {
      var front, last := t[..|t| - 1], t[|t| - 1];
      assert t == front + [last];
      assert multiset(t) == multiset(front) + multiset{last};
      var a, b := TakeOut(s, last);
      MapOfMiddle(a, last, b);
      PermutationKeepsMap(a + b, front);
      DistinctSnoc(front, last);
    } else {
      assert |s| == |multiset(s)| == |multiset(t)|;
    }
  }

  lemma EmptyWithout<T>(s: seq<Entry<T>>, drop: set<string>)
    requires s == []
    ensures Without(s, drop) == [] && MapOf(s) == map[] && MapOf<T>([]) - drop == MapOf<T>([])
  {
  }

  lemma SetAndDrop<T>(m: map<string, T>, k: string, v: T, drop: set<string>)
    ensures m[k := v] - drop == if k in drop then m - drop else (m - drop)[k := v]
  {
  }

  lemma {:induction false} MapOfWithout<T>(s: seq<Entry<T>>, drop: set<string>)
    ensures MapOf(Without(s, drop)) == MapOf(s) - drop
    ensures KeysOf(Without(s, drop)) == KeysOf(s) - drop
  {
    hide KeysOf, MapOf, Without;
    if s == [] {
      EmptyWithout(s, drop);
    } else {
      var front, last := s[..|s| - 1], s[|s| - 1];
      assert s == front + [last];
      MapOfWithout(front, drop);
      WithoutSnoc(front, last, drop);
      MapOfSnoc(front, last);
      MapOfSnoc(Without(front, drop), last);
      SetAndDrop(MapOf(front), last.key, last.value, drop);
    }
    MapOfKeys(s);
    MapOfKeys(Without(s, drop));
  }

  lemma {:induction false} AddedConcat<T>(a: seq<Entry<T>>, b: seq<Entry<T>>)
    ensures Added(a + b) == Added(a) + Added(b)
    ensures RemovedKeys(a + b) == RemovedKeys(a) + RemovedKeys(b)
  {
    if b == [] {
      assert a + b == a;
    } else {
      FrontOfConcat(a, b);
      AddedConcat(a, b[..|b| - 1]);
    }
  }

  lemma AddedWithout<T>(s: seq<Entry<T>>, drop: set<string>)
    ensures Added(Without(s, drop)) == Without(Added(s), drop)
    ensures RemovedKeys(Without(s, drop)) == set x | x in RemovedKeys(s) && MarkForRemoval(x) !in drop
  {
    SettingsWithout(s, drop);
    forall x ensures x in RemovedKeys(Without(s, drop)) <==> x in RemovedKeys(s) && MarkForRemoval(x) !in drop {
      RemovalsWithout(s, drop, x);
    }
  }

  lemma AddedSnoc<T>(s: seq<Entry<T>>, e: Entry<T>)
    ensures Added(s + [e]) == if Marked(e.key) then Added(s) else Added(s) + [e]
    ensures RemovedKeys(s + [e]) == if Marked(e.key) then RemovedKeys(s) + {Bare(e.key)} else RemovedKeys(s)
  {
    assert (s + [e])[..|s|] == s;
  }

  lemma WithoutSnoc<T>(s: seq<Entry<T>>, e: Entry<T>, drop: set<string>)
    ensures Without(s + [e], drop) == if e.key in drop then Without(s, drop) else Without(s, drop) + [e]
  {
    assert (s + [e])[..|s|] == s;
  }

  lemma {:induction false} SettingsWithout<T>(s: seq<Entry<T>>, drop: set<string>)
    ensures Added(Without(s, drop)) == Without(Added(s), drop)
  {
    if s != [] {
      var front, last := s[..|s| - 1], s[|s| - 1];
      SettingsWithout(front, drop);
      AddedSnoc(Without(front, drop), last);
      WithoutSnoc(Added(front), last, drop);
    }
  }

  lemma {:induction false} RemovalsWithout<T>(s: seq<Entry<T>>, drop: set<string>, x: string)
    ensures x in RemovedKeys(Without(s, drop)) <==> x in RemovedKeys(s) && MarkForRemoval(x) !in drop
  {
    if s != [] {
      var front, last := s[..|s| - 1], s[|s| - 1];
      RemovalsWithout(front, drop, x);
      AddedSnoc(Without(front, drop), last);
      MarkerRoundTrip(last.key);
      MarkerRoundTrip(x);
    }
  }

  lemma {:induction false} AddedUnmarked<T>(s: seq<Entry<T>>)
    ensures forall i :: 0 <= i < |Added(s)| ==> !Marked(Added(s)[i].key)
    ensures Added(Added(s)) == Added(s) && RemovedKeys(Added(s)) == {}
  {
    if s != [] {
      var front, last := s[..|s| - 1], s[|s| - 1];
      AddedUnmarked(front);
      if !Marked(last.key) {
        assert Added(s)[..|Added(s)| - 1] == Added(front);
      }
    }
  }

  lemma {:induction false} SettledWithout<T>(s: seq<Entry<T>>, drop: set<string>)
    requires Settled(s)
    ensures Settled(Without(s, drop))
  {
    if s != [] {
      var front, last := s[..|s| - 1], s[|s| - 1];
      SettledWithout(front, drop);
      if last.key !in drop {
        var w := Without(s, drop);
        assert w[..|w| - 1] == Without(front, drop);
        AddedWithout(front, drop);
        MapOfWithout(Added(front), drop);
      }
    }
  }

  /** Appending entries about keys that are not set, each set at most once, keeps a list settled. */
  lemma {:induction false} SettledConcat<T>(a: seq<Entry<T>>, b: seq<Entry<T>>)
    requires Settled(a) && Settled(b)
    requires forall i :: 0 <= i < |b| ==> Bare(b[i].key) !in KeysOf(Added(a))
    ensures Settled(a + b)
  {
    if b == [] {
      assert a + b == a;
    } else {
      FrontOfConcat(a, b);
      SettledConcat(a, b[..|b| - 1]);
      AddedConcat(a, b[..|b| - 1]);
      KeysOfConcat(Added(a), Added(b[..|b| - 1]));
    }
  }

  lemma DropUnset<T>(o: map<string, T>, removed: set<string>, adds: map<string, T>, k: string)
    requires k !in adds
    ensures ((o - removed) + adds) - {k} == (o - (removed + {k})) + adds
  {
  }

  lemma SetLast<T>(o: map<string, T>, removed: set<string>, adds: map<string, T>, k: string, v: T)
    ensures ((o - removed) + adds)[k := v] == (o - removed) + adds[k := v]
  {
  }

  lemma NothingApplied<T>(o: map<string, T>, s: seq<Entry<T>>)
    requires s == []
    ensures Effect(o, s) == (o - RemovedKeys(s)) + MapOf(Added(s))
  {
  }

  /** Applying a settled list removes what it removes and sets what it sets. */
  lemma {:induction false} EffectOfSettled<T>(o: map<string, T>, s: seq<Entry<T>>)
    requires Settled(s)
    ensures Effect(o, s) == (o - RemovedKeys(s)) + MapOf(Added(s))
  {
    hide MapOf, Added, RemovedKeys, KeysOf;
    if s == [] {
      NothingApplied(o, s);
    } else {
      var front, last := s[..|s| - 1], s[|s| - 1];
      assert s == front + [last];
      EffectOfSettled(o, front);
      AddedSnoc(front, last);
      if Marked(last.key) {
        MapOfKeys(Added(front));
        DropUnset(o, RemovedKeys(front), MapOf(Added(front)), Bare(last.key));
      } else {
        MapOfSnoc(Added(front), last);
        SetLast(o, RemovedKeys(front), MapOf(Added(front)), last.key, last.value);
      }
    }
  }

  lemma {:induction false} InMapOf<T>(s: seq<Entry<T>>, k: string)
    requires k in MapOf(s)
    ensures Entry(k, MapOf(s)[k]) in s
  {
    var front, last := s[..|s| - 1], s[|s| - 1];
    assert s == front + [last];
    if k != last.key {
      InMapOf(front, k);
    }
  }

  lemma {:induction false} MapOfMember<T>(s: seq<Entry<T>>, e: Entry<T>)
    requires e in s && DistinctKeys(s)
    ensures e.key in MapOf(s) && MapOf(s)[e.key] == e.value
  {
    var front, last := s[..|s| - 1], s[|s| - 1];
    assert s == front + [last];
    if e != last {
      MapOfMember(front, e);
      assert e in front;
      var i :| 0 <= i < |front| && front[i] == e;
      assert s[i].key != s[|s| - 1].key;
    }
  }
}
