/**
  The spec applier: replaying collected adjustments on an OCI Spec.

  The generator of the OCI runtime tools underneath is modelled by what its calls do to the
  lists of the Spec: adding appends or overrides, removing drops the first match.
 */
module SpecEdits {
  import opened Prelude
  import opened Markers
  import opened KeyedLists
  import opened MountOrder

  // ----- mounts and devices -----

  function RemoveFirst<T>(s: seq<Entry<T>>, key: string): seq<Entry<T>> {
    if s == [] then []
    else if s[0].key == key then s[1..]
    else [s[0]] + RemoveFirst(s[1..], key)
  }

  /** Each entry replaces or removes the one with its key, in the order given. */
  function Replayed<T>(original: seq<Entry<T>>, edits: seq<Entry<T>>): seq<Entry<T>> {
    if edits == [] then original
    else
      var s, last := Replayed(original, edits[..|edits| - 1]), edits[|edits| - 1];
      if Marked(last.key) then RemoveFirst(s, Bare(last.key))
      else RemoveFirst(s, last.key) + [last]
  }

  lemma {:induction false} RemoveFirstMap<T>(s: seq<Entry<T>>, key: string)
    requires DistinctKeys(s)
    ensures DistinctKeys(RemoveFirst(s, key))
    ensures MapOf(RemoveFirst(s, key)) == MapOf(s) - {key}
  {
    MapOfKeys(s);
    if i :| 0 <= i < |s| && s[i].key == key {
      RemoveFirstFound(s, i);
    } else {
      RemoveFirstMissing(s, key);
      assert key !in MapOf(s);
    }
  }

  lemma RemoveFirstFound<T>(s: seq<Entry<T>>, i: nat)
    requires DistinctKeys(s) && i < |s|
    ensures DistinctKeys(RemoveFirst(s, s[i].key))
    ensures MapOf(RemoveFirst(s, s[i].key)) == MapOf(s) - {s[i].key}
  {
    hide MapOf, KeysOf, RemoveFirst;
    var a, e, b := s[..i], s[i], s[i + 1..];
    assert s == a + [e] + b;
    MapOfMiddle(a, e, b);
    RemoveFirstAt(a, e, b);
    AddThenRemove(MapOf(a + b), e.key, e.value);
  }

  lemma AddThenRemove<T>(m: map<string, T>, k: string, v: T)
    requires k !in m
    ensures m[k := v] - {k} == m
  {
  }

  lemma {:induction false} RemoveFirstAt<T>(a: seq<Entry<T>>, e: Entry<T>, b: seq<Entry<T>>)
    requires forall i :: 0 <= i < |a| ==> a[i].key != e.key
    ensures RemoveFirst(a + [e] + b, e.key) == a + b
  {
    var s := a + [e] + b;
    if a == [] {
      assert s[1..] == b;
    } else {
      assert s[1..] == a[1..] + [e] + b;
      RemoveFirstAt(a[1..], e, b);
      assert [a[0]] + (a[1..] + b) == a + b;
    }
  }

  lemma {:induction false} RemoveFirstMissing<T>(s: seq<Entry<T>>, key: string)
    requires forall i :: 0 <= i < |s| ==> s[i].key != key
    ensures RemoveFirst(s, key) == s
  {
    if s != [] {
      RemoveFirstMissing(s[1..], key);
    }
  }

  /** On distinct keys, replaying edits does to the map what each edit says. */
  lemma {:induction false} ReplayedMap<T>(original: seq<Entry<T>>, edits: seq<Entry<T>>)
    requires DistinctKeys(original)
    ensures DistinctKeys(Replayed(original, edits))
    ensures MapOf(Replayed(original, edits)) == Effect(MapOf(original), edits)
  {
    if edits != [] {
      var front, last := edits[..|edits| - 1], edits[|edits| - 1];
      ReplayedMap(original, front);
      var s := Replayed(original, front);
      if Marked(last.key) {
        RemoveFirstMap(s, Bare(last.key));
      } else {
        RemoveFirstMap(s, last.key);
        MapOfSnoc(RemoveFirst(s, last.key), last);
        DistinctSnoc(RemoveFirst(s, last.key), last);
      }
    }
  }

  /** AdjustMounts: replays the mounts and then sorts; nothing happens without mounts. */
  function AdjustedMounts<T>(original: seq<Entry<T>>, mounts: seq<Entry<T>>): seq<Entry<T>> {
    if mounts == [] then original else Sorted(Replayed(original, mounts))
  }

  lemma AdjustedMountsMap<T>(original: seq<Entry<T>>, mounts: seq<Entry<T>>)
    requires DistinctKeys(original)
    ensures DistinctKeys(AdjustedMounts(original, mounts))
    ensures MapOf(AdjustedMounts(original, mounts)) == Effect(MapOf(original), mounts)
    ensures mounts != [] ==> Ordered(AdjustedMounts(original, mounts))
  {
    if mounts != [] {
      ReplayedMap(original, mounts);
      SortedIsOrdered(Replayed(original, mounts));
      PermutationKeepsMap(Replayed(original, mounts), Sorted(Replayed(original, mounts)));
    }
  }

  // ----- environment -----

  /** AddProcessEnv: a variable without a name is ignored. */
  function SetVar(env: seq<string>, key: string, value: string): seq<string> {
    if key == "" then env else PutVar(env, key, value)
  }

  function PutVar(env: seq<string>, key: string, value: string): seq<string> {
    if env == [] then [ToOCI(Entry(key, value))]
    else
      var front, last := env[..|env| - 1], env[|env| - 1];
      if SplitEnvVar(last).key == key then front + [ToOCI(Entry(key, value))]
      else PutVar(front, key, value) + [last]
  }

  /** The variables looked for in the environment: the last adjustment of each name. */
  function Wanted(env: seq<KeyValue>): map<string, KeyValue> {
    if env == [] then map[]
    else Wanted(env[..|env| - 1])[Bare(env[|env| - 1].key) := env[|env| - 1]]
  }

  datatype Pass = Pass(env: seq<string>, left: map<string, KeyValue>)

  /** The first pass: goes through the old environment, replacing and removing what is wanted. */
  function FirstPass(before: seq<string>, wanted: map<string, KeyValue>): Pass {
    if before == [] then Pass([], wanted)
    else
      var p, keyval := FirstPass(before[..|before| - 1], wanted), Cut(before[|before| - 1]);
      if keyval.1.None? then p
      else if keyval.0 in p.left then
        var m := p.left[keyval.0];
        Pass(if Marked(m.key) then p.env else SetVar(p.env, m.key, m.value), p.left - {keyval.0})
      else Pass(SetVar(p.env, keyval.0, keyval.1.value), p.left)
  }

  /** The second pass: appends the variables that were not there. */
  function SecondPass(p: Pass, env: seq<KeyValue>): seq<string> {
    if env == [] then p.env
    else
      var out, e := SecondPass(p, env[..|env| - 1]), env[|env| - 1];
      if !Marked(e.key) && e.key in p.left then SetVar(out, e.key, e.value) else out
  }

  function AdjustedEnv(original: seq<string>, env: seq<KeyValue>): seq<string> {
    var wanted := Wanted(env);
    SecondPass(if |wanted| > 0 then FirstPass(original, wanted) else Pass(original, wanted), env)
  }

  function Vars(env: seq<string>): map<string, string> {
    MapOf(ParsedEnv(env))
  }

  /** Overriding the last entry with the key, or appending one, sets the key. */
  function PutEntry<T>(s: seq<Entry<T>>, e: Entry<T>): seq<Entry<T>> {
    if s == [] then [e]
    else if s[|s| - 1].key == e.key then s[..|s| - 1] + [e]
    else PutEntry(s[..|s| - 1], e) + [s[|s| - 1]]
  }

  lemma {:induction false} PutEntryMap<T>(s: seq<Entry<T>>, e: Entry<T>)
    ensures MapOf(PutEntry(s, e)) == MapOf(s)[e.key := e.value]
  {
    if s == [] {
      MapOfSnoc([], e);
      assert [] + [e] == [e];
    } else if s[|s| - 1].key == e.key {
      MapOfSnoc(s[..|s| - 1], e);
    } else {
      PutEntryMap(s[..|s| - 1], e);
      MapOfSnoc(PutEntry(s[..|s| - 1], e), s[|s| - 1]);
    }
  }

  lemma {:induction false} PutVarParsed(env: seq<string>, key: string, value: string)
    requires '=' !in key
    ensures ParsedEnv(PutVar(env, key, value)) == PutEntry(ParsedEnv(env), Entry(key, value))
  {
    EnvRoundTrip(Entry(key, value));
    if env != [] {
      var front := env[..|env| - 1];
      assert ParsedEnv(env)[..|env| - 1] == ParsedEnv(front);
      PutVarParsed(front, key, value);
    }
  }

  lemma PutVarMap(env: seq<string>, key: string, value: string)
    requires '=' !in key
    ensures Vars(PutVar(env, key, value)) == Vars(env)[key := value]
  {
    PutVarParsed(env, key, value);
    PutEntryMap(ParsedEnv(env), Entry(key, value));
  }

  /** Variables as a Spec should hold them: each with a '=', a name, and a name of its own. */
  ghost predicate ProperEnv(env: seq<string>) {
    && (forall i :: 0 <= i < |env| ==> Cut(env[i]).1.Some? && Cut(env[i]).0 != "")
    && DistinctKeys(ParsedEnv(env))
  }

  ghost predicate ProperVars(vars: seq<KeyValue>) {
    forall i :: 0 <= i < |vars| ==> '=' !in vars[i].key && vars[i].key != "" && !Marked(vars[i].key)
  }

  /** The values wanted for variables the environment has. */
  function Overridden(vars: map<string, string>, wanted: map<string, KeyValue>): map<string, string> {
    map k | k in wanted && k in vars :: wanted[k].value
  }

  lemma OverriddenStep(vars: map<string, string>, k: string, v: string, wanted: map<string, KeyValue>)
    requires k !in vars
    ensures vars[k := v] + Overridden(vars[k := v], wanted) ==
            (vars + Overridden(vars, wanted))[k := if k in wanted then wanted[k].value else v]
  {
  }

  lemma FirstPassStep(p: Pass, last: string, k: string, v: string, vars: map<string, string>,
                      wanted: map<string, KeyValue>)
    requires Cut(last) == (k, Some(v)) && k != "" && k !in vars
    requires k in wanted ==> wanted[k].key == k && !Marked(k)
    requires p.left == wanted - vars.Keys
    requires Vars(p.env) == vars + Overridden(vars, wanted)
    ensures var env := SetVar(p.env, k, if k in wanted then wanted[k].value else v);
            Vars(env) == vars[k := v] + Overridden(vars[k := v], wanted)
    ensures p.left - {k} == wanted - vars[k := v].Keys
  {
    PutVarMap(p.env, k, if k in wanted then wanted[k].value else v);
    OverriddenStep(vars, k, v, wanted);
  }

  /** The first pass overrides in place the variables that are wanted, and leaves the others wanted. */
  lemma {:induction false} FirstPassMap(before: seq<string>, wanted: map<string, KeyValue>)
    requires ProperEnv(before)
    requires forall k :: k in wanted ==> wanted[k].key == k && k != "" && !Marked(k)
    ensures FirstPass(before, wanted).left == wanted - Vars(before).Keys
    ensures Vars(FirstPass(before, wanted).env) == Vars(before) + Overridden(Vars(before), wanted)
  {
    if before != [] {
      var front, last := before[..|before| - 1], before[|before| - 1];
      ProperFront(before);
      FirstPassMap(front, wanted);
      var (k, v) := Cut(last);
      FirstPassStep(FirstPass(front, wanted), last, k, v.value, Vars(front), wanted);
    }
  }

  lemma ProperFront(env: seq<string>)
    requires ProperEnv(env) && env != []
    ensures var front := env[..|env| - 1];
            var (k, v) := Cut(env[|env| - 1]);
            ProperEnv(front) && v.Some? && k != "" && k !in Vars(front) && Vars(env) == Vars(front)[k := v.value]
  {
    var front, last := env[..|env| - 1], SplitEnvVar(env[|env| - 1]);
    var parsed := ParsedEnv(front);
    assert ParsedEnv(env) == parsed + [last];
    assert last.key !in KeysOf(parsed) && DistinctKeys(parsed) by {
      assert forall i :: 0 <= i < |parsed| ==> ParsedEnv(env)[i] == parsed[i];
      assert ParsedEnv(env)[|parsed|] == last;
    }
    MapOfKeys(parsed);
    MapOfSnoc(parsed, last);
  }

  function Restricted(m: map<string, string>, keys: set<string>): map<string, string> {
    map k | k in m && k in keys :: m[k]
  }

  lemma {:induction false} SecondPassMap(p: Pass, env: seq<KeyValue>)
    requires ProperVars(env)
    ensures Vars(SecondPass(p, env)) == Vars(p.env) + Restricted(MapOf(env), p.left.Keys)
  {
    if env != [] {
      var front, e := env[..|env| - 1], env[|env| - 1];
      SecondPassMap(p, front);
      RestrictedStep(MapOf(front), e.key, e.value, p.left.Keys);
      SecondPassStep(Vars(p.env), SecondPass(p, front), Restricted(MapOf(front), p.left.Keys), e);
    }
  }

  lemma SecondPassStep(vars: map<string, string>, out: seq<string>, added: map<string, string>, e: KeyValue)
    requires '=' !in e.key && Vars(out) == vars + added
    ensures Vars(PutVar(out, e.key, e.value)) == vars + added[e.key := e.value]
  {
    hide Vars, PutVar;
    PutVarMap(out, e.key, e.value);
    assert (vars + added)[e.key := e.value] == vars + added[e.key := e.value];
  }

  lemma RestrictedStep(m: map<string, string>, k: string, v: string, keys: set<string>)
    ensures Restricted(m[k := v], keys) == if k in keys then Restricted(m, keys)[k := v] else Restricted(m, keys)
  {
  }

  lemma {:induction false} WantedMap(env: seq<KeyValue>)
    requires ProperVars(env)
    ensures Wanted(env).Keys == MapOf(env).Keys
    ensures forall k :: k in Wanted(env) ==> Wanted(env)[k] == Entry(k, MapOf(env)[k])
    ensures forall k :: k in Wanted(env) ==> k != "" && !Marked(k)
  {
    if env != [] {
      WantedMap(env[..|env| - 1]);
      MarkerRoundTrip(env[|env| - 1].key);
    }
  }

  lemma PassesTogether(vars: map<string, string>, wanted: map<string, KeyValue>, m: map<string, string>)
    requires wanted.Keys == m.Keys && forall k :: k in wanted ==> wanted[k].value == m[k]
    ensures (vars + Overridden(vars, wanted)) + Restricted(m, (wanted - vars.Keys).Keys) == vars + m
  {
  }

  /** On a proper environment, the two passes together set every variable given. */
  lemma AdjustedEnvMap(original: seq<string>, env: seq<KeyValue>)
    requires ProperEnv(original) && ProperVars(env)
    ensures Vars(AdjustedEnv(original, env)) == Vars(original) + MapOf(env)
  {
    var wanted := Wanted(env);
    WantedMap(env);
    if |wanted| > 0 {
      FirstPassMap(original, wanted);
      SecondPassMap(FirstPass(original, wanted), env);
      PassesTogether(Vars(original), wanted, MapOf(env));
    } else {
      SecondPassMap(Pass(original, wanted), env);
      assert MapOf(env) == map[];
    }
  }

  // ----- namespaces -----

  /** AddOrReplaceLinuxNamespace: takes the place of the namespace of its type, or is appended. */
  function Replace<T>(s: seq<Entry<T>>, e: Entry<T>): seq<Entry<T>> {
    if s == [] then [e]
    else if s[0].key == e.key then [e] + s[1..]
    else [s[0]] + Replace(s[1..], e)
  }

  /** AdjustNamespaces; fails at the first type the generator does not know. */
  function AdjustedNamespaces(known: string -> bool, original: seq<Entry<string>>, edits: seq<Entry<string>>)
    : Option<seq<Entry<string>>>
  {
    if edits == [] then Some(original)
    else
      match AdjustedNamespaces(known, original, edits[..|edits| - 1])
      case None => None
      case Some(s) =>
        var (key, marked) := IsMarkedForRemoval(edits[|edits| - 1].key);
        if !known(key) then None
        else if marked then Some(RemoveFirst(s, key))
        else Some(Replace(s, edits[|edits| - 1]))
  }

  lemma ReplaceMap<T>(s: seq<Entry<T>>, e: Entry<T>)
    requires DistinctKeys(s)
    ensures DistinctKeys(Replace(s, e)) && MapOf(Replace(s, e)) == MapOf(s)[e.key := e.value]
  {
    MapOfKeys(s);
    if i :| 0 <= i < |s| && s[i].key == e.key {
      ReplaceFound(s, i, e);
    } else {
      ReplaceMissing(s, e);
      MapOfSnoc(s, e);
      DistinctSnoc(s, e);
    }
  }

  lemma ReplaceFound<T>(s: seq<Entry<T>>, i: nat, e: Entry<T>)
    requires DistinctKeys(s) && i < |s| && s[i].key == e.key
    ensures DistinctKeys(Replace(s, e)) && MapOf(Replace(s, e)) == MapOf(s)[e.key := e.value]
  {
    hide MapOf, KeysOf, Replace;
    var a, b, r := s[..i], s[i + 1..], s[i := e];
    assert s == a + [s[i]] + b && r == a + [e] + b;
    MapOfMiddle(a, s[i], b);
    ReplaceAt(a, s[i], b, e);
    forall x, y | 0 <= x < y < |r| ensures r[x].key != r[y].key {
      assert r[x].key == s[x].key && r[y].key == s[y].key;
    }
    MapOfMiddle(a, e, b);
  }

  lemma {:induction false} ReplaceAt<T>(a: seq<Entry<T>>, x: Entry<T>, b: seq<Entry<T>>, e: Entry<T>)
    requires x.key == e.key && forall i :: 0 <= i < |a| ==> a[i].key != e.key
    ensures Replace(a + [x] + b, e) == a + [e] + b
  {
    var s := a + [x] + b;
    if a == [] {
      assert s[1..] == b;
    } else {
      assert s[1..] == a[1..] + [x] + b;
      ReplaceAt(a[1..], x, b, e);
      assert [a[0]] + (a[1..] + [e] + b) == a + [e] + b;
    }
  }

  lemma {:induction false} ReplaceMissing<T>(s: seq<Entry<T>>, e: Entry<T>)
    requires forall i :: 0 <= i < |s| ==> s[i].key != e.key
    ensures Replace(s, e) == s + [e]
  {
    if s != [] {
      ReplaceMissing(s[1..], e);
      assert [s[0]] + (s[1..] + [e]) == s + [e];
    }
  }

  /** Replaying namespaces succeeds when all types are known, and then does what each edit says. */
  lemma {:induction false} AdjustedNamespacesMap(known: string -> bool, original: seq<Entry<string>>,
                                                 edits: seq<Entry<string>>)
    requires DistinctKeys(original)
    ensures var r := AdjustedNamespaces(known, original, edits);
            && (r.Some? <==> forall i :: 0 <= i < |edits| ==> known(Bare(edits[i].key)))
            && (r.Some? ==> DistinctKeys(r.value) && MapOf(r.value) == Effect(MapOf(original), edits))
  {
    if edits != [] {
      var front, last := edits[..|edits| - 1], edits[|edits| - 1];
      AdjustedNamespacesMap(known, original, front);
      assert edits == front + [last];
      MarkerRoundTrip(last.key);
      var r := AdjustedNamespaces(known, original, front);
      if r.Some? {
        if Marked(last.key) {
          RemoveFirstMap(r.value, Bare(last.key));
        } else {
          ReplaceMap(r.value, last);
        }
      }
    }
  }
}
