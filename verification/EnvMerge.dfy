/**
  Folding environment variables: the reply collects variables, the view holds KEY=VALUE strings.
 */
module EnvMerge {
  import opened Prelude
  import opened Markers
  import opened KeyedLists
  import opened ListMerge

  datatype EnvLists = EnvLists(own: map<string, string>, reply: seq<KeyValue>, view: seq<string>)

  type EnvStep = Step<string>

  function WithoutVars(env: seq<string>, drop: set<string>): seq<string> {
    if env == [] then []
    else
      var front, last := WithoutVars(env[..|env| - 1], drop), env[|env| - 1];
      if SplitEnvVar(last).key in drop then front else front + [last]
  }

  function Printed(vars: seq<KeyValue>): (r: seq<string>)
    ensures |r| == |vars| && forall i :: 0 <= i < |vars| ==> r[i] == ToOCI(vars[i])
  {
    seq(|vars|, i requires 0 <= i < |vars| => ToOCI(vars[i]))
  }

  function MergeEnv(s: EnvLists, step: EnvStep): Option<EnvLists> {
    var add, del := Added(step.items), RemovedKeys(step.items);
    match Claimed(Cleared(s.own, s.reply, del, step.plugin), add, step.plugin)
    case None => None
    case Some(own) =>
      Some(EnvLists(own, Without(s.reply, del) + add, WithoutVars(s.view, del + KeysOf(add)) + Printed(add)))
  }

  function RunEnv(s: EnvLists, steps: seq<EnvStep>): Option<EnvLists> {
    if steps == [] then Some(s)
    else
      match RunEnv(s, steps[..|steps| - 1])
      case None => None
      case Some(s') => MergeEnv(s', steps[|steps| - 1])
  }

  function StartEnv(original: seq<string>): EnvLists {
    EnvLists(map[], [], original)
  }

  ghost predicate Splittable(vars: seq<KeyValue>) {
    forall i :: 0 <= i < |vars| ==> '=' !in vars[i].key
  }

  /** Variables with a name, and one that can be split off again. */
  ghost predicate Named(vars: seq<KeyValue>) {
    forall i :: 0 <= i < |vars| ==> vars[i].key != "" && '=' !in vars[i].key
  }

  /** The same state with the strings of the view split into variables. */
  function Parsed(s: EnvLists): Lists<string> {
    Lists(s.own, s.reply, ParsedEnv(s.view))
  }

  lemma ParsedConcat(a: seq<string>, b: seq<string>)
    ensures ParsedEnv(a + b) == ParsedEnv(a) + ParsedEnv(b)
  {
  }

  lemma {:induction false} ParsedWithoutVars(env: seq<string>, drop: set<string>)
    ensures ParsedEnv(WithoutVars(env, drop)) == Without(ParsedEnv(env), drop)
  {
    if env != [] {
      var front, last := env[..|env| - 1], env[|env| - 1];
      ParsedWithoutVars(front, drop);
      ParsedConcat(WithoutVars(front, drop), [last]);
      assert ParsedEnv(env)[..|env| - 1] == ParsedEnv(front);
      assert ParsedEnv([last]) == [SplitEnvVar(last)];
    }
  }

  /** The strings of the view carry exactly the variables a list of settings would hold. */
  lemma MergeEnvParsed(s: EnvLists, step: EnvStep)
    requires Splittable(Added(step.items))
    ensures MergeEnv(s, step).Some? <==> Merge(false, Parsed(s), step).Some?
    ensures MergeEnv(s, step).Some? ==> Parsed(MergeEnv(s, step).value) == Merge(false, Parsed(s), step).value
  {
    var add, del := Added(step.items), RemovedKeys(step.items);
    ParsedWithoutVars(s.view, del + KeysOf(add));
    EnvListRoundTrip(add, Printed(add));
    ParsedConcat(WithoutVars(s.view, del + KeysOf(add)), Printed(add));
  }

  lemma {:induction false} RunEnvParsed(original: seq<string>, steps: seq<EnvStep>)
    requires forall i :: 0 <= i < |steps| ==> Splittable(Added(steps[i].items))
    ensures RunEnv(StartEnv(original), steps).Some? <==> Run(false, Start(ParsedEnv(original)), steps).Some?
    ensures RunEnv(StartEnv(original), steps).Some? ==>
              Parsed(RunEnv(StartEnv(original), steps).value) == Run(false, Start(ParsedEnv(original)), steps).value
  {
    if steps != [] {
      var front, step := steps[..|steps| - 1], steps[|steps| - 1];
      RunEnvParsed(original, front);
      if RunEnv(StartEnv(original), front).Some? {
        MergeEnvParsed(RunEnv(StartEnv(original), front).value, step);
      }
    }
  }

  /** An accepted run collects only settings. */
  lemma {:induction false} ReplyOnlySets(original: seq<string>, steps: seq<EnvStep>)
    requires forall i :: 0 <= i < |steps| ==> Named(Added(steps[i].items))
    requires RunEnv(StartEnv(original), steps).Some?
    ensures var reply := RunEnv(StartEnv(original), steps).value.reply; Added(reply) == reply && Named(reply)
  {
    if steps != [] {
      var front, step := steps[..|steps| - 1], steps[|steps| - 1];
      var s := RunEnv(StartEnv(original), front).value;
      ReplyOnlySets(original, front);
      SettingsOnly(s.reply, step.items, RemovedKeys(step.items));
    }
  }

  lemma SettingsOnly(reply: seq<KeyValue>, items: seq<KeyValue>, del: set<string>)
    requires Added(reply) == reply && Named(reply) && Named(Added(items))
    ensures var r := Without(reply, del) + Added(items); Added(r) == r && Named(r)
  {
    AddedWithout(reply, del);
    AddedUnmarked(items);
    AddedConcat(Without(reply, del), Added(items));
    WithoutSubset(reply, del);
    assert forall e :: e in reply ==> e.key != "" && '=' !in e.key;
    forall i | 0 <= i < |Without(reply, del)|
      ensures Without(reply, del)[i].key != "" && '=' !in Without(reply, del)[i].key
    {
      assert Without(reply, del)[i] in Without(reply, del);
    }
  }

  lemma {:induction false} WithoutSubset<T>(s: seq<Entry<T>>, drop: set<string>)
    ensures forall e :: e in Without(s, drop) ==> e in s
  {
    if s != [] {
      WithoutSubset(s[..|s| - 1], drop);
    }
  }

  lemma {:induction false} WithoutNoVars(env: seq<string>)
    ensures WithoutVars(env, {}) == env
  {
    if env != [] {
      WithoutNoVars(env[..|env| - 1]);
    }
  }

  lemma MergeNoEnv(s: EnvLists, step: EnvStep)
    requires step.items == []
    ensures MergeEnv(s, step) == Some(s)
  {
    WithoutNothing(s.reply);
    WithoutNoVars(s.view);
    assert step.items == [] && Added(step.items) == [] && RemovedKeys(step.items) == {};
    assert {} + KeysOf(Added(step.items)) == {};
    assert KeysOf(s.reply) * {} == {};
    assert s.reply + [] == s.reply && s.view + [] == s.view && Printed([]) == [];
    assert Cleared(s.own, s.reply, {}, step.plugin) == s.own;
  }
}
