/** Folding Linux namespaces: every type may be touched once, by one plugin. */
module NamespaceMerge {
  import opened Prelude
  import opened Markers
  import opened Owners
  import opened KeyedLists

  /** A namespace type, possibly marked for removal, and its path. */
  type Namespace = Entry<string>

  /** The view is kept as a map from type to path; the list in the request has it in any order. */
  datatype Namespaces = Namespaces(own: map<string, string>, reply: seq<Namespace>, view: map<string, string>)

  /** One plugin's reply; nil entries are skipped. */
  datatype NamespaceStep = NamespaceStep(plugin: string, items: seq<Option<Namespace>>)

  function MergeOne(s: Namespaces, plugin: string, n: Namespace): Option<Namespaces> {
    var (key, marked) := IsMarkedForRemoval(n.key);
    if Conflict(Lookup(s.own, key), plugin).Some? then None
    else Some(Namespaces(s.own[key := plugin], s.reply + [n],
                         if marked then s.view - {key} else s.view[key := n.value]))
  }

  function MergeNamespaces(s: Namespaces, plugin: string, items: seq<Option<Namespace>>): Option<Namespaces> {
    if items == [] then Some(s)
    else
      match MergeNamespaces(s, plugin, items[..|items| - 1])
      case None => None
      case Some(s') =>
        if items[|items| - 1].None? then Some(s') else MergeOne(s', plugin, items[|items| - 1].value)
  }

  function RunNamespaces(s: Namespaces, steps: seq<NamespaceStep>): Option<Namespaces> {
    if steps == [] then Some(s)
    else
      match RunNamespaces(s, steps[..|steps| - 1])
      case None => None
      case Some(s') => MergeNamespaces(s', steps[|steps| - 1].plugin, steps[|steps| - 1].items)
  }

  function StartNamespaces(original: seq<Namespace>): Namespaces {
    Namespaces(map[], [], MapOf(original))
  }

  /** The types a list of edits touches, set or removed. */
  function Touched(s: seq<Namespace>): seq<string> {
    seq(|s|, i requires 0 <= i < |s| => Bare(s[i].key))
  }

  ghost predicate NamespacesCoherent(original: map<string, string>, s: Namespaces) {
    && s.view == Effect(original, s.reply)
    && Distinct(Touched(s.reply))
    && (forall k :: k in s.own <==> k in Touched(s.reply))
    && (forall k :: k in s.own ==> !Marked(s.own[k]))
  }

  lemma MergeOneCoherent(original: map<string, string>, s: Namespaces, plugin: string, n: Namespace)
    requires !Marked(plugin) && NamespacesCoherent(original, s) && MergeOne(s, plugin, n).Some?
    ensures NamespacesCoherent(original, MergeOne(s, plugin, n).value)
  {
    hide Distinct, Touched, Effect;
    var s' := MergeOne(s, plugin, n).value;
    MarkerRoundTrip(n.key);
    TouchedMore(s.reply, n);
    EffectMore(original, s.reply, n);
    OwnedIsTaken(s, plugin, n);
  }

  lemma OwnedIsTaken(s: Namespaces, plugin: string, n: Namespace)
    requires !Marked(plugin) && MergeOne(s, plugin, n).Some? && forall k :: k in s.own ==> !Marked(s.own[k])
    ensures Bare(n.key) !in s.own
  {
    if Bare(n.key) in s.own {
      MarkerRoundTrip(s.own[Bare(n.key)]);
    }
  }

  lemma TouchedMore(reply: seq<Namespace>, n: Namespace)
    ensures Touched(reply + [n]) == Touched(reply) + [Bare(n.key)]
    ensures Distinct(Touched(reply)) && Bare(n.key) !in Touched(reply) ==> Distinct(Touched(reply + [n]))
    ensures forall k :: k in Touched(reply + [n]) <==> k in Touched(reply) || k == Bare(n.key)
  {
    hide Distinct;
    DistinctConcat(Touched(reply), [Bare(n.key)]);
    OneType(Bare(n.key));
  }

  lemma OneType(k: string)
    ensures Distinct([k])
  {
  }

  lemma EffectMore(original: map<string, string>, reply: seq<Namespace>, n: Namespace)
    ensures var m := Effect(original, reply);
            Effect(original, reply + [n]) == if Marked(n.key) then m - {Bare(n.key)} else m[n.key := n.value]
  {
    assert (reply + [n])[..|reply|] == reply;
  }

  lemma {:induction false} MergeNamespacesCoherent(original: map<string, string>, s: Namespaces, plugin: string,
                                                   items: seq<Option<Namespace>>)
    requires !Marked(plugin) && NamespacesCoherent(original, s) && MergeNamespaces(s, plugin, items).Some?
    ensures NamespacesCoherent(original, MergeNamespaces(s, plugin, items).value)
  {
    if items != [] {
      MergeNamespacesCoherent(original, s, plugin, items[..|items| - 1]);
      if items[|items| - 1].Some? {
        MergeOneCoherent(original, MergeNamespaces(s, plugin, items[..|items| - 1]).value, plugin,
                         items[|items| - 1].value);
      }
    }
  }

  /**
    In an accepted run each type is touched at most once by all plugins together, and the view
    is what the collected edits make of the original namespaces.
   */
  lemma {:induction false} RunNamespacesCoherent(original: seq<Namespace>, steps: seq<NamespaceStep>)
    requires forall i :: 0 <= i < |steps| ==> !Marked(steps[i].plugin)
    requires RunNamespaces(StartNamespaces(original), steps).Some?
    ensures NamespacesCoherent(MapOf(original), RunNamespaces(StartNamespaces(original), steps).value)
  {
    if steps != [] {
      var front, step := steps[..|steps| - 1], steps[|steps| - 1];
      RunNamespacesCoherent(original, front);
      MergeNamespacesCoherent(MapOf(original), RunNamespaces(StartNamespaces(original), front).value, step.plugin,
                              step.items);
    }
  }
}
