/** Folding resource adjustments of any number of plugins: who set what, and why the order does not matter. */
module ResourceRuns {
  import opened Prelude
  import opened Markers
  import opened Owners
  import opened Resources

  datatype ResourceStep = ResourceStep(plugin: string, edits: Edits)

  datatype Adjusting = Adjusting(owners: FieldOwners, reply: Resources, view: Resources)

  function MergeResources(s: Adjusting, step: ResourceStep): Option<Adjusting> {
    var c := ClaimAll(s.owners, Claims(step.edits), step.plugin);
    if !c.ok then None
    else Some(Adjusting(c.owners, Adjusted(step.edits, s.reply), Adjusted(step.edits, s.view)))
  }

  function RunResources(s: Adjusting, steps: seq<ResourceStep>): Option<Adjusting> {
    if steps == [] then Some(s)
    else
      match RunResources(s, steps[..|steps| - 1])
      case None => None
      case Some(s') => MergeResources(s', steps[|steps| - 1])
  }

  function StartResources(original: Resources): Adjusting {
    Adjusting(NO_OWNERS, NO_RESOURCES, original)
  }

  function StepClaims(step: ResourceStep): seq<Key> {
    Claims(step.edits)
  }

  /** Every claim of every plugin. */
  function AllClaims(steps: seq<ResourceStep>): seq<Key> {
    FlatMap(StepClaims, steps)
  }

  ghost predicate OrdinaryNames(steps: seq<ResourceStep>) {
    forall i :: 0 <= i < |steps| ==> !Marked(steps[i].plugin)
  }

  /** Owners and values are those of the plugin that claimed the key; all else is as it was. */
  ghost predicate Traced(original: Resources, s: Adjusting, steps: seq<ResourceStep>) {
    && (forall k :: s.owners.Owner(k).Some? <==> k in AllClaims(steps))
    && (forall k :: s.owners.Owner(k).Some? ==> !Marked(s.owners.Owner(k).value))
    && (forall k :: k !in AllClaims(steps) ==> ValueOf(s.reply, k).None? && ValueOf(s.view, k) == ValueOf(original, k))
    && forall i, k :: 0 <= i < |steps| && k in Claims(steps[i].edits) ==> SetBy(s, steps[i], k)
  }

  predicate SetBy(s: Adjusting, step: ResourceStep, k: Key) {
    && s.owners.Owner(k) == Some(step.plugin)
    && ValueOf(s.reply, k) == EditOf(step.edits, k)
    && ValueOf(s.view, k) == EditOf(step.edits, k)
  }

  lemma NothingHasNoValue(k: Key)
    ensures ValueOf(NO_RESOURCES, k).None?
  {
  }

  lemma MergeTraced(original: Resources, s: Adjusting, front: seq<ResourceStep>, step: ResourceStep)
    requires !Marked(step.plugin) && Traced(original, s, front)
    ensures MergeResources(s, step).Some? <==>
            Distinct(Claims(step.edits)) && forall k :: k in Claims(step.edits) ==> k !in AllClaims(front)
    ensures MergeResources(s, step).Some? ==> Traced(original, MergeResources(s, step).value, front + [step])
  {
    hide Claims, ValueOf, EditOf, Adjusted, ClaimAll;
    var steps := front + [step];
    FlatMapSnoc(StepClaims, front, step);
    ClaimAllIff(s.owners, Claims(step.edits), step.plugin);
    if MergeResources(s, step).Some? {
      var s' := MergeResources(s, step).value;
      forall k ensures ValueOf(s'.reply, k) == Or(EditOf(step.edits, k), ValueOf(s.reply, k)) {
        AdjustedValue(step.edits, s.reply, k);
      }
      forall k ensures ValueOf(s'.view, k) == Or(EditOf(step.edits, k), ValueOf(s.view, k)) {
        AdjustedValue(step.edits, s.view, k);
      }
      forall k ensures k in Claims(step.edits) <==> EditOf(step.edits, k).Some? {
        ClaimsWhatItSets(step.edits, k);
      }
      forall i, k | 0 <= i < |steps| && k in Claims(steps[i].edits) ensures SetBy(s', steps[i], k) {
        if i < |front| {
          assert SetBy(s, front[i], k);
          ClaimsAt(front, i, k);
        }
      }
    }
  }

  lemma ClaimsAt(steps: seq<ResourceStep>, i: nat, k: Key)
    requires i < |steps| && k in Claims(steps[i].edits)
    ensures k in AllClaims(steps)
  {
    InFlatMap(StepClaims, steps, k);
    assert k in StepClaims(steps[i]);
  }

  lemma ClaimedSomewhere(steps: seq<ResourceStep>, k: Key) returns (i: nat)
    requires k in AllClaims(steps)
    ensures i < |steps| && k in Claims(steps[i].edits)
  {
    InFlatMap(StepClaims, steps, k);
    i :| 0 <= i < |steps| && k in StepClaims(steps[i]);
  }

  /**
    All adjustments are accepted if and only if no key is claimed twice. Then each key has the
    owner and the value its plugin gave it, in the reply and in the view alike, and no other key
    is in the reply or changed in the view.
   */
  lemma {:induction false} RunTraced(original: Resources, steps: seq<ResourceStep>)
    requires OrdinaryNames(steps)
    ensures RunResources(StartResources(original), steps).Some? <==> Distinct(AllClaims(steps))
    ensures RunResources(StartResources(original), steps).Some? ==>
              Traced(original, RunResources(StartResources(original), steps).value, steps)
  {
    hide MergeResources, Traced, Distinct, FlatMap, ValueOf;
    if steps == [] {
      NothingTraced(original);
    } else {
      var front, step := steps[..|steps| - 1], steps[|steps| - 1];
      RunTraced(original, front);
      DistinctConcat(AllClaims(front), Claims(step.edits));
      assert front + [step] == steps;
      FlatMapSnoc(StepClaims, front, step);
      if RunResources(StartResources(original), front).Some? {
        MergeTraced(original, RunResources(StartResources(original), front).value, front, step);
      }
    }
  }

  lemma NothingTraced(original: Resources)
    ensures Distinct(AllClaims([])) && Traced(original, StartResources(original), [])
  {
    hide ValueOf;
    forall k ensures ValueOf(NO_RESOURCES, k).None? {
      NothingHasNoValue(k);
    }
  }

  /**
    The order of the plugins decides neither whether the adjustments are accepted nor, when
    they are, any value in the reply or the view, nor any owner.
   */
  lemma OrderDoesNotMatter(original: Resources, steps: seq<ResourceStep>, other: seq<ResourceStep>)
    requires OrdinaryNames(steps) && multiset(steps) == multiset(other)
    ensures RunResources(StartResources(original), steps).Some? <==> RunResources(StartResources(original), other).Some?
    ensures RunResources(StartResources(original), steps).Some? ==>
              var s := RunResources(StartResources(original), steps).value;
              var t := RunResources(StartResources(original), other).value;
              forall k :: ValueOf(s.reply, k) == ValueOf(t.reply, k) && ValueOf(s.view, k) == ValueOf(t.view, k) &&
                          s.owners.Owner(k) == t.owners.Owner(k)
  {
    forall i | 0 <= i < |other| ensures !Marked(other[i].plugin) {
      assert other[i] in multiset(steps);
    }
    RunTraced(original, steps);
    RunTraced(original, other);
    FlatMapPermuted(StepClaims, steps, other);
    DistinctMultiset(AllClaims(steps));
    DistinctMultiset(AllClaims(other));
    assert forall k :: k in AllClaims(steps) <==> k in multiset(AllClaims(steps));
    assert forall k :: k in AllClaims(other) <==> k in multiset(AllClaims(other));
    if RunResources(StartResources(original), steps).Some? {
      var s := RunResources(StartResources(original), steps).value;
      var t := RunResources(StartResources(original), other).value;
      forall k
        ensures ValueOf(s.reply, k) == ValueOf(t.reply, k) && ValueOf(s.view, k) == ValueOf(t.view, k) &&
                s.owners.Owner(k) == t.owners.Owner(k)
      {
        if k in AllClaims(steps) {
          var i := ClaimedSomewhere(steps, k);
          assert steps[i] in multiset(other);
          var j :| 0 <= j < |other| && other[j] == steps[i];
          assert SetBy(s, steps[i], k) && SetBy(t, other[j], k);
        }
      }
    }
  }

  /** The same, for the parts of the resources themselves. */
  lemma OrderKeepsResources(original: Resources, steps: seq<ResourceStep>, other: seq<ResourceStep>)
    requires OrdinaryNames(steps) && multiset(steps) == multiset(other)
    ensures var s := RunResources(StartResources(original), steps);
            var t := RunResources(StartResources(original), other);
            s.Some? ==> t.Some? && SameBySize(s.value.reply, t.value.reply) && SameBySize(s.value.view, t.value.view)
  {
    OrderDoesNotMatter(original, steps, other);
    if RunResources(StartResources(original), steps).Some? {
      var s := RunResources(StartResources(original), steps).value;
      var t := RunResources(StartResources(original), other).value;
      SameValues(s.reply, t.reply);
      SameValues(s.view, t.view);
    }
  }

  /** Equal but for the order of device rules and of hugepage limits, which are compared by page size. */
  ghost predicate SameBySize(r: Resources, t: Resources) {
    r.(hugepages := [], devices := []) == t.(hugepages := [], devices := []) &&
    KeyedLists.MapOf(r.hugepages) == KeyedLists.MapOf(t.hugepages)
  }
}
