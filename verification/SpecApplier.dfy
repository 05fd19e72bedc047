/** The generator's methods that apply a collected adjustment to an OCI Spec in place. */
module SpecApplier {
  import opened Prelude
  import opened Markers
  import opened MountOrder
  import opened NamespaceMerge
  import opened CreateRuns
  import opened SpecEdits

  class Generator {
    var mounts: seq<Mount>
    var env: seq<string>
    var devices: seq<Device>
    var namespaces: seq<Namespace>

    constructor (o: Original)
      ensures mounts == o.mounts && env == o.env && devices == o.devices && namespaces == o.namespaces
    {
      mounts, env, devices, namespaces := o.mounts, o.env, o.devices, o.namespaces;
    }

    method RemoveMount(destination: string)
      modifies this`mounts
      ensures mounts == RemoveFirst(old(mounts), destination)
    {
      for i := 0 to |mounts|
        invariant mounts == old(mounts)
        invariant forall j :: 0 <= j < i ==> mounts[j].key != destination
      {
        if mounts[i].key == destination {
          assert mounts == mounts[..i] + [mounts[i]] + mounts[i + 1..];
          RemoveFirstAt(mounts[..i], mounts[i], mounts[i + 1..]);
          mounts := mounts[..i] + mounts[i + 1..];
          return;
        }
      }
      RemoveFirstMissing(mounts, destination);
    }

    /** Replays the collected mounts; sorting them at the end is left to the sort library. */
    method AdjustMounts(adjusted: seq<Mount>)
      modifies this`mounts
      ensures mounts == AdjustedMounts(old(mounts), adjusted)
    {
      hide RemoveFirst, Sorted;
      if |adjusted| == 0 {
        return;
      }
      for i := 0 to |adjusted|
        invariant mounts == Replayed(old(mounts), adjusted[..i])
      {
        assert adjusted[..i + 1][..i] == adjusted[..i];
        var m := adjusted[i];
        var (destination, marked) := IsMarkedForRemoval(m.key);
        if marked {
          RemoveMount(destination);
          continue;
        }
        RemoveMount(m.key);
        mounts := mounts + [m];
      }
      assert adjusted[..|adjusted|] == adjusted;
      mounts := Sorted(mounts);
    }

    method RemoveDevice(path: string)
      modifies this`devices
      ensures devices == RemoveFirst(old(devices), path)
    {
      for i := 0 to |devices|
        invariant devices == old(devices)
        invariant forall j :: 0 <= j < i ==> devices[j].key != path
      {
        if devices[i].key == path {
          assert devices == devices[..i] + [devices[i]] + devices[i + 1..];
          RemoveFirstAt(devices[..i], devices[i], devices[i + 1..]);
          devices := devices[..i] + devices[i + 1..];
          return;
        }
      }
      RemoveFirstMissing(devices, path);
    }

    method AdjustDevices(adjusted: seq<Device>)
      modifies this`devices
      ensures devices == Replayed(old(devices), adjusted)
    {
      hide RemoveFirst;
      for i := 0 to |adjusted|
        invariant devices == Replayed(old(devices), adjusted[..i])
      {
        assert adjusted[..i + 1][..i] == adjusted[..i];
        var d := adjusted[i];
        var (key, marked) := IsMarkedForRemoval(d.key);
        MarkerRoundTrip(d.key);
        RemoveDevice(key);
        if marked {
          continue;
        }
        devices := devices + [d];
      }
      assert adjusted[..|adjusted|] == adjusted;
    }

    method AdjustEnv(adjusted: seq<KeyValue>)
      modifies this`env
      ensures env == AdjustedEnv(old(env), adjusted)
    {
      hide SetVar;
      var mod: map<string, KeyValue> := map[];
      for i := 0 to |adjusted|
        invariant mod == Wanted(adjusted[..i])
      {
        assert adjusted[..i + 1][..i] == adjusted[..i];
        mod := mod[Bare(adjusted[i].key) := adjusted[i]];
      }
      assert adjusted[..|adjusted|] == adjusted;
      if |mod| > 0 {
        mod := ModifyExisting(mod);
      }
      ghost var p := Pass(env, mod);
      for i := 0 to |adjusted|
        invariant env == SecondPass(p, adjusted[..i])
      {
        assert adjusted[..i + 1][..i] == adjusted[..i];
        var e := adjusted[i];
        if Marked(e.key) {
          continue;
        }
        if e.key in mod {
          env := SetVar(env, e.key, e.value);
        }
      }
    }

    /** Goes through the old environment; returns what was not found in it. */
    method ModifyExisting(wanted: map<string, KeyValue>) returns (mod: map<string, KeyValue>)
      modifies this`env
      ensures Pass(env, mod) == FirstPass(old(env), wanted)
    {
      hide SetVar;
      var before := env;
      mod, env := wanted, [];
      for i := 0 to |before|
        invariant Pass(env, mod) == FirstPass(before[..i], wanted)
      {
        assert before[..i + 1][..i] == before[..i];
        var keyval := Cut(before[i]);
        if keyval.1.None? {
          continue;
        }
        if keyval.0 in mod {
          var m := mod[keyval.0];
          mod := mod - {keyval.0};
          if !Marked(m.key) {
            env := SetVar(env, m.key, m.value);
          }
          continue;
        }
        env := SetVar(env, keyval.0, keyval.1.value);
      }
      assert before[..|before|] == before;
    }

    /** Fails at the first type that is not known, leaving the edits before it in place. */
    method AdjustNamespaces(known: string -> bool, adjusted: seq<Namespace>) returns (ok: bool)
      modifies this`namespaces
      ensures var r := AdjustedNamespaces(known, old(namespaces), adjusted);
              ok == r.Some? && (ok ==> namespaces == r.value)
    {
      for i := 0 to |adjusted|
        invariant AdjustedNamespaces(known, old(namespaces), adjusted[..i]) == Some(namespaces)
      {
        NamespacesStop(known, old(namespaces), adjusted, i + 1);
        assert adjusted[..i + 1][..i] == adjusted[..i];
        var n := adjusted[i];
        var (key, marked) := IsMarkedForRemoval(n.key);
        MarkerRoundTrip(n.key);
        if !known(key) {
          return false;
        }
        if marked {
          namespaces := RemoveFirst(namespaces, key);
        } else {
          namespaces := Replace(namespaces, n);
        }
      }
      assert adjusted[..|adjusted|] == adjusted;
      ok := true;
    }

    /**
      The adjustments of the kinds modelled, in the order they are applied; mounts are left alone if a namespace
      fails.
     */
    method Adjust(known: string -> bool, env: seq<KeyValue>, devices: seq<Device>, namespaces: seq<Namespace>,
                  mounts: seq<Mount>)
      returns (ok: bool)
      modifies this
      ensures ok == AdjustedNamespaces(known, old(this.namespaces), namespaces).Some?
      ensures this.env == AdjustedEnv(old(this.env), env) && this.devices == Replayed(old(this.devices), devices)
      ensures ok ==> Some(this.namespaces) == AdjustedNamespaces(known, old(this.namespaces), namespaces) &&
                     this.mounts == AdjustedMounts(old(this.mounts), mounts)
      ensures !ok ==> this.mounts == old(this.mounts)
    {
      hide *;
      AdjustEnv(env);
      AdjustDevices(devices);
      ok := AdjustNamespaces(known, namespaces);
      if ok {
        AdjustMounts(mounts);
      }
    }
  }

  lemma {:induction false} NamespacesStop(known: string -> bool, original: seq<Namespace>, edits: seq<Namespace>,
                                          k: nat)
    requires k <= |edits|
    ensures AdjustedNamespaces(known, original, edits[..k]).None? ==> AdjustedNamespaces(known, original, edits).None?
    decreases |edits| - k
  {
    if k == |edits| {
      assert edits[..k] == edits;
    } else {
      assert edits[..k + 1][..k] == edits[..k];
      NamespacesStop(known, original, edits, k + 1);
    }
  }
}
