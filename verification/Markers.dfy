/** Removal markers on keys, and the KEY=VALUE form of environment variables. */
module Markers {
  import opened Prelude

  /** The key without its marker, and whether it was marked. */
  function IsMarkedForRemoval(key: string): (string, bool) {
    if key == "" then ("", false)
    else if key[0] != '-' then (key, false)
    else (key[1..], true)
  }

  function MarkForRemoval(key: string): string {
    "-" + key
  }

  function ClearRemovalMarker(key: string): string {
    if key == "" then ""
    else if key[0] == '-' then key[1..]
    else key
  }

  predicate Marked(key: string) {
    IsMarkedForRemoval(key).1
  }

  /** The key a possibly marked key speaks about. */
  function Bare(key: string): string {
    IsMarkedForRemoval(key).0
  }

  /** Marking is injective, undone by both ways of reading a key, and the only way to be marked. */
  lemma MarkerRoundTrip(key: string)
    ensures IsMarkedForRemoval(MarkForRemoval(key)) == (key, true)
    ensures ClearRemovalMarker(MarkForRemoval(key)) == key
    ensures Marked(key) ==> key == MarkForRemoval(Bare(key))
    ensures !Marked(key) ==> Bare(key) == key
    ensures ClearRemovalMarker(key) == Bare(key)
  {
    assert ("-" + key)[1..] == key;
    if Marked(key) {
      assert key == "-" + key[1..];
    }
  }

  type KeyValue = Entry<string>

  function ToOCI(e: KeyValue): string {
    e.key + "=" + e.value
  }

  /** strings.SplitN(s, "=", 2): the text before the first '=' and, if there is one, the text after it. */
  function Cut(s: string): (r: (string, Option<string>))
    ensures '=' !in r.0
    ensures r.1.None? ==> r.0 == s
    ensures r.1.Some? ==> s == r.0 + "=" + r.1.value
  {
    if s == "" then ("", None)
    else if s[0] == '=' then ("", Some(s[1..]))
    else
      var rest := Cut(s[1..]);
      ([s[0]] + rest.0, rest.1)
  }

  function SplitEnvVar(s: string): KeyValue {
    var (key, value) := Cut(s);
    Entry(key, if value.Some? then value.value else "")
  }

  lemma {:induction false} CutAtFirst(k: string, v: string)
    requires '=' !in k
    ensures Cut(k + "=" + v) == (k, Some(v))
  {
    var s := k + "=" + v;
    if k == "" {
      assert s[1..] == v;
    } else {
      assert s[0] == k[0] && s[1..] == k[1..] + "=" + v;
      CutAtFirst(k[1..], v);
      assert [k[0]] + k[1..] == k;
    }
  }

  /** Printing then splitting a variable gives it back exactly when its name has no '='. */
  lemma EnvRoundTrip(e: KeyValue)
    ensures SplitEnvVar(ToOCI(e)) == e <==> '=' !in e.key
  {
    if '=' !in e.key {
      CutAtFirst(e.key, e.value);
    }
  }

  /** The result of FromOCIEnv, one variable for each entry. */
  function ParsedEnv(env: seq<string>): (r: seq<KeyValue>)
    ensures |r| == |env| && forall i :: 0 <= i < |env| ==> r[i] == SplitEnvVar(env[i])
  {
    seq(|env|, i requires 0 <= i < |env| => SplitEnvVar(env[i]))
  }

  method FromOCIEnv(env: seq<string>) returns (out: seq<KeyValue>)
    ensures out == ParsedEnv(env)
  {
    out := [];
    for i := 0 to |env|
      invariant out == ParsedEnv(env[..i])
    {
      var split := Cut(env[i]);
      var key, val := split.0, "";
      if split.1.Some? {
        val := split.1.value;
      }
      out := out + [Entry(key, val)];
    }
    assert env[..|env|] == env;
  }

  /** Reading back a printed environment loses nothing when no name holds an '='. */
  lemma EnvListRoundTrip(vars: seq<KeyValue>, printed: seq<string>)
    requires |printed| == |vars|
    requires forall i :: 0 <= i < |vars| ==> printed[i] == ToOCI(vars[i]) && '=' !in vars[i].key
    ensures ParsedEnv(printed) == vars
  {
    forall i | 0 <= i < |vars| ensures ParsedEnv(printed)[i] == vars[i] {
      EnvRoundTrip(vars[i]);
    }
  }
}
