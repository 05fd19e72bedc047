/** Small value types and sequence facts shared by the other modules. */
module Prelude {

  datatype Option<+T> = None | Some(value: T)

  /** An item of a list that is looked up by key: a mount, a device or an environment variable. */
  datatype Entry<+T> = Entry(key: string, value: T)

  function Lookup<K, V>(m: map<K, V>, k: K): Option<V> {
    if k in m then Some(m[k]) else None
  }

  /** The first option if it is set, else the second: how an optional field overrides another. */
  function Or<T>(a: Option<T>, b: Option<T>): Option<T> {
    if a.Some? then a else b
  }

  ghost predicate Distinct<T>(s: seq<T>) {
    forall i, j :: 0 <= i < j < |s| ==> s[i] != s[j]
  }

  lemma {:induction false} DistinctMultiset<T>(s: seq<T>)
    ensures Distinct(s) <==> forall x :: x in s ==> multiset(s)[x] == 1
  {
    if s != [] {
      var front, last := s[..|s| - 1], s[|s| - 1];
      assert s == front + [last];
      DistinctMultiset(front);
      assert Distinct(s) <==> Distinct(front) && last !in front by {
        DistinctConcat(front, [last]);
      }
      assert forall x :: multiset(s)[x] == multiset(front)[x] + if x == last then 1 else 0;
      assert last in s && (last in front <==> multiset(front)[last] > 0);
      assert forall x :: x in front ==> x in s;
    }
  }

  lemma DistinctConcat<T>(a: seq<T>, b: seq<T>)
    ensures Distinct(a + b) <==> Distinct(a) && Distinct(b) && forall x :: x in a ==> x !in b
  {
    var s := a + b;
    if Distinct(s) {
      forall i, j | 0 <= i < j < |a| ensures a[i] != a[j] { assert s[i] != s[j]; }
      forall i, j | 0 <= i < j < |b| ensures b[i] != b[j] { assert s[|a| + i] != s[|a| + j]; }
      forall i, j | 0 <= i < |a| && 0 <= j < |b| ensures a[i] != b[j] { assert s[i] != s[|a| + j]; }
    }
    if Distinct(a) && Distinct(b) && forall x :: x in a ==> x !in b {
      forall i, j | 0 <= i < j < |s| ensures s[i] != s[j] {
        if j >= |a| {
          assert s[j] == b[j - |a|];
          assert i < |a| ==> s[i] in a;
        }
      }
    }
  }

  lemma TakeOut<T>(s: seq<T>, x: T) returns (a: seq<T>, b: seq<T>)
    requires x in multiset(s)
    ensures s == a + [x] + b
    ensures multiset(a + b) == multiset(s) - multiset{x}
  {
    var i :| 0 <= i < |s| && s[i] == x;
    a, b := s[..i], s[i + 1..];
    assert s == a + [x] + b;
    assert multiset(s) == multiset(a) + multiset{x} + multiset(b);
  }

  /** What all items of a list give, one after the other. */
  function FlatMap<S, T>(f: S -> seq<T>, s: seq<S>): seq<T> {
    if s == [] then [] else FlatMap(f, s[..|s| - 1]) + f(s[|s| - 1])
  }

  lemma FlatMapSnoc<S, T>(f: S -> seq<T>, s: seq<S>, x: S)
    ensures FlatMap(f, s + [x]) == FlatMap(f, s) + f(x)
  {
    assert (s + [x])[..|s|] == s;
  }

  lemma {:induction false} FlatMapConcat<S, T>(f: S -> seq<T>, a: seq<S>, b: seq<S>)
    ensures FlatMap(f, a + b) == FlatMap(f, a) + FlatMap(f, b)
    decreases |b|
  {
    if b == [] {
      assert a + b == a;
    } else {
      FlatMapConcat(f, a, b[..|b| - 1]);
      assert (a + b)[..|a + b| - 1] == a + b[..|b| - 1];
    }
  }

  lemma {:induction false} InFlatMap<S, T>(f: S -> seq<T>, s: seq<S>, x: T)
    ensures x in FlatMap(f, s) <==> exists i :: 0 <= i < |s| && x in f(s[i])
  {
    if s != [] {
      InFlatMap(f, s[..|s| - 1], x);
      assert s == s[..|s| - 1] + [s[|s| - 1]];
    }
  }

  /** The order of the items does not matter to what they give together. */
  lemma {:induction false} FlatMapPermuted<S, T>(f: S -> seq<T>, s: seq<S>, t: seq<S>)
    requires multiset(s) == multiset(t)
    ensures multiset(FlatMap(f, s)) == multiset(FlatMap(f, t))
    decreases |s|
  {
    if s == [] {
      assert |t| == |multiset(t)|;
    } else {
      var front, last := s[..|s| - 1], s[|s| - 1];
      assert s == front + [last];
      assert multiset(s) == multiset(front) + multiset{last};
      var a, b := TakeOut(t, last);
      FlatMapPermuted(f, front, a + b);
      FlatMapConcat(f, a, b);
      FlatMapConcat(f, a + [last], b);
      FlatMapSnoc(f, a, last);
    }
  }

  lemma {:induction false} FlatMapOfOnes<S, T>(f: S -> seq<T>, s: seq<S>, images: seq<T>)
    requires |images| == |s| && forall i :: 0 <= i < |s| ==> f(s[i]) == [images[i]]
    ensures FlatMap(f, s) == images
  {
    if s != [] {
      FlatMapOfOnes(f, s[..|s| - 1], images[..|s| - 1]);
    }
  }

  /** A permutation of the items is a permutation of their images. */
  lemma ImagesPermuted<S, T>(f: S -> seq<T>, s: seq<S>, t: seq<S>, fs: seq<T>, ft: seq<T>)
    requires multiset(s) == multiset(t)
    requires |fs| == |s| && forall i :: 0 <= i < |s| ==> f(s[i]) == [fs[i]]
    requires |ft| == |t| && forall i :: 0 <= i < |t| ==> f(t[i]) == [ft[i]]
    ensures multiset(fs) == multiset(ft)
  {
    FlatMapOfOnes(f, s, fs);
    FlatMapOfOnes(f, t, ft);
    FlatMapPermuted(f, s, t);
  }
}
