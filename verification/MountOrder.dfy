/**
  The order in which mounts are put into the OCI Spec: by the number of parts of the cleaned
  destination, then by destination. A mount must come after all mounts on directories above it.
 */
module MountOrder {
  import opened Prelude
  import opened KeyedLists

  function Count(c: char, s: string): nat {
    if s == "" then 0 else (if s[0] == c then 1 else 0) + Count(c, s[1..])
  }

  function Elements(path: string): seq<string>
    ensures |Elements(path)| > 0
  {
    if path == "" then [""]
    else
      var rest := Elements(path[1..]);
      if path[0] == '/' then [""] + rest else [[path[0]] + rest[0]] + rest[1..]
  }

  /** Drops empty and "." elements and resolves ".." against the element before it. */
  function Resolve(elements: seq<string>, rooted: bool): seq<string> {
    if elements == [] then []
    else Follow(Resolve(elements[..|elements| - 1], rooted), elements[|elements| - 1], rooted)
  }

  function Follow(front: seq<string>, e: string, rooted: bool): seq<string> {
    if e == "" || e == "." then front
    else if e != ".." then front + [e]
    else if front != [] && front[|front| - 1] != ".." then front[..|front| - 1]
    else if rooted then front
    else front + [e]
  }

  function Join(elements: seq<string>): string {
    if elements == [] then ""
    else if |elements| == 1 then elements[0]
    else elements[0] + "/" + Join(elements[1..])
  }

  /** filepath.Clean. */
  function Clean(path: string): string {
    var rooted := path != "" && path[0] == '/';
    var body := Join(Resolve(Elements(path), rooted));
    if rooted then "/" + body
    else if body == "" then "."
    else body
  }

  // ---------------------------------------------------------------- what cleaning does to a path

  /** A list of elements, none of which holds a separator, as a path. */
  function Path(elements: seq<string>, rooted: bool): string {
    if rooted then "/" + Join(elements) else Join(elements)
  }

  ghost predicate Separated(elements: seq<string>) {
    forall e :: e in elements ==> '/' !in e
  }

  /** An element that stands for itself. */
  predicate Ordinary(e: string) {
    e != "" && e != "." && e != ".."
  }

  lemma {:induction false} ElementsAfter(e: string, rest: string)
    requires '/' !in e
    ensures Elements(e + "/" + rest) == [e] + Elements(rest)
  {
    if e == "" {
      assert (e + "/" + rest)[1..] == rest;
    } else {
      assert (e + "/" + rest)[1..] == e[1..] + "/" + rest;
      ElementsAfter(e[1..], rest);
      assert [e[0]] + e[1..] == e;
    }
  }

  lemma {:induction false} ElementsOfOne(e: string)
    requires '/' !in e
    ensures Elements(e) == [e]
  {
    if e != "" {
      ElementsOfOne(e[1..]);
      assert [e[0]] + e[1..] == e;
    }
  }

  lemma {:induction false} ElementsOfJoin(elements: seq<string>)
    requires elements != [] && Separated(elements)
    ensures Elements(Join(elements)) == elements
  {
    if |elements| == 1 {
      ElementsOfOne(elements[0]);
    } else {
      ElementsOfJoin(elements[1..]);
      ElementsAfter(elements[0], Join(elements[1..]));
    }
  }

  /** What comes later does not see how the elements before it were written. */
  lemma {:induction false} ResolveSame(a: seq<string>, b: seq<string>, rest: seq<string>, rooted: bool)
    requires Resolve(a, rooted) == Resolve(b, rooted)
    ensures Resolve(a + rest, rooted) == Resolve(b + rest, rooted)
    decreases |rest|
  {
    if rest == [] {
      assert a + rest == a && b + rest == b;
    } else {
      var front := rest[..|rest| - 1];
      ResolveSame(a, b, front, rooted);
      assert (a + rest)[..|a + rest| - 1] == a + front && (b + rest)[..|b + rest| - 1] == b + front;
      hide Follow;
    }
  }

  lemma ResolveSnoc(a: seq<string>, e: string, rooted: bool)
    ensures Resolve(a + [e], rooted) == Follow(Resolve(a, rooted), e, rooted)
  {
    hide Follow;
    assert (a + [e])[..|a|] == a;
  }

  /** Nothing but leading ".." of a relative path is left besides ordinary elements. */
  lemma {:induction false} ResolvedElements(elements: seq<string>, rooted: bool)
    ensures forall e :: e in Resolve(elements, rooted) ==> e != "" && e != "." && (e == ".." ==> !rooted)
    decreases |elements|
  {
    if elements != [] {
      var front, e := Resolve(elements[..|elements| - 1], rooted), elements[|elements| - 1];
      ResolvedElements(elements[..|elements| - 1], rooted);
      forall x | x in Follow(front, e, rooted) ensures x in front || (x == e && e != "" && e != ".") {
      }
    }
  }

  lemma JoinEmpty(elements: seq<string>)
    requires forall e :: e in elements ==> e != ""
    ensures Join(elements) == "" <==> elements == []
  {
    if elements != [] {
      assert elements[0] in elements;
    }
  }

  /** A path is cleaned element by element. */
  lemma CleanPath(elements: seq<string>, rooted: bool)
    requires elements != [] && Separated(elements) && (!rooted ==> elements[0] != "")
    ensures var kept := Resolve(elements, rooted);
            Clean(Path(elements, rooted)) == if rooted || kept != [] then Path(kept, rooted) else "."
  {
    hide Resolve, Elements;
    var path := Path(elements, rooted);
    ElementsOfJoin(elements);
    ResolvedElements(elements, rooted);
    JoinEmpty(Resolve(elements, rooted));
    if rooted {
      ElementsAfter("", Join(elements));
      assert "" + "/" + Join(elements) == path;
      LeadingEmpty(elements, rooted);
    } else {
      assert path[0] == elements[0][0];
      assert elements[0][0] in elements[0];
    }
  }

  lemma LeadingEmpty(elements: seq<string>, rooted: bool)
    ensures Resolve([""] + elements, rooted) == Resolve(elements, rooted)
  {
    assert [""][..0] == [] && [] + elements == elements;
    ResolveSame([""], [], elements, rooted);
  }

  lemma {:induction false} ResolveOrdinary(elements: seq<string>, rooted: bool)
    requires forall e :: e in elements ==> Ordinary(e)
    ensures Resolve(elements, rooted) == elements
    decreases |elements|
  {
    if elements != [] {
      var front, e := elements[..|elements| - 1], elements[|elements| - 1];
      assert elements == front + [e] && e in elements;
      ResolveOrdinary(front, rooted);
    }
  }

  lemma {:induction false} CountOfJoin(elements: seq<string>)
    requires elements != [] && Separated(elements)
    ensures Count('/', Join(elements)) == |elements| - 1
  {
    if |elements| == 1 {
      CountNone(elements[0]);
    } else {
      CountNone(elements[0]);
      CountOfJoin(elements[1..]);
      assert Count('/', "/") == 1;
      CountConcat('/', elements[0], "/");
      CountConcat('/', elements[0] + "/", Join(elements[1..]));
    }
  }

  lemma {:induction false} CountNone(e: string)
    requires '/' !in e
    ensures Count('/', e) == 0
  {
    if e != "" {
      CountNone(e[1..]);
    }
  }

  /** A path of ordinary elements is clean; an absolute one has as many parts as elements. */
  lemma OrdinaryIsClean(elements: seq<string>, rooted: bool)
    requires elements != [] && Separated(elements) && forall e :: e in elements ==> Ordinary(e)
    ensures Clean(Path(elements, rooted)) == Path(elements, rooted)
    ensures Parts(Path(elements, rooted)) == if rooted then |elements| else |elements| - 1
  {
    assert elements[0] in elements;
    CleanPath(elements, rooted);
    ResolveOrdinary(elements, rooted);
    CountOfJoin(elements);
    assert Count('/', "/") == 1;
    CountConcat('/', "/", Join(elements));
  }

  /**
    Cleaning does not see empty elements, "." elements, an ordinary element taken back by "..", or ".."
    at the root. Whatever is left once these are gone is ordinary and stays, but for ".." that lead out
    of a relative path.
   */
  lemma CleaningRules(a: seq<string>, x: string, b: seq<string>)
    requires Separated(a) && Separated(b) && '/' !in x && a != [] && a[0] != ""
    ensures forall rooted :: Clean(Path(a + [""] + b, rooted)) == Clean(Path(a + b, rooted))
    ensures forall rooted :: Clean(Path(a + ["."] + b, rooted)) == Clean(Path(a + b, rooted))
    ensures forall rooted :: Ordinary(x) ==> Clean(Path(a + [x, ".."] + b, rooted)) == Clean(Path(a + b, rooted))
    ensures Clean(Path([".."] + a, true)) == Clean(Path(a, true))
  {
    forall rooted
      ensures Clean(Path(a + [""] + b, rooted)) == Clean(Path(a + b, rooted))
      ensures Clean(Path(a + ["."] + b, rooted)) == Clean(Path(a + b, rooted))
      ensures Ordinary(x) ==> Clean(Path(a + [x, ".."] + b, rooted)) == Clean(Path(a + b, rooted))
    {
      SameWithout(a, x, b, rooted);
      hide Clean, Path, Resolve;
      CleanPath(a + b, rooted);
      CleanPath(a + [""] + b, rooted);
      CleanPath(a + ["."] + b, rooted);
      CleanPath(a + [x, ".."] + b, rooted);
    }
    hide Clean, Path, Resolve;
    CleanPath(a, true);
    CleanPath([".."] + a, true);
    NothingAboveRoot(a);
  }

  lemma NothingAboveRoot(a: seq<string>)
    ensures Resolve([".."] + a, true) == Resolve(a, true)
  {
    assert [".."][..0] == [] && [] + a == a;
    ResolveSame([".."], [], a, true);
  }

  lemma SameWithout(a: seq<string>, x: string, b: seq<string>, rooted: bool)
    ensures Resolve(a + [""] + b, rooted) == Resolve(a + b, rooted) == Resolve(a + ["."] + b, rooted)
    ensures Ordinary(x) ==> Resolve(a + [x, ".."] + b, rooted) == Resolve(a + b, rooted)
  {
    hide Resolve;
    ResolveSnoc(a, "", rooted);
    ResolveSnoc(a, ".", rooted);
    ResolveSnoc(a, x, rooted);
    ResolveSnoc(a + [x], "..", rooted);
    assert a + [x] + [".."] == a + [x, ".."];
    ResolveSame(a + [""], a, b, rooted);
    ResolveSame(a + ["."], a, b, rooted);
    if Ordinary(x) {
      ResolveSame(a + [x, ".."], a, b, rooted);
    }
  }

  /** String comparison, character by character. */
  predicate LexLess(a: string, b: string) {
    b != "" && (a == "" || a[0] < b[0] || (a[0] == b[0] && LexLess(a[1..], b[1..])))
  }

  function Parts(destination: string): nat {
    Count('/', Clean(destination))
  }

  predicate Less(a: string, b: string) {
    Parts(a) < Parts(b) || (Parts(a) == Parts(b) && LexLess(a, b))
  }

  lemma {:induction false} LexOrder(a: string, b: string, c: string)
    ensures !LexLess(a, a)
    ensures LexLess(a, b) && LexLess(b, c) ==> LexLess(a, c)
    ensures LexLess(a, b) || LexLess(b, a) || a == b
  {
    if a != "" && b != "" {
      LexOrder(a[1..], b[1..], if c == "" then c else c[1..]);
      assert a == [a[0]] + a[1..] && b == [b[0]] + b[1..];
    } else if a != "" {
      LexOrder(a[1..], a[1..], a[1..]);
    }
  }

  /** The strings agree up to some place, where the first one ends or has the smaller character. */
  ghost predicate DifferAt(a: string, b: string, k: nat) {
    k < |b| && k <= |a| && a[..k] == b[..k] && (k == |a| || a[k] < b[k])
  }

  lemma {:induction false} LexIsFirstDifference(a: string, b: string)
    ensures LexLess(a, b) <==> exists k: nat :: DifferAt(a, b, k)
  {
    if a == "" || b == "" || a[0] != b[0] {
      assert LexLess(a, b) ==> DifferAt(a, b, 0);
    } else {
      LexIsFirstDifference(a[1..], b[1..]);
      forall k: nat | DifferAt(a[1..], b[1..], k) ensures DifferAt(a, b, k + 1) {
        assert a[..k + 1] == [a[0]] + a[1..][..k] && b[..k + 1] == [b[0]] + b[1..][..k];
      }
      forall k: nat | DifferAt(a, b, k) ensures k > 0 && DifferAt(a[1..], b[1..], k - 1) {
        assert a[1..][..k - 1] == a[..k][1..] && b[1..][..k - 1] == b[..k][1..];
      }
    }
  }

  /** Less is a strict total order on destinations. */
  lemma LessOrder(a: string, b: string, c: string)
    ensures !Less(a, a)
    ensures Less(a, b) && Less(b, c) ==> Less(a, c)
    ensures Less(a, b) || Less(b, a) || a == b
  {
    LexOrder(a, b, c);
  }

  /** No mount is less than one before it: what sort.Sort establishes. */
  ghost predicate Ordered<T>(s: seq<Entry<T>>) {
    forall i, j :: 0 <= i < j < |s| ==> !Less(s[j].key, s[i].key)
  }

  function Insert<T>(s: seq<Entry<T>>, m: Entry<T>): seq<Entry<T>> {
    if s == [] then [m]
    else if Less(m.key, s[|s| - 1].key) then Insert(s[..|s| - 1], m) + [s[|s| - 1]]
    else s + [m]
  }

  function Sorted<T>(s: seq<Entry<T>>): seq<Entry<T>> {
    if s == [] then [] else Insert(Sorted(s[..|s| - 1]), s[|s| - 1])
  }

  lemma {:induction false} InsertOrdered<T>(s: seq<Entry<T>>, m: Entry<T>)
    requires Ordered(s)
    ensures multiset(Insert(s, m)) == multiset(s) + multiset{m}
    ensures Ordered(Insert(s, m))
  {
    hide Less;
    if s != [] {
      var front, last := s[..|s| - 1], s[|s| - 1];
      assert s == front + [last];
      if Less(m.key, last.key) {
        InsertOrdered(front, m);
        var r := Insert(front, m);
        forall i | 0 <= i < |r| ensures !Less(last.key, r[i].key) {
          assert r[i] in multiset(r);
          LessOrder(m.key, last.key, m.key);
          if r[i] != m {
            assert r[i] in multiset(front);
          }
        }
      } else {
        forall i | 0 <= i < |s| ensures !Less(m.key, s[i].key) {
          LessOrder(m.key, s[i].key, last.key);
          LessOrder(last.key, m.key, s[i].key);
        }
      }
    }
  }

  /** Sorting orders the mounts and neither adds, drops nor changes one. */
  lemma {:induction false} SortedIsOrdered<T>(s: seq<Entry<T>>)
    ensures Ordered(Sorted(s)) && multiset(Sorted(s)) == multiset(s)
  {
    hide Less;
    if s != [] {
      var front, last := s[..|s| - 1], s[|s| - 1];
      assert s == front + [last];
      SortedIsOrdered(front);
      InsertOrdered(Sorted(front), last);
    }
  }

  lemma SameHead<T>(s: seq<Entry<T>>, t: seq<Entry<T>>)
    requires s != [] && t != [] && multiset(s) == multiset(t) && Ordered(s) && Ordered(t) && DistinctKeys(s)
    ensures s[0] == t[0]
  {
    hide Less;
    assert s[0] in multiset(t) && t[0] in multiset(s);
    var i :| 0 <= i < |t| && t[i] == s[0];
    var j :| 0 <= j < |s| && s[j] == t[0];
    LessOrder(s[0].key, t[0].key, s[0].key);
  }

  lemma SameTail<T>(s: seq<Entry<T>>)
    requires s != []
    ensures multiset(s[1..]) == multiset(s) - multiset{s[0]}
    ensures Ordered(s) ==> Ordered(s[1..])
    ensures DistinctKeys(s) ==> DistinctKeys(s[1..])
  {
    hide Less;
    assert s == [s[0]] + s[1..];
    assert forall i :: 0 <= i < |s[1..]| ==> s[1..][i] == s[i + 1];
  }

  /** Whatever the sorting algorithm, distinct destinations leave it only one result. */
  lemma {:induction false} OneOrder<T>(s: seq<Entry<T>>, t: seq<Entry<T>>)
    requires multiset(s) == multiset(t) && Ordered(s) && Ordered(t) && DistinctKeys(s)
    ensures s == t
  {
    hide Less;
    assert |s| == |multiset(s)| == |multiset(t)| == |t|;
    if s != [] {
      SameHead(s, t);
      SameTail(s);
      SameTail(t);
      OneOrder(s[1..], t[1..]);
      assert s == [s[0]] + s[1..] && t == [t[0]] + t[1..];
    }
  }

  /** The directory lies above the path; both are absolute. */
  predicate Above(dir: string, path: string) {
    if dir == "/" then path != "/" && "/" <= path else dir + "/" <= path
  }

  lemma {:induction false} CountConcat(c: char, a: string, b: string)
    ensures Count(c, a + b) == Count(c, a) + Count(c, b)
  {
    if a == "" {
      assert a + b == b;
    } else {
      assert (a + b)[1..] == a[1..] + b;
      CountConcat(c, a[1..], b);
    }
  }

  lemma PrefixCount(a: string, b: string)
    requires a <= b
    ensures Count('/', a) <= Count('/', b)
  {
    assert b == a + b[|a|..];
    CountConcat('/', a, b[|a|..]);
  }

  /**
    A mount precedes a mount below it, with one exception: the root directory and a path of a
    single element have the same number of parts, so these two compare by their spelling.
   */
  lemma ParentsFirst(a: string, b: string)
    requires Above(Clean(a), Clean(b))
    ensures Less(a, b) <==> Clean(a) != "/" || Parts(b) > 1 || LexLess(a, b)
  {
    assert Count('/', "/") == 1;
    if Clean(a) != "/" {
      CountConcat('/', Clean(a), "/");
      PrefixCount(Clean(a) + "/", Clean(b));
    } else {
      PrefixCount("/", Clean(b));
    }
  }

  /** For clean destinations there is no exception: every mount comes after all mounts above it. */
  lemma ParentsFirstWhenClean<T>(s: seq<Entry<T>>, i: nat, j: nat)
    requires Ordered(s) && i < |s| && j < |s|
    requires Clean(s[i].key) == s[i].key && Clean(s[j].key) == s[j].key
    requires Above(s[i].key, s[j].key)
    ensures i < j
  {
    var a, b := s[i].key, s[j].key;
    ParentsFirst(a, b);
    if a == "/" {
      assert b[0] == '/' && b != "/";
      assert LexLess(a[1..], b[1..]);
    }
    LessOrder(a, b, a);
  }

  /** An unclean spelling of the root can end up after a mount below it. */
  lemma UncleanRootComesLast()
    ensures Above(Clean("/."), Clean("/!")) && Less("/!", "/.")
  {
    CleanPath(["."], true);
    ResolveSnoc([], ".", true);
    assert [] + ["."] == ["."];
    OrdinaryIsClean(["!"], true);
    assert Path(["."], true) == "/." && Path(["!"], true) == "/!" && Path([], true) == "/";
    hide Clean;
    assert Count('/', "/") == 1;
    assert "/!"[1..] == "!" && "/."[1..] == ".";
    assert LexLess("!", ".");
  }
}
