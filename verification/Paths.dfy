/**
 Path strings and the names they resolve to.

 A path string is a C string; a canonical path is the sequence of component names below the root.
 Which place a string names, and through which directories it leads there, is a function of the working
 directory and the string alone, as long as none of these is a symbolic link.
 */
module Paths {

  /** Component names from the root downwards; the root itself is the empty sequence. */
  type Path = seq<string>

  const MAX_PATHLEN: nat := 1024

  function Parent(p: Path): Path
    requires p != []
  {
    p[..|p| - 1]
  }

  /** Number of characters before the first slash, or all of them. */
  function FirstSlash(s: string): (k: nat)
    ensures k <= |s|
    ensures forall i :: 0 <= i < k ==> s[i] != '/'
    ensures k < |s| ==> s[k] == '/'
  {
    if s == "" || s[0] == '/' then 0 else 1 + FirstSlash(s[1..])
  }

  /** The non-empty stretches of `s` between slashes. */
  function Components(s: string): seq<string>
    decreases |s|
  {
    if s == "" then []
    else if s[0] == '/' then Components(s[1..])
    else
      var k := FirstSlash(s);
      [s[..k]] + Components(s[k..])
  }

  /** Follow `comps` from the directory `base`. */
  function Walk(base: Path, comps: seq<string>): Path
    decreases |comps|
  {
    if comps == [] then base
    else Walk(Enter(base, comps[0]), comps[1..])
  }

  function Enter(base: Path, comp: string): Path {
    if comp == "." then base
    else if comp == ".." then (if base == [] then [] else Parent(base))
    else base + [comp]
  }

  /** The canonical path that the string `s` names for a process whose working directory is `cwd`. */
  function Canon(cwd: Path, s: string): Path {
    Walk(Start(cwd, s), Components(s))
  }

  /** Where resolution begins: an absolute path starts at the root. */
  function Start(cwd: Path, s: string): Path {
    if s != "" && s[0] == '/' then [] else cwd
  }

  /** No component of the string climbs to a parent directory. */
  predicate Descends(s: string) {
    ".." !in Components(s)
  }

  predicate NoSlash(s: string) {
    forall i :: 0 <= i < |s| ==> s[i] != '/'
  }

  /** What is left of `s` after `snprintf` into a buffer of MAX_PATHLEN characters. */
  function Format(s: string): (r: string)
    ensures |r| < MAX_PATHLEN
    ensures r <= s
    ensures |s| < MAX_PATHLEN ==> r == s
    ensures |r| == if |s| < 1024 then |s| else 1023
  {
    if |s| < MAX_PATHLEN then s else s[..MAX_PATHLEN - 1]
  }

  // --- Components ---------------------------------------------------------------------------

  lemma {:induction false} FirstSlashIs(s: string, k: nat)
    requires k <= |s| && NoSlash(s[..k])
    requires k < |s| ==> s[k] == '/'
    ensures FirstSlash(s) == k
  {
    if k > 0 {
      assert s[0] == s[..k][0];
      assert s[1..][..k - 1] == s[..k][1..];
      FirstSlashIs(s[1..], k - 1);
    }
  }

  /** A word before a slash, or before the end, is the first component. */
  lemma {:induction false} FirstComponent(word: string, rest: string)
    requires word != "" && NoSlash(word) && (rest == "" || rest[0] == '/')
    ensures Components(word + rest) == [word] + Components(rest)
  {
    var s := word + rest;
    assert s[..|word|] == word && s[|word|..] == rest;
    FirstSlashIs(s, |word|);
  }

  /** A slash separates: the components of a joined string are those of its two halves. */
  lemma {:induction false} ComponentsJoin(a: string, b: string)
    ensures Components(a + "/" + b) == Components(a) + Components(b)
    decreases |a|
  {
    if a == "" {
      assert (a + "/" + b)[1..] == b;
    } else if a[0] == '/' {
      assert (a + "/" + b)[1..] == a[1..] + "/" + b;
      ComponentsJoin(a[1..], b);
    } else {
      var word, rest := a[..FirstSlash(a)], a[FirstSlash(a)..];
      assert a == word + rest && a + "/" + b == word + (rest + "/" + b);
      FirstComponent(word, rest);
      FirstComponent(word, rest + "/" + b);
      ComponentsJoin(rest, b);
    }
  }

  lemma {:induction false} ComponentsOfWord(s: string)
    requires s != "" && NoSlash(s)
    ensures Components(s) == [s]
  {
    assert s[..|s|] == s;
    FirstSlashIs(s, |s|);
  }

  /** A trailing slash adds no component. */
  lemma {:induction false} ComponentsSlash(s: string)
    ensures Components(s + "/") == Components(s)
  {
    ComponentsJoin(s, "");
    assert s + "/" + "" == s + "/";
    assert Components(s) + [] == Components(s);
  }

  /** A word after a slash adds one component. */
  lemma {:induction false} ComponentsAddWord(p: string, word: string)
    requires p == "" || p[|p| - 1] == '/'
    requires NoSlash(word)
    ensures Components(p + word) == Components(p) + if word == "" then [] else [word]
  {
    if word == "" {
      assert p + word == p;
    } else {
      ComponentsOfWord(word);
      if p == "" {
        assert p + word == word;
      } else {
        var head := p[..|p| - 1];
        assert p == head + "/";
        ComponentsJoin(head, word);
        ComponentsSlash(head);
      }
    }
  }

  lemma {:induction false} ComponentsAreWords(s: string)
    ensures forall c :: c in Components(s) ==> c != "" && NoSlash(c)
    decreases |s|
  {
    if s == "" {
    } else if s[0] == '/' {
      ComponentsAreWords(s[1..]);
    } else {
      ComponentsAreWords(s[FirstSlash(s)..]);
    }
  }

  lemma {:induction false} ComponentsOfSlashes(s: string)
    requires forall i :: 0 <= i < |s| ==> s[i] == '/'
    ensures Components(s) == []
  {
    if s != "" { ComponentsOfSlashes(s[1..]); }
  }

  // --- Walk ---------------------------------------------------------------------------------

  lemma {:induction false} WalkConcat(base: Path, a: seq<string>, b: seq<string>)
    ensures Walk(base, a + b) == Walk(Walk(base, a), b)
    decreases |a|
  {
    if a == [] {
      assert a + b == b;
    } else {
      assert (a + b)[1..] == a[1..] + b;
      WalkConcat(Enter(base, a[0]), a[1..], b);
    }
  }

  lemma {:induction false} WalkWord(base: Path, word: string)
    ensures Walk(base, [word]) == Enter(base, word)
    ensures Walk(base, []) == base
  {
    assert Walk(Enter(base, word), []) == Enter(base, word);
  }

  /** Without ".." a walk only ever goes down. */
  lemma {:induction false} WalkDescends(base: Path, comps: seq<string>)
    requires ".." !in comps
    ensures base <= Walk(base, comps)
    decreases |comps|
  {
    if comps != [] {
      WalkDescends(Enter(base, comps[0]), comps[1..]);
    }
  }

  /** Resolving `a "/" b` is resolving `b` from the directory `a` names. */
  lemma {:induction false} CanonJoin(cwd: Path, a: string, b: string)
    requires a != ""
    ensures Canon(cwd, a + "/" + b) == Walk(Canon(cwd, a), Components(b))
  {
    ComponentsJoin(a, b);
    assert (a + "/" + b)[0] == a[0];
    WalkConcat(Start(cwd, a), Components(a), Components(b));
  }

  /** A path below a directory that descends from it stays below it. */
  lemma {:induction false} CanonBelow(cwd: Path, a: string, b: string)
    requires a != "" && Descends(b)
    ensures Canon(cwd, a) <= Canon(cwd, a + "/" + b)
  {
    CanonJoin(cwd, a, b);
    WalkDescends(Canon(cwd, a), Components(b));
  }

  /** Appending an extension cannot turn a component into "..". */
  lemma {:induction false} DescendsWithSuffix(s: string, suffix: string)
    requires Descends(s) && NoSlash(suffix) && |suffix| > 2
    ensures Descends(s + suffix)
    decreases |s|
  {
    var t := s + suffix;
    if s == "" {
      assert t == suffix;
      ComponentsOfWord(suffix);
    } else if s[0] == '/' {
      assert t[1..] == s[1..] + suffix;
      DescendsWithSuffix(s[1..], suffix);
    } else {
      var k := FirstSlash(s);
      if k < |s| {
        assert t[..k] == s[..k];
        FirstSlashIs(t, k);
        assert t[k..] == s[k..] + suffix;
        DescendsWithSuffix(s[k..], suffix);
      } else {
        assert NoSlash(t);
        ComponentsOfWord(t);
      }
    }
  }

  /** How many directories above its start a walk gives up for good. */
  function Climb(comps: seq<string>): nat
    decreases |comps|
  {
    if comps == [] then 0
    else
      var rest := Climb(comps[1..]);
      if comps[0] == "." then rest
      else if comps[0] == ".." then rest + 1
      else if rest == 0 then 0 else rest - 1
  }

  /** Where a walk ends depends on the directories `base` it begins below, unless it climbs out of them all. */
  lemma {:induction false} BaseCounts(base: Path, tail: Path, comps: seq<string>)
    ensures Walk(base + tail, comps) == Walk(tail, comps) <==> base == [] || |base| + |tail| <= Climb(comps)
    decreases |comps|
  {
    if base == [] {
      assert base + tail == tail;
    } else if comps == [] {
      assert |base + tail| > |tail|;
    } else if comps[0] == "." {
      BaseCounts(base, tail, comps[1..]);
    } else if comps[0] != ".." {
      ConcatLast(base, tail, comps[0]);
      BaseCounts(base, tail + [comps[0]], comps[1..]);
    } else if tail != [] {
      assert Parent(base + tail) == base + Parent(tail);
      BaseCounts(base, Parent(tail), comps[1..]);
    } else {
      assert base + tail == base;
      assert Parent(base) + [] == Parent(base);
      BaseCounts(Parent(base), [], comps[1..]);
    }
  }

  lemma {:induction false} ConcatLast(base: Path, tail: Path, word: string)
    ensures base + tail + [word] == base + (tail + [word])
  {
  }

  /** The components that name something: all but ".". */
  function Named(comps: seq<string>): seq<string>
    decreases |comps|
  {
    if comps == [] then [] else (if comps[0] == "." then [] else [comps[0]]) + Named(comps[1..])
  }

  lemma {:induction false} NamedConcat(a: seq<string>, b: seq<string>)
    ensures Named(a + b) == Named(a) + Named(b)
    decreases |a|
  {
    if a == [] {
      assert a + b == b;
    } else {
      assert (a + b)[1..] == a[1..] + b;
      NamedConcat(a[1..], b);
    }
  }

  lemma {:induction false} ConcatFirst(base: Path, word: string, rest: Path)
    ensures base + [word] + rest == base + ([word] + rest)
    ensures [] + rest == rest
  {
  }

  /** A walk without ".." appends the named components. */
  lemma {:induction false} WalkNames(base: Path, comps: seq<string>)
    requires ".." !in comps
    ensures Walk(base, comps) == base + Named(comps)
    decreases |comps|
  {
    if comps == [] {
      assert base + [] == base;
    } else {
      var first, rest := comps[0], comps[1..];
      assert first != ".." && ".." !in rest;
      WalkNames(Enter(base, first), rest);
      ConcatFirst(base, first, Named(rest));
    }
  }

  // --- Routes ---------------------------------------------------------------------------------

  /**
   What a string comes to: the place it names, the directories that must be there on the way, whether
   its last component is ".", and whether it is a name at all; the empty string is none.
   */
  datatype Route = Route(at: Path, through: set<Path>, dot: bool, named: bool)

  /** The directories that a walk starts from or passes through before its last component. */
  function Passed(base: Path, comps: seq<string>): set<Path>
    decreases |comps|
  {
    if comps == [] then {} else {base} + Passed(Enter(base, comps[0]), comps[1..])
  }

  predicate EndsInSlash(dir: string) {
    dir != "" && dir[|dir| - 1] == '/'
  }

  /** The route of a string for mkdir and rmdir, to which slashes at its end mean nothing. */
  function DirRoute(cwd: Path, s: string): Route {
    var comps := Components(s);
    Route(Canon(cwd, s), Passed(Start(cwd, s), comps), comps != [] && comps[|comps| - 1] == ".", s != "")
  }

  /** For other calls, what ends in a slash must be a directory itself. */
  function FileRoute(cwd: Path, s: string): Route {
    var r := DirRoute(cwd, s);
    if EndsInSlash(s) then r.(through := r.through + {r.at}) else r
  }

  /** All that must not be a link, if a call that follows links is to act on the place that is named. */
  function Followed(r: Route): set<Path> {
    r.through + {r.at}
  }

  lemma {:induction false} PassedConcat(base: Path, a: seq<string>, b: seq<string>)
    ensures Passed(base, a + b) == Passed(base, a) + Passed(Walk(base, a), b)
    decreases |a|
  {
    if a == [] {
      assert a + b == b;
    } else {
      assert (a + b)[1..] == a[1..] + b;
      PassedConcat(Enter(base, a[0]), a[1..], b);
    }
  }

  lemma {:induction false} PassedWord(base: Path, word: string)
    ensures Passed(base, [word]) == {base}
  {
    assert Passed(Enter(base, word), []) == {};
  }

  /** The place of a route is the root, or lies in or above a directory that the route passes through. */
  predicate Grounded(r: Route) {
    r.named ==> r.at == [] || exists q :: q in r.through && Parent(r.at) <= q
  }

  lemma {:induction false} WalkIsGrounded(base: Path, comps: seq<string>)
    requires comps != [] && Walk(base, comps) != []
    ensures exists q :: q in Passed(base, comps) && Parent(Walk(base, comps)) <= q
    decreases |comps|
  {
    if |comps| == 1 {
      WalkWord(base, comps[0]);
      assert comps == [comps[0]];
      PassedWord(base, comps[0]);
      assert Parent(Walk(base, comps)) <= base;
    } else {
      var next, rest := Enter(base, comps[0]), comps[1..];
      WalkIsGrounded(next, rest);
      var q :| q in Passed(next, rest) && Parent(Walk(next, rest)) <= q;
      assert q in Passed(base, comps);
    }
  }

  lemma {:induction false} RoutesAreGrounded(cwd: Path, s: string)
    ensures Grounded(DirRoute(cwd, s)) && Grounded(FileRoute(cwd, s))
  {
    var comps := Components(s);
    if s == "" {
    } else if comps == [] {
      OnlySlashes(s);
    } else if Canon(cwd, s) != [] {
      WalkIsGrounded(Start(cwd, s), comps);
    }
  }

  lemma {:induction false} OnlySlashes(s: string)
    requires s != "" && Components(s) == []
    ensures s[0] == '/'
  {
  }

  /** Without ".." all that a route passes through is the place itself or above it. */
  lemma {:induction false} PassedDescends(base: Path, comps: seq<string>)
    requires ".." !in comps
    ensures forall q :: q in Passed(base, comps) ==> q <= Walk(base, comps)
    decreases |comps|
  {
    if comps != [] {
      PassedDescends(Enter(base, comps[0]), comps[1..]);
      WalkDescends(base, comps);
    }
  }

  predicate Straight(r: Route) {
    forall q :: q in r.through ==> q <= r.at
  }

  lemma {:induction false} DescendingIsStraight(cwd: Path, s: string)
    requires Descends(s)
    ensures Straight(DirRoute(cwd, s)) && Straight(FileRoute(cwd, s))
  {
    PassedDescends(Start(cwd, s), Components(s));
  }

  // --- The last component -------------------------------------------------------------------

  /** What basename() of IEEE Std 1003.1-2008 returns, said in terms of components. */
  function Basename(s: string): string {
    if s == "" then "."
    else
      var comps := Components(s);
      if comps == [] then "/" else comps[|comps| - 1]
  }

  /** If `s` is `head`, then a slash-free word, then only slashes, the word is the last component. */
  lemma {:induction false} BasenameIsWord(s: string, u: nat, t: nat)
    requires u < t <= |s|
    requires NoSlash(s[u..t])
    requires u == 0 || s[u - 1] == '/'
    requires forall i :: t <= i < |s| ==> s[i] == '/'
    ensures Basename(s) == s[u..t]
  {
    var word, rest := s[u..t], s[t..];
    ComponentsOfWord(word);
    if t < |s| {
      ComponentsOfSlashes(rest[1..]);
      ComponentsJoin(word, rest[1..]);
      assert s[u..] == word + "/" + rest[1..];
    } else {
      assert s[u..] == word;
    }
    assert Components(s[u..]) == [word];
    if u == 0 {
      assert s[u..] == s;
    } else {
      assert s == s[..u - 1] + "/" + s[u..];
      ComponentsJoin(s[..u - 1], s[u..]);
    }
  }

  /** The last component of a last component is itself. */
  lemma {:induction false} BasenameIdempotent(s: string)
    ensures Basename(Basename(s)) == Basename(s)
  {
    var comps := Components(s);
    if s == "" {
      ComponentsOfWord(".");
    } else if comps == [] {
      ComponentsOfSlashes("/");
    } else {
      ComponentsAreWords(s);
      assert comps[|comps| - 1] in comps;
      ComponentsOfWord(comps[|comps| - 1]);
    }
  }
}
