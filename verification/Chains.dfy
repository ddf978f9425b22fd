/**
 The directories that install_rmkdir visits on the way to a path.

 The strings it builds are prefixes of the argument. The routes they stand for form a trail: each passes
 through what the one before it passes through and through its place, and names that place again, or one
 above it, or a child of it; "." and ".." make no difference to that.
 */
module Chains {
  import opened Paths
  import opened FileSystem
  import opened Items

  // --- The trail ----------------------------------------------------------------------------------

  predicate Follows(prev: Path, next: Path) {
    next <= prev || (next != [] && Parent(next) == prev)
  }

  /** The next route is the same, or goes on from the place that the one before it names. */
  predicate Continues(prev: Route, next: Route) {
    || (next.at == prev.at && next.through == prev.through)
    || (Follows(prev.at, next.at) && next.through == prev.through + {prev.at})
  }

  /** Where a trail starts: nothing has been passed through yet. */
  function Begin(start: Path): Route {
    Route(start, {}, false, false)
  }

  function Before(from: Route, chain: seq<Route>, k: nat): Route
    requires k < |chain|
  {
    if k == 0 then from else chain[k - 1]
  }

  /** Each route is a name and continues the one before it, the first one `from`. */
  ghost predicate Trail(from: Route, chain: seq<Route>) {
    forall k :: 0 <= k < |chain| ==> GoesOn(from, chain, k)
  }

  ghost predicate GoesOn(from: Route, chain: seq<Route>, k: nat)
    requires k < |chain|
  {
    chain[k].named && Grounded(chain[k]) && Continues(Before(from, chain, k), chain[k])
  }

  /** Every route of the chain names a place on the way to `at`. */
  ghost predicate OnTheWay(chain: seq<Route>, at: Path) {
    forall p :: Visits(chain, p) ==> p <= at
  }

  /** One more component. */
  lemma {:induction false} AddComponent(base: Path, comps: seq<string>, word: string)
    ensures Follows(Walk(base, comps), Walk(base, comps + [word]))
    ensures Passed(base, comps + [word]) == Passed(base, comps) + {Walk(base, comps)}
  {
    WalkConcat(base, comps, [word]);
    WalkWord(Walk(base, comps), word);
    PassedConcat(base, comps, [word]);
    PassedWord(Walk(base, comps), word);
  }

  /** The route from which the pieces of `dir` after `done` go on. */
  function From(cwd: Path, dir: string, done: string): Route {
    if done == "" then Begin(Start(cwd, dir)) else DirRoute(cwd, done)
  }

  /** One more piece of a path string: the same route, or one that goes on from it. */
  lemma {:induction false} RouteNext(cwd: Path, done: string, word: string, rest: string)
    requires done == "" || EndsInSlash(done)
    requires NoSlash(word) && (word == "" ==> rest == "" || rest[0] == '/')
    requires done + word + rest != ""
    ensures Continues(From(cwd, done + word + rest, done), DirRoute(cwd, done + word + "/"))
  {
    var s, dir := done + word + "/", done + word + rest;
    ComponentsSlash(done + word);
    ComponentsAddWord(done, word);
    assert Start(cwd, s) == Start(cwd, dir) by { assert s[0] == dir[0]; }
    if done != "" { assert done[0] == s[0]; }
    if word == "" {
      ConcatNothing(Components(done));
    } else {
      AddComponent(Start(cwd, s), Components(done), word);
    }
  }

  lemma {:induction false} ConcatNothing(comps: seq<string>)
    ensures comps + [] == comps
  {
  }

  /** A word after a slash is entered. */
  lemma {:induction false} NextPath(cwd: Path, p: string, word: string)
    requires EndsInSlash(p) && NoSlash(word) && word != ""
    ensures Canon(cwd, p + word) == Enter(Canon(cwd, p), word) == Canon(cwd, p + word + "/")
  {
    ComponentsAddWord(p, word);
    ComponentsSlash(p + word);
    assert (p + word)[0] == p[0] == (p + word + "/")[0];
    WalkConcat(Start(cwd, p), Components(p), [word]);
    WalkWord(Canon(cwd, p), word);
  }

  /** The route of one word more. */
  lemma {:induction false} NextRoute(cwd: Path, p: string, word: string)
    requires EndsInSlash(p) && NoSlash(word) && word != ""
    ensures var r := DirRoute(cwd, p);
            && DirRoute(cwd, p + word) == Route(Enter(r.at, word), r.through + {r.at}, word == ".", true)
            && DirRoute(cwd, p + word + "/") == DirRoute(cwd, p + word) == FileRoute(cwd, p + word)
  {
    NextPath(cwd, p, word);
    ComponentsAddWord(p, word);
    ComponentsSlash(p + word);
    assert (p + word)[0] == p[0] == (p + word + "/")[0];
    assert (p + word)[|p + word| - 1] == word[|word| - 1];
    AddComponent(Start(cwd, p), Components(p), word);
  }

  lemma {:induction false} RoutesAppend(cwd: Path, ss: seq<string>, s: string)
    ensures Routes(cwd, ss + [s]) == Routes(cwd, ss) + [DirRoute(cwd, s)]
  {
    assert (ss + [s])[..|ss|] == ss;
  }

  lemma {:induction false} CutsLast(done: string, word: string, limit: nat)
    requires word != "" && NoSlash(word) && |done| + |word| + 1 < limit
    ensures Cuts(done, word, limit) == [done + word + "/"]
  {
    assert word[..|word|] == word;
    FirstSlashIs(word, |word|);
  }

  lemma {:induction false} CutsNext(done: string, word: string, tail: string, limit: nat)
    requires NoSlash(word)
    ensures Cuts(done, word + "/" + tail, limit) == [done + word + "/"] + Cuts(done + word + "/", tail, limit)
  {
    var rest := word + "/" + tail;
    assert rest[..|word|] == word;
    FirstSlashIs(rest, |word|);
    assert rest[|word| + 1..] == tail;
  }

  /** A string without slashes, or its first word and what follows the slash. */
  lemma {:induction false} CutWord(rest: string) returns (word: string, tail: string)
    requires FirstSlash(rest) < |rest|
    ensures rest == word + "/" + tail && NoSlash(word) && |tail| < |rest|
  {
    var k := FirstSlash(rest);
    word, tail := rest[..k], rest[k + 1..];
  }

  /** The pieces cut off after `done` continue the trail from it. */
  lemma {:induction false} CutsTrail(cwd: Path, done: string, rest: string, limit: nat)
    requires done == "" || EndsInSlash(done)
    ensures Trail(From(cwd, done + rest, done), Routes(cwd, Cuts(done, rest, limit)))
    decreases |rest|
  {
    if rest == "" {
    } else if FirstSlash(rest) == |rest| {
      LastPiece(cwd, done, rest, limit);
    } else {
      var word, tail := CutWord(rest);
      CutsTrail(cwd, done + word + "/", tail, limit);
      MorePieces(cwd, done, rest, word, tail, limit);
    }
  }

  lemma {:induction false} LastPiece(cwd: Path, done: string, rest: string, limit: nat)
    requires done == "" || EndsInSlash(done)
    requires rest != "" && FirstSlash(rest) == |rest|
    ensures Trail(From(cwd, done + rest, done), Routes(cwd, Cuts(done, rest, limit)))
  {
    var next := done + rest + "/";
    FirstRoute(cwd, done, rest, "", done + rest);
    if |done| + |rest| + 1 < limit {
      CutsLast(done, rest, limit);
      RoutesPrepend(cwd, next, []);
      assert [next] + [] == [next] && [DirRoute(cwd, next)] + [] == [DirRoute(cwd, next)];
      OneRoute(From(cwd, done + rest, done), DirRoute(cwd, next));
    }
  }

  lemma {:induction false} MorePieces(cwd: Path, done: string, rest: string, word: string, tail: string, limit: nat)
    requires done == "" || EndsInSlash(done)
    requires NoSlash(word) && rest == word + "/" + tail
    requires var next := done + word + "/"; Trail(From(cwd, next + tail, next), Routes(cwd, Cuts(next, tail, limit)))
    ensures Trail(From(cwd, done + rest, done), Routes(cwd, Cuts(done, rest, limit)))
  {
    var next := done + word + "/";
    var more := Routes(cwd, Cuts(next, tail, limit));
    assert From(cwd, next + tail, next) == DirRoute(cwd, next);
    assert rest == word + ("/" + tail);
    FirstRoute(cwd, done, word, "/" + tail, done + rest);
    RoutesOfCuts(cwd, done, rest, word, tail, limit);
    LongerTrail(From(cwd, done + rest, done), DirRoute(cwd, next), more);
  }

  lemma {:induction false} RoutesOfCuts(cwd: Path, done: string, rest: string, word: string, tail: string, limit: nat)
    requires NoSlash(word) && rest == word + "/" + tail
    ensures var next := done + word + "/";
            Routes(cwd, Cuts(done, rest, limit)) == [DirRoute(cwd, next)] + Routes(cwd, Cuts(next, tail, limit))
  {
    var next := done + word + "/";
    CutsNext(done, word, tail, limit);
    RoutesPrepend(cwd, next, Cuts(next, tail, limit));
  }

  lemma {:induction false} FirstRoute(cwd: Path, done: string, word: string, rest: string, dir: string)
    requires done == "" || EndsInSlash(done)
    requires NoSlash(word) && (word == "" ==> rest == "" || rest[0] == '/')
    requires dir == done + (word + rest) && dir != ""
    ensures var r := DirRoute(cwd, done + word + "/");
            r.named && Grounded(r) && Continues(From(cwd, dir, done), r)
  {
    assert done + word + rest == dir;
    RouteNext(cwd, done, word, rest);
    RoutesAreGrounded(cwd, done + word + "/");
  }

  lemma {:induction false} LongerTrail(from: Route, next: Route, chain: seq<Route>)
    requires next.named && Grounded(next) && Continues(from, next) && Trail(next, chain)
    ensures Trail(from, [next] + chain)
  {
    var long := [next] + chain;
    forall k | 0 <= k < |long| ensures GoesOn(from, long, k) {
      if k > 0 {
        assert GoesOn(next, chain, k - 1);
        assert long[k] == chain[k - 1] && Before(from, long, k) == Before(next, chain, k - 1);
      }
    }
  }

  lemma {:induction false} RoutesPrepend(cwd: Path, s: string, ss: seq<string>)
    ensures Routes(cwd, [s] + ss) == [DirRoute(cwd, s)] + Routes(cwd, ss)
  {
    var all, long := [s] + ss, [DirRoute(cwd, s)] + Routes(cwd, ss);
    forall i | 0 <= i < |all| ensures Routes(cwd, all)[i] == long[i] {
      if i > 0 { assert all[i] == ss[i - 1] && long[i] == Routes(cwd, ss)[i - 1]; }
    }
  }

  lemma {:induction false} OneRoute(from: Route, r: Route)
    requires r.named && Grounded(r) && Continues(from, r)
    ensures Trail(from, [r])
  {
    assert GoesOn(from, [r], 0);
  }

  /** install_rmkdir visits a trail that begins at the root or at the working directory, whatever its argument. */
  lemma {:induction false} MkdirStringsTrail(cwd: Path, dir: string)
    ensures Trail(Begin(Start(cwd, dir)), Routes(cwd, MkdirStrings(dir)))
  {
    CutsTrail(cwd, "", dir, MAX_PATHLEN);
    assert "" + dir == dir;
  }

  /** What a route of a trail passes through is the start or the place of an earlier route. */
  lemma {:induction false} ThroughIsVisited(start: Path, chain: seq<Route>, k: nat)
    requires Trail(Begin(start), chain) && k < |chain|
    ensures forall p :: p in chain[k].through ==> p == start || Visits(chain[..k], p)
  {
    assert GoesOn(Begin(start), chain, k);
    if k > 0 {
      ThroughIsVisited(start, chain, k - 1);
      forall p | p in chain[k].through && p != start ensures Visits(chain[..k], p) {
        if p in chain[k - 1].through {
          LongerVisits(chain, k - 1, k, p);
        } else {
          assert chain[..k][k - 1].at == p;
        }
      }
    }
  }

  lemma {:induction false} LongerVisits(chain: seq<Route>, i: nat, j: nat, p: Path)
    requires i <= j <= |chain| && Visits(chain[..i], p)
    ensures Visits(chain[..j], p)
  {
    var k :| 0 <= k < i && chain[..i][k].at == p;
    assert chain[..j][k].at == p;
  }

  lemma {:induction false} SlashAddsNothing(cwd: Path, dir: string)
    requires dir != ""
    ensures Canon(cwd, dir + "/") == Canon(cwd, dir) && DirRoute(cwd, dir + "/") == DirRoute(cwd, dir)
  {
    ComponentsSlash(dir);
    assert (dir + "/")[0] == dir[0];
  }

  // --- What the strings are -----------------------------------------------------------------------

  /** `s` is a prefix of `dir` that ends in a slash, or all of `dir` with a slash added. */
  ghost predicate SlashPrefix(dir: string, s: string, limit: nat) {
    || (s <= dir && EndsInSlash(s))
    || (s == dir + "/" && dir != "" && !EndsInSlash(dir) && |s| < limit)
  }

  ghost predicate Increasing(ss: seq<string>) {
    forall i, j :: 0 <= i < j < |ss| ==> |ss[i]| < |ss[j]|
  }

  /** The slash-terminated prefixes of a path beyond `done`, all of them and nothing else, in increasing length. */
  lemma {:induction false} CutsAre(done: string, rest: string, limit: nat)
    requires done == "" || EndsInSlash(done)
    ensures forall s :: s in Cuts(done, rest, limit) <==> |done| < |s| && SlashPrefix(done + rest, s, limit)
    ensures Increasing(Cuts(done, rest, limit))
    decreases |rest|
  {
    if rest == "" {
      assert done + rest == done;
    } else if FirstSlash(rest) == |rest| {
      OnlyWhole(done, rest, limit);
    } else {
      var word, tail := CutWord(rest);
      var next := done + word + "/";
      assert next + tail == done + rest;
      CutsNext(done, word, tail, limit);
      CutsAre(next, tail, limit);
      OneMoreCut(done, word, tail, Cuts(next, tail, limit), limit);
    }
  }

  lemma {:induction false} OnlyWhole(done: string, rest: string, limit: nat)
    requires rest != "" && NoSlash(rest) && (done == "" || EndsInSlash(done))
    ensures forall s :: (|done| < |s| && SlashPrefix(done + rest, s, limit)) <==>
                        (s == done + rest + "/" && |s| < limit)
    ensures Cuts(done, rest, limit) == if |done| + |rest| + 1 < limit then [done + rest + "/"] else []
  {
    var dir := done + rest;
    assert rest[..|rest|] == rest;
    FirstSlashIs(rest, |rest|);
    assert dir[|dir| - 1] == rest[|rest| - 1];
    forall s | |done| < |s| && s <= dir ensures !EndsInSlash(s) {
      assert s[|s| - 1] == dir[|s| - 1] == rest[|s| - 1 - |done|];
    }
  }

  lemma {:induction false} OneMoreCut(done: string, word: string, tail: string, ss: seq<string>, limit: nat)
    requires NoSlash(word) && Increasing(ss)
    requires var next := done + word + "/";
             forall s :: s in ss <==> |next| < |s| && SlashPrefix(next + tail, s, limit)
    ensures var next := done + word + "/"; var all := [next] + ss;
            && Increasing(all)
            && forall s :: s in all <==> |done| < |s| && SlashPrefix(next + tail, s, limit)
  {
    var next := done + word + "/";
    var dir, all := next + tail, [next] + ss;
    forall s ensures s in all <==> |done| < |s| && SlashPrefix(dir, s, limit) {
      assert EndsInSlash(next) && next <= dir;
      if |done| < |s| <= |next| && SlashPrefix(dir, s, limit) {
        ShortestPrefix(done, word, tail, s, limit);
      }
    }
    assert forall i :: 0 <= i < |ss| ==> ss[i] in ss;
  }

  lemma {:induction false} ShortestPrefix(done: string, word: string, tail: string, s: string, limit: nat)
    requires NoSlash(word)
    requires |done| < |s| <= |done| + |word| + 1 && SlashPrefix(done + word + "/" + tail, s, limit)
    ensures s == done + word + "/"
  {
    var next := done + word + "/";
    var dir := next + tail;
    assert |s| <= |dir|;
    forall i | |done| <= i < |done| + |word| ensures next[i] != '/' {
      assert next[i] == word[i - |done|];
    }
    assert s == dir[..|s|] == next[..|s|];
    assert s[|s| - 1] == next[|s| - 1];
  }

  /** install_rmkdir calls mkdir on exactly the slash-terminated prefixes, shortest first. */
  lemma {:induction false} MkdirStringsAre(dir: string)
    ensures forall s :: s in MkdirStrings(dir) <==> s != "" && SlashPrefix(dir, s, MAX_PATHLEN)
    ensures Increasing(MkdirStrings(dir))
  {
    CutsAre("", dir, MAX_PATHLEN);
    assert "" + dir == dir;
  }

  /** A visited string names a directory at or above the argument's, if what follows it has no "..". */
  lemma {:induction false} VisitOnTheWay(cwd: Path, dir: string, s: string, rest: string)
    requires s != "" && SlashPrefix(dir, s, MAX_PATHLEN) && (s <= dir ==> dir == s + rest && Descends(rest))
    ensures Canon(cwd, s) <= Canon(cwd, dir)
  {
    if s <= dir {
      var head := s[..|s| - 1];
      assert s == head + "/";
      if head == "" {
        assert s[0] == '/';
        ComponentsOfSlashes(s);
      } else {
        SlashAddsNothing(cwd, head);
        CanonBelow(cwd, head, rest);
      }
    } else {
      SlashAddsNothing(cwd, dir);
    }
  }

  /** The rest of a path without ".." has none either. */
  lemma {:induction false} RestDescends(s: string, rest: string)
    requires EndsInSlash(s) && Descends(s + rest)
    ensures Descends(rest)
  {
    var head := s[..|s| - 1];
    assert s == head + "/";
    ComponentsJoin(head, rest);
  }

  /** For a path without "..", even one too long to be completed, the visits stay on the way. */
  lemma {:induction false} MkdirStringsOnTheWay(cwd: Path, dir: string)
    requires Descends(dir)
    ensures OnTheWay(Routes(cwd, MkdirStrings(dir)), Canon(cwd, dir))
  {
    var ss := MkdirStrings(dir);
    MkdirStringsAre(dir);
    forall i | 0 <= i < |ss| ensures Canon(cwd, ss[i]) <= Canon(cwd, dir) {
      assert ss[i] in ss;
      if ss[i] <= dir {
        assert dir == ss[i] + dir[|ss[i]|..];
        RestDescends(ss[i], dir[|ss[i]|..]);
        VisitOnTheWay(cwd, dir, ss[i], dir[|ss[i]|..]);
      } else {
        VisitOnTheWay(cwd, dir, ss[i], "");
      }
    }
  }

  /** Whether the whole of `dir`, slash-terminated, still fits the path buffer. */
  predicate FitsWithSlash(dir: string) {
    |dir| < MAX_PATHLEN && (EndsInSlash(dir) || |dir| + 1 < MAX_PATHLEN)
  }

  function WithSlash(dir: string): string {
    if EndsInSlash(dir) then dir else dir + "/"
  }

  /**
   Of the paths that install_rmkdir accepts, it gets to the last component of exactly those that fit
   the buffer with their slash; that is then its last visit.
   */
  lemma {:induction false} ArgumentIsVisited(cwd: Path, dir: string)
    requires dir != "" && |dir| < MAX_PATHLEN
    ensures WithSlash(dir) in MkdirStrings(dir) <==> FitsWithSlash(dir)
    ensures FitsWithSlash(dir) ==> EndsWithRoute(Routes(cwd, MkdirStrings(dir)), DirRoute(cwd, dir))
  {
    MkdirStringsAre(dir);
    SlashAddsNothing(cwd, dir);
    var ss := MkdirStrings(dir);
    if WithSlash(dir) in ss {
      var i :| 0 <= i < |ss| && ss[i] == WithSlash(dir);
      var last := |ss| - 1;
      assert ss[last] in ss && |ss[last]| <= |ss[i]|;
      assert i == last;
    }
  }

  /** All directories that the argument passes through are visited, also if it does not fit with its slash. */
  lemma {:induction false} PassedAreVisited(cwd: Path, dir: string)
    requires |dir| < MAX_PATHLEN
    ensures forall q :: q in DirRoute(cwd, dir).through ==> q == Start(cwd, dir) || Visits(Routes(cwd, MkdirStrings(dir)), q)
  {
    var ss := MkdirStrings(dir);
    var chain := Routes(cwd, ss);
    MkdirStringsTrail(cwd, dir);
    if dir == "" {
    } else if FitsWithSlash(dir) {
      ArgumentIsVisited(cwd, dir);
      ThroughIsVisited(Start(cwd, dir), chain, |chain| - 1);
      FirstVisits(chain, |chain| - 1);
    } else {
      var before, word := LastWord(dir);
      PassedBefore(cwd, before, word);
      if before != "" {
        MkdirStringsAre(dir);
        assert before in ss;
        var i :| 0 <= i < |ss| && ss[i] == before;
        ThroughIsVisited(Start(cwd, dir), chain, i);
        FirstVisits(chain, i);
        assert chain[i].at == Canon(cwd, before);
      }
    }
  }

  lemma {:induction false} FirstVisits(chain: seq<Route>, k: nat)
    requires k <= |chain|
    ensures forall p :: Visits(chain[..k], p) ==> Visits(chain, p)
  {
    assert chain[..|chain|] == chain;
    forall p | Visits(chain[..k], p) ensures Visits(chain, p) {
      LongerVisits(chain, k, |chain|, p);
    }
  }

  /** What a string passes through: what it passes through without its last word, and where that leads. */
  lemma {:induction false} PassedBefore(cwd: Path, before: string, word: string)
    requires word != "" && NoSlash(word) && (before == "" || EndsInSlash(before))
    ensures DirRoute(cwd, before + word).through ==
            if before == "" then {Start(cwd, before + word)} else DirRoute(cwd, before).through + {Canon(cwd, before)}
  {
    var dir := before + word;
    ComponentsAddWord(before, word);
    if before == "" {
      assert dir == word && [] + [word] == [word];
      PassedWord(Start(cwd, dir), word);
    } else {
      assert dir[0] == before[0];
      AddComponent(Start(cwd, dir), Components(before), word);
    }
  }

  predicate EndsWithRoute(chain: seq<Route>, r: Route) {
    chain != [] && chain[|chain| - 1] == r
  }

  // --- What visiting a trail does -----------------------------------------------------------------

  /** `p` is a directory, or could be made one. */
  predicate Open(env: Env, fs: FS, p: Path) {
    IsDir(fs, p) || (p !in fs && p !in env.deny)
  }

  lemma {:induction false} InitOfTrail(from: Route, chain: seq<Route>, n: nat)
    requires n <= |chain| && Trail(from, chain)
    ensures Trail(from, chain[..n])
  {
    var init := chain[..n];
    forall k | 0 <= k < |init|
      ensures GoesOn(from, init, k)
    {
      assert GoesOn(from, chain, k);
      assert Before(from, init, k) == Before(from, chain, k);
    }
  }

  /** A directory that is open is made when it is reached. */
  lemma {:induction false} OpenIsMade(env: Env, fs: FS, mid: FS, r: Route, node: Node)
    requires TreeOk(mid) && node.Dir? && Grounded(r) && Reached(mid, r) && Open(env, fs, r.at)
    requires forall q :: q in fs ==> At(mid, q) == At(fs, q)
    requires forall q :: q in mid && q !in fs ==> mid[q].Dir?
    ensures IsDir(MkDir(env, mid, r, node), r.at)
  {
    ReachedHasParent(mid, r);
    if r.at in fs { assert At(mid, r.at) == At(fs, r.at); }
  }

  /** Where all that the last route passes through is open, it is reached, and if its place is open too, that is made. */
  lemma {:induction false} LastIsReached(env: Env, fs: FS, start: Path, chain: seq<Route>, node: Node)
    requires TreeOk(fs) && IsDir(fs, start) && node.Dir? && chain != [] && Trail(Begin(start), chain)
    requires forall p :: p in chain[|chain| - 1].through ==> Open(env, fs, p)
    ensures var n := |chain| - 1;
            && Reached(MkDirs(env, fs, chain[..n], node), chain[n])
            && (Open(env, fs, chain[n].at) ==> IsDir(MkDirs(env, fs, chain, node), chain[n].at))
    decreases |chain|
  {
    var n := |chain| - 1;
    var init, last := chain[..n], chain[n];
    var mid := MkDirs(env, fs, init, node);
    MkDirsFrame(env, fs, init, node);
    assert GoesOn(Begin(start), chain, n);
    assert At(mid, start) == At(fs, start);
    if n > 0 {
      InitOfTrail(Begin(start), chain, n);
      LastIsReached(env, fs, start, init, node);
      MkDirKeepsDirs(env, MkDirs(env, fs, init[..n - 1], node), init[n - 1], node);
    }
    if Open(env, fs, last.at) { OpenIsMade(env, fs, mid, last, node); }
  }

  lemma {:induction false} MkDirKeepsDirs(env: Env, fs: FS, r: Route, node: Node)
    ensures forall p :: IsDir(fs, p) ==> IsDir(MkDir(env, fs, r, node), p)
  {
  }

  /** Directories made by the first routes stay. */
  lemma {:induction false} FirstDirsStay(env: Env, fs: FS, chain: seq<Route>, n: nat, node: Node)
    requires n <= |chain|
    ensures forall p :: IsDir(MkDirs(env, fs, chain[..n], node), p) ==> IsDir(MkDirs(env, fs, chain, node), p)
    decreases |chain|
  {
    if n == |chain| {
      assert chain[..n] == chain;
    } else {
      var init := chain[..|chain| - 1];
      assert init[..n] == chain[..n];
      FirstDirsStay(env, fs, init, n, node);
      MkDirKeepsDirs(env, MkDirs(env, fs, init, node), chain[|chain| - 1], node);
    }
  }

  /** A path that is not open does not become a directory. */
  lemma {:induction false} BlockedStays(env: Env, fs: FS, chain: seq<Route>, p: Path, node: Node)
    requires TreeOk(fs) && node.Dir? && !Open(env, fs, p)
    ensures !IsDir(MkDirs(env, fs, chain, node), p)
  {
    MkDirsFrame(env, fs, chain, node);
    if p in fs { assert At(MkDirs(env, fs, chain, node), p) == At(fs, p); }
  }

  /**
   After its visits a trail leads to a directory, everything on the way being one, exactly if all that its
   last route passes through, and its place, were directories or could be made; one that could not stops all
   the visits that pass through it.
   */
  lemma {:induction false} LeadsToDirectory(env: Env, fs: FS, start: Path, chain: seq<Route>, node: Node)
    requires TreeOk(fs) && IsDir(fs, start) && node.Dir? && chain != [] && Trail(Begin(start), chain)
    ensures var now, last := MkDirs(env, fs, chain, node), chain[|chain| - 1];
            Reached(now, last) && IsDir(now, last.at) <==> forall p :: p in Followed(last) ==> Open(env, fs, p)
  {
    var n := |chain| - 1;
    var last := chain[n];
    if p :| p in Followed(last) && !Open(env, fs, p) {
      BlockedStays(env, fs, chain, p, node);
    } else {
      assert forall p :: p in last.through ==> p in Followed(last);
      LastIsReached(env, fs, start, chain, node);
      FirstDirsStay(env, fs, chain, n, node);
      assert last.named by { assert GoesOn(Begin(start), chain, n); }
      assert last.at in Followed(last);
    }
  }

  /** No mkdir of the trail is blocked. */
  ghost predicate Unblocked(env: Env, fs: FS, chain: seq<Route>) {
    forall p :: Visits(chain, p) ==> Open(env, fs, p)
  }

  /** If no mkdir is blocked, every visited path is made. */
  lemma {:induction false} UnblockedIsMade(env: Env, fs: FS, start: Path, chain: seq<Route>, k: nat, node: Node)
    requires TreeOk(fs) && IsDir(fs, start) && node.Dir? && Trail(Begin(start), chain) && Unblocked(env, fs, chain)
    requires k < |chain|
    ensures IsDir(MkDirs(env, fs, chain, node), chain[k].at)
  {
    var init := chain[..k + 1];
    ThroughIsVisited(start, chain, k);
    forall p | p in chain[k].through ensures Open(env, fs, p) {
      if p != start {
        LongerVisits(chain, k, |chain|, p);
        assert chain[..|chain|] == chain;
      }
    }
    assert Visits(chain, chain[k].at);
    InitOfTrail(Begin(start), chain, k + 1);
    LastIsReached(env, fs, start, init, node);
    FirstDirsStay(env, fs, chain, k + 1, node);
  }

  /** Visiting what is there already changes nothing. */
  lemma {:induction false} VisitsAreNoOps(env: Env, fs: FS, chain: seq<Route>, node: Node)
    requires forall k :: 0 <= k < |chain| ==> chain[k].at in fs
    ensures MkDirs(env, fs, chain, node) == fs
    decreases |chain|
  {
    if chain != [] {
      VisitsAreNoOps(env, fs, chain[..|chain| - 1], node);
    }
  }

  /**
   install_rmkdir makes a directory of every prefix of its argument if and only if no mkdir is blocked,
   and a second run then changes nothing. This holds of every string.
   */
  lemma {:induction false} AllPrefixesMade(env: Env, fs: FS, dir: string, node: Node, again: Node)
    requires TreeOk(fs) && IsDir(fs, env.cwd) && node.Dir?
    ensures var chain := Routes(env.cwd, MkdirStrings(dir));
            var now := MkDirs(env, fs, chain, node);
            && (Unblocked(env, fs, chain) <==> forall s :: s in MkdirStrings(dir) ==> IsDir(now, Canon(env.cwd, s)))
            && (Unblocked(env, fs, chain) ==> MkDirs(env, now, chain, again) == now)
  {
    var ss := MkdirStrings(dir);
    var chain := Routes(env.cwd, ss);
    var now := MkDirs(env, fs, chain, node);
    MkdirStringsTrail(env.cwd, dir);
    if Unblocked(env, fs, chain) {
      forall k | 0 <= k < |chain| ensures IsDir(now, chain[k].at) {
        UnblockedIsMade(env, fs, Start(env.cwd, dir), chain, k, node);
      }
      forall s | s in ss ensures IsDir(now, Canon(env.cwd, s)) {
        var i :| 0 <= i < |ss| && ss[i] == s;
        assert chain[i].at == Canon(env.cwd, s);
      }
      VisitsAreNoOps(env, now, chain, again);
    } else {
      var p :| Visits(chain, p) && !Open(env, fs, p);
      var i :| 0 <= i < |chain| && chain[i].at == p;
      BlockedStays(env, fs, chain, p, node);
      assert ss[i] in ss && Canon(env.cwd, ss[i]) == p;
    }
  }
}
