/** Declared items for which the conditions of the theorems about whole runs fail. */
module Witnesses {
  import opened Wrappers
  import opened Paths
  import opened FileSystem
  import opened Items
  import opened Chains
  import opened Steps
  import opened Engine
  import opened InstallRuns
  import opened Strays
  import opened FakeRoot

  predicate Word(word: string) {
    word != "" && word != "." && word != ".." && NoSlash(word)
  }

  /** The directory item for a path, with the process's own owner and group. */
  function DirItem(dir: string, perm: Mode): Entry {
    Entry(Mkdir, None, None, Some(dir), None, None, perm)
  }

  lemma {:induction false} DirItemPlan(env: Env, fs: FS, dir: string, perm: Mode)
    requires env.fakeRoot.None? && |dir| < MAX_PATHLEN
    ensures Translate(env, fs, DirItem(dir, perm)) == Some(DirTarget(dir)) && LibrariesPlain(env, fs, DirItem(dir, perm))
    ensures Plan(env, fs, DirItem(dir, perm)) ==
            Some(PutDir(Routes(env.cwd, MkdirStrings(dir)), FileRoute(env.cwd, dir), DirRoute(env.cwd, dir), env.uid, env.gid, perm))
  {
  }

  /** A named route that does not end in ".". */
  function R(at: Path, through: set<Path>): Route {
    Route(at, through, false, true)
  }

  lemma {:induction false} RootRoute(cwd: Path)
    ensures DirRoute(cwd, "/") == R([], {})
  {
    ComponentsOfSlashes("/");
  }

  lemma {:induction false} Alone(p: Path)
    ensures {} + {p} == {p}
  {
  }

  /** What deinstalling a directory item does. */
  lemma {:induction false} DirItemGone(env: Env, now: FS, dir: string, perm: Mode)
    requires env.fakeRoot.None? && |dir| < MAX_PATHLEN
    ensures Deinstalled(env, now, DirItem(dir, perm)) == Remove(env, now, RemoveDir(DirRoute(env.cwd, dir)))
  {
    DirItemPlan(env, now, dir, perm);
  }

  /** Installing a directory item makes what can be made of its strings and reports success. */
  lemma {:induction false} DirItemInstalls(env: Env, fs: FS, dir: string, perm: Mode)
    requires env.fakeRoot.None? && |dir| < MAX_PATHLEN
    ensures InstallStep(env, fs, DirItem(dir, perm), OK, MkDirs(env, fs, Routes(env.cwd, MkdirStrings(dir)), NewDir(env, perm)))
  {
    DirItemPlan(env, fs, dir, perm);
  }

  // --- A directory beside the path ------------------------------------------------------------------

  /** The string "/a/../b". */
  function SidePath(a: string, b: string): string {
    "/" + (a + "/" + (".." + "/" + b))
  }

  lemma {:induction false} TwoCuts(done: string, one: string, two: string, limit: nat)
    requires NoSlash(one) && two != "" && NoSlash(two) && |done| + |one| + |two| + 2 < limit
    ensures Cuts(done, one + "/" + two, limit) == [done + one + "/", done + one + "/" + two + "/"]
  {
    CutsNext(done, one, two, limit);
    CutsLast(done + one + "/", two, limit);
  }

  lemma {:induction false} ThreeCuts(done: string, one: string, two: string, three: string, limit: nat)
    requires NoSlash(one) && NoSlash(two) && three != "" && NoSlash(three) && |done| + |one| + |two| + |three| + 3 < limit
    ensures var next := done + one + "/";
            Cuts(done, one + "/" + (two + "/" + three), limit) == [next, next + two + "/", next + two + "/" + three + "/"]
  {
    CutsNext(done, one, two + "/" + three, limit);
    TwoCuts(done + one + "/", two, three, limit);
  }

  /** The first slash of an absolute path is cut off first. */
  lemma {:induction false} CutsOfAbsolute(rest: string, limit: nat)
    ensures Cuts("", "/" + rest, limit) == ["/"] + Cuts("/", rest, limit)
  {
    assert "" + "/" + rest == "/" + rest;
    assert "" + "" + "/" == "/";
    CutsNext("", "", rest, limit);
  }

  lemma {:induction false} SideStrings(a: string, b: string)
    requires Word(a) && Word(b) && |a| + |b| + 6 < MAX_PATHLEN
    ensures var two := "/" + a + "/"; var three := two + ".." + "/";
            MkdirStrings(SidePath(a, b)) == ["/"] + [two, three, three + b + "/"]
  {
    CutsOfAbsolute(a + "/" + (".." + "/" + b), MAX_PATHLEN);
    ThreeCuts("/", a, "..", b, MAX_PATHLEN);
  }

  /** To "/a/../b" the way leads through the root and "/a". */
  function SideRoute(a: string, b: string): Route {
    R([b], {[], [a]})
  }

  /** The routes of "/", "/a/", "/a/../" and "/a/../b/". */
  function SideRoutes(a: string, b: string): seq<Route> {
    [R([], {}), R([a], {[]}), R([], {[], [a]}), SideRoute(a, b)]
  }

  lemma {:induction false} SideWays(cwd: Path, a: string, b: string)
    requires Word(a) && Word(b)
    ensures var two := "/" + a + "/"; var three := two + ".." + "/";
            && DirRoute(cwd, "/") == R([], {}) && DirRoute(cwd, two) == R([a], {[]}) && DirRoute(cwd, three) == R([], {[], [a]})
            && DirRoute(cwd, three + b) == FileRoute(cwd, three + b) == SideRoute(a, b) == DirRoute(cwd, three + b + "/")
  {
    var two := "/" + a + "/";
    var three := two + ".." + "/";
    RootRoute(cwd);
    NextRoute(cwd, "/", a);
    assert [] + [a] == [a];
    Alone([]);
    NextRoute(cwd, two, "..");
    assert Parent([a]) == [];
    NextRoute(cwd, three, b);
    assert [] + [b] == [b] && {[], [a]} + {[]} == {[], [a]};
  }

  lemma {:induction false} SideChain(cwd: Path, a: string, b: string)
    requires Word(a) && Word(b) && |a| + |b| + 6 < MAX_PATHLEN
    ensures Routes(cwd, MkdirStrings(SidePath(a, b))) == SideRoutes(a, b)
    ensures DirRoute(cwd, SidePath(a, b)) == FileRoute(cwd, SidePath(a, b)) == SideRoute(a, b)
  {
    SideStrings(a, b);
    SideWays(cwd, a, b);
    assert SidePath(a, b) == "/" + a + "/" + ".." + "/" + b;
    FourRoutes(cwd, MkdirStrings(SidePath(a, b)));
  }

  lemma {:induction false} FourRoutes(cwd: Path, ss: seq<string>)
    requires |ss| == 4
    ensures Routes(cwd, ss) == [DirRoute(cwd, ss[0]), DirRoute(cwd, ss[1]), DirRoute(cwd, ss[2]), DirRoute(cwd, ss[3])]
  {
  }

  /** The act of the item for "/a/../b". */
  function SideAct(env: Env, a: string, b: string, perm: Mode): Act {
    PutDir(SideRoutes(a, b), SideRoute(a, b), SideRoute(a, b), env.uid, env.gid, perm)
  }

  lemma {:induction false} SidePlan(env: Env, fs: FS, a: string, b: string, perm: Mode)
    requires Word(a) && Word(b) && |a| + |b| + 6 < MAX_PATHLEN && env.fakeRoot.None?
    ensures Plan(env, fs, DirItem(SidePath(a, b), perm)) == Some(SideAct(env, a, b, perm))
  {
    SideChain(env.cwd, a, b);
    DirItemPlan(env, fs, SidePath(a, b), perm);
  }

  lemma {:induction false} MkDirsNext(env: Env, fs: FS, rs: seq<Route>, r: Route, node: Node)
    ensures MkDirs(env, fs, rs + [r], node) == MkDir(env, MkDirs(env, fs, rs, node), r, node)
  {
    assert (rs + [r])[..|rs|] == rs;
  }

  /** What the four visits make, one after the other. */
  lemma {:induction false} SideMade(env: Env, fs: FS, a: string, b: string, node: Node)
    requires TreeOk(fs)
    ensures var one := MkDir(env, fs, R([a], {[]}), node);
            MkDirs(env, fs, SideRoutes(a, b), node) == MkDir(env, one, SideRoute(a, b), node)
  {
    var rs: seq<Route> := [R([], {}), R([a], {[]}), R([], {[], [a]})];
    var one := MkDir(env, fs, R([a], {[]}), node);
    assert MkDirs(env, fs, [], node) == fs;
    MkDirsNext(env, fs, [], R([], {}), node);
    assert [] + [R([], {})] == [R([], {})];
    MkDirsNext(env, fs, [R([], {})], R([a], {[]}), node);
    MkDirsNext(env, fs, [R([], {}), R([a], {[]})], R([], {[], [a]}), node);
    assert [R([], {})] + [R([a], {[]})] + [R([], {[], [a]})] == rs;
    MkDirsNext(env, fs, rs, SideRoute(a, b), node);
    assert rs + [SideRoute(a, b)] == SideRoutes(a, b);
  }

  lemma {:induction false} BothMade(env: Env, fs: FS, a: string, b: string, node: Node)
    requires TreeOk(fs) && node.Dir?
    requires [a] !in fs && [b] !in fs && [a] !in env.deny && [b] !in env.deny && a != b
    ensures MkDirs(env, fs, SideRoutes(a, b), node) == fs[[a] := node][[b] := node]
  {
    SideMade(env, fs, a, b, node);
    assert Parent([a]) == [] && Parent([b]) == [];
    assert [a][0] != [b][0];
  }

  lemma {:induction false} SideIsStray(env: Env, act: Act, fs: FS, a: string, b: string, perm: Mode)
    requires act == SideAct(env, a, b, perm) && a != b && !IsDir(fs, [a])
    ensures !IsAncestor([act], [a]) && !IsItemDir([act], [a]) && !VisitsCovered([act], fs)
  {
    assert [a][0] != [b][0];
    assert act.chain[1].at == [a];
    assert Visits([act][0].chain, [a]);
    assert !Covered([act], fs, [act][0], [a]);
  }

  /** Removing "/b" leaves "/a". */
  lemma {:induction false} SideLeft(env: Env, fs: FS, act: Act, a: string, b: string, perm: Mode, node: Node)
    requires act == SideAct(env, a, b, perm) && a != b && node.Dir? && [a] !in fs
    ensures var now := fs[[a] := node][[b] := node]; var end := Remove(env, now, Undo(act));
            IsDir(end, [a]) && !Restored(env, [act], fs, map[], now, end)
  {
    assert [a][0] != [b][0];
    SideIsStray(env, act, fs, a, b, perm);
  }

  /**
   A directory item for which VisitsCovered fails, with neither directory there: "/a/../b" alone makes
   "/a" beside its path, and deinstalling leaves that behind.
   */
  lemma {:induction false} SideDirectoryStays(env: Env, fs: FS, a: string, b: string, perm: Mode)
    requires Word(a) && Word(b) && |a| + |b| + 6 < MAX_PATHLEN && env.fakeRoot.None? && a != b
    requires TreeOk(fs) && [a] !in fs && [b] !in fs && [a] !in env.deny && [b] !in env.deny
    ensures var e, act := DirItem(SidePath(a, b), perm), SideAct(env, a, b, perm);
            var now := MkDirs(env, fs, act.chain, NewDir(env, perm));
            && Plan(env, fs, e) == Some(act) && InstallStep(env, fs, e, OK, now) && !VisitsCovered([act], fs)
            && IsDir(Deinstalled(env, now, e), [a]) && !Restored(env, [act], fs, map[], now, Deinstalled(env, now, e))
  {
    var node, act := NewDir(env, perm), SideAct(env, a, b, perm);
    SidePlan(env, fs, a, b, perm);
    SideChain(env.cwd, a, b);
    DirItemInstalls(env, fs, SidePath(a, b), perm);
    BothMade(env, fs, a, b, node);
    SideIsStray(env, act, fs, a, b, perm);
    SideLeft(env, fs, act, a, b, perm, node);
    DirItemGone(env, fs[[a] := node][[b] := node], SidePath(a, b), perm);
  }

  // --- Refused directories ----------------------------------------------------------------------------

  lemma {:induction false} TopStrings(word: string)
    requires Word(word) && |word| + 3 < MAX_PATHLEN
    ensures MkdirStrings("/" + word) == ["/"] + ["/" + word + "/"]
  {
    CutsOfAbsolute(word, MAX_PATHLEN);
    CutsLast("/", word, MAX_PATHLEN);
  }

  lemma {:induction false} TopRoute(cwd: Path, word: string)
    requires Word(word)
    ensures DirRoute(cwd, "/" + word) == FileRoute(cwd, "/" + word) == R([word], {[]}) == DirRoute(cwd, "/" + word + "/")
  {
    RootRoute(cwd);
    NextRoute(cwd, "/", word);
    assert [] + [word] == [word];
    Alone([]);
  }

  lemma {:induction false} TopChain(cwd: Path, word: string)
    requires Word(word) && |word| + 3 < MAX_PATHLEN
    ensures Routes(cwd, MkdirStrings("/" + word)) == [R([], {}), R([word], {[]})]
  {
    TopStrings(word);
    RootRoute(cwd);
    TopRoute(cwd, word);
    var chain := Routes(cwd, MkdirStrings("/" + word));
    assert chain == [chain[0], chain[1]];
  }

  lemma {:induction false} TopMade(env: Env, fs: FS, word: string, node: Node)
    requires TreeOk(fs)
    ensures MkDirs(env, fs, [R([], {}), R([word], {[]})], node) == MkDir(env, fs, R([word], {[]}), node)
  {
    assert MkDirs(env, fs, [], node) == fs;
    MkDirsNext(env, fs, [], R([], {}), node);
    assert [] + [R([], {})] == [R([], {})];
    MkDirsNext(env, fs, [R([], {})], R([word], {[]}), node);
    assert [R([], {})] + [R([word], {[]})] == [R([], {}), R([word], {[]})];
  }

  /** The check of a directory item whose way is not there, or leads nowhere, is counted as failed. */
  lemma {:induction false} NothingSeen(env: Env, fs: FS, dir: string, perm: Mode, status: Status, counted: bool)
    requires env.fakeRoot.None? && |dir| < MAX_PATHLEN && CheckStep(env, fs, DirItem(dir, perm), status, counted)
    requires LinkFree(fs, Followed(FileRoute(env.cwd, dir))) && Seen(fs, FileRoute(env.cwd, dir)).None?
    ensures status == ERROR && counted
  {
    DirItemPlan(env, fs, dir, perm);
  }

  /**
   Where the kernel refuses a directory, the installer reports success for its item all the same, and
   instchk counts it as failed.
   */
  lemma {:induction false} RefusedDirectory(env: Env, fs: FS, word: string, perm: Mode, status: Status, counted: bool)
    requires Word(word) && |word| + 3 < MAX_PATHLEN && env.fakeRoot.None?
    requires TreeOk(fs) && [word] !in fs && [word] in env.deny
    requires CheckStep(env, fs, DirItem("/" + word, perm), status, counted)
    ensures InstallStep(env, fs, DirItem("/" + word, perm), OK, fs)
    ensures status == ERROR && counted
  {
    TopChain(env.cwd, word);
    TopRoute(env.cwd, word);
    TopMade(env, fs, word, NewDir(env, perm));
    DirItemInstalls(env, fs, "/" + word, perm);
    NothingSeen(env, fs, "/" + word, perm, status, counted);
  }

  /**
   The same happens where a directory beside the path is refused, or a file is in its place: for "/a/../b" the
   kernel does not get past "/a", although nothing stands in the way of "/b" itself.
   */
  lemma {:induction false} BlockedSide(env: Env, fs: FS, a: string, b: string, perm: Mode, status: Status, counted: bool)
    requires Word(a) && Word(b) && |a| + |b| + 6 < MAX_PATHLEN && env.fakeRoot.None?
    requires TreeOk(fs) && [b] !in fs && !Open(env, fs, [a]) && !IsLink(fs, [a])
    requires CheckStep(env, fs, DirItem(SidePath(a, b), perm), status, counted)
    ensures InstallStep(env, fs, DirItem(SidePath(a, b), perm), OK, fs)
    ensures status == ERROR && counted
  {
    SideChain(env.cwd, a, b);
    SideMade(env, fs, a, b, NewDir(env, perm));
    assert [a] in SideRoute(a, b).through && !IsDir(fs, [a]);
    DirItemInstalls(env, fs, SidePath(a, b), perm);
    NothingSeen(env, fs, SidePath(a, b), perm, status, counted);
  }

  // --- Names that rmdir refuses -------------------------------------------------------------------------

  /** The string "/d/.". */
  function DotPath(d: string): string {
    "/" + (d + "/" + ".")
  }

  /** The routes of "/", "/d/" and "/d/./". */
  function DotRoutes(d: string): seq<Route> {
    [R([], {}), R([d], {[]}), DotRoute(d)]
  }

  function DotRoute(d: string): Route {
    Route([d], {[], [d]}, true, true)
  }

  lemma {:induction false} DotWays(cwd: Path, d: string)
    requires Word(d)
    ensures var two := "/" + d + "/";
            && DirRoute(cwd, "/") == R([], {}) && DirRoute(cwd, two) == R([d], {[]})
            && DirRoute(cwd, two + ".") == DotRoute(d) == DirRoute(cwd, two + "." + "/")
  {
    RootRoute(cwd);
    TopRoute(cwd, d);
    NextRoute(cwd, "/" + d + "/", ".");
    assert {[]} + {[d]} == {[], [d]};
  }

  lemma {:induction false} DotStrings(d: string)
    requires Word(d) && |d| + 5 < MAX_PATHLEN
    ensures var two := "/" + d + "/"; MkdirStrings(DotPath(d)) == ["/"] + [two, two + "." + "/"]
  {
    CutsOfAbsolute(d + "/" + ".", MAX_PATHLEN);
    TwoCuts("/", d, ".", MAX_PATHLEN);
  }

  lemma {:induction false} DotChain(cwd: Path, d: string)
    requires Word(d) && |d| + 5 < MAX_PATHLEN
    ensures Routes(cwd, MkdirStrings(DotPath(d))) == DotRoutes(d) && DirRoute(cwd, DotPath(d)) == DotRoute(d)
  {
    DotStrings(d);
    DotWays(cwd, d);
    assert DotPath(d) == "/" + d + "/" + ".";
    ThreeRoutes(cwd, MkdirStrings(DotPath(d)));
  }

  lemma {:induction false} ThreeRoutes(cwd: Path, ss: seq<string>)
    requires |ss| == 3
    ensures Routes(cwd, ss) == [DirRoute(cwd, ss[0]), DirRoute(cwd, ss[1]), DirRoute(cwd, ss[2])]
  {
  }

  lemma {:induction false} DotMade(env: Env, fs: FS, d: string, node: Node)
    requires TreeOk(fs) && node.Dir? && [d] !in fs && [d] !in env.deny
    ensures MkDirs(env, fs, DotRoutes(d), node) == fs[[d] := node]
  {
    TopMade(env, fs, d, node);
    MkDirsNext(env, fs, [R([], {}), R([d], {[]})], DotRoute(d), node);
    assert [R([], {}), R([d], {[]})] + [DotRoute(d)] == DotRoutes(d);
    assert Parent([d]) == [];
  }

  /** A directory item named "/d/." makes "/d", which deinstalling it does not remove. */
  lemma {:induction false} DotDirectoryStays(env: Env, fs: FS, d: string, perm: Mode)
    requires Word(d) && |d| + 5 < MAX_PATHLEN && env.fakeRoot.None?
    requires TreeOk(fs) && [d] !in fs && [d] !in env.deny
    ensures var e, now := DirItem(DotPath(d), perm), fs[[d] := NewDir(env, perm)];
            var act := PutDir(DotRoutes(d), FileRoute(env.cwd, DotPath(d)), DotRoute(d), env.uid, env.gid, perm);
            && Plan(env, fs, e) == Some(act) && InstallStep(env, fs, e, OK, now) && !VisitsCovered([act], fs)
            && Deinstalled(env, now, e) == now && !Restored(env, [act], fs, map[], now, now)
  {
    var now := fs[[d] := NewDir(env, perm)];
    var act := PutDir(DotRoutes(d), FileRoute(env.cwd, DotPath(d)), DotRoute(d), env.uid, env.gid, perm);
    DotChain(env.cwd, d);
    DirItemPlan(env, fs, DotPath(d), perm);
    DirItemInstalls(env, fs, DotPath(d), perm);
    DotMade(env, fs, d, NewDir(env, perm));
    DirItemGone(env, now, DotPath(d), perm);
    DotIsStray(env, fs, act, d, now);
  }

  lemma {:induction false} DotIsStray(env: Env, fs: FS, act: Act, d: string, now: FS)
    requires act.PutDir? && act.chain == DotRoutes(d) && act.gone == DotRoute(d) && [d] !in fs && IsDir(now, [d])
    ensures !VisitsCovered([act], fs) && !Restored(env, [act], fs, map[], now, now)
  {
    assert !IsAncestor([act], [d]);
    assert act.chain[1].at == [d];
    assert Visits([act][0].chain, [d]);
    assert !Covered([act], fs, [act][0], [d]);
    assert IsDir(now, [d]) && !IsDir(fs, [d]);
  }

  // --- A directory that is needed after it is gone ------------------------------------------------------

  /** The item that copies the file `x` of the working directory to "/a/../b". */
  function CopyItem(x: string, a: string, b: string, perm: Mode): Entry {
    Entry(Copy, Some(x), None, Some(SidePath(a, b)), None, None, perm)
  }

  lemma {:induction false} InSide(cwd: Path, a: string, b: string, name: string)
    requires Word(a) && Word(b) && Word(name)
    ensures FileRoute(cwd, SidePath(a, b) + "/" + name) == R([b, name], {[], [a], [b]})
  {
    SideWays(cwd, a, b);
    var p := "/" + a + "/" + ".." + "/" + b + "/";
    assert SidePath(a, b) + "/" + name == p + name;
    NextRoute(cwd, p, name);
    assert [b] + [name] == [b, name] && {[], [a]} + {[b]} == {[], [a], [b]};
  }

  lemma {:induction false} HereRoute(cwd: Path, x: string)
    requires Word(x)
    ensures FileRoute(cwd, x) == R(cwd + [x], {cwd})
  {
    ComponentsOfWord(x);
    WalkWord(cwd, x);
    PassedWord(cwd, x);
    assert x[|x| - 1] != '/' && x[0] != '/';
  }

  function CopyItemAct(env: Env, x: string, a: string, b: string, perm: Mode): Act {
    PutFile(R(env.cwd + [x], {env.cwd}), R([b, x + TEMPORARY], {[], [a], [b]}), R([b, x], {[], [a], [b]}), env.uid, env.gid, perm)
  }

  lemma {:induction false} CopyItemTarget(env: Env, fs: FS, x: string, a: string, b: string, perm: Mode)
    requires Word(x) && env.fakeRoot.None? && !IsVirtual(x) && |a| + |b| + |x| + 11 < MAX_PATHLEN
    ensures Translate(env, fs, CopyItem(x, a, b, perm)) == Some(CopyTarget(x, SidePath(a, b) + "/" + x))
    ensures LibrariesPlain(env, fs, CopyItem(x, a, b, perm))
  {
    ComponentsOfWord(x);
  }

  lemma {:induction false} CopyItemPlan(env: Env, fs: FS, x: string, a: string, b: string, perm: Mode)
    requires Word(x) && Word(a) && Word(b) && env.fakeRoot.None? && !IsVirtual(x)
    requires |a| + |b| + |x| + 11 < MAX_PATHLEN
    ensures Plan(env, fs, CopyItem(x, a, b, perm)) == Some(CopyItemAct(env, x, a, b, perm))
    ensures Translate(env, fs, CopyItem(x, a, b, perm)) == Some(CopyTarget(x, SidePath(a, b) + "/" + x))
    ensures LibrariesPlain(env, fs, CopyItem(x, a, b, perm))
  {
    CopyItemTarget(env, fs, x, a, b, perm);
    CopyItemWays(env, x, a, b);
  }

  /** The source, the destination and the temporary name. */
  lemma {:induction false} CopyItemWays(env: Env, x: string, a: string, b: string)
    requires Word(x) && Word(a) && Word(b) && |a| + |b| + |x| + 11 < MAX_PATHLEN
    ensures var dst := SidePath(a, b) + "/" + x;
            && FileRoute(env.cwd, x) == R(env.cwd + [x], {env.cwd})
            && FileRoute(env.cwd, dst) == R([b, x], {[], [a], [b]})
            && TemporaryFor(env, dst) == R([b, x + TEMPORARY], {[], [a], [b]})
  {
    HereRoute(env.cwd, x);
    InSide(env.cwd, a, b, x);
    InSide(env.cwd, a, b, x + TEMPORARY);
    ConcatAssociative(SidePath(a, b) + "/", x, TEMPORARY);
  }

  /** Everything the three items need is there, and "/a" is there and empty. */
  ghost predicate ThreeItemsReady(env: Env, fs: FS, x: string, a: string, b: string) {
    && Word(x) && Word(a) && Word(b) && a != b && env.fakeRoot.None? && !IsVirtual(x) && |a| + |b| + |x| + 11 < MAX_PATHLEN
    && TreeOk(fs) && IsEmptyDir(fs, [a]) && [b] !in fs && env.cwd + [x] in fs && fs[env.cwd + [x]].File?
    && [a] !in env.deny && [b] !in env.deny && [b, x] !in env.deny && [b, x + TEMPORARY] !in env.deny
    && env.cwd + [x] !in env.unreadable
  }

  /** The file system once "/b" has been made, and once the file is in it. */
  function WithB(env: Env, fs: FS, b: string, perm: Mode): FS {
    fs[[b] := NewDir(env, perm)]
  }

  ghost function WithX(env: Env, fs: FS, x: string, a: string, b: string, perm: Mode): FS
    requires ThreeItemsReady(env, fs, x, a, b)
  {
    WithB(env, fs, b, perm)[[b, x] := File(fs[env.cwd + [x]].content, perm & FULL_MODE, env.uid, env.gid)]
  }

  lemma {:induction false} NothingInB(fs: FS, b: string, name: string)
    requires TreeOk(fs) && [b] !in fs
    ensures [b, name] !in fs
  {
    assert Parent([b, name]) == [b];
    assert !ParentIsDir(fs, [b, name]);
  }

  /** The copy into "/b", where its directories and the source are there and its names are free. */
  lemma {:induction false} CopyItemStep(env: Env, fs: FS, x: string, a: string, b: string, perm: Mode)
    requires IsDir(fs, []) && IsDir(fs, [a]) && IsDir(fs, [b]) && IsDir(fs, env.cwd)
    requires env.cwd + [x] in fs && fs[env.cwd + [x]].File? && env.cwd + [x] !in env.unreadable
    requires [b, x] !in fs && [b, x + TEMPORARY] !in fs && [b, x] !in env.deny && [b, x + TEMPORARY] !in env.deny
    ensures var act := CopyItemAct(env, x, a, b, perm);
            ActStep(env, fs, act, true, fs[[b, x] := File(fs[env.cwd + [x]].content, perm & FULL_MODE, env.uid, env.gid)])
    ensures CrossesNoLink(fs, CopyItemAct(env, x, a, b, perm))
  {
    assert Parent([b, x]) == [b] && Parent([b, x + TEMPORARY]) == [b];
    assert fs - {[b, x + TEMPORARY]} == fs;
  }

  lemma {:induction false} CopyItemInstalls(env: Env, fs: FS, x: string, a: string, b: string, perm: Mode)
    requires ThreeItemsReady(env, fs, x, a, b)
    ensures InstallStep(env, WithB(env, fs, b, perm), CopyItem(x, a, b, perm), OK, WithX(env, fs, x, a, b, perm))
  {
    CopyItemPlan(env, WithB(env, fs, b, perm), x, a, b, perm);
    NothingInB(fs, b, x);
    NothingInB(fs, b, x + TEMPORARY);
    assert ParentIsDir(fs, env.cwd + [x]) && Parent(env.cwd + [x]) == env.cwd;
    CopyItemStep(env, WithB(env, fs, b, perm), x, a, b, perm);
  }

  lemma {:induction false} NewTopInstalls(env: Env, fs: FS, word: string, perm: Mode)
    requires Word(word) && |word| + 3 < MAX_PATHLEN && env.fakeRoot.None?
    requires TreeOk(fs) && [word] !in fs && [word] !in env.deny
    ensures InstallStep(env, fs, DirItem("/" + word, perm), OK, fs[[word] := NewDir(env, perm)])
  {
    TopChain(env.cwd, word);
    DirItemInstalls(env, fs, "/" + word, perm);
    TopMade(env, fs, word, NewDir(env, perm));
    assert Parent([word]) == [];
  }

  lemma {:induction false} OldTopInstalls(env: Env, fs: FS, word: string, perm: Mode)
    requires Word(word) && |word| + 3 < MAX_PATHLEN && env.fakeRoot.None? && TreeOk(fs) && [word] in fs
    ensures InstallStep(env, fs, DirItem("/" + word, perm), OK, fs)
  {
    TopChain(env.cwd, word);
    DirItemInstalls(env, fs, "/" + word, perm);
    TopMade(env, fs, word, NewDir(env, perm));
  }

  lemma {:induction false} WithXIsTree(env: Env, fs: FS, x: string, a: string, b: string, perm: Mode)
    requires ThreeItemsReady(env, fs, x, a, b)
    ensures TreeOk(WithX(env, fs, x, a, b, perm))
  {
    var now := WithX(env, fs, x, a, b, perm);
    NothingInB(fs, b, x);
    assert Parent([b]) == [];
    TreeWith(fs, [b], NewDir(env, perm));
    assert Parent([b, x]) == [b];
    TreeWith(WithB(env, fs, b, perm), [b, x], now[[b, x]]);
  }

  lemma {:induction false} EmptyRemoved(env: Env, fs: FS, a: string)
    requires IsDir(fs, []) && IsEmptyDir(fs, [a]) && [a] !in env.deny
    ensures Remove(env, fs, RemoveDir(R([a], {[]}))) == fs - {[a]}
  {
  }

  lemma {:induction false} FullStays(env: Env, fs: FS, b: string, x: string)
    requires [b, x] in fs
    ensures Remove(env, fs, RemoveDir(R([b], {[]}))) == fs
  {
    assert Parent([b, x]) == [b];
  }

  lemma {:induction false} NoWay(env: Env, fs: FS, r: Route, q: Path)
    requires q in r.through && q !in fs
    ensures Remove(env, fs, RemoveLeaf(r)) == fs
  {
    assert !IsDir(fs, q);
  }

  /** What deinstalling a copied file does. */
  lemma {:induction false} CopyItemGone(env: Env, fs: FS, x: string, a: string, b: string, perm: Mode)
    requires Word(x) && Word(a) && Word(b) && env.fakeRoot.None? && !IsVirtual(x) && |a| + |b| + |x| + 11 < MAX_PATHLEN
    ensures Deinstalled(env, fs, CopyItem(x, a, b, perm)) == Remove(env, fs, RemoveLeaf(R([b, x], {[], [a], [b]})))
  {
    CopyItemPlan(env, fs, x, a, b, perm);
    InSide(env.cwd, a, b, x);
  }

  lemma {:induction false} StillEmpty(env: Env, fs: FS, x: string, a: string, b: string, perm: Mode)
    requires ThreeItemsReady(env, fs, x, a, b)
    ensures var now := WithX(env, fs, x, a, b, perm); IsDir(now, []) && IsEmptyDir(now, [a])
  {
    assert [a][0] != [b][0] && Parent([b]) == [] && Parent([b, x]) == [b];
  }

  /** Removing "/a" first leaves no way to "/a/../b/x", and then "/b" is not empty. */
  lemma {:induction false} ThreeItemsRemoved(env: Env, fs: FS, x: string, a: string, b: string, perm: Mode)
    requires ThreeItemsReady(env, fs, x, a, b)
    ensures var now := WithX(env, fs, x, a, b, perm);
            var first := Deinstalled(env, now, DirItem("/" + a, perm));
            && first == now - {[a]} && Deinstalled(env, first, CopyItem(x, a, b, perm)) == first
            && Deinstalled(env, first, DirItem("/" + b, perm)) == first
  {
    var now := WithX(env, fs, x, a, b, perm);
    TopRoute(env.cwd, a);
    DirItemGone(env, now, "/" + a, perm);
    StillEmpty(env, fs, x, a, b, perm);
    EmptyRemoved(env, now, a);
    CopyItemGone(env, now - {[a]}, x, a, b, perm);
    NoWay(env, now - {[a]}, R([b, x], {[], [a], [b]}), [a]);
    TopRoute(env.cwd, b);
    DirItemGone(env, now - {[a]}, "/" + b, perm);
    FullStays(env, now - {[a]}, b, x);
  }

  /** The act of the item for "/a". */
  function TopAct(env: Env, word: string, perm: Mode): Act {
    PutDir([R([], {}), R([word], {[]})], R([word], {[]}), R([word], {[]}), env.uid, env.gid, perm)
  }

  lemma {:induction false} TopPlan(env: Env, fs: FS, word: string, perm: Mode)
    requires Word(word) && |word| + 3 < MAX_PATHLEN && env.fakeRoot.None?
    ensures Plan(env, fs, DirItem("/" + word, perm)) == Some(TopAct(env, word, perm))
  {
    TopChain(env.cwd, word);
    TopRoute(env.cwd, word);
    DirItemPlan(env, fs, "/" + word, perm);
  }

  function LostWayItems(x: string, a: string, b: string, perm: Mode): seq<Entry> {
    [DirItem("/" + b, perm), CopyItem(x, a, b, perm), DirItem("/" + a, perm)]
  }

  /** What the three items mean. */
  function LostWayActs(env: Env, x: string, a: string, b: string, perm: Mode): seq<Act> {
    [TopAct(env, b, perm), CopyItemAct(env, x, a, b, perm), TopAct(env, a, perm)]
  }

  lemma {:induction false} LostWayMeans(env: Env, fs: FS, x: string, a: string, b: string, perm: Mode)
    requires ThreeItemsReady(env, fs, x, a, b)
    ensures var items, acts := LostWayItems(x, a, b, perm), LostWayActs(env, x, a, b, perm);
            && Plan(env, fs, items[0]) == Some(acts[0]) && Plan(env, fs, items[1]) == Some(acts[1])
            && Plan(env, fs, items[2]) == Some(acts[2])
  {
    TopPlan(env, fs, a, perm);
    TopPlan(env, fs, b, perm);
    CopyItemPlan(env, fs, x, a, b, perm);
  }

  /** "/a" is a later item's directory beside the file's place. */
  lemma {:induction false} LostWayNotKept(env: Env, x: string, a: string, b: string, perm: Mode)
    requires a != b
    ensures !WaysKept(LostWayActs(env, x, a, b, perm))
  {
    var acts := LostWayActs(env, x, a, b, perm);
    assert acts[2].PutDir? && Spot(acts[2]) == [a];
    assert [a] in Undo(acts[1]).way.through && Spot(acts[1]) == [b, x];
    assert [a][0] != [b, x][0];
    LaterBeside(acts, 1, [a]);
  }

  lemma {:induction false} LaterBeside(acts: seq<Act>, m: nat, q: Path)
    requires m < |acts| && q in Undo(acts[m]).way.through && !(q <= Spot(acts[m])) && IsLaterDir(acts, m, q)
    ensures !WaysKept(acts)
  {
  }

  /** The three items install. */
  lemma {:induction false} LostWayInstalls(env: Env, fs: FS, x: string, a: string, b: string, perm: Mode)
    requires ThreeItemsReady(env, fs, x, a, b)
    ensures var now := WithX(env, fs, x, a, b, perm);
            InstallRun(env, LostWayItems(x, a, b, perm), [OK, OK, OK], [fs, WithB(env, fs, b, perm), now, now])
  {
    CopyItemInstalls(env, fs, x, a, b, perm);
    NewTopInstalls(env, fs, b, perm);
    WithXIsTree(env, fs, x, a, b, perm);
    OldTopInstalls(env, WithX(env, fs, x, a, b, perm), a, perm);
  }

  /**
   Three items that all install: "/b", the file "/a/../b/x", and "/a", which is there and empty. Deinstalling
   them in reverse takes "/a" away first, and the file and its directory stay.
   */
  lemma {:induction false} LostWay(env: Env, fs: FS, x: string, a: string, b: string, perm: Mode)
    requires ThreeItemsReady(env, fs, x, a, b)
    ensures var items, now := LostWayItems(x, a, b, perm), WithX(env, fs, x, a, b, perm);
            var left := Deinstalled(env, Deinstalled(env, Deinstalled(env, now, items[2]), items[1]), items[0]);
            && left == now - {[a]} && IsLeaf(left, [b, x]) && IsDir(left, [b])
            && !Restored(env, LostWayActs(env, x, a, b, perm), fs, map[], now, left)
  {
    var now := WithX(env, fs, x, a, b, perm);
    ThreeItemsRemoved(env, fs, x, a, b, perm);
    NothingInB(fs, b, x);
    assert [a][0] != [b][0];
    FileLeft(env, LostWayActs(env, x, a, b, perm), fs, now - {[a]}, now, [b, x]);
  }

  lemma {:induction false} FileLeft(env: Env, acts: seq<Act>, start: FS, end: FS, full: FS, p: Path)
    requires IsLeaf(end, p) && p !in start
    ensures !Restored(env, acts, start, map[], full, end)
  {
  }

  // --- A directory behind a link ------------------------------------------------------------------------

  /** The path of the directory `word` behind `name` in `dir`. */
  function Behind(dir: string, name: string, word: string): string {
    dir + "/" + name + "/" + word
  }

  /** A link in a directory, and a directory behind it. */
  function LinkThenDir(dir: string, name: string, text: string, word: string, perm: Mode): seq<Entry> {
    [Entry(Symlink, Some(text), Some(name), Some(dir), None, None, perm), DirItem(Behind(dir, name, word), perm)]
  }

  /**
   A table that is tame, as no name has ".." in it, but in which the second item leads over the link that the
   first one makes: the kernel makes its directory where the link points.
   */
  lemma {:induction false} DirectoryBehindLink(env: Env, fs: FS, dir: string, name: string, text: string, word: string,
                                               perm: Mode, acts: seq<Act>)
    requires EnvOk(env) && env.fakeRoot.Some? && Descends(dir) && Word(name) && Word(word)
    requires |env.fakeRoot.value| + |dir| + |name| + |word| + 8 < MAX_PATHLEN
    requires MeantBy(env, fs, LinkThenDir(dir, name, text, word, perm), acts)
    ensures TameRun(env, fs, LinkThenDir(dir, name, text, word, perm)) && !NoLinksCrossed(acts, fs)
  {
    var items := LinkThenDir(dir, name, text, word, perm);
    var root := env.fakeRoot.value;
    var place := Canon(env.cwd, root + "/" + dir) + [name];
    BehindLinkIsTame(env, fs, dir, name, text, word, perm);
    LinkPlaced(env, fs, items[0], dir, name, text);
    BehindLink(env, fs, dir, name, word, perm);
    var link, made := Plan(env, fs, items[0]).value, Plan(env, fs, items[1]).value;
    assert Meant(Plan(env, fs, items[0]), acts) && Meant(Plan(env, fs, items[1]), acts);
    assert LinkedByItem(acts, place) by { assert link in acts && link.PutLink?; }
    assert made in acts && Crosses(made, place);
  }

  lemma {:induction false} BehindLinkIsTame(env: Env, fs: FS, dir: string, name: string, text: string, word: string, perm: Mode)
    requires EnvOk(env) && env.fakeRoot.Some? && Descends(dir) && Word(name) && Word(word)
    requires |env.fakeRoot.value| + |dir| + |name| + |word| + 8 < MAX_PATHLEN
    ensures TameRun(env, fs, LinkThenDir(dir, name, text, word, perm))
  {
    var items := LinkThenDir(dir, name, text, word, perm);
    ComponentsOfWord(name);
    ComponentsOfWord(word);
    DescendsJoin(dir, name);
    DescendsJoin(dir + "/" + name, word);
    assert Components("") == [];
    assert Placement(env, fs, items[0]) == Some((dir, name));
    assert Placement(env, fs, items[1]) == Some((Behind(dir, name, word), ""));
    assert Tame(env, fs, items[0]) && Tame(env, fs, items[1]);
    assert VirtualRoutes(env, items[0]) == {} && VirtualRoutes(env, items[1]) == {};
  }

  lemma {:induction false} LinkPlaced(env: Env, fs: FS, e: Entry, dir: string, name: string, text: string)
    requires EnvOk(env) && env.fakeRoot.Some? && Word(name) && |env.fakeRoot.value| + 1 + |dir| < MAX_PATHLEN
    requires e.op == Symlink && e.src == Some(text) && e.dst == Some(name) && e.dir == Some(dir)
    ensures var plan := Plan(env, fs, e);
            plan.Some? && plan.value.PutLink? && plan.value.name.at == Canon(env.cwd, env.fakeRoot.value + "/" + dir) + [name]
  {
    HereRoute(Canon(env.cwd, env.fakeRoot.value + "/" + dir), name);
  }

  /** A path leads through the directory before its last word. */
  lemma {:induction false} LeadsThrough(cwd: Path, base: string, name: string, word: string)
    requires base != "" && Word(name) && Word(word)
    ensures Canon(cwd, base) + [name] in FileRoute(cwd, Behind(base, name, word)).through
  {
    SlashAddsNothing(cwd, base);
    NextRoute(cwd, base + "/", name);
    NextRoute(cwd, base + "/" + name + "/", word);
  }

  lemma {:induction false} BehindBelow(root: string, dir: string, name: string, word: string)
    ensures Behind(root + dir, name, word) == root + Behind(dir, name, word)
  {
  }

  lemma {:induction false} BehindLink(env: Env, fs: FS, dir: string, name: string, word: string, perm: Mode)
    requires EnvOk(env) && env.fakeRoot.Some? && Word(name) && Word(word)
    requires |env.fakeRoot.value| + |dir| + |name| + |word| + 8 < MAX_PATHLEN
    ensures var plan := Plan(env, fs, DirItem(Behind(dir, name, word), perm));
            plan.Some? && plan.value.PutDir? && Crosses(plan.value, Canon(env.cwd, env.fakeRoot.value + "/" + dir) + [name])
  {
    var root := env.fakeRoot.value + "/";
    LeadsThrough(env.cwd, root + dir, name, word);
    BehindBelow(root, dir, name, word);
    RootedPlan(env, fs, Behind(dir, name, word), Behind(root + dir, name, word), perm);
  }

  /** What a directory item means below the fake root. */
  lemma {:induction false} RootedPlan(env: Env, fs: FS, dir: string, full: string, perm: Mode)
    requires env.fakeRoot.Some? && full == env.fakeRoot.value + "/" + dir && |full| < MAX_PATHLEN
    ensures var plan := Plan(env, fs, DirItem(dir, perm));
            plan.Some? && plan.value.PutDir? && plan.value.seen == FileRoute(env.cwd, full)
  {
  }
}
