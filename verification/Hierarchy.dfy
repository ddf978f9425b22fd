/** The item table of insthier.c, for any configured directories, and the whole-run theorems on it. */
module Hierarchy {
  import opened Wrappers
  import opened Paths
  import opened FileSystem
  import opened Items
  import opened Chains
  import opened Steps
  import opened FakeRoot
  import opened InstallRuns
  import opened Strays
  import opened WholeRuns

  const PROGRAM_MODE: Mode := 0x1ED  // octal 0755
  const PLAIN_MODE: Mode := 0x1A4    // octal 0644
  const READ_MODE: Mode := 0x124     // octal 0444

  const MAX_NAME: nat := 24

  /** A plain file name: a single component that is no virtual library and is short enough for any buffer. */
  predicate SimpleName(name: string) {
    && 2 < |name| <= MAX_NAME
    && (forall i :: 0 <= i < |name| ==> name[i] != '/')
    && !(name[|name| - 1] == 'b' && name[|name| - 2] == 'l')
  }

  /** A row that makes one of the directories `dirs`, or copies a file of a simple name to one of them. */
  predicate SimpleRow(e: Entry, dirs: set<string>) {
    && e.dir.Some? && e.dir.value in dirs
    && (e.op.Mkdir? || e.op.Copy? || e.op.CopyExec?)
    && (!e.op.Mkdir? ==> e.src.Some?)
    && (e.src.Some? ==> SimpleName(e.src.value))
    && (e.dst.Some? ==> SimpleName(e.dst.value))
  }

  predicate SimpleRows(es: seq<Entry>, dirs: set<string>) {
    forall i :: 0 <= i < |es| ==> SimpleRow(es[i], dirs)
  }

  // --- The table ------------------------------------------------------------------------------------

  function Directory(dir: string): (r: seq<Entry>)
    ensures SimpleRows(r, {dir})
  {
    [Entry(Mkdir, None, None, Some(dir), None, None, PROGRAM_MODE)]
  }

  function CopyTo(name: string, dir: string, perm: Mode): (r: seq<Entry>)
    requires SimpleName(name)
    ensures SimpleRows(r, {dir})
  {
    [Entry(Copy, Some(name), None, Some(dir), None, None, perm)]
  }

  function Program(name: string, dir: string): (r: seq<Entry>)
    requires SimpleName(name)
    ensures SimpleRows(r, {dir})
  {
    [Entry(CopyExec, Some(name), None, Some(dir), None, None, PROGRAM_MODE)]
  }

  function Renamed(name: string, newName: string, dir: string): (r: seq<Entry>)
    requires SimpleName(name) && SimpleName(newName)
    ensures SimpleRows(r, {dir})
  {
    [Entry(Copy, Some(name), Some(newName), Some(dir), None, None, PLAIN_MODE)]
  }

  function Both(name: string, repos: string, inc: string, perm: Mode): (r: seq<Entry>)
    requires SimpleName(name)
    ensures SimpleRows(r, {repos, inc})
  {
    CopyTo(name, repos, PLAIN_MODE) + CopyTo(name, inc, perm)
  }

  function Sources(repos: string, inc: string): (r: seq<Entry>)
    ensures SimpleRows(r, {repos, inc})
  {
    CopyTo("lua-ada-conf.c", repos, PLAIN_MODE) +
    CopyTo("lua-ext.c", repos, PLAIN_MODE) +
    Both("lua-check_raise.ads", repos, inc, PLAIN_MODE) +
    Both("lua-config.ads", repos, inc, PLAIN_MODE) +
    Both("lua-lib.ads", repos, inc, PLAIN_MODE) +
    Both("lua-user_data.ads", repos, inc, PLAIN_MODE) +
    Both("lua.ads", repos, inc, PLAIN_MODE)
  }

  function Bodies(repos: string, inc: string): (r: seq<Entry>)
    ensures SimpleRows(r, {repos, inc})
  {
    Both("lua-check_raise.adb", repos, inc, PLAIN_MODE) +
    Both("lua-lib.adb", repos, inc, PLAIN_MODE) +
    Both("lua-user_data.adb", repos, inc, PLAIN_MODE) +
    Both("lua.adb", repos, inc, PLAIN_MODE) +
    Both("lua_check_exception.adb", repos, inc, PLAIN_MODE)
  }

  function LibraryInformation(repos: string, inc: string): (r: seq<Entry>)
    ensures SimpleRows(r, {repos, inc})
  {
    Both("lua-check_raise.ali", repos, inc, READ_MODE) +
    Both("lua-config.ali", repos, inc, READ_MODE) +
    Both("lua-lib.ali", repos, inc, READ_MODE) +
    Both("lua-user_data.ali", repos, inc, READ_MODE) +
    Both("lua.ali", repos, inc, READ_MODE) +
    Both("lua_check_exception.ali", repos, inc, READ_MODE)
  }

  function Programs(bin: string, slib: string, repos: string): (r: seq<Entry>)
    ensures SimpleRows(r, {bin, slib, repos})
  {
    CopyTo("lua-ada.sld", repos, PLAIN_MODE) +
    Renamed("lua-ada.a", "liblua-ada.a", slib) +
    CopyTo("lua-ada-conf.ld", repos, PLAIN_MODE) +
    Program("lua-ada-conf", bin) +
    CopyTo("lua-check-exception.ald", repos, PLAIN_MODE) +
    Program("lua-check-exception", bin)
  }

  /** The table, in its order; the five directories come from the configuration. */
  function Table(bin: string, inc: string, dlib: string, slib: string, repos: string): (r: seq<Entry>)
    ensures SimpleRows(r, {bin, inc, dlib, slib, repos})
  {
    Directory(bin) + Directory(inc) + Directory(dlib) + Directory(slib) + Directory(repos) +
    Sources(repos, inc) + Bodies(repos, inc) + LibraryInformation(repos, inc) + Programs(bin, slib, repos)
  }

  // --- The theorems on it ---------------------------------------------------------------------------

  lemma {:induction false} NotALibrary(name: string)
    requires SimpleName(name)
    ensures !IsVirtual(name)
  {
  }

  lemma {:induction false} NoLibraries(env: Env, e: Entry, dirs: set<string>)
    requires SimpleRow(e, dirs)
    ensures VirtualRoutes(env, e) == {}
  {
    if e.src.Some? { NotALibrary(e.src.value); }
    if e.dst.Some? { NotALibrary(e.dst.value); }
  }

  /** The string of what lies at `rest`, below the fake root if there is one. */
  function Below(env: Env, rest: string): string {
    if env.fakeRoot.Some? then env.fakeRoot.value + "/" + rest else rest
  }

  predicate EndsInDot(dir: string) {
    Components(dir) != [] && Components(dir)[|Components(dir)| - 1] == "."
  }

  /** The name of the fake root leads over no directory inside of it. */
  ghost predicate RootAside(env: Env)
    requires env.fakeRoot.Some?
  {
    forall q :: q in DirRoute(env.cwd, env.fakeRoot.value).through ==> q == RootPath(env) || !(RootPath(env) <= q)
  }

  /** The fake root, if there is one, is there and named as it should be. */
  ghost predicate RootNamed(env: Env, fs: FS) {
    && EnvOk(env) && TreeOk(fs) && IsDir(fs, env.cwd)
    && (env.fakeRoot.Some? ==> RootExists(env, fs) && RootAside(env))
  }

  /** A fake root named without ".." is so if it has been found to be a directory. */
  lemma {:induction false} TestedRootNamed(env: Env, fs: FS)
    requires EnvOk(env) && TreeOk(fs) && IsDir(fs, env.cwd)
    requires env.fakeRoot.Some? ==> Descends(env.fakeRoot.value) && IsDir(fs, RootPath(env))
    ensures RootNamed(env, fs)
  {
    if env.fakeRoot.Some? {
      TestedRootExists(env, fs);
      DescendingIsStraight(env.cwd, env.fakeRoot.value);
    }
  }

  /** The directories are named without ".." and not with a final ".", and there is room for the names of their files. */
  predicate DirsNamed(env: Env, dirs: set<string>) {
    && NoSlash(env.execSuffix)
    && forall dir :: dir in dirs ==>
         Descends(dir) && !EndsInDot(dir) && |Below(env, dir)| + |env.execSuffix| + MAX_NAME + 6 < MAX_PATHLEN
  }

  // --- Ways ---------------------------------------------------------------------------------------------

  /** A directory of the route is above its place or beside the fake root and there. */
  ghost predicate WayFine(env: Env, fs: FS, r: Route) {
    forall q :: q in r.through ==>
      q <= r.at || (IsDir(fs, q) && env.fakeRoot.Some? && !(RootPath(env) <= q))
  }

  /** What the name of the fake root leads over is there. */
  lemma {:induction false} RootWay(env: Env, fs: FS)
    requires RootNamed(env, fs) && env.fakeRoot.Some? && |env.fakeRoot.value| < MAX_PATHLEN
    ensures forall q :: q in DirRoute(env.cwd, env.fakeRoot.value).through ==> IsDir(fs, q)
  {
    var root := env.fakeRoot.value;
    var ss := MkdirStrings(root);
    PassedAreVisited(env.cwd, root);
    MkdirStringsAre(root);
    forall q | q in DirRoute(env.cwd, root).through ensures IsDir(fs, q) {
      if q != Start(env.cwd, root) {
        var i :| 0 <= i < |ss| && Routes(env.cwd, ss)[i].at == q;
        assert ss[i] in ss && ss[i] <= root + "/" && EndsInSlash(ss[i]);
      }
    }
  }

  /** A string below the fake root passes through what the root's own passes through, and then only downwards. */
  lemma {:induction false} BelowWay(env: Env, fs: FS, rest: string)
    requires RootNamed(env, fs) && Descends(rest) && |Below(env, rest)| < MAX_PATHLEN
    ensures WayFine(env, fs, DirRoute(env.cwd, Below(env, rest))) && WayFine(env, fs, FileRoute(env.cwd, Below(env, rest)))
    ensures env.fakeRoot.Some? ==> RootPath(env) <= Canon(env.cwd, Below(env, rest))
  {
    if env.fakeRoot.Some? {
      var root := env.fakeRoot.value;
      RootWay(env, fs);
      BelowRoot(env, rest);
      ComponentsJoin(root, rest);
      assert (root + "/" + rest)[0] == root[0];
      PassedConcat(Start(env.cwd, root), Components(root), Components(rest));
      CanonJoin(env.cwd, root, rest);
      PassedDescends(RootPath(env), Components(rest));
    } else {
      DescendingIsStraight(env.cwd, rest);
    }
  }

  /** Where a directory does not end in ".", neither does its string below the fake root, unless that is the root itself. */
  lemma {:induction false} BelowEndsInDot(env: Env, rest: string)
    requires EnvOk(env) && !EndsInDot(rest) && EndsInDot(Below(env, rest))
    ensures env.fakeRoot.Some? && Canon(env.cwd, Below(env, rest)) == RootPath(env)
  {
    if env.fakeRoot.Some? {
      ComponentsJoin(env.fakeRoot.value, rest);
      CanonJoin(env.cwd, env.fakeRoot.value, rest);
      LastOfBoth(Components(env.fakeRoot.value), Components(rest));
    }
  }

  lemma {:induction false} LastOfBoth(a: seq<string>, b: seq<string>)
    ensures b != [] ==> (a + b)[|a + b| - 1] == b[|b| - 1]
  {
  }

  // --- The acts of a simple row -------------------------------------------------------------------------

  /** The name of the file of a row, after the directory. */
  function FileName(env: Env, e: Entry): string
    requires !e.op.Mkdir? && e.src.Some?
  {
    (if e.dst.Some? then e.dst.value else e.src.value) + if e.op.CopyExec? then env.execSuffix else ""
  }

  lemma {:induction false} SimpleNameDescends(name: string, suffix: string)
    requires SimpleName(name) && NoSlash(suffix)
    ensures Basename(name) == name && Descends(name + suffix) && NoSlash(name + suffix)
    ensures Components(name + suffix) == [name + suffix]
  {
    ComponentsOfWord(name);
    ComponentsOfWord(name + suffix);
  }

  /** What is left of a simple row once its names are translated. */
  lemma {:induction false} SimpleTarget(env: Env, fs: FS, e: Entry, dirs: set<string>)
    requires EnvOk(env) && SimpleRow(e, dirs) && DirsNamed(env, dirs) && Translate(env, fs, e).Some?
    ensures var t := Translate(env, fs, e).value;
            if e.op.Mkdir? then t == DirTarget(Below(env, e.dir.value))
            else t.CopyTarget? && t.dst == Below(env, e.dir.value + "/" + FileName(env, e))
  {
    assert |Below(env, e.dir.value)| + |env.execSuffix| + MAX_NAME + 6 < MAX_PATHLEN;
    if !e.op.Mkdir? {
      var name := if e.dst.Some? then e.dst.value else e.src.value;
      NotALibrary(name);
      SimpleNameDescends(name, "");
      PlainCopy(env, fs, e, name);
      if e.op.CopyExec? {
        ExecCopy(env, fs, e, name);
      } else {
        assert name + "" == name;
      }
    }
  }

  lemma {:induction false} ExecCopy(env: Env, fs: FS, e: Entry, name: string)
    requires TranslateCopyExec(env, fs, e).Some?
    requires TranslateCopy(env, fs, e).value.dst == Below(env, e.dir.value + "/" + name)
    requires |Below(env, e.dir.value + "/" + name)| + |env.execSuffix| < MAX_PATHLEN
    ensures TranslateCopyExec(env, fs, e).value.dst == Below(env, e.dir.value + "/" + (name + env.execSuffix))
  {
    ConcatAssociative(e.dir.value + "/", name, env.execSuffix);
    if env.fakeRoot.Some? {
      ConcatAssociative(env.fakeRoot.value + "/", e.dir.value + "/" + name, env.execSuffix);
    }
  }

  lemma {:induction false} PlainCopy(env: Env, fs: FS, e: Entry, name: string)
    requires TranslateCopy(env, fs, e).Some? && SimpleName(name) && Basename(name) == name && !IsVirtual(name)
    requires name == if e.dst.Some? then e.dst.value else e.src.value
    requires |Below(env, e.dir.value)| + |name| + 1 < MAX_PATHLEN
    ensures TranslateCopy(env, fs, e).value.dst == Below(env, e.dir.value + "/" + name)
  {
    if env.fakeRoot.Some? {
      assert env.fakeRoot.value + "/" + e.dir.value + "/" + name == Below(env, e.dir.value + "/" + name);
    }
  }

  /** The act of a simple row: where it ends up, and that its way back is fine. */
  ghost predicate SimpleAct(env: Env, fs: FS, e: Entry, act: Act)
    requires e.dir.Some? && (!e.op.Mkdir? ==> e.src.Some?)
  {
    && !act.PutLink? && act.PutDir? == e.op.Mkdir?
    && WayFine(env, fs, Undo(act).way)
    && (env.fakeRoot.Some? ==> RootPath(env) <= Spot(act))
    && if act.PutDir? then
         var dir := Below(env, e.dir.value);
         act.chain == Routes(env.cwd, MkdirStrings(dir)) && act.gone == DirRoute(env.cwd, dir) && act.seen == FileRoute(env.cwd, dir)
       else act.dst == FileRoute(env.cwd, Below(env, e.dir.value + "/" + FileName(env, e)))
  }

  lemma {:induction false} SimpleRowMeans(env: Env, fs: FS, e: Entry, dirs: set<string>, act: Act)
    requires RootNamed(env, fs) && SimpleRow(e, dirs) && DirsNamed(env, dirs) && Plan(env, fs, e) == Some(act)
    ensures SimpleAct(env, fs, e, act)
  {
    SimpleTarget(env, fs, e, dirs);
    var dir := e.dir.value;
    assert Descends(dir) && |Below(env, dir)| + |env.execSuffix| + MAX_NAME + 6 < MAX_PATHLEN;
    if e.op.Mkdir? {
      BelowWay(env, fs, dir);
    } else {
      var name := if e.dst.Some? then e.dst.value else e.src.value;
      SimpleNameDescends(name, if e.op.CopyExec? then env.execSuffix else "");
      DescendsJoin(dir, FileName(env, e));
      BelowWay(env, fs, dir + "/" + FileName(env, e));
    }
  }

  /** The acts of a table of simple rows. */
  ghost predicate SimpleActs(env: Env, fs: FS, entries: seq<Entry>, dirs: set<string>, acts: seq<Act>) {
    && |acts| == |entries| && SimpleRows(entries, dirs)
    && forall i :: 0 <= i < |acts| ==> SimpleRow(entries[i], dirs) && SimpleAct(env, fs, entries[i], acts[i])
  }

  lemma {:induction false} SimpleRowsMean(env: Env, fs: FS, entries: seq<Entry>, dirs: set<string>, acts: seq<Act>)
    requires RootNamed(env, fs) && SimpleRows(entries, dirs) && DirsNamed(env, dirs) && Settled(env, fs, entries, acts)
    ensures SimpleActs(env, fs, entries, dirs, acts) && LinksSameWay(acts) && LinkWays(acts)
  {
    forall i | 0 <= i < |acts|
      ensures SimpleRow(entries[i], dirs) && SimpleAct(env, fs, entries[i], acts[i])
    {
      assert Plan(env, fs, entries[i]) == Some(acts[i]);
      SimpleRowMeans(env, fs, entries[i], dirs, acts[i]);
    }
  }

  lemma {:induction false} SimpleActOf(env: Env, fs: FS, entries: seq<Entry>, dirs: set<string>, acts: seq<Act>, i: nat)
    requires SimpleActs(env, fs, entries, dirs, acts) && i < |acts|
    ensures SimpleRow(entries[i], dirs) && SimpleAct(env, fs, entries[i], acts[i])
  {
  }

  /** With a fake root, all places are inside of it. */
  lemma {:induction false} SpotsInside(env: Env, fs: FS, entries: seq<Entry>, dirs: set<string>, acts: seq<Act>)
    requires SimpleActs(env, fs, entries, dirs, acts) && env.fakeRoot.Some?
    ensures forall i :: 0 <= i < |acts| ==> RootPath(env) <= Spot(acts[i])
  {
    forall i | 0 <= i < |acts| ensures RootPath(env) <= Spot(acts[i]) {
      SimpleActOf(env, fs, entries, dirs, acts, i);
    }
  }

  lemma {:induction false} SimpleWayStraight(env: Env, fs: FS, entries: seq<Entry>, dirs: set<string>, acts: seq<Act>, m: nat)
    requires SimpleActs(env, fs, entries, dirs, acts) && m < |acts|
    ensures WayStraight(acts, fs, acts[m])
  {
    SimpleActOf(env, fs, entries, dirs, acts, m);
    if env.fakeRoot.Some? { SpotsInside(env, fs, entries, dirs, acts); }
    forall q | q in Undo(acts[m]).way.through
      ensures q <= Spot(acts[m]) || (IsDir(fs, q) && !IsItemDir(acts, q))
    {
      SimpleWayIs(env, fs, entries[m], acts[m], q);
    }
  }

  lemma {:induction false} SimpleWaysStraight(env: Env, fs: FS, entries: seq<Entry>, dirs: set<string>, acts: seq<Act>)
    requires SimpleActs(env, fs, entries, dirs, acts)
    ensures WaysStraight(acts, fs)
  {
    forall m | 0 <= m < |acts| ensures WayStraight(acts, fs, acts[m]) {
      SimpleWayStraight(env, fs, entries, dirs, acts, m);
    }
  }

  lemma {:induction false} SimpleWayIs(env: Env, fs: FS, e: Entry, act: Act, q: Path)
    requires e.dir.Some? && (!e.op.Mkdir? ==> e.src.Some?) && SimpleAct(env, fs, e, act)
    requires q in Undo(act).way.through
    ensures q <= Spot(act) || (IsDir(fs, q) && env.fakeRoot.Some? && !(RootPath(env) <= q))
  {
  }

  // --- Visits -------------------------------------------------------------------------------------------

  /** What a directory item visits is there or lies on the way. */
  lemma {:induction false} DirVisits(env: Env, fs: FS, dir: string)
    requires RootNamed(env, fs) && Descends(dir)
    ensures forall p :: Visits(Routes(env.cwd, MkdirStrings(Below(env, dir))), p) ==>
              IsDir(fs, p) || p <= Canon(env.cwd, Below(env, dir))
  {
    if env.fakeRoot.Some? {
      VisitsAccounted(env, fs, dir);
    } else {
      MkdirStringsOnTheWay(env.cwd, dir);
    }
  }

  /** rmdir accepts the name of a directory, unless it names the fake root. */
  lemma {:induction false} DirRemovable(env: Env, fs: FS, dir: string, p: Path)
    requires RootNamed(env, fs) && !EndsInDot(dir) && !IsDir(fs, p) && p == Canon(env.cwd, Below(env, dir))
    requires Visits(Routes(env.cwd, MkdirStrings(Below(env, dir))), p)
    ensures DirRoute(env.cwd, Below(env, dir)).named && !DirRoute(env.cwd, Below(env, dir)).dot
  {
    if EndsInDot(Below(env, dir)) {
      BelowEndsInDot(env, dir);
      SlashAddsNothing(env.cwd, env.fakeRoot.value);
      assert EndsInSlash(env.fakeRoot.value + "/");
    }
    assert MkdirStrings("") == [];
  }

  lemma {:induction false} SimpleVisitCovered(env: Env, fs: FS, dir: string, acts: seq<Act>, act: Act, p: Path)
    requires RootNamed(env, fs) && Descends(dir) && !EndsInDot(dir)
    requires act in acts && act.PutDir? && Visits(act.chain, p)
    requires act.chain == Routes(env.cwd, MkdirStrings(Below(env, dir))) && act.gone == DirRoute(env.cwd, Below(env, dir))
    ensures Covered(acts, fs, act, p)
  {
    DirVisits(env, fs, dir);
    if p < Spot(act) {
      var i :| 0 <= i < |acts| && acts[i] == act;
      assert IsAncestor(acts, p);
    } else if !IsDir(fs, p) {
      DirRemovable(env, fs, dir, p);
    }
  }

  lemma {:induction false} SimpleVisitsCovered(env: Env, fs: FS, dirs: set<string>, entries: seq<Entry>, acts: seq<Act>)
    requires RootNamed(env, fs) && DirsNamed(env, dirs) && SimpleActs(env, fs, entries, dirs, acts)
    ensures VisitsCovered(acts, fs)
  {
    forall i, p | 0 <= i < |acts| && acts[i].PutDir? && Visits(acts[i].chain, p) ensures Covered(acts, fs, acts[i], p) {
      SimpleActOf(env, fs, entries, dirs, acts, i);
      SimpleVisitCovered(env, fs, entries[i].dir.value, acts, acts[i], p);
    }
  }

  // --- The round trip -----------------------------------------------------------------------------------

  lemma {:induction false} SimpleLibrariesApart(env: Env, fs: FS, entries: seq<Entry>, dirs: set<string>, acts: seq<Act>)
    requires SimpleRows(entries, dirs)
    ensures LibrariesApart(env, fs, entries, acts)
  {
    forall i | 0 <= i < |entries| ensures LibraryApart(env, fs, entries[i], acts) {
      assert SimpleRow(entries[i], dirs);
      NoLibraries(env, entries[i], dirs);
    }
  }

  /** Any table of simple rows: installing and deinstalling it leaves what Restored says. */
  lemma {:induction false} SimpleRoundTrip(env: Env, dirs: set<string>, entries: seq<Entry>, acts: seq<Act>,
                                           statuses: seq<Status>, states: seq<FS>, extra: FS, removals: seq<FS>)
    requires InstallRun(env, entries, statuses, states) && AllOk(statuses)
    requires RootNamed(env, states[0]) && DirsNamed(env, dirs) && SimpleRows(entries, dirs)
    requires Settled(env, states[0], entries, acts) && NoLinksCrossed(acts, states[0])
    requires ExtraOk(env, acts, states[|acts|], extra)
    requires DeinstallRun(env, entries, removals) && removals[0] == states[|acts|] + extra && RemovalsPlain(acts, removals[0])
    ensures Restored(env, acts, states[0], extra, removals[0], removals[|acts|])
  {
    SimpleLibrariesApart(env, states[0], entries, dirs, acts);
    SimpleRowsMean(env, states[0], entries, dirs, acts);
    SimpleWaysStraight(env, states[0], entries, dirs, acts);
    SimpleVisitsCovered(env, states[0], dirs, entries, acts);
    StraightRoundTrip(env, entries, acts, statuses, states, extra, removals);
  }

  /**
   Whatever the configured directories, as long as they are named without ".." and not with a final ".":
   installing the whole table and deinstalling it leaves what Restored says.
   */
  lemma {:induction false} HierarchyRoundTrip(
    env: Env, bin: string, inc: string, dlib: string, slib: string, repos: string,
    acts: seq<Act>, statuses: seq<Status>, states: seq<FS>, extra: FS, removals: seq<FS>)
    requires var entries := Table(bin, inc, dlib, slib, repos);
             && InstallRun(env, entries, statuses, states) && AllOk(statuses)
             && Settled(env, states[0], entries, acts) && NoLinksCrossed(acts, states[0])
             && ExtraOk(env, acts, states[|acts|], extra)
             && DeinstallRun(env, entries, removals) && removals[0] == states[|acts|] + extra
    requires RemovalsPlain(acts, removals[0])
    requires RootNamed(env, states[0]) && DirsNamed(env, {bin, inc, dlib, slib, repos})
    ensures Restored(env, acts, states[0], extra, removals[0], removals[|acts|])
  {
    var dirs := {bin, inc, dlib, slib, repos};
    SimpleRoundTrip(env, dirs, Table(bin, inc, dlib, slib, repos), acts, statuses, states, extra, removals);
  }

  // --- The fake root ------------------------------------------------------------------------------------

  lemma {:induction false} SimpleRowIsTame(env: Env, fs: FS, e: Entry, dirs: set<string>)
    requires EnvOk(env) && env.fakeRoot.Some? && NoSlash(env.execSuffix) && SimpleRow(e, dirs)
    requires Descends(e.dir.value)
    requires |env.fakeRoot.value| + |e.dir.value| + |env.execSuffix| + MAX_NAME + 6 < MAX_PATHLEN
    ensures Tame(env, fs, e)
  {
    if e.op.Mkdir? {
      assert Components("") == [];
    } else {
      var name := if e.dst.None? then e.src.value else e.dst.value;
      var suffix := if e.op.CopyExec? then env.execSuffix else "";
      NotALibrary(name);
      SimpleNameDescends(name, "");
      SimpleNameDescends(name, suffix);
      assert Placement(env, fs, e) == Some((e.dir.value, name + suffix));
    }
  }

  /** The directories have no ".." and leave room for a name below the fake root. */
  predicate DirsFitRoot(env: Env, dirs: set<string>)
    requires env.fakeRoot.Some?
  {
    forall dir :: dir in dirs ==>
      Descends(dir) && |env.fakeRoot.value| + |dir| + |env.execSuffix| + MAX_NAME + 6 < MAX_PATHLEN
  }

  lemma {:induction false} SimpleRowsAreTame(env: Env, fs: FS, entries: seq<Entry>, dirs: set<string>)
    requires EnvOk(env) && env.fakeRoot.Some? && NoSlash(env.execSuffix)
    requires SimpleRows(entries, dirs)
    requires DirsFitRoot(env, dirs)
    ensures TameRun(env, fs, entries)
  {
    forall i | 0 <= i < |entries| ensures Tame(env, fs, entries[i]) && LibrariesOutside(env, fs, entries[i]) {
      assert SimpleRow(entries[i], dirs);
      SimpleRowIsTame(env, fs, entries[i], dirs);
      NoLibraries(env, entries[i], dirs);
    }
  }

  /** With a fake root the whole table is tame. */
  lemma {:induction false} HierarchyIsTame(env: Env, fs: FS, bin: string, inc: string, dlib: string, slib: string, repos: string)
    requires EnvOk(env) && env.fakeRoot.Some? && NoSlash(env.execSuffix)
    requires DirsFitRoot(env, {bin, inc, dlib, slib, repos})
    ensures TameRun(env, fs, Table(bin, inc, dlib, slib, repos))
  {
    var entries, dirs := Table(bin, inc, dlib, slib, repos), {bin, inc, dlib, slib, repos};
    assert SimpleRows(entries, dirs);
    SimpleRowsAreTame(env, fs, entries, dirs);
  }

  /** The table, for the configured directories `dirs` in the order in which they are made. */
  function TableOf(dirs: seq<string>): (r: seq<Entry>)
    requires |dirs| == 5
  {
    Table(dirs[0], dirs[1], dirs[2], dirs[3], dirs[4])
  }

  /** No call of the installer over this table changes anything outside the fake root, unless one leads over a link. */
  lemma {:induction false} HierarchyInstallsInside(env: Env, dirs: seq<string>, acts: seq<Act>, statuses: seq<Status>,
                                                   states: seq<FS>)
    requires EnvOk(env) && env.fakeRoot.Some? && NoSlash(env.execSuffix) && |dirs| == 5
    requires DirsFitRoot(env, {dirs[0], dirs[1], dirs[2], dirs[3], dirs[4]})
    requires InstallRun(env, TableOf(dirs), statuses, states) && TreeOk(states[0]) && RootExists(env, states[0])
    requires MeantBy(env, states[0], TableOf(dirs), acts) && NoLinksCrossed(acts, states[0])
    ensures SameOutside(RootPath(env), states[0], states[|states| - 1])
  {
    HierarchyIsTame(env, states[0], dirs[0], dirs[1], dirs[2], dirs[3], dirs[4]);
    InstallStaysInside(env, TableOf(dirs), acts, statuses, states, |TableOf(dirs)|);
  }

  /** Nor does one of the deinstaller. */
  lemma {:induction false} HierarchyRemovesInside(env: Env, dirs: seq<string>, removals: seq<FS>)
    requires EnvOk(env) && env.fakeRoot.Some? && NoSlash(env.execSuffix) && |dirs| == 5
    requires DirsFitRoot(env, {dirs[0], dirs[1], dirs[2], dirs[3], dirs[4]})
    requires DeinstallRun(env, TableOf(dirs), removals) && AllPlain(env, removals[0], TableOf(dirs))
    ensures SameOutside(RootPath(env), removals[0], removals[|removals| - 1])
  {
    HierarchyIsTame(env, removals[0], dirs[0], dirs[1], dirs[2], dirs[3], dirs[4]);
    DeinstallStaysInside(env, TableOf(dirs), removals, |TableOf(dirs)|);
  }
}
