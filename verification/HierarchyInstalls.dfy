/**
 The table of insthier.c, and any other table of plain rows, from start to end: where the sources are there, the
 directories can be made and nothing is refused, everything is installed.
 */
module HierarchyInstalls {
  import opened Wrappers
  import opened Paths
  import opened FileSystem
  import opened Items
  import opened Chains
  import opened Steps
  import Drivers
  import opened InstallRuns
  import opened Strays
  import opened InstallCheck
  import opened WholeRuns
  import opened AllInstalls
  import opened Inspection
  import opened Hierarchy
  import opened HierarchyCheck

  // --- What is there at the start ---------------------------------------------------------------------

  /** All directories above `dirs`, and they themselves, are there or can be made, and no file is put in their way. */
  ghost predicate DirsOpen(env: Env, fs: FS, dirs: set<string>, entries: seq<Entry>)
    requires forall i :: 0 <= i < |entries| ==> IsRow(entries[i])
  {
    forall dir, p :: dir in dirs && p <= Canon(env.cwd, Below(env, dir)) ==> FreePath(env, fs, entries, p)
  }

  ghost predicate FreePath(env: Env, fs: FS, entries: seq<Entry>, p: Path)
    requires forall i :: 0 <= i < |entries| ==> IsRow(entries[i])
  {
    Open(env, fs, p) && forall i :: 0 <= i < |entries| && !entries[i].op.Mkdir? ==> NoFileAt(env, entries[i], p)
  }

  predicate NoFileAt(env: Env, e: Entry, p: Path)
    requires IsRow(e) && !e.op.Mkdir?
  {
    p != Place(env, e) && p != TemporaryPlace(env, e)
  }

  /** The source of a row can be read, no directory is in its place, and nothing in that of the temporary file. */
  predicate SourceThere(env: Env, fs: FS, e: Entry)
    requires IsRow(e) && !e.op.Mkdir?
  {
    && SourcePlace(env, e) in fs && fs[SourcePlace(env, e)].File? && SourcePlace(env, e) !in env.unreadable
    && !IsDir(fs, Place(env, e)) && Place(env, e) !in env.deny
    && TemporaryPlace(env, e) !in fs && TemporaryPlace(env, e) !in env.deny
  }

  predicate SourcesThere(env: Env, fs: FS, entries: seq<Entry>)
    requires forall i :: 0 <= i < |entries| ==> IsRow(entries[i])
  {
    forall i :: 0 <= i < |entries| && !entries[i].op.Mkdir? ==> SourceThere(env, fs, entries[i])
  }

  /** The row that makes a directory comes before those that put files into it. */
  predicate DirsFirst(entries: seq<Entry>) {
    forall n :: 0 <= n < |entries| && !entries[n].op.Mkdir? ==> MadeBefore(entries, n)
  }

  predicate MadeBefore(entries: seq<Entry>, n: nat)
    requires n < |entries|
  {
    exists j :: 0 <= j < n && entries[j].op.Mkdir? && entries[j].dir == entries[n].dir
  }

  // --- Ways ---------------------------------------------------------------------------------------------

  /** A file in a directory is reached over what the directory's own item visits. */
  lemma {:induction false} FileWay(cwd: Path, dir: string, file: string)
    requires dir != "" && FitsWithSlash(dir) && file != "" && NoSlash(file)
    ensures var r := FileRoute(cwd, dir + "/" + file);
            && r.named && Grounded(r)
            && forall q :: q in r.through ==> q == Start(cwd, dir) || Visits(Routes(cwd, MkdirStrings(dir)), q)
  {
    var s := dir + "/" + file;
    RoutesAreGrounded(cwd, s);
    ComponentsJoin(dir, file);
    ComponentsOfWord(file);
    PassedConcat(Start(cwd, dir), Components(dir), [file]);
    PassedWord(Canon(cwd, dir), file);
    PassedAreVisited(cwd, dir);
    ArgumentIsVisited(cwd, dir);
    assert s[|s| - 1] == file[|file| - 1];
    assert s[0] == dir[0];
    LastIsVisited(Routes(cwd, MkdirStrings(dir)), DirRoute(cwd, dir));
  }

  lemma {:induction false} LastIsVisited(chain: seq<Route>, r: Route)
    requires EndsWithRoute(chain, r)
    ensures Visits(chain, r.at)
  {
    assert chain[|chain| - 1] == r;
  }

  /** A file named by one word is found in the working directory. */
  lemma {:induction false} WordWay(cwd: Path, file: string)
    requires file != "" && NoSlash(file)
    ensures var r := FileRoute(cwd, file); r.named && Grounded(r) && r.through == {cwd}
  {
    RoutesAreGrounded(cwd, file);
    ComponentsOfWord(file);
    PassedWord(cwd, file);
  }

  /** The routes of a row that copies a file. */
  ghost predicate FileRoutes(env: Env, e: Entry, act: Act)
    requires IsRow(e) && !e.op.Mkdir?
  {
    && act.PutFile?
    && act.src == FileRoute(env.cwd, e.src.value + if e.op.CopyExec? then env.execSuffix else "")
    && act.dst == FileRoute(env.cwd, Below(env, e.dir.value) + "/" + FileName(env, e))
    && act.tmp == FileRoute(env.cwd, Below(env, e.dir.value) + "/" + (FileName(env, e) + TEMPORARY))
  }

  lemma {:induction false} RowRoutes(env: Env, fs: FS, e: Entry, dirs: set<string>, act: Act)
    requires EnvOk(env) && SimpleRow(e, dirs) && DirsNamed(env, dirs) && !e.op.Mkdir? && Plan(env, fs, e) == Some(act)
    ensures FileRoutes(env, e, act)
  {
    var dir, file := e.dir.value, FileName(env, e);
    SimpleTarget(env, fs, e, dirs);
    SourceIs(env, fs, e, dirs);
    assert |Below(env, dir)| + |env.execSuffix| + MAX_NAME + 6 < MAX_PATHLEN;
    JoinedBelow(env, dir, file);
    ConcatAssociative(Below(env, dir) + "/", file, TEMPORARY);
  }

  /** The names of a row are words. */
  lemma {:induction false} RowWords(env: Env, e: Entry, dirs: set<string>)
    requires SimpleRow(e, dirs) && DirsNamed(env, dirs) && !e.op.Mkdir?
    ensures var source := e.src.value + if e.op.CopyExec? then env.execSuffix else ""; source != "" && NoSlash(source)
    ensures FileName(env, e) != "" && NoSlash(FileName(env, e)) && NoSlash(FileName(env, e) + TEMPORARY)
    ensures FitsWithSlash(Below(env, e.dir.value))
  {
    var suffix := if e.op.CopyExec? then env.execSuffix else "";
    SimpleNameDescends(e.src.value, suffix);
    SimpleNameDescends(if e.dst.Some? then e.dst.value else e.src.value, suffix);
    assert |Below(env, e.dir.value)| + |env.execSuffix| + MAX_NAME + 6 < MAX_PATHLEN;
  }

  // --- Everything is ready ------------------------------------------------------------------------------

  /** A table of plain rows in a file system that has all it needs. */
  ghost predicate StartReady(env: Env, dirs: set<string>, dirPerm: Mode, entries: seq<Entry>, start: FS) {
    && Configured(env, start, dirs) && SimpleRows(entries, dirs) && RowsPlain(entries, dirPerm)
    && (forall i :: 0 <= i < |entries| ==> IsRow(entries[i])) && PlacesApart(env, entries) && DirsFirst(entries)
    && DirsOpen(env, start, dirs, entries) && SourcesThere(env, start, entries)
  }

  /** Its rows mean `acts`. */
  ghost predicate TableReady(env: Env, dirs: set<string>, dirPerm: Mode, entries: seq<Entry>, acts: seq<Act>,
                             start: FS) {
    StartReady(env, dirs, dirPerm, entries, start) && Settled(env, start, entries, acts)
  }

  lemma {:induction false} RowOf(env: Env, dirs: set<string>, dirPerm: Mode, entries: seq<Entry>, acts: seq<Act>,
                                 start: FS, i: nat)
    requires TableReady(env, dirs, dirPerm, entries, acts, start) && i < |entries|
    ensures |acts| == |entries| && Plan(env, start, entries[i]) == Some(acts[i])
    ensures SimpleRow(entries[i], dirs) && IsRow(entries[i]) && RowPaths(env, entries[i], acts[i])
    ensures SimpleAct(env, start, entries[i], acts[i])
    ensures !entries[i].op.Mkdir? ==> FileRoutes(env, entries[i], acts[i]) && SourceThere(env, start, entries[i])
  {
    RowMeans(env, start, entries[i], dirs, acts[i]);
    SimpleRowMeans(env, start, entries[i], dirs, acts[i]);
    if !entries[i].op.Mkdir? { RowRoutes(env, start, entries[i], dirs, acts[i]); }
  }

  /** The path is the row's directory or above it. */
  ghost predicate OnTheWayTo(env: Env, dirs: set<string>, e: Entry, p: Path) {
    e.dir.Some? && e.dir.value in dirs && p <= Canon(env.cwd, Below(env, e.dir.value))
  }

  /** What a directory item visits is there, or lies on the way to its directory. */
  lemma {:induction false} VisitIsOnTheWay(env: Env, dirs: set<string>, dirPerm: Mode, entries: seq<Entry>,
                                           acts: seq<Act>, start: FS,
                                           j: nat, p: Path)
    requires TableReady(env, dirs, dirPerm, entries, acts, start) && j < |entries| == |acts|
    requires acts[j].PutDir? && Visits(acts[j].chain, p)
    ensures IsDir(start, p) || OnTheWayTo(env, dirs, entries[j], p)
  {
    RowOf(env, dirs, dirPerm, entries, acts, start, j);
    DirVisits(env, start, entries[j].dir.value);
  }

  lemma {:induction false} DirIsFree(env: Env, fs: FS, entries: seq<Entry>, p: Path)
    requires (forall i :: 0 <= i < |entries| ==> IsRow(entries[i])) && SourcesThere(env, fs, entries) && IsDir(fs, p)
    ensures FreePath(env, fs, entries, p)
  {
    forall i | 0 <= i < |entries| && !entries[i].op.Mkdir? ensures NoFileAt(env, entries[i], p) {
      assert SourceThere(env, fs, entries[i]);
    }
  }

  /** It is open, and no file's place. */
  lemma {:induction false} VisitIsFree(env: Env, dirs: set<string>, dirPerm: Mode, entries: seq<Entry>, acts: seq<Act>,
                                       start: FS,
                                       j: nat, p: Path)
    requires TableReady(env, dirs, dirPerm, entries, acts, start) && j < |entries| == |acts|
    requires acts[j].PutDir? && Visits(acts[j].chain, p)
    ensures FreePath(env, start, entries, p)
  {
    VisitIsOnTheWay(env, dirs, dirPerm, entries, acts, start, j, p);
    if IsDir(start, p) { DirIsFree(env, start, entries, p); }
  }

  /** A path that is free for directories is where no act puts anything else. */
  lemma {:induction false} FreeIsNotPlaced(env: Env, fs: FS, entries: seq<Entry>, acts: seq<Act>, p: Path)
    requires RowActs(env, entries, acts) && (forall i :: 0 <= i < |entries| ==> IsRow(entries[i]))
    requires FreePath(env, fs, entries, p)
    ensures Open(env, fs, p) && !IsPlaced(acts, p)
  {
    forall i | 0 <= i < |acts| && !acts[i].PutDir? ensures Spot(acts[i]) != p {
      assert RowPaths(env, entries[i], acts[i]);
      assert NoFileAt(env, entries[i], p);
    }
  }

  lemma {:induction false} VisitNotBlocked(env: Env, dirs: set<string>, dirPerm: Mode, entries: seq<Entry>,
                                           acts: seq<Act>, start: FS,
                                           j: nat, p: Path)
    requires TableReady(env, dirs, dirPerm, entries, acts, start) && RowActs(env, entries, acts) && j < |entries|
    requires acts[j].PutDir? && Visits(acts[j].chain, p)
    ensures Open(env, start, p) && !IsPlaced(acts, p)
  {
    VisitIsFree(env, dirs, dirPerm, entries, acts, start, j, p);
    FreeIsNotPlaced(env, start, entries, acts, p);
  }

  /** No visit of the act is blocked. */
  ghost predicate NotBlocked(env: Env, acts: seq<Act>, start: FS, act: Act)
    requires act.PutDir?
  {
    forall p :: Visits(act.chain, p) ==> Open(env, start, p) && !IsPlaced(acts, p)
  }

  lemma {:induction false} ActNotBlocked(env: Env, dirs: set<string>, dirPerm: Mode, entries: seq<Entry>,
                                         acts: seq<Act>, start: FS, j: nat)
    requires TableReady(env, dirs, dirPerm, entries, acts, start) && RowActs(env, entries, acts) && j < |entries|
    requires acts[j].PutDir?
    ensures NotBlocked(env, acts, start, acts[j])
  {
    forall p | Visits(acts[j].chain, p) ensures Open(env, start, p) && !IsPlaced(acts, p) {
      VisitNotBlocked(env, dirs, dirPerm, entries, acts, start, j, p);
    }
  }

  lemma {:induction false} NothingBlocked(env: Env, dirs: set<string>, dirPerm: Mode, entries: seq<Entry>,
                                          acts: seq<Act>, start: FS)
    requires TableReady(env, dirs, dirPerm, entries, acts, start) && RowActs(env, entries, acts)
    ensures NoVisitBlocked(env, acts, start)
  {
    forall j | 0 <= j < |acts| && acts[j].PutDir? ensures NotBlocked(env, acts, start, acts[j]) {
      ActNotBlocked(env, dirs, dirPerm, entries, acts, start, j);
    }
    NoneBlocked(env, acts, start);
  }

  lemma {:induction false} NoneBlocked(env: Env, acts: seq<Act>, start: FS)
    requires forall j :: 0 <= j < |acts| && acts[j].PutDir? ==> NotBlocked(env, acts, start, acts[j])
    ensures NoVisitBlocked(env, acts, start)
  {
    forall j, p | 0 <= j < |acts| && acts[j].PutDir? && Visits(acts[j].chain, p)
      ensures Open(env, start, p) && !IsPlaced(acts, p)
    {
      assert NotBlocked(env, acts, start, acts[j]);
    }
  }

  lemma {:induction false} NobodysDirectory(env: Env, dirs: set<string>, dirPerm: Mode, entries: seq<Entry>,
                                            acts: seq<Act>, start: FS, n: nat)
    requires TableReady(env, dirs, dirPerm, entries, acts, start) && n < |entries| && !entries[n].op.Mkdir?
    ensures NoDirectory(acts, start, Place(env, entries[n]))
    ensures NoDirectory(acts, start, TemporaryPlace(env, entries[n]))
  {
    assert SourceThere(env, start, entries[n]);
    forall j, p | 0 <= j < |acts| && acts[j].PutDir? && Visits(acts[j].chain, p)
      ensures p != Place(env, entries[n]) && p != TemporaryPlace(env, entries[n])
    {
      VisitIsFree(env, dirs, dirPerm, entries, acts, start, j, p);
      assert NoFileAt(env, entries[n], p);
    }
  }

  /** The directories on the way to a file are there when its turn comes. */
  lemma {:induction false} FileWayThere(env: Env, dirs: set<string>, dirPerm: Mode, entries: seq<Entry>,
                                        acts: seq<Act>, start: FS,
                                        n: nat, file: string)
    requires TableReady(env, dirs, dirPerm, entries, acts, start) && n < |entries| == |acts| && !entries[n].op.Mkdir?
    requires file != "" && NoSlash(file) && entries[n].dir.Some? && Below(env, entries[n].dir.value) != ""
    requires FitsWithSlash(Below(env, entries[n].dir.value))
    ensures RouteThere(acts, start, n, FileRoute(env.cwd, Below(env, entries[n].dir.value) + "/" + file))
  {
    var dir := Below(env, entries[n].dir.value);
    assert MadeBefore(entries, n);
    var j :| 0 <= j < n && entries[j].op.Mkdir? && entries[j].dir == entries[n].dir;
    RowOf(env, dirs, dirPerm, entries, acts, start, j);
    FileWay(env.cwd, dir, file);
    var r := FileRoute(env.cwd, dir + "/" + file);
    assert acts[j].chain == Routes(env.cwd, MkdirStrings(dir));
    forall q | q in r.through ensures There(acts, start, n, q) {
    }
  }

  lemma {:induction false} RowFileReady(env: Env, dirs: set<string>, dirPerm: Mode, entries: seq<Entry>,
                                        acts: seq<Act>, start: FS, n: nat)
    requires TableReady(env, dirs, dirPerm, entries, acts, start) && n < |entries| == |acts| && !entries[n].op.Mkdir?
    ensures acts[n].PutFile? && FileReady(env, acts, start, n)
  {
    var e := entries[n];
    RowOf(env, dirs, dirPerm, entries, acts, start, n);
    RowWords(env, e, dirs);
    NobodysDirectory(env, dirs, dirPerm, entries, acts, start, n);
    FileWayThere(env, dirs, dirPerm, entries, acts, start, n, FileName(env, e));
    FileWayThere(env, dirs, dirPerm, entries, acts, start, n, FileName(env, e) + TEMPORARY);
    WordWay(env.cwd, e.src.value + if e.op.CopyExec? then env.execSuffix else "");
    SourceIsThere(env, acts, start, n, acts[n].src);
  }

  lemma {:induction false} SourceIsThere(env: Env, acts: seq<Act>, start: FS, n: nat, r: Route)
    requires n <= |acts| && IsDir(start, env.cwd) && r.named && Grounded(r) && r.through == {env.cwd}
    ensures RouteThere(acts, start, n, r)
  {
  }

  lemma {:induction false} TableIsReady(env: Env, dirs: set<string>, dirPerm: Mode, entries: seq<Entry>,
                                        acts: seq<Act>, start: FS)
    requires TableReady(env, dirs, dirPerm, entries, acts, start)
    ensures AllReady(env, acts, start) && LinksSameWay(acts) && RowActs(env, entries, acts)
  {
    RowsMean(env, start, entries, dirs, dirPerm, acts);
    RowsApart(env, entries, acts);
    NothingBlocked(env, dirs, dirPerm, entries, acts, start);
    ItemTrails(env, start, entries, acts);
    SimpleRowsMean(env, start, entries, dirs, acts);
    forall n | 0 <= n < |acts| ensures ActReady(env, acts, start, n) {
      RowOf(env, dirs, dirPerm, entries, acts, start, n);
      if !entries[n].op.Mkdir? { RowFileReady(env, dirs, dirPerm, entries, acts, start, n); }
    }
  }

  // --- Nothing leads over a link ------------------------------------------------------------------------

  /** Neither the visits of a directory item nor where they begin are links at the start. */
  lemma {:induction false} NoLinkVisited(env: Env, fs: FS, dirs: set<string>, entries: seq<Entry>, dir: string, p: Path)
    requires (forall i :: 0 <= i < |entries| ==> IsRow(entries[i])) && DirsOpen(env, fs, dirs, entries)
    requires RootNamed(env, fs) && dir in dirs && Descends(dir)
    requires var s := Below(env, dir);
             p == Start(env.cwd, s) || p <= Canon(env.cwd, s) || Visits(Routes(env.cwd, MkdirStrings(s)), p)
    ensures !IsLink(fs, p)
  {
    DirVisits(env, fs, dir);
    assert IsDir(fs, p) || p <= Canon(env.cwd, Below(env, dir));
    if !IsDir(fs, p) { assert FreePath(env, fs, entries, p); }
  }

  /** What a directory item leads over is where its visits begin, one of them, or its directory. */
  lemma {:induction false} DirCrosses(cwd: Path, dir: string, act: Act, p: Path)
    requires act.PutDir? && act.chain == Routes(cwd, MkdirStrings(dir)) && act.seen == FileRoute(cwd, dir)
    requires |dir| < MAX_PATHLEN
    requires Crosses(act, p)
    ensures p == Start(cwd, dir) || p <= Canon(cwd, dir) || Visits(Routes(cwd, MkdirStrings(dir)), p)
  {
    var chain := Routes(cwd, MkdirStrings(dir));
    PassedAreVisited(cwd, dir);
    MkdirStringsTrail(cwd, dir);
    if p !in Followed(act.seen) {
      var k :| 0 <= k < |chain| && p in chain[k].through;
      ThroughIsVisited(Start(cwd, dir), chain, k);
      FirstVisits(chain, k);
    }
  }

  /** A file's item leads over its source, its temporary name and what its directory's item visits. */
  lemma {:induction false} FileCrosses(env: Env, e: Entry, dirs: set<string>, act: Act, p: Path)
    requires SimpleRow(e, dirs) && DirsNamed(env, dirs) && !e.op.Mkdir? && Below(env, e.dir.value) != ""
    requires FileRoutes(env, e, act) && Crosses(act, p)
    ensures var dir := Below(env, e.dir.value);
            || p == env.cwd || p == act.src.at || p == act.tmp.at
            || p == Start(env.cwd, dir) || Visits(Routes(env.cwd, MkdirStrings(dir)), p)
  {
    RowWords(env, e, dirs);
    WordWay(env.cwd, e.src.value + if e.op.CopyExec? then env.execSuffix else "");
    FileWay(env.cwd, Below(env, e.dir.value), FileName(env, e));
    FileWay(env.cwd, Below(env, e.dir.value), FileName(env, e) + TEMPORARY);
  }

  lemma {:induction false} RowCrossesNoLink(env: Env, dirs: set<string>, dirPerm: Mode, entries: seq<Entry>,
                                            acts: seq<Act>, start: FS,
                                            i: nat, p: Path)
    requires TableReady(env, dirs, dirPerm, entries, acts, start) && i < |entries| == |acts| && Crosses(acts[i], p)
    ensures !IsLink(start, p)
  {
    RowOf(env, dirs, dirPerm, entries, acts, start, i);
    var e := entries[i];
    var dir := Below(env, e.dir.value);
    assert Descends(e.dir.value) && |dir| + |env.execSuffix| + MAX_NAME + 6 < MAX_PATHLEN;
    if e.op.Mkdir? {
      DirCrosses(env.cwd, dir, acts[i], p);
      NoLinkVisited(env, start, dirs, entries, e.dir.value, p);
    } else {
      FileCrosses(env, e, dirs, acts[i], p);
      assert !IsLink(start, env.cwd) && !IsLink(start, acts[i].src.at) && !IsLink(start, acts[i].tmp.at);
      if p == Start(env.cwd, dir) || Visits(Routes(env.cwd, MkdirStrings(dir)), p) {
        NoLinkVisited(env, start, dirs, entries, e.dir.value, p);
      }
    }
  }

  lemma {:induction false} TableCrossesNoLink(env: Env, dirs: set<string>, dirPerm: Mode, entries: seq<Entry>,
                                              acts: seq<Act>, start: FS)
    requires TableReady(env, dirs, dirPerm, entries, acts, start) && RowActs(env, entries, acts)
    ensures NoLinksCrossed(acts, start)
  {
    NoneLinks(env, entries, acts);
    forall act, p | act in acts && Crosses(act, p) ensures !IsLink(start, p) && !LinkedByItem(acts, p) {
      var i :| 0 <= i < |acts| && acts[i] == act;
      RowCrossesNoLink(env, dirs, dirPerm, entries, acts, start, i, p);
    }
  }

  // --- The rows mean something --------------------------------------------------------------------------

  lemma {:induction false} RowHasPlan(env: Env, fs: FS, e: Entry, dirs: set<string>)
    requires EnvOk(env) && SimpleRow(e, dirs) && DirsNamed(env, dirs) && PlainOwner(e)
    ensures Plan(env, fs, e).Some?
  {
    assert |Below(env, e.dir.value)| + |env.execSuffix| + MAX_NAME + 6 < MAX_PATHLEN;
    if e.src.Some? { NotALibrary(e.src.value); }
    if e.dst.Some? { NotALibrary(e.dst.value); }
  }

  /** What the rows of a table mean. */
  lemma {:induction false} TableHasPlans(env: Env, fs: FS, entries: seq<Entry>, dirs: set<string>,
                                         dirPerm: Mode) returns (acts: seq<Act>)
    requires EnvOk(env) && SimpleRows(entries, dirs) && DirsNamed(env, dirs) && RowsPlain(entries, dirPerm)
    ensures Settled(env, fs, entries, acts)
  {
    forall i | 0 <= i < |entries| ensures Plan(env, fs, entries[i]).Some? {
      assert SimpleRow(entries[i], dirs);
      RowHasPlan(env, fs, entries[i], dirs);
    }
    acts := seq(|entries|, i requires 0 <= i < |entries| && Plan(env, fs, entries[i]).Some? =>
      Plan(env, fs, entries[i]).value);
  }

  // --- The run --------------------------------------------------------------------------------------------

  /** A run of the installer in which no call fails of its own accord: what the file system allows is done. */
  ghost predicate LuckyRun(env: Env, entries: seq<Entry>, statuses: seq<Status>, states: seq<FS>) {
    InstallRun(env, entries, statuses, states) && Drivers.AllAnswer(env, entries, statuses, states, |entries|)
  }

  lemma {:induction false} TemporariesFree(env: Env, entries: seq<Entry>, acts: seq<Act>, start: FS)
    requires RowActs(env, entries, acts) && (forall i :: 0 <= i < |entries| ==> IsRow(entries[i]))
    requires SourcesThere(env, start, entries)
    ensures NamesFree(acts, start)
  {
    forall i | 0 <= i < |acts| && acts[i].PutFile? ensures acts[i].tmp.at !in start {
      assert RowPaths(env, entries[i], acts[i]) && SourceThere(env, start, entries[i]);
    }
  }

  /** Every item of such a table reports success, and the run is a clean one. */
  lemma {:induction false} SimpleTableInstalls(env: Env, dirs: set<string>, dirPerm: Mode, entries: seq<Entry>,
                                               statuses: seq<Status>,
                                               states: seq<FS>) returns (acts: seq<Act>)
    requires LuckyRun(env, entries, statuses, states) && StartReady(env, dirs, dirPerm, entries, states[0])
    ensures AllOk(statuses) && CleanRun(env, entries, acts, statuses, states)
    ensures TableReady(env, dirs, dirPerm, entries, acts, states[0]) && RowActs(env, entries, acts)
  {
    acts := TableHasPlans(env, states[0], entries, dirs, dirPerm);
    TableIsReady(env, dirs, dirPerm, entries, acts, states[0]);
    TableCrossesNoLink(env, dirs, dirPerm, entries, acts, states[0]);
    SimpleLibrariesApart(env, states[0], entries, dirs, acts);
    TemporariesFree(env, entries, acts, states[0]);
    EverythingInstalls(env, entries, acts, statuses, states);
  }

  /** The file of a row: the whole source, the mode of the row, and the process's owner and group. */
  lemma {:induction false} RowIsThere(env: Env, dirs: set<string>, entries: seq<Entry>, acts: seq<Act>,
                                      statuses: seq<Status>, states: seq<FS>, i: nat)
    requires CleanRun(env, entries, acts, statuses, states) && RowActs(env, entries, acts) && i < |entries|
    requires !entries[i].op.Mkdir?
    ensures IsRow(entries[i]) && SourcePlace(env, entries[i]) in states[0]
    ensures states[0][SourcePlace(env, entries[i])].File?
    ensures At(states[|entries|], Place(env, entries[i])) ==
              Some(File(states[0][SourcePlace(env, entries[i])].content, entries[i].perm & 0xFFF, env.uid, env.gid))
  {
    assert RowPaths(env, entries[i], acts[i]);
    CleanRunActs(env, entries, acts, statuses, states, i);
    FileLeft(env, acts, states, i);
  }

  // --- Checking it ----------------------------------------------------------------------------------------

  /** What is in the place of a directory already has the mode, and the process's owner and group. */
  predicate DirFits(env: Env, start: FS, dirPerm: Mode, p: Path) {
    IsDir(start, p) ==> start[p].mode & 0x1ED == dirPerm && start[p].uid == env.uid && start[p].gid == env.gid
  }

  lemma {:induction false} DirPassesIfItFits(env: Env, dirs: set<string>, dirPerm: Mode, entries: seq<Entry>,
                                             acts: seq<Act>, start: FS, i: nat)
    requires TableReady(env, dirs, dirPerm, entries, acts, start) && RowActs(env, entries, acts)
    requires i < |entries| == |acts| && entries[i].op.Mkdir?
    ensures IsRow(entries[i]) && acts[i].PutDir?
    ensures DirPasses(env, acts, start, acts[i]) <==> DirFits(env, start, dirPerm, DirPlace(env, entries[i]))
  {
    RowOf(env, dirs, dirPerm, entries, acts, start, i);
    var act, dir := acts[i], Below(env, entries[i].dir.value);
    assert entries[i].dir.value in dirs && Spot(act) <= Canon(env.cwd, dir);
    assert FreePath(env, start, entries, Spot(act));
    FreeIsNotPlaced(env, start, entries, acts, Spot(act));
    forall p | p in act.seen.through ensures StaysPassable(env, acts, start, p) {
      DirWayIsFree(env, dirs, dirPerm, entries, acts, start, i, p);
      FreeIsNotPlaced(env, start, entries, acts, p);
    }
    assert entries[i].perm == dirPerm && act.perm == dirPerm;
  }

  /** All that the name of a directory passes through is free. */
  lemma {:induction false} DirWayIsFree(env: Env, dirs: set<string>, dirPerm: Mode, entries: seq<Entry>,
                                        acts: seq<Act>, start: FS,
                                        i: nat, p: Path)
    requires TableReady(env, dirs, dirPerm, entries, acts, start) && i < |entries| == |acts|
    requires acts[i].PutDir? && p in acts[i].seen.through
    ensures FreePath(env, start, entries, p)
  {
    RowOf(env, dirs, dirPerm, entries, acts, start, i);
    var dir := Below(env, entries[i].dir.value);
    assert entries[i].dir.value in dirs && |dir| + |env.execSuffix| + MAX_NAME + 6 < MAX_PATHLEN;
    PassedAreVisited(env.cwd, dir);
    if p == Canon(env.cwd, dir) {
    } else if p == Start(env.cwd, dir) {
      DirIsFree(env, start, entries, p);
    } else {
      VisitIsFree(env, dirs, dirPerm, entries, acts, start, i, p);
    }
  }

  /** instchk succeeds right afterwards if and only if those of the directories that were there already fit. */
  lemma {:induction false} TableChecks(env: Env, dirs: set<string>, dirPerm: Mode, entries: seq<Entry>, acts: seq<Act>,
                                       statuses: seq<Status>, states: seq<FS>, checks: seq<Status>, counted: seq<bool>)
    requires CleanRun(env, entries, acts, statuses, states) && TableReady(env, dirs, dirPerm, entries, acts, states[0])
    requires RowActs(env, entries, acts)
    requires Drivers.CheckRun(env, states[|entries|], entries, checks, counted, |entries|)
    ensures Drivers.Count(counted) == 0 <==>
              forall i :: 0 <= i < |entries| && entries[i].op.Mkdir? ==>
                DirFits(env, states[0], dirPerm, DirPlace(env, entries[i]))
  {
    SimpleTableChecks(env, dirs, dirPerm, entries, acts, statuses, states, checks, counted);
    forall i | 0 <= i < |entries|
      ensures Passes(env, acts, states[0], acts[i]) <==>
                (entries[i].op.Mkdir? ==> DirFits(env, states[0], dirPerm, DirPlace(env, entries[i])))
    {
      assert RowPaths(env, entries[i], acts[i]);
      if entries[i].op.Mkdir? { DirPassesIfItFits(env, dirs, dirPerm, entries, acts, states[0], i); }
    }
  }

  // --- Removing it ----------------------------------------------------------------------------------------

  /** Nothing that a removal leads over is a link. */
  lemma {:induction false} RemovalsLeadOverNoLink(env: Env, dirs: set<string>, dirPerm: Mode, entries: seq<Entry>,
                                                  acts: seq<Act>,
                                                  statuses: seq<Status>, states: seq<FS>)
    requires CleanRun(env, entries, acts, statuses, states) && TableReady(env, dirs, dirPerm, entries, acts, states[0])
    ensures RemovalsPlain(acts, states[|acts|])
  {
    TableIsReady(env, dirs, dirPerm, entries, acts, states[0]);
    forall i | 0 <= i < |acts| ensures LinkFree(states[|acts|], Undo(acts[i]).way.through) {
      CleanRunActs(env, entries, acts, statuses, states, i);
      RemovalWayIsThere(env, dirs, entries, acts, states, i);
    }
  }

  lemma {:induction false} RemovalWayIsThere(env: Env, dirs: set<string>, entries: seq<Entry>, acts: seq<Act>,
                                             states: seq<FS>, i: nat)
    requires ActRun(env, acts, states) && EffectRun(env, acts, states) && AllReady(env, acts, states[0])
    requires NamesFree(acts, states[0])
    requires i < |acts| && !acts[i].PutLink?
    ensures forall q :: q in Undo(acts[i]).way.through ==> IsDir(states[|acts|], q)
  {
    if acts[i].PutFile? {
      FileLeft(env, acts, states, i);
    } else {
      var start := TrailStart(env.cwd, acts[i]);
      forall q | q in acts[i].gone.through ensures IsDir(states[|acts|], q) {
        if q == start { DirsStay(env, acts, states, 0, |acts|, q); } else { VisitedIsMade(env, acts, states, i, q); }
      }
    }
  }

  /** `p` is the place or the temporary name of one of the rows' files. */
  ghost predicate FilePlace(env: Env, entries: seq<Entry>, p: Path) {
    exists i :: 0 <= i < |entries| && IsRow(entries[i]) && !entries[i].op.Mkdir? && !NoFileAt(env, entries[i], p)
  }

  ghost predicate RowDirectory(env: Env, entries: seq<Entry>, p: Path) {
    exists i :: 0 <= i < |entries| && IsRow(entries[i]) && entries[i].op.Mkdir? && DirPlace(env, entries[i]) == p
  }

  /**
   What the two runs leave: everything that was there outside the places of the rows, none of the files, and of the
   new directories at most those above a row's.
   */
  ghost predicate AsBefore(env: Env, entries: seq<Entry>, start: FS, end: FS) {
    && (forall p :: p in start && !FilePlace(env, entries, p) && !RowDirectory(env, entries, p) ==>
          p in end && end[p] == start[p])
    && (forall p :: FilePlace(env, entries, p) ==> p !in end)
    && (forall p :: p in end && p !in start ==> IsDir(end, p) && AboveRow(env, entries, p))
  }

  ghost predicate AboveRow(env: Env, entries: seq<Entry>, p: Path) {
    exists i :: 0 <= i < |entries| && IsRow(entries[i]) && entries[i].op.Mkdir? && p < DirPlace(env, entries[i])
  }

  /** Acts and rows have the same places. */
  lemma {:induction false} SamePlaces(env: Env, entries: seq<Entry>, acts: seq<Act>, p: Path)
    requires RowActs(env, entries, acts)
    ensures IsItemDir(acts, p) <==> RowDirectory(env, entries, p)
    ensures IsAncestor(acts, p) ==> AboveRow(env, entries, p)
    ensures IsPlaced(acts, p) || IsTemporary(acts, p) <==> FilePlace(env, entries, p)
  {
    forall i | 0 <= i < |acts|
      ensures IsRow(entries[i]) && acts[i].PutDir? == entries[i].op.Mkdir? && Spot(acts[i]) == Place(env, entries[i])
      ensures acts[i].PutFile? == !acts[i].PutDir?
      ensures (acts[i].PutFile? ==> acts[i].tmp.at == TemporaryPlace(env, entries[i]))
    {
      assert RowPaths(env, entries[i], acts[i]);
    }
    if FilePlace(env, entries, p) {
      var i :| 0 <= i < |entries| && IsRow(entries[i]) && !entries[i].op.Mkdir? && !NoFileAt(env, entries[i], p);
      assert acts[i].PutFile? && (Spot(acts[i]) == p || acts[i].tmp.at == p);
    }
    if RowDirectory(env, entries, p) {
      var i :| 0 <= i < |entries| && IsRow(entries[i]) && entries[i].op.Mkdir? && DirPlace(env, entries[i]) == p;
      assert acts[i].PutDir? && Spot(acts[i]) == p;
    }
  }

  lemma {:induction false} RestoredIsAsBefore(env: Env, entries: seq<Entry>, acts: seq<Act>, start: FS, full: FS,
                                              end: FS)
    requires RowActs(env, entries, acts) && Restored(env, acts, start, map[], full, end)
    requires forall p :: FilePlace(env, entries, p) ==> !IsDir(full, p)
    ensures AsBefore(env, entries, start, end)
  {
    forall p | p in start && !FilePlace(env, entries, p) && !RowDirectory(env, entries, p)
      ensures p in end && end[p] == start[p]
    {
      SamePlaces(env, entries, acts, p);
      assert IsLeaf(start, p) || IsDir(start, p);
      if IsLeaf(start, p) { assert IsLeaf(end, p); }
    }
    forall p | FilePlace(env, entries, p) ensures p !in end {
      SamePlaces(env, entries, acts, p);
      assert !IsLeaf(end, p) && !IsDir(full, p);
    }
    forall p | p in end && p !in start ensures IsDir(end, p) && AboveRow(env, entries, p) {
      SamePlaces(env, entries, acts, p);
      assert !IsLeaf(end, p) && !IsDir(start, p);
    }
  }

  lemma {:induction false} NeverADirectory(env: Env, acts: seq<Act>, states: seq<FS>, p: Path)
    requires EffectRun(env, acts, states) && NoDirectory(acts, states[0], p)
    ensures !IsDir(states[|acts|], p)
  {
    if IsDir(states[|acts|], p) {
      var k := WhoMadeDir(env, acts, states, 0, |acts|, p);
    }
  }

  /** No file's place has become a directory. */
  lemma {:induction false} FilesAreNoDirs(env: Env, dirs: set<string>, dirPerm: Mode, entries: seq<Entry>,
                                          acts: seq<Act>, states: seq<FS>, p: Path)
    requires |states| == |entries| + 1 && |acts| == |entries| && EffectRun(env, acts, states)
    requires TableReady(env, dirs, dirPerm, entries, acts, states[0])
    requires FilePlace(env, entries, p)
    ensures !IsDir(states[|acts|], p)
  {
    var i :| 0 <= i < |entries| && IsRow(entries[i]) && !entries[i].op.Mkdir? && !NoFileAt(env, entries[i], p);
    NobodysDirectory(env, dirs, dirPerm, entries, acts, states[0], i);
    NeverADirectory(env, acts, states, p);
  }

  lemma {:induction false} TableRestored(env: Env, dirs: set<string>, dirPerm: Mode, entries: seq<Entry>, acts: seq<Act>,
                                         statuses: seq<Status>, states: seq<FS>, removals: seq<FS>)
    requires CleanRun(env, entries, acts, statuses, states)
    requires TableReady(env, dirs, dirPerm, entries, acts, states[0]) && |acts| == |entries|
    requires DeinstallRun(env, entries, removals) && removals[0] == states[|entries|]
    requires TreeOk(states[|entries|])
    ensures Restored(env, acts, states[0], map[], removals[0], removals[|entries|])
  {
    RemovalsLeadOverNoLink(env, dirs, dirPerm, entries, acts, statuses, states);
    assert states[|acts|] + map[] == states[|acts|];
    SimpleRoundTrip(env, dirs, entries, acts, statuses, states, map[], removals);
  }

  /** Removing such a table right after it has been installed leaves what AsBefore says. */
  lemma {:induction false} TableIsRemoved(env: Env, dirs: set<string>, dirPerm: Mode, entries: seq<Entry>,
                                          acts: seq<Act>,
                                          statuses: seq<Status>, states: seq<FS>, removals: seq<FS>)
    requires CleanRun(env, entries, acts, statuses, states) && TableReady(env, dirs, dirPerm, entries, acts, states[0])
    requires RowActs(env, entries, acts) && |entries| > 0
    requires DeinstallRun(env, entries, removals) && removals[0] == states[|entries|]
    ensures AsBefore(env, entries, states[0], removals[|entries|])
  {
    CleanRunActs(env, entries, acts, statuses, states, 0);
    TableRestored(env, dirs, dirPerm, entries, acts, statuses, states, removals);
    forall p | FilePlace(env, entries, p) ensures !IsDir(removals[0], p) {
      FilesAreNoDirs(env, dirs, dirPerm, entries, acts, states, p);
    }
    RestoredIsAsBefore(env, entries, acts, states[0], removals[0], removals[|entries|]);
  }

  /** The directories that rows make are `dirs`. */
  ghost predicate MakeThem(entries: seq<Entry>, dirs: set<string>) {
    DirsOf(entries, dirs) && forall dir :: dir in dirs ==> MadeByRow(entries, dir)
  }

  ghost predicate MadeByRow(entries: seq<Entry>, dir: string) {
    exists i :: 0 <= i < |entries| && entries[i].op.Mkdir? && entries[i].dir == Some(dir)
  }

  lemma {:induction false} AllRowsFit(env: Env, entries: seq<Entry>, dirs: set<string>, start: FS, dirPerm: Mode)
    requires MakeThem(entries, dirs)
    ensures forall i :: 0 <= i < |entries| ==> IsRow(entries[i])
    ensures (forall i :: 0 <= i < |entries| && entries[i].op.Mkdir? ==>
               DirFits(env, start, dirPerm, DirPlace(env, entries[i])))
            <==> (forall dir :: dir in dirs ==> DirFits(env, start, dirPerm, Canon(env.cwd, Below(env, dir))))
  {
    if forall i :: 0 <= i < |entries| && entries[i].op.Mkdir? ==>
         DirFits(env, start, dirPerm, DirPlace(env, entries[i])) {
      forall dir | dir in dirs ensures DirFits(env, start, dirPerm, Canon(env.cwd, Below(env, dir))) {
        assert MadeByRow(entries, dir);
      }
    }
  }

  /** The row's place holds all of its source, with the row's mode and the process's owner and group. */
  ghost predicate FileInPlace(env: Env, e: Entry, start: FS, end: FS) {
    && IsRow(e) && !e.op.Mkdir? && SourcePlace(env, e) in start && start[SourcePlace(env, e)].File?
    && At(end, Place(env, e)) == Some(File(start[SourcePlace(env, e)].content, e.perm & 0xFFF, env.uid, env.gid))
  }

  /** The three programs one after the other, no call of the installer failing of its own accord. */
  ghost predicate ThreeRuns(env: Env, entries: seq<Entry>, statuses: seq<Status>, states: seq<FS>,
                            checks: seq<Status>, counted: seq<bool>, removals: seq<FS>) {
    && LuckyRun(env, entries, statuses, states)
    && Drivers.CheckRun(env, states[|entries|], entries, checks, counted, |entries|)
    && DeinstallRun(env, entries, removals) && removals[0] == states[|entries|]
  }

  /**
   Every item reports success and every file is in its place; instchk succeeds if and only if those of the
   directories that were there already have the mode and the process's owner and group; and the deinstaller leaves
   what AsBefore says.
   */
  ghost predicate AllWorks(env: Env, dirs: set<string>, dirPerm: Mode, entries: seq<Entry>, statuses: seq<Status>,
                           states: seq<FS>,
                           counted: seq<bool>, removals: seq<FS>)
    requires |states| == |entries| + 1 == |removals|
  {
    && AllOk(statuses)
    && (forall i :: 0 <= i < |entries| && !entries[i].op.Mkdir? ==>
          FileInPlace(env, entries[i], states[0], states[|entries|]))
    && (Drivers.Count(counted) == 0 <==>
          forall dir :: dir in dirs ==> DirFits(env, states[0], dirPerm, Canon(env.cwd, Below(env, dir))))
    && AsBefore(env, entries, states[0], removals[|entries|])
  }

  /** Install such a table, check it and remove it again. */
  lemma {:induction false} TableFromStartToEnd(env: Env, dirs: set<string>, dirPerm: Mode, entries: seq<Entry>,
                                               statuses: seq<Status>,
                                               states: seq<FS>, checks: seq<Status>, counted: seq<bool>,
                                               removals: seq<FS>)
    requires ThreeRuns(env, entries, statuses, states, checks, counted, removals)
    requires StartReady(env, dirs, dirPerm, entries, states[0]) && MakeThem(entries, dirs) && |entries| > 0
    ensures AllWorks(env, dirs, dirPerm, entries, statuses, states, counted, removals)
  {
    var acts := SimpleTableInstalls(env, dirs, dirPerm, entries, statuses, states);
    forall i | 0 <= i < |entries| && !entries[i].op.Mkdir?
      ensures FileInPlace(env, entries[i], states[0], states[|entries|])
    {
      RowIsThere(env, dirs, entries, acts, statuses, states, i);
    }
    TableChecks(env, dirs, dirPerm, entries, acts, statuses, states, checks, counted);
    AllRowsFit(env, entries, dirs, states[0], dirPerm);
    TableIsRemoved(env, dirs, dirPerm, entries, acts, statuses, states, removals);
  }

  // --- The table of insthier.c ----------------------------------------------------------------------------

  lemma {:induction false} TableDirsFirst(bin: string, inc: string, dlib: string, slib: string, repos: string)
    ensures DirsFirst(Table(bin, inc, dlib, slib, repos))
  {
    var d, f := Directories(bin, inc, dlib, slib, repos), Files(bin, inc, slib, repos);
    TableParts(bin, inc, dlib, slib, repos);
    var entries := d + f;
    forall n | 0 <= n < |entries| && !entries[n].op.Mkdir? ensures MadeBefore(entries, n) {
      assert entries[n] == f[n - |d|];
      FileDirs(bin, inc, slib, repos, n - |d|);
      assert entries[0].dir == Some(bin) && entries[1].dir == Some(inc);
      assert entries[3].dir == Some(slib) && entries[4].dir == Some(repos);
    }
  }

  lemma {:induction false} FileDirs(bin: string, inc: string, slib: string, repos: string, n: nat)
    requires n < |Files(bin, inc, slib, repos)|
    ensures Files(bin, inc, slib, repos)[n].dir in {Some(bin), Some(inc), Some(slib), Some(repos)}
  {
    assert SimpleRows(Files(bin, inc, slib, repos), {bin, inc, slib, repos});
  }

  /** The five directories are apart, and the file system has what the table needs. */
  ghost predicate HierarchyReady(env: Env, bin: string, inc: string, dlib: string, slib: string, repos: string,
                                 start: FS) {
    var entries, dirs := Table(bin, inc, dlib, slib, repos), {bin, inc, dlib, slib, repos};
    && |dirs| == 5 && Configured(env, start, dirs) && TableDirsApart(env, bin, inc, dlib, slib, repos)
    && (forall i :: 0 <= i < |entries| ==> IsRow(entries[i]))
    && DirsOpen(env, start, dirs, entries) && SourcesThere(env, start, entries)
  }

  lemma {:induction false} HierarchyIsReady(env: Env, bin: string, inc: string, dlib: string, slib: string,
                                            repos: string, start: FS)
    requires HierarchyReady(env, bin, inc, dlib, slib, repos, start)
    ensures StartReady(env, {bin, inc, dlib, slib, repos}, PROGRAM_MODE, Table(bin, inc, dlib, slib, repos), start)
  {
    TableDistinct(env, bin, inc, dlib, slib, repos);
    TableDirs(bin, inc, dlib, slib, repos);
    DistinctRowsApart(env, {bin, inc, dlib, slib, repos}, Table(bin, inc, dlib, slib, repos));
    TableDirsFirst(bin, inc, dlib, slib, repos);
  }

  lemma {:induction false} FiveDirectories(bin: string, inc: string, dlib: string, slib: string, repos: string)
    ensures MakeThem(Table(bin, inc, dlib, slib, repos), {bin, inc, dlib, slib, repos})
    ensures |Table(bin, inc, dlib, slib, repos)| > 0
  {
    TableDirs(bin, inc, dlib, slib, repos);
    TableParts(bin, inc, dlib, slib, repos);
    var d, f := Directories(bin, inc, dlib, slib, repos), Files(bin, inc, slib, repos);
    forall dir | dir in {bin, inc, dlib, slib, repos} ensures MadeByRow(d + f, dir) {
      DirectoriesAre(bin, inc, dlib, slib, repos, dir);
      var i :| 0 <= i < |d| && d[i].op.Mkdir? && d[i].dir == Some(dir);
      assert (d + f)[i] == d[i];
    }
  }

  lemma {:induction false} DirectoriesAre(bin: string, inc: string, dlib: string, slib: string, repos: string,
                                          dir: string)
    requires dir in {bin, inc, dlib, slib, repos}
    ensures MadeByRow(Directories(bin, inc, dlib, slib, repos), dir)
  {
    var d := Directories(bin, inc, dlib, slib, repos);
    assert |d| == 5 && forall i :: 0 <= i < 5 ==> d[i].op.Mkdir?;
    assert d[0].dir == Some(bin) && d[1].dir == Some(inc) && d[2].dir == Some(dlib);
    assert d[3].dir == Some(slib) && d[4].dir == Some(repos);
  }

  /**
   From start to end: where the sources are there, the directories can be made and nothing is refused, the
   installer, if no call fails of its own accord, installs the whole table; instchk succeeds right afterwards if and
   only if those of the five directories that were there already have mode 0755 and the process's owner and group;
   and the deinstaller leaves everything outside the table's places as it was, none of its files, and no new
   directory but those above the five.
   */
  lemma {:induction false} HierarchyFromStartToEnd(env: Env, bin: string, inc: string, dlib: string, slib: string,
                                                   repos: string,
                                                   statuses: seq<Status>, states: seq<FS>,
                                                   checks: seq<Status>, counted: seq<bool>, removals: seq<FS>)
    requires ThreeRuns(env, Table(bin, inc, dlib, slib, repos), statuses, states, checks, counted, removals)
    requires HierarchyReady(env, bin, inc, dlib, slib, repos, states[0])
    ensures AllWorks(env, {bin, inc, dlib, slib, repos}, 0x1ED, Table(bin, inc, dlib, slib, repos), statuses, states,
                     counted, removals)
  {
    HierarchyIsReady(env, bin, inc, dlib, slib, repos, states[0]);
    FiveDirectories(bin, inc, dlib, slib, repos);
    TableFromStartToEnd(env, {bin, inc, dlib, slib, repos}, PROGRAM_MODE, Table(bin, inc, dlib, slib, repos),
                        statuses, states, checks, counted, removals);
  }
}
