/** Checking the table of insthier.c after installing it, and any other table of plain rows. */
module HierarchyCheck {
  import opened Wrappers
  import opened Paths
  import opened FileSystem
  import opened Items
  import opened Steps
  import Drivers
  import opened InstallCheck
  import opened WholeRuns
  import opened Hierarchy

  // --- Where rows are placed ------------------------------------------------------------------------

  function DirPlace(env: Env, e: Entry): Path
    requires e.dir.Some?
  {
    Canon(env.cwd, Below(env, e.dir.value))
  }

  predicate IsRow(e: Entry) {
    e.dir.Some? && (!e.op.Mkdir? ==> e.src.Some?)
  }

  function Place(env: Env, e: Entry): Path
    requires IsRow(e)
  {
    if e.op.Mkdir? then DirPlace(env, e) else DirPlace(env, e) + [FileName(env, e)]
  }

  function TemporaryPlace(env: Env, e: Entry): Path
    requires IsRow(e) && !e.op.Mkdir?
  {
    DirPlace(env, e) + [FileName(env, e) + TEMPORARY]
  }

  function SourcePlace(env: Env, e: Entry): Path
    requires IsRow(e) && !e.op.Mkdir?
  {
    env.cwd + [e.src.value + if e.op.CopyExec? then env.execSuffix else ""]
  }

  /** The paths of the act that a row means. */
  ghost predicate RowPaths(env: Env, e: Entry, act: Act)
    requires IsRow(e)
  {
    && Spot(act) == Place(env, e) && !act.PutLink? && act.PutDir? == e.op.Mkdir?
    && act.perm == e.perm && act.uid == env.uid && act.gid == env.gid
    && (act.PutFile? ==> act.tmp.at == TemporaryPlace(env, e) && act.src.at == SourcePlace(env, e))
  }

  lemma {:induction false} BelowFile(env: Env, dir: string, name: string)
    requires EnvOk(env) && Below(env, dir) != "" && Components(name) == [name] && name != "." && name != ".."
    ensures Canon(env.cwd, Below(env, dir + "/" + name)) == Canon(env.cwd, Below(env, dir)) + [name]
  {
    CanonJoin(env.cwd, Below(env, dir), name);
    WalkWord(Canon(env.cwd, Below(env, dir)), name);
    assert Below(env, dir + "/" + name) == Below(env, dir) + "/" + name;
  }

  /** A file's destination and its temporary name. */
  lemma {:induction false} FileAndTemporary(env: Env, dir: string, file: string)
    requires EnvOk(env) && Below(env, dir) != "" && |file| > 2 && NoSlash(file)
    requires |Below(env, dir)| + |file| + 5 < MAX_PATHLEN
    ensures var dst, place := Below(env, dir + "/" + file), Canon(env.cwd, Below(env, dir));
            Canon(env.cwd, dst) == place + [file] && TemporaryFor(env, dst).at == place + [file + TEMPORARY]
  {
    ComponentsOfWord(file);
    BelowFile(env, dir, file);
    ComponentsOfWord(file + TEMPORARY);
    BelowFile(env, dir, file + TEMPORARY);
    JoinedBelow(env, dir, file);
    JoinedBelow(env, dir, file + TEMPORARY);
    ConcatAssociative(Below(env, dir) + "/", file, TEMPORARY);
  }

  lemma {:induction false} JoinedBelow(env: Env, dir: string, file: string)
    ensures Below(env, dir + "/" + file) == Below(env, dir) + "/" + file
  {
    if env.fakeRoot.Some? {
      assert env.fakeRoot.value + "/" + (dir + "/" + file) == env.fakeRoot.value + "/" + dir + "/" + file;
    }
  }

  lemma {:induction false} FilePlaces(env: Env, e: Entry, dirs: set<string>)
    requires EnvOk(env) && SimpleRow(e, dirs) && DirsNamed(env, dirs) && !e.op.Mkdir? && Below(env, e.dir.value) != ""
    ensures var dst := Below(env, e.dir.value + "/" + FileName(env, e));
            Canon(env.cwd, dst) == Place(env, e) && TemporaryFor(env, dst).at == TemporaryPlace(env, e)
  {
    var dir, file := e.dir.value, FileName(env, e);
    var name, suffix := if e.dst.Some? then e.dst.value else e.src.value, if e.op.CopyExec? then env.execSuffix else "";
    assert |Below(env, dir)| + |env.execSuffix| + MAX_NAME + 6 < MAX_PATHLEN;
    SimpleNameDescends(name, suffix);
    FileAndTemporary(env, dir, file);
  }

  lemma {:induction false} SourceIs(env: Env, fs: FS, e: Entry, dirs: set<string>)
    requires SimpleRow(e, dirs) && DirsNamed(env, dirs) && !e.op.Mkdir? && Translate(env, fs, e).Some?
    ensures Translate(env, fs, e).value.src == e.src.value + if e.op.CopyExec? then env.execSuffix else ""
    ensures Canon(env.cwd, Translate(env, fs, e).value.src) == SourcePlace(env, e)
  {
    var suffix := if e.op.CopyExec? then env.execSuffix else "";
    var source := e.src.value + suffix;
    assert e.dir.value in dirs;
    assert |Below(env, e.dir.value)| + |env.execSuffix| + MAX_NAME + 6 < MAX_PATHLEN;
    NotALibrary(e.src.value);
    assert e.src.value + "" == e.src.value;
    assert Translate(env, fs, e).value.src == source;
    SimpleNameDescends(e.src.value, suffix);
    WalkWord(env.cwd, source);
  }

  /** A row that names neither owner nor group. */
  predicate PlainOwner(e: Entry) {
    e.owner.None? && e.group.None?
  }

  lemma {:induction false} RowMeans(env: Env, fs: FS, e: Entry, dirs: set<string>, act: Act)
    requires EnvOk(env) && SimpleRow(e, dirs) && DirsNamed(env, dirs) && PlainOwner(e) && Below(env, e.dir.value) != ""
    requires Plan(env, fs, e) == Some(act)
    ensures RowPaths(env, e, act)
  {
    SimpleTarget(env, fs, e, dirs);
    if !e.op.Mkdir? {
      FilePlaces(env, e, dirs);
      SourceIs(env, fs, e, dirs);
    }
  }

  // --- Tables of plain rows -------------------------------------------------------------------------

  /** No place of a row is another row's place, or anybody's source or temporary name. */
  ghost predicate PlacesApart(env: Env, entries: seq<Entry>)
    requires forall i :: 0 <= i < |entries| ==> IsRow(entries[i])
  {
    && (forall i, j :: 0 <= i < j < |entries| ==> Place(env, entries[i]) != Place(env, entries[j]))
    && (forall i, j :: 0 <= i < |entries| && 0 <= j < |entries| && !entries[i].op.Mkdir? ==>
          && SourcePlace(env, entries[i]) != Place(env, entries[j])
          && TemporaryPlace(env, entries[i]) != Place(env, entries[j])
          && (!entries[j].op.Mkdir? ==> SourcePlace(env, entries[i]) != TemporaryPlace(env, entries[j])))
  }

  /** Modes that instchk can see, one of them for all directories, and no owners. */
  predicate RowsPlain(entries: seq<Entry>, dirPerm: Mode) {
    forall i :: 0 <= i < |entries| ==>
      PlainOwner(entries[i]) && CheckedMode(entries[i].perm) && (entries[i].op.Mkdir? ==> entries[i].perm == dirPerm)
  }

  /** The acts are those of the rows, path by path. */
  ghost predicate RowActs(env: Env, entries: seq<Entry>, acts: seq<Act>) {
    && |acts| == |entries|
    && forall i :: 0 <= i < |acts| ==> IsRow(entries[i]) && RowPaths(env, entries[i], acts[i])
  }

  lemma {:induction false} RowsMean(env: Env, fs: FS, entries: seq<Entry>, dirs: set<string>, dirPerm: Mode, acts: seq<Act>)
    requires EnvOk(env) && SimpleRows(entries, dirs) && DirsNamed(env, dirs) && RowsPlain(entries, dirPerm)
    requires (forall dir :: dir in dirs ==> Below(env, dir) != "") && Settled(env, fs, entries, acts)
    ensures RowActs(env, entries, acts)
  {
    forall i | 0 <= i < |acts| ensures IsRow(entries[i]) && RowPaths(env, entries[i], acts[i]) {
      assert SimpleRow(entries[i], dirs) && Plan(env, fs, entries[i]) == Some(acts[i]);
      RowMeans(env, fs, entries[i], dirs, acts[i]);
    }
  }

  /** Rows whose places are apart have acts whose names are apart. */
  lemma {:induction false} RowsApart(env: Env, entries: seq<Entry>, acts: seq<Act>)
    requires RowActs(env, entries, acts) && PlacesApart(env, entries)
    ensures NamesApart(acts)
  {
    forall i | 0 <= i < |acts| ensures RowPaths(env, entries[i], acts[i]) {
    }
  }

  lemma {:induction false} RowsModes(env: Env, entries: seq<Entry>, dirPerm: Mode, acts: seq<Act>)
    requires RowActs(env, entries, acts) && RowsPlain(entries, dirPerm) && env.umask & CHECKED_MODE == 0
    ensures ModesAndOwnersOk(env, acts, dirPerm)
  {
    forall i | 0 <= i < |acts| ensures RowPaths(env, entries[i], acts[i]) {
    }
  }

  /** The names of the directories and the suffix are as they should be, and nobody masks the modes that instchk sees. */
  ghost predicate Configured(env: Env, fs: FS, dirs: set<string>) {
    && RootNamed(env, fs) && DirsNamed(env, dirs) && env.umask & CHECKED_MODE == 0
    && forall dir :: dir in dirs ==> Below(env, dir) != ""
  }

  /** A run of the installer in which every item reports success, over no link and onto no temporary file, and one of instchk. */
  ghost predicate InstalledAndChecked(env: Env, entries: seq<Entry>, acts: seq<Act>, statuses: seq<Status>, states: seq<FS>,
                                      checks: seq<Status>, counted: seq<bool>) {
    && InstallRun(env, entries, statuses, states) && AllOk(statuses)
    && Settled(env, states[0], entries, acts) && NoLinksCrossed(acts, states[0]) && NamesFree(acts, states[0])
    && Drivers.CheckRun(env, states[|entries|], entries, checks, counted, |entries|)
  }

  /** What instchk says then: it succeeds if and only if every directory is as DirPasses says. */
  ghost predicate ChecksAsInstalled(env: Env, acts: seq<Act>, start: FS, checks: seq<Status>, counted: seq<bool>) {
    && |checks| == |acts|
    && (forall i :: 0 <= i < |acts| ==> (checks[i] == OK <==> Passes(env, acts, start, acts[i])))
    && (Drivers.Count(counted) == 0 <==> forall i :: 0 <= i < |acts| ==> Passes(env, acts, start, acts[i]))
  }

  /**
   Any table of simple rows: install it with every item reporting success and check it. Every file passes, and
   instchk succeeds if and only if every directory is as DirPasses says.
   */
  lemma {:induction false} SimpleTableChecks(env: Env, dirs: set<string>, dirPerm: Mode, entries: seq<Entry>, acts: seq<Act>,
                                             statuses: seq<Status>, states: seq<FS>, checks: seq<Status>, counted: seq<bool>)
    requires InstalledAndChecked(env, entries, acts, statuses, states, checks, counted) && Configured(env, states[0], dirs)
    requires SimpleRows(entries, dirs) && RowsPlain(entries, dirPerm)
    requires (forall i :: 0 <= i < |entries| ==> IsRow(entries[i])) && PlacesApart(env, entries)
    ensures ChecksAsInstalled(env, acts, states[0], checks, counted)
  {
    SimpleLibrariesApart(env, states[0], entries, dirs, acts);
    RowsMean(env, states[0], entries, dirs, dirPerm, acts);
    RowsApart(env, entries, acts);
    RowsModes(env, entries, dirPerm, acts);
    RowsFit(env, entries, dirs);
    NoneLinks(env, entries, acts);
    InstallerThenCheck(env, entries, acts, statuses, states, dirPerm, checks, counted);
  }

  lemma {:induction false} NoneLinks(env: Env, entries: seq<Entry>, acts: seq<Act>)
    requires RowActs(env, entries, acts)
    ensures forall i :: 0 <= i < |acts| ==> !acts[i].PutLink?
  {
    forall i | 0 <= i < |acts| ensures RowPaths(env, entries[i], acts[i]) {
    }
  }

  lemma {:induction false} RowsFit(env: Env, entries: seq<Entry>, dirs: set<string>)
    requires SimpleRows(entries, dirs) && DirsNamed(env, dirs) && forall dir :: dir in dirs ==> Below(env, dir) != ""
    ensures DirsFit(env, entries)
  {
    forall i | 0 <= i < |entries|
      ensures var dir := entries[i].dir; dir.Some? && |Below(env, dir.value)| + 1 < MAX_PATHLEN && Below(env, dir.value) != ""
    {
      assert SimpleRow(entries[i], dirs);
    }
  }

  // --- Rows that differ -----------------------------------------------------------------------------

  /** The name that a file is given, before the suffix of programs. */
  function PlainName(e: Entry): string
    requires IsRow(e) && !e.op.Mkdir?
  {
    if e.dst.Some? then e.dst.value else e.src.value
  }

  /** The places of directories are different, none is the working directory, and none is a file's. */
  ghost predicate DirsApart(env: Env, dirs: set<string>, entries: seq<Entry>)
    requires forall i :: 0 <= i < |entries| ==> IsRow(entries[i])
  {
    && (forall a, b :: a in dirs && b in dirs && a != b ==> Canon(env.cwd, Below(env, a)) != Canon(env.cwd, Below(env, b)))
    && (forall a :: a in dirs ==> Canon(env.cwd, Below(env, a)) != env.cwd)
    && (forall a, i :: a in dirs && 0 <= i < |entries| && !entries[i].op.Mkdir? ==>
          NoFile(env, Canon(env.cwd, Below(env, a)), entries[i]))
  }

  predicate NoFile(env: Env, place: Path, e: Entry)
    requires IsRow(e) && !e.op.Mkdir?
  {
    place != Place(env, e) && place != TemporaryPlace(env, e) && place != SourcePlace(env, e)
  }

  /** Two rows name different directories, or different files where they name the same directory. */
  predicate RowsDiffer(env: Env, e: Entry, f: Entry)
    requires IsRow(e) && IsRow(f)
  {
    e.op.Mkdir? == f.op.Mkdir? && e.dir == f.dir ==> !e.op.Mkdir? && FileName(env, e) != FileName(env, f)
  }

  predicate NotTemporaryOf(env: Env, e: Entry, f: Entry)
    requires IsRow(e) && IsRow(f)
  {
    !e.op.Mkdir? && !f.op.Mkdir? && e.dir == f.dir ==> FileName(env, e) + TEMPORARY != FileName(env, f)
  }

  ghost predicate RowsDistinct(env: Env, entries: seq<Entry>)
    requires forall i :: 0 <= i < |entries| ==> IsRow(entries[i])
  {
    && (forall i, j :: 0 <= i < j < |entries| ==> RowsDiffer(env, entries[i], entries[j]))
    && (forall i, j :: 0 <= i < |entries| && 0 <= j < |entries| ==> NotTemporaryOf(env, entries[i], entries[j]))
  }

  lemma {:induction false} InDifferent(p: Path, name: string, q: Path, other: string)
    ensures p + [name] == q + [other] <==> p == q && name == other
  {
    if p + [name] == q + [other] {
      assert (p + [name])[..|p|] == p && (q + [other])[..|q|] == q;
      assert (p + [name])[|p|] == name && (q + [other])[|q|] == other;
    }
  }

  ghost predicate DirsOf(entries: seq<Entry>, dirs: set<string>) {
    forall i :: 0 <= i < |entries| ==> IsRow(entries[i]) && entries[i].dir.value in dirs
  }

  lemma {:induction false} PlacesDiffer(env: Env, dirs: set<string>, entries: seq<Entry>, i: nat, j: nat)
    requires DirsOf(entries, dirs) && DirsApart(env, dirs, entries) && i < |entries| && j < |entries|
    requires RowsDiffer(env, entries[i], entries[j])
    ensures Place(env, entries[i]) != Place(env, entries[j])
  {
    var e, f := entries[i], entries[j];
    if e.op.Mkdir? && !f.op.Mkdir? {
      assert NoFile(env, Canon(env.cwd, Below(env, e.dir.value)), f);
    } else if !e.op.Mkdir? && f.op.Mkdir? {
      assert NoFile(env, Canon(env.cwd, Below(env, f.dir.value)), e);
    } else if !e.op.Mkdir? {
      InDifferent(DirPlace(env, e), FileName(env, e), DirPlace(env, f), FileName(env, f));
    }
  }

  lemma {:induction false} OthersDiffer(env: Env, dirs: set<string>, entries: seq<Entry>, i: nat, j: nat)
    requires DirsOf(entries, dirs) && DirsApart(env, dirs, entries) && i < |entries| && j < |entries|
    requires !entries[i].op.Mkdir? && NotTemporaryOf(env, entries[i], entries[j])
    ensures SourcePlace(env, entries[i]) != Place(env, entries[j]) && TemporaryPlace(env, entries[i]) != Place(env, entries[j])
    ensures !entries[j].op.Mkdir? ==> SourcePlace(env, entries[i]) != TemporaryPlace(env, entries[j])
  {
    var e, f := entries[i], entries[j];
    if f.op.Mkdir? {
      assert NoFile(env, Canon(env.cwd, Below(env, f.dir.value)), e);
    } else {
      var source := e.src.value + if e.op.CopyExec? then env.execSuffix else "";
      InDifferent(env.cwd, source, DirPlace(env, f), FileName(env, f));
      InDifferent(env.cwd, source, DirPlace(env, f), FileName(env, f) + TEMPORARY);
      InDifferent(DirPlace(env, e), FileName(env, e) + TEMPORARY, DirPlace(env, f), FileName(env, f));
    }
  }

  /** Rows that differ have places that are apart, if the directories are. */
  lemma {:induction false} DistinctRowsApart(env: Env, dirs: set<string>, entries: seq<Entry>)
    requires DirsOf(entries, dirs) && DirsApart(env, dirs, entries) && RowsDistinct(env, entries)
    ensures PlacesApart(env, entries)
  {
    forall i, j | 0 <= i < j < |entries| ensures Place(env, entries[i]) != Place(env, entries[j]) {
      PlacesDiffer(env, dirs, entries, i, j);
    }
    forall i, j | 0 <= i < |entries| && 0 <= j < |entries| && !entries[i].op.Mkdir?
      ensures SourcePlace(env, entries[i]) != Place(env, entries[j])
      ensures TemporaryPlace(env, entries[i]) != Place(env, entries[j])
      ensures !entries[j].op.Mkdir? ==> SourcePlace(env, entries[i]) != TemporaryPlace(env, entries[j])
    {
      OthersDiffer(env, dirs, entries, i, j);
    }
  }

  // --- The table of insthier.c ------------------------------------------------------------------------

  /** A number that grows along the files of the table; it is read off the operation, the name's length and end, and the directory. */
  function Rank(e: Entry, inc: string): int
    requires IsRow(e) && !e.op.Mkdir? && PlainName(e) != ""
  {
    var n, last := |PlainName(e)|, PlainName(e)[|PlainName(e)| - 1];
    if e.op.CopyExec? then 406 + n
    else if last == 'c' then 20 - n
    else if last == 'd' then 400 + n
    else if last == 'a' then 412
    else
      (if last == 's' then 100 else if last == 'b' then 200 else 300) + 2 * Order(n) + if e.dir == Some(inc) then 1 else 0
  }

  function Order(n: nat): nat {
    if n == 19 then 0 else if n == 14 then 1 else if n == 11 then 2 else if n == 17 then 3 else if n == 7 then 4 else 5
  }

  /** A file of the table: programs, and nothing else, go to `bin`; no name is a temporary one. */
  predicate TableFile(e: Entry, bin: string) {
    && IsRow(e) && PlainOwner(e) && CheckedMode(e.perm) && !e.op.Mkdir? && PlainName(e) != ""
    && (e.op.CopyExec? <==> e.dir == Some(bin))
    && if e.op.CopyExec? then |PlainName(e)| == 12 || |PlainName(e)| == 19
       else e.op.Copy? && PlainName(e)[|PlainName(e)| - 1] != 'p'
  }

  /** Files of the table in the order of their numbers, from `low` up to `high`. */
  ghost predicate Ranked(rows: seq<Entry>, bin: string, inc: string, low: int, high: int) {
    && (forall i :: 0 <= i < |rows| ==> TableFile(rows[i], bin) && low <= Rank(rows[i], inc) < high)
    && (forall i, j :: 0 <= i < j < |rows| ==> Rank(rows[i], inc) < Rank(rows[j], inc))
  }

  lemma {:induction false} RankedConcat(a: seq<Entry>, b: seq<Entry>, bin: string, inc: string, low: int, mid: int, high: int)
    requires Ranked(a, bin, inc, low, mid) && Ranked(b, bin, inc, mid, high) && low <= mid <= high
    ensures Ranked(a + b, bin, inc, low, high)
  {
  }

  /** Two files of the table that would have the same place have the same number. */
  lemma {:induction false} SameRank(env: Env, e: Entry, f: Entry, bin: string, inc: string)
    requires TableFile(e, bin) && TableFile(f, bin)
    ensures e.dir == f.dir && FileName(env, e) == FileName(env, f) ==> Rank(e, inc) == Rank(f, inc)
    ensures NotTemporaryOf(env, e, f)
  {
    if e.dir == f.dir {
      if e.op.CopyExec? {
        assert |FileName(env, e)| == |PlainName(e)| + |env.execSuffix| && |FileName(env, f)| == |PlainName(f)| + |env.execSuffix|;
      } else {
        assert FileName(env, e) == PlainName(e) && FileName(env, f) == PlainName(f);
        var temporary := PlainName(e) + TEMPORARY;
        assert temporary[|temporary| - 1] == 'p';
      }
    }
  }

  lemma {:induction false} RankedDistinct(env: Env, rows: seq<Entry>, bin: string, inc: string, low: int, high: int)
    requires Ranked(rows, bin, inc, low, high)
    ensures RowsDistinct(env, rows)
  {
    forall i, j | 0 <= i < |rows| && 0 <= j < |rows|
      ensures NotTemporaryOf(env, rows[i], rows[j]) && (i < j ==> RowsDiffer(env, rows[i], rows[j]))
    {
      SameRank(env, rows[i], rows[j], bin, inc);
    }
  }

  lemma {:induction false} OneRanked(e: Entry, bin: string, inc: string, low: int, high: int)
    requires TableFile(e, bin) && low <= Rank(e, inc) < high
    ensures Ranked([e], bin, inc, low, high)
  {
  }

  lemma {:induction false} BothRanked(name: string, repos: string, inc: string, perm: Mode, bin: string, base: int)
    requires SimpleName(name) && repos != inc && repos != bin && inc != bin && CheckedMode(perm)
    requires var last := name[|name| - 1];
             || (last == 's' && base == 100 + 2 * Order(|name|)) || (last == 'b' && base == 200 + 2 * Order(|name|))
             || (last == 'i' && base == 300 + 2 * Order(|name|))
    ensures Ranked(Both(name, repos, inc, perm), bin, inc, base, base + 2)
  {
    var one, two := CopyTo(name, repos, PLAIN_MODE), CopyTo(name, inc, perm);
    OneRanked(one[0], bin, inc, base, base + 1);
    OneRanked(two[0], bin, inc, base + 1, base + 2);
    RankedConcat(one, two, bin, inc, base, base + 1, base + 2);
  }

  /** Two more rows after rows of lower numbers. */
  lemma {:induction false} MoreBoth(rows: seq<Entry>, name: string, repos: string, inc: string, perm: Mode, bin: string,
                                    low: int, high: int, base: int)
    returns (r: seq<Entry>)
    requires SimpleName(name) && repos != inc && repos != bin && inc != bin && CheckedMode(perm)
    requires var last := name[|name| - 1];
             || (last == 's' && base == 100 + 2 * Order(|name|)) || (last == 'b' && base == 200 + 2 * Order(|name|))
             || (last == 'i' && base == 300 + 2 * Order(|name|))
    requires low <= high <= base && Ranked(rows, bin, inc, low, high)
    ensures r == rows + Both(name, repos, inc, perm) && Ranked(r, bin, inc, low, base + 2)
  {
    BothRanked(name, repos, inc, perm, bin, base);
    RankedConcat(rows, Both(name, repos, inc, perm), bin, inc, low, base, base + 2);
    r := rows + Both(name, repos, inc, perm);
  }

  /** One more row after rows of lower numbers. */
  lemma {:induction false} MoreRows(rows: seq<Entry>, next: seq<Entry>, bin: string, inc: string, low: int, high: int, base: int)
    returns (r: seq<Entry>)
    requires Ranked(rows, bin, inc, low, high) && low <= high <= base
    requires |next| == 1 && TableFile(next[0], bin) && Rank(next[0], inc) == base
    ensures r == rows + next && Ranked(r, bin, inc, low, base + 1)
  {
    OneRanked(next[0], bin, inc, base, base + 1);
    assert next == [next[0]];
    RankedConcat(rows, next, bin, inc, low, base, base + 1);
    r := rows + next;
  }

  lemma {:induction false} SourcesRanked(repos: string, inc: string, bin: string)
    requires repos != inc && repos != bin && inc != bin
    ensures Ranked(Sources(repos, inc), bin, inc, 0, 200)
  {
    var r := SourcesBegin(repos, inc, bin);
    r := MoreBoth(r, "lua-lib.ads", repos, inc, PLAIN_MODE, bin, 0, 104, 104);
    r := MoreBoth(r, "lua-user_data.ads", repos, inc, PLAIN_MODE, bin, 0, 106, 106);
    r := MoreBoth(r, "lua.ads", repos, inc, PLAIN_MODE, bin, 0, 108, 108);
    assert r == Sources(repos, inc);
  }

  lemma {:induction false} SourcesBegin(repos: string, inc: string, bin: string) returns (r: seq<Entry>)
    requires repos != inc && repos != bin && inc != bin
    ensures r == CopyTo("lua-ada-conf.c", repos, PLAIN_MODE) + CopyTo("lua-ext.c", repos, PLAIN_MODE) +
                 Both("lua-check_raise.ads", repos, inc, PLAIN_MODE) + Both("lua-config.ads", repos, inc, PLAIN_MODE)
    ensures Ranked(r, bin, inc, 0, 104)
  {
    r := MoreRows([], CopyTo("lua-ada-conf.c", repos, PLAIN_MODE), bin, inc, 0, 0, 6);
    r := MoreRows(r, CopyTo("lua-ext.c", repos, PLAIN_MODE), bin, inc, 0, 7, 11);
    r := MoreBoth(r, "lua-check_raise.ads", repos, inc, PLAIN_MODE, bin, 0, 12, 100);
    r := MoreBoth(r, "lua-config.ads", repos, inc, PLAIN_MODE, bin, 0, 102, 102);
  }

  lemma {:induction false} BodiesRanked(repos: string, inc: string, bin: string)
    requires repos != inc && repos != bin && inc != bin
    ensures Ranked(Bodies(repos, inc), bin, inc, 200, 300)
  {
    var r := BodiesBegin(repos, inc, bin);
    r := MoreBoth(r, "lua.adb", repos, inc, PLAIN_MODE, bin, 200, 208, 208);
    r := MoreBoth(r, "lua_check_exception.adb", repos, inc, PLAIN_MODE, bin, 200, 210, 210);
    assert r == Bodies(repos, inc);
  }

  lemma {:induction false} BodiesBegin(repos: string, inc: string, bin: string) returns (r: seq<Entry>)
    requires repos != inc && repos != bin && inc != bin
    ensures r == Both("lua-check_raise.adb", repos, inc, PLAIN_MODE) + Both("lua-lib.adb", repos, inc, PLAIN_MODE) +
                 Both("lua-user_data.adb", repos, inc, PLAIN_MODE)
    ensures Ranked(r, bin, inc, 200, 208)
  {
    r := MoreBoth([], "lua-check_raise.adb", repos, inc, PLAIN_MODE, bin, 200, 200, 200);
    r := MoreBoth(r, "lua-lib.adb", repos, inc, PLAIN_MODE, bin, 200, 202, 204);
    r := MoreBoth(r, "lua-user_data.adb", repos, inc, PLAIN_MODE, bin, 200, 206, 206);
  }

  lemma {:induction false} LibraryInformationRanked(repos: string, inc: string, bin: string)
    requires repos != inc && repos != bin && inc != bin
    ensures Ranked(LibraryInformation(repos, inc), bin, inc, 300, 400)
  {
    var r := LibraryInformationBegin(repos, inc, bin);
    r := MoreBoth(r, "lua-user_data.ali", repos, inc, READ_MODE, bin, 300, 306, 306);
    r := MoreBoth(r, "lua.ali", repos, inc, READ_MODE, bin, 300, 308, 308);
    r := MoreBoth(r, "lua_check_exception.ali", repos, inc, READ_MODE, bin, 300, 310, 310);
    assert r == LibraryInformation(repos, inc);
  }

  lemma {:induction false} LibraryInformationBegin(repos: string, inc: string, bin: string) returns (r: seq<Entry>)
    requires repos != inc && repos != bin && inc != bin
    ensures r == Both("lua-check_raise.ali", repos, inc, READ_MODE) + Both("lua-config.ali", repos, inc, READ_MODE) +
                 Both("lua-lib.ali", repos, inc, READ_MODE)
    ensures Ranked(r, bin, inc, 300, 306)
  {
    r := MoreBoth([], "lua-check_raise.ali", repos, inc, READ_MODE, bin, 300, 300, 300);
    r := MoreBoth(r, "lua-config.ali", repos, inc, READ_MODE, bin, 300, 302, 302);
    r := MoreBoth(r, "lua-lib.ali", repos, inc, READ_MODE, bin, 300, 304, 304);
  }

  lemma {:induction false} ProgramsRanked(bin: string, slib: string, repos: string, inc: string)
    requires repos != bin && slib != bin
    ensures Ranked(Programs(bin, slib, repos), bin, inc, 400, 500)
  {
    var r := ProgramsBegin(bin, slib, repos, inc);
    r := MoreRows(r, Program("lua-ada-conf", bin), bin, inc, 400, 416, 418);
    r := MoreRows(r, CopyTo("lua-check-exception.ald", repos, PLAIN_MODE), bin, inc, 400, 419, 423);
    r := MoreRows(r, Program("lua-check-exception", bin), bin, inc, 400, 424, 425);
    assert r == Programs(bin, slib, repos);
  }

  lemma {:induction false} ProgramsBegin(bin: string, slib: string, repos: string, inc: string) returns (r: seq<Entry>)
    requires repos != bin && slib != bin
    ensures r == CopyTo("lua-ada.sld", repos, PLAIN_MODE) + Renamed("lua-ada.a", "liblua-ada.a", slib) +
                 CopyTo("lua-ada-conf.ld", repos, PLAIN_MODE)
    ensures Ranked(r, bin, inc, 400, 416)
  {
    r := MoreRows([], CopyTo("lua-ada.sld", repos, PLAIN_MODE), bin, inc, 400, 400, 411);
    r := MoreRows(r, Renamed("lua-ada.a", "liblua-ada.a", slib), bin, inc, 400, 412, 412);
    r := MoreRows(r, CopyTo("lua-ada-conf.ld", repos, PLAIN_MODE), bin, inc, 400, 413, 415);
  }

  /** The rows of the table that install files. */
  function Files(bin: string, inc: string, slib: string, repos: string): seq<Entry> {
    Sources(repos, inc) + Bodies(repos, inc) + LibraryInformation(repos, inc) + Programs(bin, slib, repos)
  }

  /** The rows of the table that make directories. */
  function Directories(bin: string, inc: string, dlib: string, slib: string, repos: string): seq<Entry> {
    Directory(bin) + Directory(inc) + Directory(dlib) + Directory(slib) + Directory(repos)
  }

  lemma {:induction false} FilesRanked(bin: string, inc: string, slib: string, repos: string)
    requires repos != inc && repos != bin && inc != bin && slib != bin
    ensures Ranked(Files(bin, inc, slib, repos), bin, inc, 0, 500)
  {
    SourcesRanked(repos, inc, bin);
    BodiesRanked(repos, inc, bin);
    LibraryInformationRanked(repos, inc, bin);
    ProgramsRanked(bin, slib, repos, inc);
    var two := Sources(repos, inc) + Bodies(repos, inc);
    RankedConcat(Sources(repos, inc), Bodies(repos, inc), bin, inc, 0, 200, 300);
    RankedConcat(two, LibraryInformation(repos, inc), bin, inc, 0, 300, 400);
    RankedConcat(two + LibraryInformation(repos, inc), Programs(bin, slib, repos), bin, inc, 0, 400, 500);
  }

  lemma {:induction false} TableParts(bin: string, inc: string, dlib: string, slib: string, repos: string)
    ensures Table(bin, inc, dlib, slib, repos) == Directories(bin, inc, dlib, slib, repos) + Files(bin, inc, slib, repos)
  {
    var d := Directories(bin, inc, dlib, slib, repos);
    ConcatAssociative(d, Sources(repos, inc), Bodies(repos, inc));
    ConcatAssociative(d, Sources(repos, inc) + Bodies(repos, inc), LibraryInformation(repos, inc));
    ConcatAssociative(d, Sources(repos, inc) + Bodies(repos, inc) + LibraryInformation(repos, inc), Programs(bin, slib, repos));
  }

  /** A row that makes a directory. */
  predicate TableDir(e: Entry) {
    IsRow(e) && PlainOwner(e) && e.op.Mkdir? && e.perm == PROGRAM_MODE && CheckedMode(e.perm)
  }

  lemma {:induction false} DirectoriesDiffer(bin: string, inc: string, dlib: string, slib: string, repos: string)
    requires |{bin, inc, dlib, slib, repos}| == 5
    ensures var d := Directories(bin, inc, dlib, slib, repos);
            && |d| == 5 && (forall i :: 0 <= i < 5 ==> TableDir(d[i]))
            && forall i, j :: 0 <= i < j < 5 ==> d[i].dir != d[j].dir
  {
    FiveDiffer(bin, inc, dlib, slib, repos);
    var d := Directories(bin, inc, dlib, slib, repos);
    assert d[0].dir == Some(bin) && d[1].dir == Some(inc) && d[2].dir == Some(dlib);
    assert d[3].dir == Some(slib) && d[4].dir == Some(repos);
  }

  lemma {:induction false} FiveDiffer(a: string, b: string, c: string, d: string, e: string)
    requires |{a, b, c, d, e}| == 5
    ensures a != b && a != c && a != d && a != e && b != c && b != d && b != e && c != d && c != e && d != e
  {
    assert {a, b, c, d, e} == {a} + {b} + {c} + {d} + {e};
  }

  /** Directories and files together. */
  lemma {:induction false} DistinctTogether(env: Env, d: seq<Entry>, f: seq<Entry>, bin: string, inc: string)
    requires (forall i :: 0 <= i < |d| ==> TableDir(d[i])) && forall i, j :: 0 <= i < j < |d| ==> d[i].dir != d[j].dir
    requires Ranked(f, bin, inc, 0, 500)
    ensures (forall i :: 0 <= i < |d + f| ==> IsRow((d + f)[i])) && RowsDistinct(env, d + f)
    ensures RowsPlain(d + f, PROGRAM_MODE)
  {
    RankedDistinct(env, f, bin, inc, 0, 500);
    var all := d + f;
    forall i | 0 <= i < |all| ensures IsRow(all[i]) && (all[i] in d || all[i] in f) {
      if i < |d| { assert all[i] == d[i]; } else { assert all[i] == f[i - |d|]; }
    }
    forall i, j | 0 <= i < |all| && 0 <= j < |all|
      ensures NotTemporaryOf(env, all[i], all[j]) && (i < j ==> RowsDiffer(env, all[i], all[j]))
    {
      if i >= |d| && j >= |d| {
        assert all[i] == f[i - |d|] && all[j] == f[j - |d|];
        assert NotTemporaryOf(env, f[i - |d|], f[j - |d|]);
      }
    }
  }

  lemma {:induction false} TableDistinct(env: Env, bin: string, inc: string, dlib: string, slib: string, repos: string)
    requires |{bin, inc, dlib, slib, repos}| == 5
    ensures var entries := Table(bin, inc, dlib, slib, repos);
            && (forall i :: 0 <= i < |entries| ==> IsRow(entries[i])) && RowsDistinct(env, entries)
            && RowsPlain(entries, PROGRAM_MODE)
  {
    FiveDiffer(bin, inc, dlib, slib, repos);
    DirectoriesDiffer(bin, inc, dlib, slib, repos);
    FilesRanked(bin, inc, slib, repos);
    TableParts(bin, inc, dlib, slib, repos);
    DistinctTogether(env, Directories(bin, inc, dlib, slib, repos), Files(bin, inc, slib, repos), bin, inc);
  }

  lemma {:induction false} TableDirs(bin: string, inc: string, dlib: string, slib: string, repos: string)
    ensures DirsOf(Table(bin, inc, dlib, slib, repos), {bin, inc, dlib, slib, repos})
  {
    var entries := Table(bin, inc, dlib, slib, repos);
    forall i | 0 <= i < |entries| ensures IsRow(entries[i]) && entries[i].dir.value in {bin, inc, dlib, slib, repos} {
      assert SimpleRow(entries[i], {bin, inc, dlib, slib, repos});
    }
  }

  ghost predicate TableDirsApart(env: Env, bin: string, inc: string, dlib: string, slib: string, repos: string) {
    var entries := Table(bin, inc, dlib, slib, repos);
    (forall i :: 0 <= i < |entries| ==> IsRow(entries[i])) && DirsApart(env, {bin, inc, dlib, slib, repos}, entries)
  }

  /**
   Install the table with every item reporting success, for five directories that are apart, and check it:
   every file passes, and instchk succeeds if and only if every directory is as DirPasses says.
   */
  lemma {:induction false} HierarchyChecks(env: Env, bin: string, inc: string, dlib: string, slib: string, repos: string,
                                           acts: seq<Act>, statuses: seq<Status>, states: seq<FS>,
                                           checks: seq<Status>, counted: seq<bool>)
    requires InstalledAndChecked(env, Table(bin, inc, dlib, slib, repos), acts, statuses, states, checks, counted)
    requires |{bin, inc, dlib, slib, repos}| == 5 && Configured(env, states[0], {bin, inc, dlib, slib, repos})
    requires TableDirsApart(env, bin, inc, dlib, slib, repos)
    ensures ChecksAsInstalled(env, acts, states[0], checks, counted)
  {
    var entries, dirs := Table(bin, inc, dlib, slib, repos), {bin, inc, dlib, slib, repos};
    TableDistinct(env, bin, inc, dlib, slib, repos);
    TableDirs(bin, inc, dlib, slib, repos);
    DistinctRowsApart(env, dirs, entries);
    SimpleTableChecks(env, dirs, PROGRAM_MODE, entries, acts, statuses, states, checks, counted);
  }
}
