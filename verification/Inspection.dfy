/**
 What an installation leaves in the places of its items, and what instchk finds there whenever it is run,
 now or after others have changed something.
 */
module Inspection {
  import opened Wrappers
  import opened Paths
  import opened Names
  import opened FileSystem
  import opened Items
  import opened Steps
  import opened Engine
  import opened Drivers
  import opened InstallRuns
  import opened InstallCheck
  import opened WholeRuns

  // --- One check --------------------------------------------------------------------------------------

  /** The owner and group that an item asks for: those it names, or the process's own. */
  predicate Asked(env: Env, e: Entry, uid: int, gid: int) {
    && (if e.owner.None? then uid == env.uid else e.owner.value in env.users && uid == env.users[e.owner.value])
    && (if e.group.None? then gid == env.gid else e.group.value in env.groups && gid == env.groups[e.group.value])
  }

  lemma {:induction false} AskedIsLookup(env: Env, e: Entry, uid: int, gid: int)
    ensures Asked(env, e, uid, gid) <==> Owner(env, e) == Some(uid) && Group(env, e) == Some(gid)
  {
  }

  /**
   The check of a copied item is counted as failed if and only if its source or its file is not reached, or the
   file has another length than the source, or another mode under octal 0755, owner or group than was asked for.
   */
  lemma {:induction false} FileCheckExactly(env: Env, fs: FS, e: Entry, src: string, dst: string, uid: int, gid: int,
                                            status: Status, counted: bool)
    requires Translate(env, fs, e) == Some(CopyTarget(src, dst)) && Asked(env, e, uid, gid)
    requires CheckPlain(env, fs, e) && CheckStep(env, fs, e, status, counted)
    ensures status == OK <==> !counted
    ensures var from, to := FileRoute(env.cwd, src), FileRoute(env.cwd, dst);
            && (!Reached(fs, from) || from.at !in fs || !Reached(fs, to) || to.at !in fs ==> counted)
            && (IsDir(fs, to.at) ==>
                  fs[to.at].mode & 0x1ED != e.perm || fs[to.at].uid != uid || fs[to.at].gid != gid ==> counted)
            && (IsFile(Seen(fs, from)) && IsFile(Seen(fs, to)) ==>
                  (counted <==> || |fs[to.at].content| != |fs[from.at].content| || fs[to.at].mode & 0x1ED != e.perm
                                || fs[to.at].uid != uid || fs[to.at].gid != gid))
  {
    AskedIsLookup(env, e, uid, gid);
  }

  /** Likewise for a directory item: only that something is there, its mode, owner and group are looked at. */
  lemma {:induction false} DirCheckExactly(env: Env, fs: FS, e: Entry, dir: string, uid: int, gid: int, status: Status,
                                           counted: bool)
    requires Translate(env, fs, e) == Some(DirTarget(dir)) && Asked(env, e, uid, gid)
    requires CheckPlain(env, fs, e) && CheckStep(env, fs, e, status, counted)
    ensures status == OK <==> !counted
    ensures var r := FileRoute(env.cwd, dir);
            r.at in fs ==> !fs[r.at].Link?
    ensures var r := FileRoute(env.cwd, dir);
            counted <==>
              || !Reached(fs, r) || r.at !in fs || fs[r.at].mode & 0x1ED != e.perm
              || fs[r.at].uid != uid || fs[r.at].gid != gid
  {
    AskedIsLookup(env, e, uid, gid);
    var r := FileRoute(env.cwd, dir);
    assert r.at in Followed(r);
  }

  lemma {:induction false} EntryCounts(fs: FS, r: Route, uid: int, gid: int, perm: Mode, ok: bool)
    requires EntryCheckResult(fs, r, uid, gid, perm, ok)
    ensures !(Reached(fs, r) && IsLink(fs, r.at)) ==>
              (!ok <==> || !Reached(fs, r) || r.at !in fs || fs[r.at].mode & 0x1ED != perm
                        || fs[r.at].uid != uid || fs[r.at].gid != gid)
  {
  }

  /**
   That of a link item looks at what the directory and the name joined lead to: it is counted if that is not reached,
   and judged as a directory is if it is no link.
   */
  lemma {:induction false} LinkCheckExactly(env: Env, fs: FS, e: Entry, dir: string, text: string, name: string,
                                            uid: int, gid: int,
                                            status: Status, counted: bool)
    requires Translate(env, fs, e) == Some(LinkTarget(dir, text, name)) && Asked(env, e, uid, gid)
    requires CheckPlain(env, fs, e) && CheckStep(env, fs, e, status, counted)
    ensures status == OK <==> !counted
    ensures var r := FileRoute(env.cwd, Format(dir + "/" + name));
            !(Reached(fs, r) && IsLink(fs, r.at)) ==>
              (counted <==> || !Reached(fs, r) || r.at !in fs || fs[r.at].mode & 0x1ED != e.perm
                            || fs[r.at].uid != uid || fs[r.at].gid != gid)
  {
    AskedIsLookup(env, e, uid, gid);
    var r := FileRoute(env.cwd, Format(dir + "/" + name));
    assert EntryCheckResult(fs, r, uid, gid, e.perm, status == OK);
    EntryCounts(fs, r, uid, gid, e.perm, status == OK);
  }

  /** An item that cannot be translated, or whose owner or group is unknown, is an error that is not counted. */
  lemma {:induction false} UnknownIsNotCounted(env: Env, fs: FS, e: Entry, status: Status, counted: bool)
    requires CheckPlain(env, fs, e) && CheckStep(env, fs, e, status, counted)
    requires Translate(env, fs, e).None? || forall uid, gid :: !Asked(env, e, uid, gid)
    ensures status == ERROR && !counted
  {
    if OwnersKnown(env, e) { AskedIsLookup(env, e, Owner(env, e).value, Group(env, e).value); }
  }

  /** Nor is it installed: the status is an error and nothing changes. A link needs no owner. */
  lemma {:induction false} UnknownIsNotInstalled(env: Env, fs: FS, e: Entry, status: Status, now: FS)
    requires Plain(env, fs, e) && InstallStep(env, fs, e, status, now)
    requires || Translate(env, fs, e).None?
             || (!e.op.Symlink? && !e.op.Liblink? && forall uid, gid :: !Asked(env, e, uid, gid))
    ensures status == ERROR && now == fs
  {
    if OwnersKnown(env, e) { AskedIsLookup(env, e, Owner(env, e).value, Group(env, e).value); }
  }

  // --- What an act leaves -------------------------------------------------------------------------------

  /** A copied file: all of its source as it was at the start, the mode bits under octal 07777, an owner and a group. */
  lemma {:induction false} FileLeft(env: Env, acts: seq<Act>, states: seq<FS>, i: nat)
    requires ActRun(env, acts, states) && EffectRun(env, acts, states) && NamesApart(acts) && NamesFree(acts, states[0])
    requires i < |acts| && acts[i].PutFile?
    ensures var act := acts[i];
            && act.src.at in states[0] && states[0][act.src.at].File? && Reached(states[|acts|], act.dst)
            && At(states[|acts|], act.dst.at) == Some(File(states[0][act.src.at].content, act.perm & 0xFFF, act.uid,
                                                           if env.uid == act.uid then env.gid else act.gid))
  {
    var act := acts[i];
    assert ActStep(env, states[i], act, true, states[i + 1]);
    SourceStays(env, acts, states, i);
    TemporaryFree(env, acts, states, i);
    TargetStays(env, acts, states, i);
    WayStays(env, acts, states, i, act.dst);
  }

  lemma {:induction false} LinkLeft(env: Env, acts: seq<Act>, states: seq<FS>, i: nat)
    requires ActRun(env, acts, states) && EffectRun(env, acts, states) && NamesApart(acts)
    requires i < |acts| && acts[i].PutLink?
    ensures At(states[|acts|], acts[i].name.at) == Some(Link(acts[i].text))
  {
    assert ActStep(env, states[i], acts[i], true, states[i + 1]) && SameSpot(acts[i]);
    TargetStays(env, acts, states, i);
  }

  /** A directory that its item finds missing, or made by an item of the same mode, and that can be made. */
  lemma {:induction false} DirLeft(env: Env, acts: seq<Act>, states: seq<FS>, dirPerm: Mode, i: nat)
    requires ActRun(env, acts, states) && EffectRun(env, acts, states) && Checkable(env, acts, states[0], dirPerm)
    requires i < |acts| && acts[i].PutDir? && Spot(acts[i]) !in states[0] && DirPasses(env, acts, states[0], acts[i])
    ensures At(states[|acts|], Spot(acts[i])) == Some(Dir(acts[i].perm & 0x1FF & !env.umask, acts[i].uid, acts[i].gid))
  {
    OpenWayIsMade(env, acts, states, dirPerm, i);
    DirAfter(env, acts, states, dirPerm, i);
    TargetStays(env, acts, states, i);
  }

  lemma {:induction false} StepKeepsMode(env: Env, fs: FS, act: Act, now: FS, p: Path)
    requires TreeOk(fs) && SameSpot(act) && ActStep(env, fs, act, true, now) && IsDir(fs, p)
    ensures IsDir(now, p) && now[p].mode == fs[p].mode
  {
    NextEffect(env, fs, act, now);
    if act.PutDir? {
      MkDirsFrame(env, fs, act.chain, NewDir(env, act.perm));
      assert At(MkDirs(env, fs, act.chain, NewDir(env, act.perm)), p) == At(fs, p);
    }
  }

  lemma {:induction false} StepMakesMode(env: Env, fs: FS, act: Act, now: FS, p: Path)
    requires TreeOk(fs) && SameSpot(act) && ActStep(env, fs, act, true, now) && !IsDir(fs, p) && IsDir(now, p)
    ensures act.PutDir? && Visits(act.chain, p) && now[p].mode == act.perm & 0x1FF & !env.umask
  {
    NextEffect(env, fs, act, now);
    MkDirsFrame(env, fs, act.chain, NewDir(env, act.perm));
  }

  /** The act visits `p` and asks for the mode, which the umask cuts. */
  ghost predicate MadeWithMode(env: Env, act: Act, p: Path, mode: Mode) {
    act.PutDir? && Visits(act.chain, p) && mode == act.perm & 0x1FF & !env.umask
  }

  /** A step leaves the mode of a directory alone and gives a new one that of its act. */
  ghost predicate ModesOfStep(env: Env, fs: FS, act: Act, now: FS, p: Path) {
    && (IsDir(fs, p) ==> IsDir(now, p) && now[p].mode == fs[p].mode)
    && (!IsDir(fs, p) && IsDir(now, p) ==> MadeWithMode(env, act, p, now[p].mode))
  }

  lemma {:induction false} StepModes(env: Env, acts: seq<Act>, states: seq<FS>, i: nat, p: Path)
    requires ActRun(env, acts, states) && EffectRun(env, acts, states) && i < |acts|
    ensures ModesOfStep(env, states[i], acts[i], states[i + 1], p)
  {
    var act := acts[i];
    if IsDir(states[i], p) {
      StepKeepsMode(env, states[i], act, states[i + 1], p);
    } else if IsDir(states[i + 1], p) {
      StepMakesMode(env, states[i], act, states[i + 1], p);
    }
  }

  /** Every new directory was made by an item that visits it, and has the mode which that asks for, less the umask. */
  lemma {:induction false} NewDirMode(env: Env, acts: seq<Act>, states: seq<FS>, j: nat, p: Path) returns (k: nat)
    requires |states| == |acts| + 1 && j <= |acts| && IsDir(states[j], p) && !IsDir(states[0], p)
    requires forall i :: 0 <= i < |acts| ==> ModesOfStep(env, states[i], acts[i], states[i + 1], p)
    ensures k < j && MadeWithMode(env, acts[k], p, states[j][p].mode)
  {
    assert ModesOfStep(env, states[j - 1], acts[j - 1], states[j], p);
    if IsDir(states[j - 1], p) {
      k := NewDirMode(env, acts, states, j - 1, p);
    } else {
      k := j - 1;
    }
  }

  // --- What a run leaves --------------------------------------------------------------------------------

  /** A run in which every item reports success, each is removed where it is put, and no two get in each other's way. */
  ghost predicate CleanRun(env: Env, entries: seq<Entry>, acts: seq<Act>, statuses: seq<Status>, states: seq<FS>) {
    && GoodRun(env, entries, acts, statuses, states) && LinksSameWay(acts)
    && NamesApart(acts) && NamesFree(acts, states[0])
  }

  lemma {:induction false} CleanRunActs(env: Env, entries: seq<Entry>, acts: seq<Act>, statuses: seq<Status>,
                                        states: seq<FS>, i: nat)
    requires CleanRun(env, entries, acts, statuses, states) && i < |entries|
    ensures |acts| == |entries| && Plan(env, states[0], entries[i]) == Some(acts[i])
    ensures ActRun(env, acts, states) && EffectRun(env, acts, states) && Installed(env, states, acts, |acts|)
  {
    RunIsActRun(env, entries, acts, statuses, states);
  }

  /**
   At the end of such a run the place of a copied item holds its source as it was at the start, with the mode
   and the owner asked for, and the group too if the owner is not the process's own.
   */
  lemma {:induction false} CopyIsThere(env: Env, entries: seq<Entry>, acts: seq<Act>, statuses: seq<Status>,
                                       states: seq<FS>,
                                       i: nat, src: string, dst: string, uid: int, gid: int)
    requires CleanRun(env, entries, acts, statuses, states) && i < |entries| && Asked(env, entries[i], uid, gid)
    requires Translate(env, states[0], entries[i]) == Some(CopyTarget(src, dst))
    ensures Canon(env.cwd, src) in states[0] && states[0][Canon(env.cwd, src)].File?
    ensures At(states[|entries|], Canon(env.cwd, dst)) ==
              Some(File(states[0][Canon(env.cwd, src)].content, entries[i].perm & 0xFFF, uid,
                        if env.uid == uid then env.gid else gid))
  {
    CleanRunActs(env, entries, acts, statuses, states, i);
    AskedIsLookup(env, entries[i], uid, gid);
    FileLeft(env, acts, states, i);
  }

  /** The place of a link is below its directory, in the fake root if there is one, and holds the text declared. */
  lemma {:induction false} LinkIsThere(env: Env, entries: seq<Entry>, acts: seq<Act>, statuses: seq<Status>,
                                       states: seq<FS>, i: nat)
    requires CleanRun(env, entries, acts, statuses, states) && i < |entries| && entries[i].op.Symlink?
    ensures entries[i].src.Some? && entries[i].dst.Some? && entries[i].dir.Some?
    ensures var dir := Canon(env.cwd, RootedDir(env, entries[i].dir.value));
            At(states[|entries|], Canon(dir, entries[i].dst.value)) == Some(Link(entries[i].src.value))
  {
    CleanRunActs(env, entries, acts, statuses, states, i);
    LinkLeft(env, acts, states, i);
  }

  /** That of a library link has the suffix of shared libraries; it holds the source, or the name in a library file. */
  lemma {:induction false} LibraryLinkIsThere(env: Env, entries: seq<Entry>, acts: seq<Act>, statuses: seq<Status>,
                                              states: seq<FS>, i: nat)
    requires CleanRun(env, entries, acts, statuses, states) && i < |entries| && entries[i].op.Liblink?
    ensures entries[i].src.Some? && entries[i].dst.Some? && entries[i].dir.Some?
    ensures var e := entries[i];
            var dir := Canon(env.cwd, RootedDir(env, e.dir.value));
            var place := Canon(dir, Format(Basename(e.dst.value) + env.dlibSuffix));
            var file := Canon(env.cwd, e.src.value);
            if EndsWith(e.src.value, ".vlb") then
              && file in states[0] && states[0][file].File?
              && At(states[|entries|], place) == Some(Link(Basename(LibraryName(states[0][file].content))))
            else At(states[|entries|], place) == Some(Link(e.src.value))
  {
    CleanRunActs(env, entries, acts, statuses, states, i);
    LinkLeft(env, acts, states, i);
  }

  /**
   The place of a directory item that was missing holds a directory with the mode asked for, less the umask, and the
   owner and group, if the directory and all that its name passes through could be made.
   */
  lemma {:induction false} DirectoryIsThere(env: Env, entries: seq<Entry>, acts: seq<Act>, statuses: seq<Status>,
                                            states: seq<FS>,
                                            dirPerm: Mode, i: nat, uid: int, gid: int)
    requires CleanRun(env, entries, acts, statuses, states) && i < |entries| && Asked(env, entries[i], uid, gid)
    requires DirsFit(env, entries) && ModesAndOwnersOk(env, acts, dirPerm) && IsDir(states[0], env.cwd)
    requires entries[i].op.Mkdir? && entries[i].dir.Some? && i < |acts| && acts[i].PutDir?
    requires Canon(env.cwd, RootedDir(env, entries[i].dir.value)) !in states[0]
    requires DirPasses(env, acts, states[0], acts[i])
    ensures At(states[|entries|], Canon(env.cwd, RootedDir(env, entries[i].dir.value))) ==
              Some(Dir(entries[i].perm & 0x1FF & !env.umask, uid, gid))
  {
    CleanRunActs(env, entries, acts, statuses, states, i);
    AskedIsLookup(env, entries[i], uid, gid);
    ItemChains(env, states[0], entries, acts);
    DirLeft(env, acts, states, dirPerm, i);
  }

  /** Every directory that such a run makes has the mode that some directory item asks for, less the umask. */
  lemma {:induction false} NewDirectoryMode(env: Env, entries: seq<Entry>, acts: seq<Act>, statuses: seq<Status>,
                                            states: seq<FS>, p: Path)
    returns (k: nat)
    requires CleanRun(env, entries, acts, statuses, states) && |acts| == |entries| > 0
    requires IsDir(states[|entries|], p) && !IsDir(states[0], p)
    ensures k < |entries| && entries[k].op.Mkdir? && acts[k].PutDir? && Visits(acts[k].chain, p)
    ensures states[|entries|][p].mode == entries[k].perm & 0x1FF & !env.umask
  {
    CleanRunActs(env, entries, acts, statuses, states, 0);
    forall i | 0 <= i < |acts| ensures ModesOfStep(env, states[i], acts[i], states[i + 1], p) {
      StepModes(env, acts, states, i, p);
    }
    k := NewDirMode(env, acts, states, |acts|, p);
    CleanRunActs(env, entries, acts, statuses, states, k);
  }

  // --- Looking again ------------------------------------------------------------------------------------

  /**
   In the file system `later` the item's names are still the same, its source is as it was at the start, if it has
   one, nothing has put a directory in the place of a file, and looking leads over no link.
   */
  ghost predicate Comparable(env: Env, start: FS, later: FS, e: Entry, act: Act) {
    && LibraryThere(env, start, later, e)
    && match act
       case PutFile(src, _, dst, _, _, _) =>
         && Reached(later, src) && At(later, src.at) == At(start, src.at)
         && LinkFree(later, Followed(src) + Followed(dst)) && !IsDir(later, dst.at)
       case PutLink(_, _, gone, _) => LinkFree(later, gone.through)
       case PutDir(_, seen, _, _, _, _) => LinkFree(later, Followed(seen))
  }

  lemma {:induction false} ComparableIsPlain(env: Env, start: FS, later: FS, e: Entry, act: Act)
    requires Plan(env, start, e) == Some(act) && Comparable(env, start, later, e, act)
    ensures Plan(env, later, e) == Some(act) && CheckPlain(env, later, e)
  {
    SamePlan(env, start, later, e);
  }

  /** A copied item whose owner and mode can be set and seen. */
  ghost predicate Checked(env: Env, act: Act) {
    !act.PutLink? && CheckedMode(act.perm) && OwnerReachable(env, act)
  }

  /** The file that was left is not reached, or has another length, mode under octal 0755, owner or group. */
  ghost predicate FileChanged(was: FS, now: FS, r: Route)
    requires IsFile(At(was, r.at)) && (r.at in now ==> now[r.at].File?)
  {
    || !Reached(now, r) || r.at !in now
    || |now[r.at].content| != |was[r.at].content| || now[r.at].mode & 0x1ED != was[r.at].mode & 0x1ED
    || now[r.at].uid != was[r.at].uid || now[r.at].gid != was[r.at].gid
  }

  /** What was left has the length of the source, and the mode, owner and group that the act asks for. */
  ghost predicate LeftAsAsked(start: FS, end: FS, act: Act)
    requires act.PutFile?
  {
    && IsFile(At(start, act.src.at)) && IsFile(At(end, act.dst.at))
    && |end[act.dst.at].content| == |start[act.src.at].content|
    && end[act.dst.at].mode & 0x1ED == act.perm && end[act.dst.at].uid == act.uid && end[act.dst.at].gid == act.gid
  }

  lemma {:induction false} LooksAgain(env: Env, start: FS, end: FS, later: FS, e: Entry, src: string, dst: string,
                                      act: Act,
                                      status: Status, counted: bool)
    requires act.PutFile? && Asked(env, e, act.uid, act.gid) && e.perm == act.perm
    requires Translate(env, later, e) == Some(CopyTarget(src, dst)) && act.src == FileRoute(env.cwd, src)
    requires act.dst == FileRoute(env.cwd, dst)
    requires LeftAsAsked(start, end, act) && CheckPlain(env, later, e) && CheckStep(env, later, e, status, counted)
    requires Reached(later, act.src) && At(later, act.src.at) == At(start, act.src.at)
    requires act.dst.at in later ==> later[act.dst.at].File?
    ensures counted <==> FileChanged(end, later, act.dst)
    ensures status == if counted then ERROR else OK
  {
    FileCheckExactly(env, later, e, src, dst, act.uid, act.gid, status, counted);
  }

  lemma {:induction false} FileLeftAsAsked(env: Env, acts: seq<Act>, states: seq<FS>, i: nat)
    requires ActRun(env, acts, states) && EffectRun(env, acts, states) && NamesApart(acts) && NamesFree(acts, states[0])
    requires i < |acts| && acts[i].PutFile? && Checked(env, acts[i])
    ensures LeftAsAsked(states[0], states[|acts|], acts[i])
  {
    FileLeft(env, acts, states, i);
    FileModeChecks(acts[i].perm);
  }

  lemma {:induction false} PlannedCopy(env: Env, fs: FS, e: Entry, act: Act)
    requires Plan(env, fs, e) == Some(act) && act.PutFile?
    ensures var t := Translate(env, fs, e);
            && t.Some? && t.value.CopyTarget?
            && act.src == FileRoute(env.cwd, t.value.src) && act.dst == FileRoute(env.cwd, t.value.dst)
    ensures Asked(env, e, act.uid, act.gid) && e.perm == act.perm
  {
    AskedIsLookup(env, e, act.uid, act.gid);
  }

  lemma {:induction false} FileAgain(env: Env, start: FS, end: FS, later: FS, e: Entry, act: Act, status: Status,
                                     counted: bool)
    requires Plan(env, start, e) == Some(act) && act.PutFile? && LeftAsAsked(start, end, act)
    requires Comparable(env, start, later, e, act) && CheckStep(env, later, e, status, counted)
    ensures act.dst.at in later ==> later[act.dst.at].File?
    ensures counted <==> FileChanged(end, later, act.dst)
    ensures status == if counted then ERROR else OK
  {
    ComparableIsPlain(env, start, later, e, act);
    PlannedCopy(env, later, e, act);
    assert act.dst.at in Followed(act.dst);
    var t := Translate(env, later, e).value;
    LooksAgain(env, start, end, later, e, t.src, t.dst, act, status, counted);
  }

  /** After a clean run, whenever instchk looks at a copied item, it counts a failure exactly if the file has changed. */
  lemma {:induction false} ChangedFileIsCounted(env: Env, entries: seq<Entry>, acts: seq<Act>, statuses: seq<Status>,
                                                states: seq<FS>,
                                                i: nat, later: FS, status: Status, counted: bool)
    requires CleanRun(env, entries, acts, statuses, states) && i < |entries| == |acts| && acts[i].PutFile?
    requires Checked(env, acts[i])
    requires Comparable(env, states[0], later, entries[i], acts[i])
    requires CheckStep(env, later, entries[i], status, counted)
    ensures IsFile(At(states[|entries|], acts[i].dst.at)) && (acts[i].dst.at in later ==> later[acts[i].dst.at].File?)
    ensures counted <==> FileChanged(states[|entries|], later, acts[i].dst)
    ensures status == if counted then ERROR else OK
  {
    CleanRunActs(env, entries, acts, statuses, states, i);
    FileLeftAsAsked(env, acts, states, i);
    FileAgain(env, states[0], states[|entries|], later, entries[i], acts[i], status, counted);
  }

  /** What is in the place of a directory item is not reached or not as the item asks. */
  ghost predicate DirDiffers(now: FS, act: Act)
    requires act.PutDir? && !IsLink(now, act.seen.at)
  {
    || !Reached(now, act.seen) || act.seen.at !in now || now[act.seen.at].mode & 0x1ED != act.perm
    || now[act.seen.at].uid != act.uid || now[act.seen.at].gid != act.gid
  }

  lemma {:induction false} DirIsCounted(env: Env, entries: seq<Entry>, acts: seq<Act>, statuses: seq<Status>,
                                        states: seq<FS>,
                                        i: nat, later: FS, status: Status, counted: bool)
    requires CleanRun(env, entries, acts, statuses, states) && i < |entries| == |acts| && acts[i].PutDir?
    requires Comparable(env, states[0], later, entries[i], acts[i])
    requires CheckStep(env, later, entries[i], status, counted)
    ensures !IsLink(later, acts[i].seen.at) && (counted <==> DirDiffers(later, acts[i]))
    ensures status == if counted then ERROR else OK
  {
    var e, act := entries[i], acts[i];
    CleanRunActs(env, entries, acts, statuses, states, i);
    ComparableIsPlain(env, states[0], later, e, act);
    AskedIsLookup(env, e, act.uid, act.gid);
    DirCheckExactly(env, later, e, Translate(env, later, e).value.dir, act.uid, act.gid, status, counted);
    assert act.seen.at in Followed(act.seen);
  }

  /** Whether an item has stayed as instchk wants it. */
  ghost predicate Intact(end: FS, later: FS, act: Act) {
    match act
    case PutFile(_, _, dst, _, _, _) =>
      IsFile(At(end, dst.at)) && IsFile(At(later, dst.at)) && !FileChanged(end, later, dst)
    case PutDir(_, seen, _, _, _, _) => !IsLink(later, seen.at) && !DirDiffers(later, act)
    case PutLink(_, _, _, _) => true
  }

  lemma {:induction false} ItemIsCounted(env: Env, entries: seq<Entry>, acts: seq<Act>, statuses: seq<Status>,
                                         states: seq<FS>,
                                         i: nat, later: FS, status: Status, counted: bool)
    requires CleanRun(env, entries, acts, statuses, states) && i < |entries| == |acts| && Checked(env, acts[i])
    requires Comparable(env, states[0], later, entries[i], acts[i])
    requires CheckStep(env, later, entries[i], status, counted)
    ensures counted <==> !Intact(states[|entries|], later, acts[i])
    ensures status == if counted then ERROR else OK
  {
    if acts[i].PutFile? {
      ChangedFileIsCounted(env, entries, acts, statuses, states, i, later, status, counted);
    } else {
      DirIsCounted(env, entries, acts, statuses, states, i, later, status, counted);
    }
  }

  /**
   Install a table of copies and directories with every item reporting success, let others do what they like, and run
   instchk on a fresh copy of it: it counts exactly the items that are no longer as they were left or asked for,
   and so succeeds if and only if all of them still are.
   */
  lemma {:induction false} InstchkCountsChanges(env: Env, entries: seq<Entry>, acts: seq<Act>, statuses: seq<Status>,
                                                states: seq<FS>,
                                                later: FS, checks: seq<Status>, counted: seq<bool>)
    requires CleanRun(env, entries, acts, statuses, states) && |acts| == |entries|
    requires forall i :: 0 <= i < |acts| ==>
               Checked(env, acts[i]) && Comparable(env, states[0], later, entries[i], acts[i])
    requires CheckRun(env, later, entries, checks, counted, |entries|)
    ensures forall i :: 0 <= i < |entries| ==> (counted[i] <==> !Intact(states[|entries|], later, acts[i]))
    ensures Count(counted) == 0 <==> forall i :: 0 <= i < |acts| ==> Intact(states[|entries|], later, acts[i])
  {
    forall i | 0 <= i < |entries| ensures counted[i] <==> !Intact(states[|entries|], later, acts[i]) {
      assert CheckStep(env, later, entries[i], checks[i], counted[i]);
      ItemIsCounted(env, entries, acts, statuses, states, i, later, checks[i], counted[i]);
    }
  }

  /** One changed file is enough, whatever else the table holds: instchk counts a failure. */
  lemma {:induction false} OneChangedFile(env: Env, entries: seq<Entry>, acts: seq<Act>, statuses: seq<Status>,
                                          states: seq<FS>,
                                          i: nat, later: FS, checks: seq<Status>, counted: seq<bool>)
    requires CleanRun(env, entries, acts, statuses, states) && i < |entries| == |acts| && acts[i].PutFile?
    requires Checked(env, acts[i])
    requires Comparable(env, states[0], later, entries[i], acts[i])
    requires CheckRun(env, later, entries, checks, counted, |entries|)
    ensures IsFile(At(states[|entries|], acts[i].dst.at)) && (acts[i].dst.at in later ==> later[acts[i].dst.at].File?)
    ensures FileChanged(states[|entries|], later, acts[i].dst) ==>
              counted[i] && Count(counted) > 0 && checks[i] == ERROR
  {
    assert CheckStep(env, later, entries[i], checks[i], counted[i]);
    ChangedFileIsCounted(env, entries, acts, statuses, states, i, later, checks[i], counted[i]);
  }
}
