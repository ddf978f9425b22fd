/**
 The theorems about whole runs, for tables of items as they are declared.

 InstallRuns and InstallCheck speak of acts, whose names are settled. Here the names are translated
 anew by every call, in the file system of the moment, and come out the same each time.
 */
module WholeRuns {
  import opened Wrappers
  import opened Paths
  import opened FileSystem
  import opened Items
  import opened Chains
  import opened Steps
  import opened Engine
  import opened Drivers
  import opened InstallRuns
  import opened Strays
  import opened InstallCheck

  /** `acts` is what the items mean in the file system `fs`. */
  ghost predicate Settled(env: Env, fs: FS, entries: seq<Entry>, acts: seq<Act>) {
    |acts| == |entries| && forall i :: 0 <= i < |entries| ==> Plan(env, fs, entries[i]) == Some(acts[i])
  }

  /** No act writes or removes `p`. */
  ghost predicate OutOfReach(acts: seq<Act>, p: Path) {
    forall j :: 0 <= j < |acts| ==> Avoids(acts[j], p)
  }

  predicate Avoids(act: Act, p: Path) {
    Spot(act) != p && (act.PutFile? ==> act.tmp.at != p)
  }

  /** The library file of the route is there and no link, no act touches it, and nobody removes the directories on the way. */
  ghost predicate RouteApart(fs: FS, r: Route, acts: seq<Act>) {
    && Reached(fs, r) && r.at in fs && !IsLink(fs, r.at) && OutOfReach(acts, r.at)
    && forall q :: q in r.through ==> !IsItemDir(acts, q)
  }

  ghost predicate LibraryApart(env: Env, fs: FS, e: Entry, acts: seq<Act>) {
    forall r :: r in VirtualRoutes(env, e) ==> RouteApart(fs, r, acts)
  }

  /** The virtual library files that items name are there at the start, and the items leave them alone. */
  ghost predicate LibrariesApart(env: Env, fs: FS, entries: seq<Entry>, acts: seq<Act>) {
    forall i :: 0 <= i < |entries| ==> LibraryApart(env, fs, entries[i], acts)
  }

  ghost predicate AllOk(statuses: seq<Status>) {
    forall i :: 0 <= i < |statuses| ==> statuses[i] == OK
  }

  /** Every link is removed where it is created; Items.SamePath and Items.CutLink say when. */
  ghost predicate LinksSameWay(acts: seq<Act>) {
    forall i :: 0 <= i < |acts| ==> SameSpot(acts[i])
  }

  // --- What items mean does not change ------------------------------------------------------------

  /** The library files of an item are found as in `fs`, over no link. */
  ghost predicate LibraryThere(env: Env, fs: FS, now: FS, e: Entry) {
    forall r :: r in VirtualRoutes(env, e) ==> SameByRoute(now, fs, r) && LinkFree(now, Followed(r))
  }

  lemma {:induction false} SamePlan(env: Env, fs: FS, now: FS, e: Entry)
    requires LibraryThere(env, fs, now, e)
    ensures Translate(env, now, e) == Translate(env, fs, e) && Plan(env, now, e) == Plan(env, fs, e)
    ensures LibrariesPlain(env, now, e)
  {
    TranslateReadsVirtual(env, now, fs, e);
  }

  /** The first `n` items have been installed by the first `n` acts. */
  ghost predicate Installed(env: Env, states: seq<FS>, acts: seq<Act>, n: nat) {
    && n <= |acts| && |states| == |acts| + 1
    && (forall k :: 0 <= k < n ==> ActStep(env, states[k], acts[k], true, states[k + 1]))
    && Effects(env, acts, states, n)
    && LinksKnown(acts, states[0], states[n])
  }

  /** A library file is found as at the start while other items are being installed. */
  lemma {:induction false} RouteStays(env: Env, states: seq<FS>, acts: seq<Act>, n: nat, r: Route)
    requires |states| == |acts| + 1 && n <= |acts| && Effects(env, acts, states, n) && RouteApart(states[0], r, acts)
    ensures SameByRoute(states[n], states[0], r) && LinkFree(states[n], Followed(r))
    ensures Reached(states[n], r)
  {
    EntryStays(env, acts, states, 0, n, r.at);
    forall q | q in r.through ensures IsDir(states[n], q) {
      FirstDirStays(env, states, acts, n, q);
    }
  }

  lemma {:induction false} FirstDirStays(env: Env, states: seq<FS>, acts: seq<Act>, n: nat, p: Path)
    requires |states| == |acts| + 1 && n <= |acts| && Effects(env, acts, states, n) && IsDir(states[0], p)
    ensures IsDir(states[n], p)
  {
    if n > 0 {
      FirstDirStays(env, states, acts, n - 1, p);
      assert StepEffect(env, states[n - 1], acts[n - 1], states[n]);
    }
  }

  /** An item means the same while other items are being installed. */
  lemma {:induction false} PlanStays(env: Env, states: seq<FS>, acts: seq<Act>, n: nat, e: Entry)
    requires |states| == |acts| + 1 && n <= |acts| && Effects(env, acts, states, n) && LibraryApart(env, states[0], e, acts)
    ensures LibraryThere(env, states[0], states[n], e)
    ensures Translate(env, states[n], e) == Translate(env, states[0], e)
    ensures Plan(env, states[n], e) == Plan(env, states[0], e) && LibrariesPlain(env, states[n], e)
  {
    forall r | r in VirtualRoutes(env, e) ensures SameByRoute(states[n], states[0], r) && LinkFree(states[n], Followed(r)) {
      RouteStays(env, states, acts, n, r);
    }
    SamePlan(env, states[0], states[n], e);
  }

  lemma {:induction false} OneMoreInstalled(env: Env, states: seq<FS>, acts: seq<Act>, n: nat)
    requires n < |acts| && Installed(env, states, acts, n) && SameSpot(acts[n])
    requires ActStep(env, states[n], acts[n], true, states[n + 1])
    ensures Installed(env, states, acts, n + 1)
  {
    NextEffect(env, states[n], acts[n], states[n + 1]);
    OneMoreEffect(env, acts, states, n);
    LinksStayKnown(env, acts, states[0], states[n], acts[n], true, states[n + 1]);
  }

  /** What an act leads over is no link when its turn comes. */
  lemma {:induction false} NoLinkYet(acts: seq<Act>, start: FS, fs: FS, act: Act)
    requires NoLinksCrossed(acts, start) && LinksKnown(acts, start, fs) && act in acts
    ensures CrossesNoLink(fs, act)
  {
  }

  /** The next item takes the step of its act. */
  lemma {:induction false} StepOfAct(env: Env, fs: FS, e: Entry, act: Act, now: FS)
    requires Plan(env, fs, e) == Some(act) && LibrariesPlain(env, fs, e) && CrossesNoLink(fs, act)
    requires InstallStep(env, fs, e, OK, now)
    ensures ActStep(env, fs, act, true, now)
  {
  }

  lemma {:induction false} InstallNext(env: Env, states: seq<FS>, acts: seq<Act>, n: nat, e: Entry, act: Act)
    requires n < |acts| && Installed(env, states, acts, n) && act == acts[n] && SameSpot(act)
    requires Plan(env, states[0], e) == Some(act) && LibraryApart(env, states[0], e, acts)
    requires NoLinksCrossed(acts, states[0]) && InstallStep(env, states[n], e, OK, states[n + 1])
    ensures Installed(env, states, acts, n + 1)
  {
    PlanStays(env, states, acts, n, e);
    NoLinkYet(acts, states[0], states[n], act);
    StepOfAct(env, states[n], e, act, states[n + 1]);
    OneMoreInstalled(env, states, acts, n);
  }

  /** If every item reports success, the run is a run of the acts that the items mean at the start. */
  lemma {:induction false} RunIsActRun(env: Env, entries: seq<Entry>, acts: seq<Act>, statuses: seq<Status>, states: seq<FS>)
    requires InstallRun(env, entries, statuses, states) && AllOk(statuses) && TreeOk(states[0])
    requires Settled(env, states[0], entries, acts) && LibrariesApart(env, states[0], entries, acts)
    requires NoLinksCrossed(acts, states[0]) && LinksSameWay(acts)
    ensures ActRun(env, acts, states) && Installed(env, states, acts, |acts|)
  {
    var n := 0;
    while n < |entries|
      invariant 0 <= n <= |entries| && Installed(env, states, acts, n)
    {
      assert InstallStep(env, states[n], entries[n], statuses[n], states[n + 1]);
      assert Plan(env, states[0], entries[n]) == Some(acts[n]);
      InstallNext(env, states, acts, n, entries[n], acts[n]);
      n := n + 1;
    }
  }

  // --- Installing, then deinstalling ----------------------------------------------------------------

  /** No removal leads over what is a link when deinstalling begins. */
  ghost predicate RemovalsPlain(acts: seq<Act>, full: FS) {
    forall i :: 0 <= i < |acts| ==> LinkFree(full, Undo(acts[i]).way.through)
  }

  lemma {:induction false} RouteNotUndone(env: Env, fs: FS, acts: seq<Act>, now: FS, k: nat, r: Route)
    requires k <= |acts| && RouteApart(fs, r, acts) && SameByRoute(now, fs, r) && LinkFree(now, Followed(r))
    ensures SameByRoute(Undone(env, now, acts, k), fs, r) && LinkFree(Undone(env, now, acts, k), Followed(r))
  {
    UndoneShrinks(env, now, acts, k);
    OthersStay(env, now, acts, k, r.at);
    forall q | q in r.through ensures IsDir(Undone(env, now, acts, k), q) {
      assert IsDir(now, q);
      KindsStay(env, now, acts, k, q);
    }
  }

  lemma {:induction false} LibraryNotUndone(env: Env, fs: FS, acts: seq<Act>, now: FS, k: nat, e: Entry)
    requires k <= |acts| && LibraryApart(env, fs, e, acts) && LibraryThere(env, fs, now, e)
    ensures LibraryThere(env, fs, Undone(env, now, acts, k), e)
  {
    forall r | r in VirtualRoutes(env, e)
      ensures SameByRoute(Undone(env, now, acts, k), fs, r) && LinkFree(Undone(env, now, acts, k), Followed(r))
    {
      RouteNotUndone(env, fs, acts, now, k, r);
    }
  }

  /** Removing an item is undoing its act. */
  lemma {:induction false} DeinstallIsUndo(env: Env, fs: FS, e: Entry, act: Act, now: FS, next: FS)
    requires Plan(env, fs, e) == Some(act) && LibraryThere(env, fs, now, e) && LinkFree(now, Undo(act).way.through)
    requires DeinstallStep(env, now, e, next)
    ensures next == Remove(env, now, Undo(act))
  {
    SamePlan(env, fs, now, e);
    RemovalUndoes(env, now, e);
  }

  /** Deinstalling the item `e` undoes `act`, now and after any of the removals that begin at `start`. */
  ghost predicate Undoable(env: Env, fs: FS, acts: seq<Act>, start: FS, e: Entry, act: Act) {
    && Plan(env, fs, e) == Some(act) && LinkFree(start, Undo(act).way.through)
    && LibraryApart(env, fs, e, acts) && LibraryThere(env, fs, start, e)
  }

  ghost predicate AllUndoable(env: Env, fs: FS, acts: seq<Act>, start: FS, entries: seq<Entry>) {
    |entries| == |acts| && forall i :: 0 <= i < |acts| ==> Undoable(env, fs, acts, start, entries[i], acts[i])
  }

  lemma {:induction false} UndoNext(env: Env, fs: FS, acts: seq<Act>, start: FS, i: nat, e: Entry, next: FS)
    requires i < |acts| && Undoable(env, fs, acts, start, e, acts[i])
    requires DeinstallStep(env, Undone(env, start, acts, i + 1), e, next)
    ensures next == Undone(env, start, acts, i)
  {
    LibraryNotUndone(env, fs, acts, start, i + 1, e);
    UndoneShrinks(env, start, acts, i + 1);
    DeinstallIsUndo(env, fs, e, acts[i], Undone(env, start, acts, i + 1), next);
  }

  /** From `s` the item leads to `t` and nowhere else. */
  ghost predicate Only<S(!new), E>(step: (S, E, S) -> bool, s: S, e: E, t: S) {
    forall u :: step(s, e, u) ==> u == t
  }

  /** A run through the items from the last to the first goes where every step must. */
  lemma {:induction false} SameBackwards<S(!new), E>(step: (S, E, S) -> bool, items: seq<E>, run: seq<S>, other: seq<S>, k: nat)
    requires |run| == |items| + 1 == |other| && k <= |items|
    requires forall j :: 0 <= j < |items| ==> step(run[j], items[|items| - 1 - j], run[j + 1])
    requires forall i :: 0 <= i < |items| ==> Only(step, other[i + 1], items[i], other[i])
    requires run[0] == other[|items|]
    ensures run[k] == other[|items| - k]
  {
    if k > 0 {
      SameBackwards(step, items, run, other, k - 1);
      assert step(run[k - 1], items[|items| - k], run[k]);
      assert Only(step, other[|items| - k + 1], items[|items| - k], other[|items| - k]);
    }
  }

  lemma {:induction false} UndoOnly(step: (FS, Entry, FS) -> bool, env: Env, fs: FS, acts: seq<Act>, start: FS, i: nat, e: Entry)
    requires forall s, t :: step(s, e, t) ==> DeinstallStep(env, s, e, t)
    requires i < |acts| && Undoable(env, fs, acts, start, e, acts[i])
    ensures Only(step, Undone(env, start, acts, i + 1), e, Undone(env, start, acts, i))
  {
    var before := Undone(env, start, acts, i + 1);
    forall u | step(before, e, u) ensures u == Undone(env, start, acts, i) {
      UndoNext(env, fs, acts, start, i, e, u);
    }
  }

  /** A run of the deinstaller undoes the acts from the last to the first. */
  lemma {:induction false} DeinstallUndoes(env: Env, fs: FS, acts: seq<Act>, entries: seq<Entry>, removals: seq<FS>)
    requires DeinstallRun(env, entries, removals) && AllUndoable(env, fs, acts, removals[0], entries)
    ensures removals[|entries|] == Undone(env, removals[0], acts, 0)
  {
    var n := |entries|;
    var undone := seq(n + 1, i requires 0 <= i <= n => Undone(env, removals[0], acts, i));
    ghost var step := (s, e, t) => DeinstallStep(env, s, e, t);
    forall i | 0 <= i < n ensures Only(step, undone[i + 1], entries[i], undone[i]) {
      UndoOnly(step, env, fs, acts, removals[0], i, entries[i]);
    }
    SameBackwards(step, entries, removals, undone, n);
  }

  /** Entries that somebody adds do not change what is found of a library. */
  lemma {:induction false} LibraryStays(env: Env, states: seq<FS>, acts: seq<Act>, extra: FS, e: Entry)
    requires Installed(env, states, acts, |acts|) && LibraryApart(env, states[0], e, acts)
    requires extra.Keys !! states[|acts|].Keys
    ensures LibraryThere(env, states[0], states[|acts|] + extra, e)
  {
    var n := |acts|;
    forall r | r in VirtualRoutes(env, e)
      ensures SameByRoute(states[n] + extra, states[0], r) && LinkFree(states[n] + extra, Followed(r))
    {
      RouteStays(env, states, acts, n, r);
      AddedApart(states[n], extra, r);
    }
  }

  lemma {:induction false} AddedApart(fs: FS, extra: FS, r: Route)
    requires extra.Keys !! fs.Keys && Reached(fs, r) && r.at in fs && LinkFree(fs, Followed(r))
    ensures SameByRoute(fs + extra, fs, r) && LinkFree(fs + extra, Followed(r))
  {
    forall p | p in Followed(r) ensures p in fs && p !in extra {
      assert p in fs.Keys;
    }
  }

  lemma {:induction false} RunsUndo(env: Env, entries: seq<Entry>, acts: seq<Act>, states: seq<FS>, extra: FS, removals: seq<FS>)
    requires Installed(env, states, acts, |acts|)
    requires Settled(env, states[0], entries, acts) && LibrariesApart(env, states[0], entries, acts)
    requires extra.Keys !! states[|acts|].Keys
    requires DeinstallRun(env, entries, removals) && removals[0] == states[|acts|] + extra && RemovalsPlain(acts, removals[0])
    ensures removals[|entries|] == Undone(env, removals[0], acts, 0)
  {
    forall i | 0 <= i < |entries| ensures Undoable(env, states[0], acts, removals[0], entries[i], acts[i]) {
      LibraryStays(env, states, acts, extra, entries[i]);
      assert Plan(env, states[0], entries[i]) == Some(acts[i]);
    }
    DeinstallUndoes(env, states[0], acts, entries, removals);
  }

  /** Items, what they mean, and a run of the installer in which each reports success and none leads over a link. */
  ghost predicate GoodRun(env: Env, entries: seq<Entry>, acts: seq<Act>, statuses: seq<Status>, states: seq<FS>) {
    && InstallRun(env, entries, statuses, states) && AllOk(statuses) && TreeOk(states[0])
    && Settled(env, states[0], entries, acts) && LibrariesApart(env, states[0], entries, acts)
    && NoLinksCrossed(acts, states[0])
  }

  /**
   Run the installer with every item reporting success, let others add entries, and run the
   deinstaller on a fresh copy of the table.
   */
  lemma {:induction false} InstallerThenDeinstaller(env: Env, entries: seq<Entry>, acts: seq<Act>, statuses: seq<Status>,
                                                    states: seq<FS>, extra: FS, removals: seq<FS>)
    requires GoodRun(env, entries, acts, statuses, states) && LinksSameWay(acts)
    requires ExtraOk(env, acts, states[|acts|], extra)
    requires DeinstallRun(env, entries, removals) && removals[0] == states[|acts|] + extra && RemovalsPlain(acts, removals[0])
    requires Restorable(env, acts, states[0], extra, removals[0])
    ensures Restored(env, acts, states[0], extra, removals[0], removals[|entries|])
  {
    RunIsActRun(env, entries, acts, statuses, states);
    RunsUndo(env, entries, acts, states, extra, removals);
    InstallThenDeinstall(env, acts, states, extra);
  }

  /** The same where no name has ".." in it: it is enough that the visited directories are accounted for by name. */
  lemma {:induction false} StraightRoundTrip(env: Env, entries: seq<Entry>, acts: seq<Act>, statuses: seq<Status>,
                                             states: seq<FS>, extra: FS, removals: seq<FS>)
    requires GoodRun(env, entries, acts, statuses, states) && LinksSameWay(acts)
    requires ExtraOk(env, acts, states[|acts|], extra)
    requires DeinstallRun(env, entries, removals) && removals[0] == states[|acts|] + extra && RemovalsPlain(acts, removals[0])
    requires LinkWays(acts) && WaysStraight(acts, states[0]) && VisitsCovered(acts, states[0])
    ensures Restored(env, acts, states[0], extra, removals[0], removals[|entries|])
  {
    RunIsActRun(env, entries, acts, statuses, states);
    StraightNamesRestore(env, acts, states, extra);
    InstallerThenDeinstaller(env, entries, acts, statuses, states, extra, removals);
  }

  /** With nothing added in between, the two runs restore everything if and only if it is restorable. */
  lemma {:induction false} RoundTripExactly(env: Env, entries: seq<Entry>, acts: seq<Act>, statuses: seq<Status>,
                                            states: seq<FS>, removals: seq<FS>)
    requires GoodRun(env, entries, acts, statuses, states) && LinksSameWay(acts)
    requires DeinstallRun(env, entries, removals) && removals[0] == states[|acts|] && RemovalsPlain(acts, removals[0])
    ensures Restored(env, acts, states[0], map[], removals[0], removals[|entries|]) <==>
              Restorable(env, acts, states[0], map[], states[|acts|])
  {
    RunIsActRun(env, entries, acts, statuses, states);
    assert states[|acts|] + map[] == states[|acts|];
    RunsUndo(env, entries, acts, states, map[], removals);
    RestoredExactly(env, acts, states);
  }

  /** The directories that the items visit form trails from the root or the working directory. */
  lemma {:induction false} ItemTrails(env: Env, fs: FS, entries: seq<Entry>, acts: seq<Act>)
    requires Settled(env, fs, entries, acts)
    ensures TrailsOk(env, acts)
  {
    forall i | 0 <= i < |acts| && acts[i].PutDir? ensures TrailOk(env.cwd, acts[i]) {
      assert Plan(env, fs, entries[i]) == Some(acts[i]);
      DirTrail(env, RootedDir(env, entries[i].dir.value), acts[i]);
    }
  }

  lemma {:induction false} DirTrail(env: Env, dir: string, act: Act)
    requires |dir| < MAX_PATHLEN && act.PutDir?
    requires act.chain == Routes(env.cwd, MkdirStrings(dir)) && act.gone == DirRoute(env.cwd, dir)
    ensures TrailOk(env.cwd, act)
  {
    MkdirStringsTrail(env.cwd, dir);
    PassedAreVisited(env.cwd, dir);
    assert Start(env.cwd, dir) == [] || Start(env.cwd, dir) == env.cwd;
  }

  /**
   With nothing added in between, no mkdir blocked, no destination a temporary name and no directory beside a
   removal's place taken before it: the two runs restore everything if and only if every visited path is covered.
   */
  lemma {:induction false} RoundTripByName(env: Env, entries: seq<Entry>, acts: seq<Act>, statuses: seq<Status>,
                                           states: seq<FS>, removals: seq<FS>)
    requires GoodRun(env, entries, acts, statuses, states) && LinksSameWay(acts) && LinkWays(acts)
    requires IsDir(states[0], env.cwd) && NoVisitBlocked(env, acts, states[0]) && DestinationsKept(acts) && WaysKept(acts)
    requires DeinstallRun(env, entries, removals) && removals[0] == states[|acts|] && RemovalsPlain(acts, removals[0])
    ensures Restored(env, acts, states[0], map[], removals[0], removals[|entries|]) <==> VisitsCovered(acts, states[0])
  {
    RunIsActRun(env, entries, acts, statuses, states);
    assert states[|acts|] + map[] == states[|acts|];
    RunsUndo(env, entries, acts, states, map[], removals);
    ItemTrails(env, states[0], entries, acts);
    AccountsExactly(env, acts, states);
  }

  // --- Installing, then checking --------------------------------------------------------------------

  /** The string of a directory item is not empty and, with a slash added, fits the path buffer. */
  ghost predicate DirsFit(env: Env, entries: seq<Entry>) {
    forall i :: 0 <= i < |entries| && entries[i].op.Mkdir? && entries[i].dir.Some? ==>
      RootedDir(env, entries[i].dir.value) != "" && FitsWithSlash(RootedDir(env, entries[i].dir.value))
  }

  /** Directory items that fit get to their directories. */
  lemma {:induction false} ItemChains(env: Env, fs: FS, entries: seq<Entry>, acts: seq<Act>)
    requires Settled(env, fs, entries, acts) && DirsFit(env, entries)
    ensures ChainsOk(env, acts)
  {
    ItemTrails(env, fs, entries, acts);
    forall i | 0 <= i < |acts| && acts[i].PutDir? ensures ChainOk(env, acts[i]) {
      assert Plan(env, fs, entries[i]) == Some(acts[i]);
      DirChain(env, RootedDir(env, entries[i].dir.value), acts[i]);
    }
  }

  lemma {:induction false} DirChain(env: Env, dir: string, act: Act)
    requires dir != "" && FitsWithSlash(dir) && act.PutDir? && TrailOk(env.cwd, act)
    requires act.chain == Routes(env.cwd, MkdirStrings(dir))
    requires act.gone == DirRoute(env.cwd, dir) && act.seen == FileRoute(env.cwd, dir)
    ensures ChainOk(env, act)
  {
    ArgumentIsVisited(env.cwd, dir);
  }

  /** Whether the check of an item succeeds, judged by the start: a file always does. */
  ghost predicate Passes(env: Env, acts: seq<Act>, fs: FS, act: Act) {
    act.PutDir? ==> DirPasses(env, acts, fs, act)
  }

  /** The check of a file or directory leads over no link. */
  lemma {:induction false} CheckIsPlain(env: Env, fs: FS, e: Entry, act: Act)
    requires Plan(env, fs, e) == Some(act) && !act.PutLink? && LibrariesPlain(env, fs, e) && CrossesNoLink(fs, act)
    requires act.PutFile? ==> !IsLink(fs, act.dst.at)
    ensures CheckPlain(env, fs, e)
  {
    if act.PutFile? {
      assert forall p :: p in Followed(act.src) || p in act.dst.through ==> Crosses(act, p) && !IsLink(fs, p);
    } else {
      assert forall p :: p in Followed(act.seen) ==> Crosses(act, p) && !IsLink(fs, p);
    }
  }

  /** What instchk says of one item. */
  lemma {:induction false} ItemChecks(env: Env, fs: FS, e: Entry, act: Act, status: Status, counted: bool)
    requires Plan(env, fs, e) == Some(act) && !act.PutLink? && CheckPlain(env, fs, e) && CheckStep(env, fs, e, status, counted)
    requires act.PutFile? ==> ActChecks(fs, act)
    requires act.PutDir? ==> CrossesNoLink(fs, act)
    ensures status == OK <==> ActChecks(fs, act)
    ensures (counted <==> status == ERROR) && status != FATAL
  {
    if act.PutDir? { assert Crosses(act, act.seen.at) && !IsLink(fs, act.seen.at); }
  }

  /**
   Run the installer with every item reporting success, then instchk on a fresh copy of the table.
   A file always passes; a new directory passes if and only if it and all that its name passes through were
   passable, one whose place was taken if and only if the way to it was and what was there has the mode and
   gets or has the owner; and instchk succeeds, that is, counts no failure, if and only if that holds of every
   directory.
   */
  lemma {:induction false} InstallerThenCheck(env: Env, entries: seq<Entry>, acts: seq<Act>, statuses: seq<Status>, states: seq<FS>,
                                              dirPerm: Mode, checks: seq<Status>, counted: seq<bool>)
    requires GoodRun(env, entries, acts, statuses, states) && DirsFit(env, entries)
    requires forall i :: 0 <= i < |acts| ==> !acts[i].PutLink?
    requires NamesApart(acts) && NamesFree(acts, states[0]) && ModesAndOwnersOk(env, acts, dirPerm) && IsDir(states[0], env.cwd)
    requires CheckRun(env, states[|entries|], entries, checks, counted, |entries|)
    ensures forall i :: 0 <= i < |entries| ==> (checks[i] == OK <==> Passes(env, acts, states[0], acts[i]))
    ensures Count(counted) == 0 <==> forall i :: 0 <= i < |acts| ==> Passes(env, acts, states[0], acts[i])
  {
    NoLinksSameWay(env, states[0], entries, acts);
    RunIsActRun(env, entries, acts, statuses, states);
    ItemChains(env, states[0], entries, acts);
    InstallThenCheck(env, acts, states, dirPerm);
    forall i | 0 <= i < |entries|
      ensures checks[i] == OK <==> Passes(env, acts, states[0], acts[i])
      ensures counted[i] <==> checks[i] == ERROR
      ensures checks[i] != FATAL
    {
      CheckAtEnd(env, entries[i], acts, states, i, checks[i], counted[i]);
    }
  }

  lemma {:induction false} CheckAtEnd(env: Env, e: Entry, acts: seq<Act>, states: seq<FS>, i: nat, status: Status, counted: bool)
    requires i < |acts| && Installed(env, states, acts, |acts|) && NoLinksCrossed(acts, states[0]) && !acts[i].PutLink?
    requires Plan(env, states[0], e) == Some(acts[i]) && LibraryApart(env, states[0], e, acts)
    requires CheckStep(env, states[|acts|], e, status, counted)
    requires acts[i].PutFile? ==> ActChecks(states[|acts|], acts[i])
    ensures status == OK <==> ActChecks(states[|acts|], acts[i])
    ensures (counted <==> status == ERROR) && status != FATAL
  {
    var end := states[|acts|];
    PlanStays(env, states, acts, |acts|, e);
    NoLinkYet(acts, states[0], end, acts[i]);
    CheckIsPlain(env, end, e, acts[i]);
    ItemChecks(env, end, e, acts[i], status, counted);
  }

  /** Files and directories are undone where they are put. */
  lemma {:induction false} NoLinksSameWay(env: Env, fs: FS, entries: seq<Entry>, acts: seq<Act>)
    requires Settled(env, fs, entries, acts) && forall i :: 0 <= i < |acts| ==> !acts[i].PutLink?
    ensures LinksSameWay(acts)
  {
    forall i | 0 <= i < |acts| ensures SameSpot(acts[i]) {
      assert Plan(env, fs, entries[i]) == Some(acts[i]);
      PlanSpot(env, fs, entries[i]);
    }
  }

  lemma {:induction false} PlanSpot(env: Env, fs: FS, e: Entry)
    requires Plan(env, fs, e).Some? && !Plan(env, fs, e).value.PutLink?
    ensures SameSpot(Plan(env, fs, e).value)
  {
  }
}
