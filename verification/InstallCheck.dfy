/**
 Installing and then checking.

 After an installation in which every item reports success, the check of every file succeeds. The
 check of a directory succeeds exactly when all that its name passes through - also beside its path, as ".."
 makes possible - was a directory or could be made one, and so could a new directory itself: a mkdir that
 fails is not reported by the installer. That of an old one depends on its mode and owner besides.
 */
module InstallCheck {
  import opened Paths
  import opened FileSystem
  import opened Chains
  import opened Steps
  import opened InstallRuns
  import opened Strays

  /** The installer can give the act the owner and group it asks for. */
  predicate OwnerReachable(env: Env, act: Act)
    requires !act.PutLink?
  {
    (act.uid == env.uid && act.gid == env.gid) || (env.uid == 0 && act.uid != 0)
  }

  predicate CheckedMode(perm: Mode) {
    perm & CHECKED_MODE == perm
  }

  /** No act's target is another's, or anybody's source or temporary name. */
  ghost predicate NamesApart(acts: seq<Act>) {
    && (forall i, j :: 0 <= i < j < |acts| ==> Spot(acts[i]) != Spot(acts[j]))
    && (forall i, j :: 0 <= i < |acts| && 0 <= j < |acts| && acts[i].PutFile? ==>
          acts[i].src.at != Spot(acts[j]) && acts[i].tmp.at != Spot(acts[j]))
    && (forall i, j :: 0 <= i < |acts| && 0 <= j < |acts| && acts[i].PutFile? && acts[j].PutFile? ==>
          acts[i].src.at != acts[j].tmp.at)
  }

  /** Temporary names are free at the start. */
  ghost predicate NamesFree(acts: seq<Act>, fs: FS) {
    forall i :: 0 <= i < |acts| && acts[i].PutFile? ==> acts[i].tmp.at !in fs
  }

  /** Modes that instchk can see, one of them for all directories, and owners that can be set. */
  ghost predicate ModesAndOwnersOk(env: Env, acts: seq<Act>, dirPerm: Mode) {
    && env.umask & CHECKED_MODE == 0
    && (forall i :: 0 <= i < |acts| && !acts[i].PutLink? ==> CheckedMode(acts[i].perm) && OwnerReachable(env, acts[i]))
    && (forall i :: 0 <= i < |acts| && acts[i].PutDir? ==> acts[i].perm == dirPerm)
  }

  /** The last visit of a directory item is to its own directory, which it is looked at by the same way. */
  ghost predicate ChainOk(env: Env, act: Act)
    requires act.PutDir?
  {
    && TrailOk(env.cwd, act) && EndsWithRoute(act.chain, act.gone)
    && act.seen.named && act.gone.through <= act.seen.through <= act.gone.through + {Spot(act)}
  }

  ghost predicate ChainsOk(env: Env, acts: seq<Act>) {
    forall i :: 0 <= i < |acts| && acts[i].PutDir? ==> ChainOk(env, acts[i])
  }

  ghost predicate Checkable(env: Env, acts: seq<Act>, fs: FS, dirPerm: Mode) {
    && NamesApart(acts) && NamesFree(acts, fs) && ModesAndOwnersOk(env, acts, dirPerm) && ChainsOk(env, acts)
    && IsDir(fs, env.cwd)
  }

  // --- Modes ----------------------------------------------------------------------------------------

  lemma {:induction false} FileModeChecks(perm: Mode)
    requires CheckedMode(perm)
    ensures (perm & FULL_MODE) & CHECKED_MODE == perm
  {
  }

  lemma {:induction false} DirModeChecks(perm: Mode, umask: Mode)
    requires CheckedMode(perm) && umask & CHECKED_MODE == 0
    ensures (perm & ACCESS_MODE & !umask) & CHECKED_MODE == perm
  {
  }

  // --- What stays -----------------------------------------------------------------------------------

  /** What an act has put at its target is still there at the end. */
  lemma {:induction false} TargetStays(env: Env, acts: seq<Act>, states: seq<FS>, i: nat)
    requires EffectRun(env, acts, states) && NamesApart(acts) && i < |acts|
    requires Spot(acts[i]) in states[i + 1]
    ensures Spot(acts[i]) in states[|acts|]
    ensures states[|acts|][Spot(acts[i])] == states[i + 1][Spot(acts[i])]
  {
    EntryStays(env, acts, states, i + 1, |acts|, Spot(acts[i]));
  }

  lemma {:induction false} NotPlaced(acts: seq<Act>, i: nat)
    requires NamesApart(acts) && i < |acts|
    ensures acts[i].PutFile? ==> !IsPlaced(acts, acts[i].src.at) && !IsTemporary(acts, acts[i].src.at) && !IsPlaced(acts, acts[i].tmp.at)
    ensures acts[i].PutDir? ==> !IsPlaced(acts, Spot(acts[i]))
  {
  }

  /** A source is the same file from start to end. */
  lemma {:induction false} SourceStays(env: Env, acts: seq<Act>, states: seq<FS>, i: nat)
    requires ActRun(env, acts, states) && EffectRun(env, acts, states) && NamesApart(acts) && NamesFree(acts, states[0])
    requires i < |acts| && acts[i].PutFile?
    ensures IsLeaf(states[0], acts[i].src.at) && states[0][acts[i].src.at].File?
    ensures acts[i].src.at in states[i] && states[i][acts[i].src.at] == states[0][acts[i].src.at]
    ensures acts[i].src.at in states[|acts|] && states[|acts|][acts[i].src.at] == states[0][acts[i].src.at]
  {
    var src := acts[i].src.at;
    NotPlaced(acts, i);
    assert ActStep(env, states[i], acts[i], true, states[i + 1]);
    if !IsLeaf(states[0], src) {
      var k := WhoPlaced(env, acts, states, 0, i, src);
      assert IsPlaced(acts, src);
    }
    LeavesStay(env, acts, states, i, src);
    LeavesStay(env, acts, states, |acts|, src);
  }

  // --- Files ----------------------------------------------------------------------------------------

  lemma {:induction false} TemporaryFree(env: Env, acts: seq<Act>, states: seq<FS>, i: nat)
    requires ActRun(env, acts, states) && EffectRun(env, acts, states) && NamesApart(acts) && NamesFree(acts, states[0])
    requires i < |acts| && acts[i].PutFile?
    ensures acts[i].tmp.at !in states[i]
  {
    NotPlaced(acts, i);
    assert ActStep(env, states[i], acts[i], true, states[i + 1]);
    assert acts[i].tmp.at !in states[0];
    if acts[i].tmp.at in states[i] {
      var k := WhoPlaced(env, acts, states, 0, i, acts[i].tmp.at);
      assert IsPlaced(acts, acts[i].tmp.at);
    }
  }

  lemma {:induction false} WayStays(env: Env, acts: seq<Act>, states: seq<FS>, i: nat, r: Route)
    requires EffectRun(env, acts, states) && i < |states| && Reached(states[i], r)
    ensures Reached(states[|acts|], r)
  {
    forall p | p in r.through ensures IsDir(states[|acts|], p) {
      DirsStay(env, acts, states, i, |acts|, p);
    }
  }

  /** Every installed file passes its check at the end. */
  lemma {:induction false} FilesCheck(env: Env, acts: seq<Act>, states: seq<FS>, dirPerm: Mode, i: nat)
    requires ActRun(env, acts, states) && EffectRun(env, acts, states) && Checkable(env, acts, states[0], dirPerm)
    requires i < |acts| && acts[i].PutFile?
    ensures ActChecks(states[|acts|], acts[i])
  {
    var act := acts[i];
    assert ActStep(env, states[i], act, true, states[i + 1]);
    SourceStays(env, acts, states, i);
    TemporaryFree(env, acts, states, i);
    TargetStays(env, acts, states, i);
    FileModeChecks(act.perm);
    assert act.src.at != act.tmp.at;
    assert CheckedMode(act.perm) && OwnerReachable(env, act);
    WayStays(env, acts, states, i, act.src);
    WayStays(env, acts, states, i, act.dst);
  }

  // --- Directories ----------------------------------------------------------------------------------

  /** A directory that a step makes on the way to another one has the process's owner and the shared mode. */
  lemma {:induction false} MadeOnTheWay(env: Env, fs: FS, act: Act, now: FS, p: Path)
    requires TreeOk(fs) && act.PutDir? && SameSpot(act) && ActStep(env, fs, act, true, now)
    requires p in now && p !in fs && p != Spot(act)
    ensures now[p] == NewDir(env, act.perm)
  {
    MkDirsFrame(env, fs, act.chain, NewDir(env, act.perm));
  }

  /** Until its own item comes, the directory of an item is absent or as fresh as mkdir made it. */
  lemma {:induction false} DirBefore(env: Env, acts: seq<Act>, states: seq<FS>, dirPerm: Mode, i: nat, m: nat)
    requires ActRun(env, acts, states) && EffectRun(env, acts, states) && Checkable(env, acts, states[0], dirPerm)
    requires m <= i < |acts| && acts[i].PutDir? && Spot(acts[i]) !in states[0]
    ensures Spot(acts[i]) in states[m] ==> states[m][Spot(acts[i])] == NewDir(env, dirPerm)
  {
    var at := Spot(acts[i]);
    if m == 0 {
      assert at !in states[0];
    } else {
      DirBefore(env, acts, states, dirPerm, i, m - 1);
      var act := acts[m - 1];
      assert StepEffect(env, states[m - 1], act, states[m]);
      assert ActStep(env, states[m - 1], act, true, states[m]);
      assert Spot(act) != at;
      if at in states[m] && at !in states[m - 1] {
        assert !IsLeaf(states[m], at);
        MadeOnTheWay(env, states[m - 1], act, states[m], at);
      }
    }
  }

  /** What the item of a directory asks for. */
  predicate AsAsked(node: Node, act: Act)
    requires act.PutDir?
  {
    ModeAndOwnerAre(node, act.perm, act.uid, act.gid)
  }

  /** Right after its item, a directory that exists is as the item asked. */
  lemma {:induction false} DirAfter(env: Env, acts: seq<Act>, states: seq<FS>, dirPerm: Mode, i: nat)
    requires ActRun(env, acts, states) && EffectRun(env, acts, states) && Checkable(env, acts, states[0], dirPerm)
    requires i < |acts| && acts[i].PutDir? && Spot(acts[i]) !in states[0] && Spot(acts[i]) in states[i + 1]
    ensures AsAsked(states[i + 1][Spot(acts[i])], acts[i])
    ensures states[i + 1][Spot(acts[i])] == Dir(acts[i].perm & ACCESS_MODE & !env.umask, acts[i].uid, acts[i].gid)
  {
    var act, at := acts[i], Spot(acts[i]);
    var node := NewDir(env, act.perm);
    DirBefore(env, acts, states, dirPerm, i, i);
    assert ActStep(env, states[i], act, true, states[i + 1]) && SameSpot(act);
    MkDirsFrame(env, states[i], act.chain, node);
    var made := MkDirs(env, states[i], act.chain, node);
    assert At(made, at) == At(states[i], at) || made[at] == node;
    assert made[at] == node;
    assert OwnerReachable(env, act) && CheckedMode(act.perm);
    DirModeChecks(act.perm, env.umask);
  }

  lemma {:induction false} PlacedIsLeaf(env: Env, acts: seq<Act>, states: seq<FS>, p: Path)
    requires EffectRun(env, acts, states) && NamesApart(acts) && IsPlaced(acts, p)
    ensures IsLeaf(states[|acts|], p)
  {
    var k :| 0 <= k < |acts| && !acts[k].PutDir? && Spot(acts[k]) == p;
    assert StepEffect(env, states[k], acts[k], states[k + 1]);
    TargetStays(env, acts, states, k);
  }

  lemma {:induction false} NotTemporary(acts: seq<Act>, fs: FS, p: Path)
    requires NamesFree(acts, fs) && p in fs
    ensures !IsTemporary(acts, p)
  {
  }

  /** `p` is a directory or can be made one, and no item puts anything else there. */
  ghost predicate StaysPassable(env: Env, acts: seq<Act>, fs: FS, p: Path) {
    Open(env, fs, p) && !IsPlaced(acts, p)
  }

  /** What is a directory at the end was open at the start. */
  lemma {:induction false} DirWasOpen(env: Env, acts: seq<Act>, states: seq<FS>, p: Path)
    requires EffectRun(env, acts, states) && NamesApart(acts) && NamesFree(acts, states[0])
    requires IsDir(states[|acts|], p)
    ensures StaysPassable(env, acts, states[0], p)
  {
    if IsPlaced(acts, p) { PlacedIsLeaf(env, acts, states, p); }
    if !IsDir(states[0], p) {
      var k := WhoMadeDir(env, acts, states, 0, |acts|, p);
      if IsLeaf(states[0], p) {
        NotTemporary(acts, states[0], p);
        LeavesStay(env, acts, states, |acts|, p);
      }
    }
  }

  /** The step of a directory item gets to its directory if all that the name passes through is open. */
  lemma {:induction false} StepGetsThere(env: Env, fs: FS, act: Act, now: FS)
    requires TreeOk(fs) && IsDir(fs, env.cwd) && act.PutDir? && ActStep(env, fs, act, true, now) && ChainOk(env, act)
    requires forall p :: p in act.gone.through ==> Open(env, fs, p)
    ensures forall p :: p in act.gone.through ==> IsDir(now, p)
    ensures Open(env, fs, Spot(act)) ==> IsDir(now, Spot(act))
  {
    var node, n := NewDir(env, act.perm), |act.chain| - 1;
    var start := TrailStart(env.cwd, act);
    LastIsReached(env, fs, start, act.chain, node);
    FirstDirsStay(env, fs, act.chain, n, node);
    assert act.chain[n] == act.gone;
  }

  /** The name of a directory item leads somewhere at the end exactly if all that it passes through stayed passable. */
  lemma {:induction false} WayAtEnd(env: Env, acts: seq<Act>, states: seq<FS>, dirPerm: Mode, i: nat)
    requires ActRun(env, acts, states) && EffectRun(env, acts, states) && Checkable(env, acts, states[0], dirPerm)
    requires i < |acts| && acts[i].PutDir?
    ensures Reached(states[|acts|], acts[i].seen) <==>
              forall p :: p in acts[i].seen.through ==> StaysPassable(env, acts, states[0], p)
  {
    var act, end := acts[i], states[|acts|];
    assert ChainOk(env, act);
    if Reached(end, act.seen) {
      forall p | p in act.seen.through ensures StaysPassable(env, acts, states[0], p) {
        DirWasOpen(env, acts, states, p);
      }
    } else if forall p :: p in act.seen.through ==> StaysPassable(env, acts, states[0], p) {
      OpenWayIsMade(env, acts, states, dirPerm, i);
    }
  }

  /** An open way is made, and a directory that is open at the end of it. */
  lemma {:induction false} OpenWayIsMade(env: Env, acts: seq<Act>, states: seq<FS>, dirPerm: Mode, i: nat)
    requires ActRun(env, acts, states) && EffectRun(env, acts, states) && Checkable(env, acts, states[0], dirPerm)
    requires i < |acts| && acts[i].PutDir?
    requires forall p :: p in acts[i].seen.through ==> StaysPassable(env, acts, states[0], p)
    ensures Reached(states[|acts|], acts[i].seen)
    ensures Open(env, states[0], Spot(acts[i])) ==> IsDir(states[i + 1], Spot(acts[i]))
  {
    var act, at := acts[i], Spot(acts[i]);
    assert ChainOk(env, act);
    DirsStay(env, acts, states, 0, i, env.cwd);
    forall p | p in act.seen.through ensures Open(env, states[i], p) {
      StaysOpen(env, acts, states, i, p);
    }
    NotPlaced(acts, i);
    if Open(env, states[0], at) { StaysOpen(env, acts, states, i, at); }
    assert ActStep(env, states[i], act, true, states[i + 1]);
    StepGetsThere(env, states[i], act, states[i + 1]);
    forall p | p in act.seen.through ensures IsDir(states[|acts|], p) {
      DirsStay(env, acts, states, i + 1, |acts|, p);
    }
  }

  /** What is there already keeps its mode, and its owner and group unless they are set for an owner who is not the process. */
  predicate OldPasses(env: Env, node: Node, act: Act)
    requires act.PutDir?
  {
    && !node.Link? && node.mode & CHECKED_MODE == act.perm
    && (env.uid != act.uid || (node.uid == act.uid && node.gid == act.gid))
  }

  /** Whether the check of an item's directory succeeds, judged by the start. */
  ghost predicate DirPasses(env: Env, acts: seq<Act>, fs: FS, act: Act)
    requires act.PutDir?
  {
    && (forall p :: p in act.seen.through ==> StaysPassable(env, acts, fs, p))
    && if Spot(act) in fs then OldPasses(env, fs[Spot(act)], act) else Spot(act) !in env.deny
  }

  /** At the end a new directory of an item passes its check if and only if it and its way were open at the start. */
  lemma {:induction false} DirsCheck(env: Env, acts: seq<Act>, states: seq<FS>, dirPerm: Mode, i: nat)
    requires ActRun(env, acts, states) && EffectRun(env, acts, states) && Checkable(env, acts, states[0], dirPerm)
    requires i < |acts| && acts[i].PutDir? && Spot(acts[i]) !in states[0]
    ensures ActChecks(states[|acts|], acts[i]) <==> DirPasses(env, acts, states[0], acts[i])
  {
    var act, at, end := acts[i], Spot(acts[i]), states[|acts|];
    assert SameSpot(act);
    WayAtEnd(env, acts, states, dirPerm, i);
    if ActChecks(end, act) {
      NotPlaced(acts, i);
      if IsLeaf(end, at) { var k := WhoPlaced(env, acts, states, 0, |acts|, at); }
      var k := WhoMadeDir(env, acts, states, 0, |acts|, at);
    } else if DirPasses(env, acts, states[0], act) {
      OpenWayIsMade(env, acts, states, dirPerm, i);
      DirAfter(env, acts, states, dirPerm, i);
      TargetStays(env, acts, states, i);
    }
  }

  /** At the end a directory item whose place was taken finds there what the start decides. */
  lemma {:induction false} OldEntryAtEnd(env: Env, acts: seq<Act>, states: seq<FS>, i: nat)
    requires ActRun(env, acts, states) && EffectRun(env, acts, states) && NamesApart(acts)
    requires i < |acts| && acts[i].PutDir? && Spot(acts[i]) in states[0]
    ensures Spot(acts[i]) in states[|acts|]
    ensures AsAsked(states[|acts|][Spot(acts[i])], acts[i]) <==> OldPasses(env, states[0][Spot(acts[i])], acts[i])
    ensures IsLink(states[|acts|], Spot(acts[i])) ==> IsLink(states[0], Spot(acts[i]))
  {
    var act := acts[i];
    EntryStays(env, acts, states, 0, i, Spot(act));
    assert ActStep(env, states[i], act, true, states[i + 1]) && SameSpot(act);
    MkDirsFrame(env, states[i], act.chain, NewDir(env, act.perm));
    assert At(MkDirs(env, states[i], act.chain, NewDir(env, act.perm)), Spot(act)) == At(states[i], Spot(act));
    TargetStays(env, acts, states, i);
  }

  /** The check of such an item succeeds if and only if the way to what was there is open and that allows it. */
  lemma {:induction false} OldDirsCheck(env: Env, acts: seq<Act>, states: seq<FS>, dirPerm: Mode, i: nat)
    requires ActRun(env, acts, states) && EffectRun(env, acts, states) && Checkable(env, acts, states[0], dirPerm)
    requires i < |acts| && acts[i].PutDir? && Spot(acts[i]) in states[0]
    ensures ActChecks(states[|acts|], acts[i]) <==> DirPasses(env, acts, states[0], acts[i])
  {
    assert SameSpot(acts[i]);
    WayAtEnd(env, acts, states, dirPerm, i);
    OldEntryAtEnd(env, acts, states, i);
  }

  /**
   After an installation in which every act succeeds, every file checks. A directory checks if and only if
   all that its name passes through was passable and, where nothing was there, it could be made or, where
   something was there already, that has the mode, and its owner and group fit or were set.
   */
  lemma {:induction false} InstallThenCheck(env: Env, acts: seq<Act>, states: seq<FS>, dirPerm: Mode)
    requires ActRun(env, acts, states) && Checkable(env, acts, states[0], dirPerm)
    ensures forall i :: 0 <= i < |acts| && acts[i].PutFile? ==> ActChecks(states[|acts|], acts[i])
    ensures forall i :: 0 <= i < |acts| && acts[i].PutDir? ==>
              (ActChecks(states[|acts|], acts[i]) <==> DirPasses(env, acts, states[0], acts[i]))
  {
    RunEffects(env, acts, states);
    forall i | 0 <= i < |acts| && acts[i].PutFile? ensures ActChecks(states[|acts|], acts[i]) {
      FilesCheck(env, acts, states, dirPerm, i);
    }
    forall i | 0 <= i < |acts| && acts[i].PutDir?
      ensures ActChecks(states[|acts|], acts[i]) <==> DirPasses(env, acts, states[0], acts[i])
    {
      if Spot(acts[i]) in states[0] {
        OldDirsCheck(env, acts, states, dirPerm, i);
      } else {
        DirsCheck(env, acts, states, dirPerm, i);
      }
    }
  }
}
