/**
 Whole runs of the installer and the deinstaller over an arbitrary list of acts.

 The main results are InstallThenDeinstall and RestoredExactly: installing everything and then
 deinstalling in reverse order leaves the files that were there, less those the items replaced, and leaves
 behind no directory but those no item names and those in which somebody else has put something - exactly
 if every file can be reached when its turn comes and somebody accounts for every new directory.
 */
module InstallRuns {
  import opened Paths
  import opened FileSystem
  import opened Steps

  // --- One step -----------------------------------------------------------------------------------

  /** What a successful step can do to the entries of the file system. */
  ghost predicate StepEffect(env: Env, fs: FS, act: Act, now: FS) {
    var target := Spot(act);
    && TreeOk(now)
    && (forall p :: IsDir(fs, p) ==> IsDir(now, p))
    && (forall p :: IsDir(now, p) && !IsDir(fs, p) ==>
          act.PutDir? && Visits(act.chain, p) && p !in fs && p !in env.deny && p != [])
    && (forall p :: IsLeaf(now, p) && !IsLeaf(fs, p) ==> !act.PutDir? && p == target)
    && (forall p :: IsLeaf(fs, p) && !IsLeaf(now, p) ==> act.PutFile? && p == act.tmp.at)
    && (forall p :: p != target && p in fs && p in now ==> fs[p] == now[p])
    && (!act.PutDir? ==> target !in env.deny && IsLeaf(now, target))
    && (act.PutFile? && act.tmp.at != act.dst.at ==> act.tmp.at !in now)
  }

  lemma {:induction false} CopyEffect(env: Env, fs: FS, act: Act, now: FS)
    requires TreeOk(fs) && act.PutFile? && ActStep(env, fs, act, true, now)
    ensures StepEffect(env, fs, act, now)
  {
    CopyKeepsDirs(env, fs, act.src, act.tmp, act.dst, act.uid, act.gid, act.perm, true, now);
  }

  lemma {:induction false} LinkEffect(env: Env, fs: FS, act: Act, now: FS)
    requires TreeOk(fs) && act.PutLink? && SameSpot(act) && ActStep(env, fs, act, true, now)
    ensures StepEffect(env, fs, act, now)
  {
    TreeWith(fs, act.name.at, Link(act.text));
  }

  lemma {:induction false} DirEffect(env: Env, fs: FS, act: Act, now: FS)
    requires TreeOk(fs) && act.PutDir? && SameSpot(act) && ActStep(env, fs, act, true, now)
    ensures StepEffect(env, fs, act, now)
  {
    var node := NewDir(env, act.perm);
    MkDirsFrame(env, fs, act.chain, node);
    ActKeepsDirs(env, fs, act, true, now);
    MadeAndOwned(env, fs, act, MkDirs(env, fs, act.chain, node), now);
  }

  /** What mkdir and chown leave of the entries that were there, and what they add. */
  lemma {:induction false} MadeAndOwned(env: Env, fs: FS, act: Act, made: FS, now: FS)
    requires act.PutDir? && SameSpot(act) && made == MkDirs(env, fs, act.chain, NewDir(env, act.perm))
    requires DirStep(env, fs, act, true, now)
    requires forall p :: p in fs ==> At(made, p) == At(fs, p)
    ensures now.Keys == made.Keys && fs.Keys <= made.Keys
    ensures forall p :: p in now && p != Spot(act) ==> now[p] == made[p]
    ensures forall p :: p in fs ==> made[p] == fs[p]
    ensures forall p :: p in made ==> now[p].Dir? == made[p].Dir?
  {
    forall p | p in fs ensures p in made && made[p] == fs[p] {
      assert At(made, p) == At(fs, p);
    }
  }

  lemma {:induction false} InstallEffect(env: Env, fs: FS, act: Act, now: FS)
    requires TreeOk(fs) && SameSpot(act) && ActStep(env, fs, act, true, now)
    ensures StepEffect(env, fs, act, now)
  {
    match act
    case PutFile(_, _, _, _, _, _) => CopyEffect(env, fs, act, now);
    case PutLink(_, _, _, _) => LinkEffect(env, fs, act, now);
    case PutDir(_, _, _, _, _, _) => DirEffect(env, fs, act, now);
  }

  // --- A run --------------------------------------------------------------------------------------

  /** Every act succeeds, one after the other; each is undone where it puts something. */
  ghost predicate ActRun(env: Env, acts: seq<Act>, states: seq<FS>) {
    && |states| == |acts| + 1
    && TreeOk(states[0])
    && (forall i :: 0 <= i < |acts| ==> SameSpot(acts[i]))
    && forall i {:trigger acts[i]} :: 0 <= i < |acts| ==> ActStep(env, states[i], acts[i], true, states[i + 1])
  }

  ghost predicate EffectRun(env: Env, acts: seq<Act>, states: seq<FS>) {
    |states| == |acts| + 1 && Effects(env, acts, states, |acts|)
  }

  /** The first `n` steps of a run. */
  ghost predicate Effects(env: Env, acts: seq<Act>, states: seq<FS>, n: nat)
    requires |states| == |acts| + 1
  {
    && n <= |acts|
    && (forall i {:trigger acts[i]} :: 0 <= i < n ==> StepEffect(env, states[i], acts[i], states[i + 1]))
    && (forall i :: 0 <= i <= n ==> TreeOk(states[i]))
  }

  lemma {:induction false} FirstEffects(env: Env, acts: seq<Act>, states: seq<FS>, n: nat)
    requires ActRun(env, acts, states) && n <= |acts|
    ensures Effects(env, acts, states, n)
  {
    if n > 0 {
      FirstEffects(env, acts, states, n - 1);
      NextEffect(env, states[n - 1], acts[n - 1], states[n]);
      OneMoreEffect(env, acts, states, n - 1);
    }
  }

  lemma {:induction false} NextEffect(env: Env, fs: FS, act: Act, now: FS)
    requires TreeOk(fs) && SameSpot(act) && ActStep(env, fs, act, true, now)
    ensures StepEffect(env, fs, act, now) && TreeOk(now)
  {
    InstallEffect(env, fs, act, now);
  }

  lemma {:induction false} OneMoreEffect(env: Env, acts: seq<Act>, states: seq<FS>, n: nat)
    requires |states| == |acts| + 1 && n < |acts| && Effects(env, acts, states, n)
    requires StepEffect(env, states[n], acts[n], states[n + 1]) && TreeOk(states[n + 1])
    ensures Effects(env, acts, states, n + 1)
  {
    forall i | 0 <= i < n + 1 ensures StepEffect(env, states[i], acts[i], states[i + 1]) {
    }
  }

  lemma {:induction false} RunEffects(env: Env, acts: seq<Act>, states: seq<FS>)
    requires ActRun(env, acts, states)
    ensures EffectRun(env, acts, states)
  {
    FirstEffects(env, acts, states, |acts|);
  }

  /** `p` is where one of the acts puts a file or a link. */
  ghost predicate IsPlaced(acts: seq<Act>, p: Path) {
    exists i :: 0 <= i < |acts| && !acts[i].PutDir? && Spot(acts[i]) == p
  }

  /** `p` is the temporary name of one of the acts. */
  ghost predicate IsTemporary(acts: seq<Act>, p: Path) {
    exists i :: 0 <= i < |acts| && acts[i].PutFile? && acts[i].tmp.at == p
  }

  ghost predicate IsItemDir(acts: seq<Act>, p: Path) {
    exists i :: 0 <= i < |acts| && acts[i].PutDir? && Spot(acts[i]) == p
  }

  /** `p` lies properly above the directory of one of the acts. */
  ghost predicate IsAncestor(acts: seq<Act>, p: Path) {
    exists i :: 0 <= i < |acts| && acts[i].PutDir? && p < Spot(acts[i])
  }

  lemma {:induction false} DirsStay(env: Env, acts: seq<Act>, states: seq<FS>, i: nat, j: nat, p: Path)
    requires EffectRun(env, acts, states) && i <= j < |states| && IsDir(states[i], p)
    ensures IsDir(states[j], p)
  {
    if i < j {
      DirsStay(env, acts, states, i, j - 1, p);
      assert StepEffect(env, states[j - 1], acts[j - 1], states[j]);
    }
  }

  /** A directory that appears was made by a directory item that visited it. */
  lemma {:induction false} WhoMadeDir(env: Env, acts: seq<Act>, states: seq<FS>, i: nat, j: nat, p: Path) returns (k: nat)
    requires EffectRun(env, acts, states) && i <= j < |states| && !IsDir(states[i], p) && IsDir(states[j], p)
    ensures i <= k < j && acts[k].PutDir? && Visits(acts[k].chain, p) && p !in states[k]
    ensures p !in env.deny && p != []
  {
    assert StepEffect(env, states[j - 1], acts[j - 1], states[j]);
    if IsDir(states[j - 1], p) {
      k := WhoMadeDir(env, acts, states, i, j - 1, p);
    } else {
      k := j - 1;
    }
  }

  /** A file or link that appears was put there by an item. */
  lemma {:induction false} WhoPlaced(env: Env, acts: seq<Act>, states: seq<FS>, i: nat, j: nat, p: Path) returns (k: nat)
    requires EffectRun(env, acts, states) && i <= j < |states| && !IsLeaf(states[i], p) && IsLeaf(states[j], p)
    ensures i <= k < j && !acts[k].PutDir? && Spot(acts[k]) == p && p !in env.deny
  {
    assert StepEffect(env, states[j - 1], acts[j - 1], states[j]);
    if IsLeaf(states[j - 1], p) {
      k := WhoPlaced(env, acts, states, i, j - 1, p);
    } else {
      k := j - 1;
    }
  }

  /** Files that no item replaces and no temporary name hits are there at the end. */
  lemma {:induction false} LeavesStay(env: Env, acts: seq<Act>, states: seq<FS>, j: nat, p: Path)
    requires EffectRun(env, acts, states) && j < |states|
    requires IsLeaf(states[0], p) && !IsPlaced(acts, p) && !IsTemporary(acts, p)
    ensures IsLeaf(states[j], p) && (!IsItemDir(acts, p) ==> states[j][p] == states[0][p])
  {
    if j > 0 {
      LeavesStay(env, acts, states, j - 1, p);
      var act := acts[j - 1];
      assert StepEffect(env, states[j - 1], act, states[j]);
      assert Spot(act) == p ==> act.PutDir?;
    }
  }

  /** An entry that no later act targets or uses as a temporary name stays as it is. */
  lemma {:induction false} EntryStays(env: Env, acts: seq<Act>, states: seq<FS>, i: nat, j: nat, p: Path)
    requires i <= j < |states| && j <= |acts| && p in states[i]
    requires forall k :: i <= k < j ==> StepEffect(env, states[k], acts[k], states[k + 1])
    requires forall k :: i <= k < j ==> Spot(acts[k]) != p && (acts[k].PutFile? ==> acts[k].tmp.at != p)
    ensures p in states[j] && states[j][p] == states[i][p]
  {
    if i < j {
      EntryStays(env, acts, states, i, j - 1, p);
      assert StepEffect(env, states[j - 1], acts[j - 1], states[j]);
      assert IsDir(states[j - 1], p) || IsLeaf(states[j - 1], p);
    }
  }

  lemma {:induction false} DirNodesStay(env: Env, acts: seq<Act>, states: seq<FS>, j: nat, p: Path)
    requires EffectRun(env, acts, states) && j < |states|
    requires IsDir(states[0], p) && !IsItemDir(acts, p)
    ensures IsDir(states[j], p) && states[j][p] == states[0][p]
  {
    if j > 0 {
      DirNodesStay(env, acts, states, j - 1, p);
      var act := acts[j - 1];
      assert StepEffect(env, states[j - 1], act, states[j]);
      assert Spot(act) == p ==> !act.PutDir?;
    }
  }

  /** A temporary name is free at the end, unless it is also a destination or became a directory. */
  lemma {:induction false} TemporaryGone(env: Env, acts: seq<Act>, states: seq<FS>, p: Path)
    requires EffectRun(env, acts, states) && IsTemporary(acts, p) && !IsPlaced(acts, p)
    ensures !IsLeaf(states[|acts|], p)
  {
    var i :| 0 <= i < |acts| && acts[i].PutFile? && acts[i].tmp.at == p;
    assert StepEffect(env, states[i], acts[i], states[i + 1]);
    assert Spot(acts[i]) == acts[i].dst.at;
    if IsLeaf(states[|acts|], p) {
      var k := WhoPlaced(env, acts, states, i + 1, |acts|, p);
      assert IsPlaced(acts, p);
    }
  }

  // --- Undoing ------------------------------------------------------------------------------------

  /** The file system when all acts from the last down to number `k` have been undone. */
  function Undone(env: Env, fs: FS, acts: seq<Act>, k: nat): FS
    requires k <= |acts|
    decreases |acts| - k
  {
    if k == |acts| then fs else Remove(env, Undone(env, fs, acts, k + 1), Undo(acts[k]))
  }

  /** Undoing removes entries and does nothing else. */
  lemma {:induction false} UndoneShrinks(env: Env, fs: FS, acts: seq<Act>, k: nat)
    requires k <= |acts|
    ensures forall p :: p in Undone(env, fs, acts, k) ==> p in fs && fs[p] == Undone(env, fs, acts, k)[p]
    decreases |acts| - k
  {
    if k < |acts| { UndoneShrinks(env, fs, acts, k + 1); }
  }

  lemma {:induction false} UndoneMonotone(env: Env, fs: FS, acts: seq<Act>, j: nat, k: nat, p: Path)
    requires j <= k <= |acts| && p in Undone(env, fs, acts, j)
    ensures p in Undone(env, fs, acts, k)
    decreases k - j
  {
    if j < k { UndoneMonotone(env, fs, acts, j + 1, k, p); }
  }

  /** Only the targets of the acts are removed. */
  lemma {:induction false} OthersStay(env: Env, fs: FS, acts: seq<Act>, k: nat, p: Path)
    requires k <= |acts| && p in fs
    requires forall i :: k <= i < |acts| ==> Spot(acts[i]) != p
    ensures p in Undone(env, fs, acts, k)
    decreases |acts| - k
  {
    if k < |acts| { OthersStay(env, fs, acts, k + 1, p); }
  }

  /** A directory is only ever removed as the directory of an item, a leaf only as what an item placed. */
  lemma {:induction false} KindsStay(env: Env, fs: FS, acts: seq<Act>, k: nat, p: Path)
    requires k <= |acts|
    ensures IsDir(fs, p) && !IsItemDir(acts, p) ==> p in Undone(env, fs, acts, k)
    ensures IsLeaf(fs, p) && !IsPlaced(acts, p) ==> p in Undone(env, fs, acts, k)
    decreases |acts| - k
  {
    if k < |acts| {
      KindsStay(env, fs, acts, k + 1, p);
      UndoneShrinks(env, fs, acts, k + 1);
    }
  }

  // --- What is removed, exactly ---------------------------------------------------------------------

  /** Of the entries `full`, `p` is still there when the acts from the last down to number `k` have been undone. */
  ghost predicate StillThere(env: Env, acts: seq<Act>, full: FS, k: nat, p: Path)
    requires k <= |acts|
    decreases |acts| - k, 2
  {
    p in full && forall j :: k <= j < |acts| && Spot(acts[j]) == p ==> !Taken(env, acts, full, j, p)
  }

  /** unlink or rmdir accepts the name of the removal: rmdir does not accept one that ends in ".". */
  predicate Removable(act: Act) {
    Undo(act).way.named && (act.PutDir? ==> !Undo(act).way.dot)
  }

  /** If there is anything left to remove when the turn of act number `j` comes, the way to it is there too. */
  ghost predicate Works(env: Env, acts: seq<Act>, full: FS, j: nat)
    requires j < |acts|
    decreases |acts| - j, 0
  {
    && Removable(acts[j])
    && (StillThere(env, acts, full, j + 1, Spot(acts[j])) ==> WayThere(env, acts, full, j))
  }

  ghost predicate WayThere(env: Env, acts: seq<Act>, full: FS, j: nat)
    requires j < |acts|
    decreases |acts| - j - 1, 3
  {
    forall q :: q in Undo(acts[j]).way.through ==> IsDir(full, q) && StillThere(env, acts, full, j + 1, q)
  }

  /**
   Undoing act number `j` removes `p`, if it is still there: a file or link where the kernel allows it,
   and a directory, whoever made it, once the items after number `j` have taken everything in it.
   */
  ghost predicate Taken(env: Env, acts: seq<Act>, full: FS, j: nat, p: Path)
    requires j < |acts|
    decreases |acts| - j, 1
  {
    && p !in env.deny && Works(env, acts, full, j)
    && if acts[j].PutDir? then
         p != [] && IsDir(full, p) && forall c :: c in full && c != [] && Parent(c) == p ==> !StillThere(env, acts, full, j + 1, c)
       else IsLeaf(full, p)
  }

  /** Undoing the acts one after the other removes exactly what is taken. */
  lemma {:induction false} UndoneExactly(env: Env, full: FS, acts: seq<Act>, k: nat)
    requires k <= |acts|
    ensures forall p :: p in Undone(env, full, acts, k) <==> StillThere(env, acts, full, k, p)
    decreases |acts| - k
  {
    if k < |acts| {
      UndoneExactly(env, full, acts, k + 1);
      UndoneShrinks(env, full, acts, k + 1);
      forall p ensures p in Undone(env, full, acts, k) <==> StillThere(env, acts, full, k, p) {
        OneMoreUndone(env, full, acts, k, Undone(env, full, acts, k + 1), p);
      }
    }
  }

  lemma {:induction false} OneMoreUndone(env: Env, full: FS, acts: seq<Act>, k: nat, before: FS, p: Path)
    requires k < |acts| && before == Undone(env, full, acts, k + 1)
    requires forall q :: q in before <==> StillThere(env, acts, full, k + 1, q)
    requires forall q :: q in before ==> q in full && full[q] == before[q]
    ensures p in Undone(env, full, acts, k) <==> StillThere(env, acts, full, k, p)
  {
    if p in before && Spot(acts[k]) == p {
      WayIsReached(env, full, acts, k, before);
      assert CanRemove(env, before, Undo(acts[k])) <==> Taken(env, acts, full, k, p);
    }
  }

  lemma {:induction false} WayIsReached(env: Env, full: FS, acts: seq<Act>, k: nat, before: FS)
    requires k < |acts|
    requires forall q :: q in before <==> StillThere(env, acts, full, k + 1, q)
    requires forall q :: q in before ==> q in full && full[q] == before[q]
    ensures Reached(before, Undo(acts[k]).way) <==> Undo(acts[k]).way.named && WayThere(env, acts, full, k)
  {
  }

  /** Somebody took `p`. */
  ghost predicate TakenByItem(env: Env, acts: seq<Act>, full: FS, p: Path) {
    exists j :: 0 <= j < |acts| && Spot(acts[j]) == p && Taken(env, acts, full, j, p)
  }

  /** What no act up to number `k` names is not removed by undoing them. */
  lemma {:induction false} NotNamedStays(env: Env, full: FS, acts: seq<Act>, k: nat, p: Path)
    requires k <= |acts| && p in Undone(env, full, acts, k) && forall i :: 0 <= i < k ==> Spot(acts[i]) != p
    ensures p in Undone(env, full, acts, 0)
  {
    if k > 0 {
      assert p in Undone(env, full, acts, k - 1);
      NotNamedStays(env, full, acts, k - 1, p);
    }
  }

  /** What is gone was empty when it went. */
  lemma {:induction false} GoneWasEmpty(env: Env, full: FS, acts: seq<Act>, k: nat, p: Path, c: Path)
    requires k <= |acts| && IsDir(full, p) && c != [] && Parent(c) == p && c in Undone(env, full, acts, k)
    ensures p in Undone(env, full, acts, k)
    decreases |acts| - k
  {
    if k < |acts| {
      UndoneMonotone(env, full, acts, k, k + 1, c);
      GoneWasEmpty(env, full, acts, k + 1, p, c);
      UndoneShrinks(env, full, acts, k + 1);
    }
  }

  /** The directories above what is still there are there too. */
  lemma {:induction false} AboveStays(env: Env, full: FS, acts: seq<Act>, k: nat, q: Path, p: Path)
    requires TreeOk(full) && k <= |acts| && p in Undone(env, full, acts, k) && q <= p
    ensures q in Undone(env, full, acts, k) && (q != p ==> IsDir(full, q))
    decreases |p|
  {
    if q != p {
      UndoneShrinks(env, full, acts, k);
      assert ParentIsDir(full, p);
      GoneWasEmpty(env, full, acts, k, Parent(p), p);
      AboveStays(env, full, acts, k, q, Parent(p));
    }
  }

  /** A directory that can be removed and is still there is not empty. */
  lemma {:induction false} WhyItStays(env: Env, full: FS, acts: seq<Act>, j: nat, p: Path) returns (c: Path)
    requires j < |acts| && acts[j].PutDir? && Spot(acts[j]) == p && IsDir(full, p) && p != [] && p !in env.deny
    requires Works(env, acts, full, j) && p in Undone(env, full, acts, j)
    ensures c in full && c in Undone(env, full, acts, j + 1) && c != [] && Parent(c) == p
  {
    UndoneExactly(env, full, acts, j);
    UndoneExactly(env, full, acts, j + 1);
    assert !Taken(env, acts, full, j, p);
    c :| c in full && c != [] && Parent(c) == p && StillThere(env, acts, full, j + 1, c);
  }

  /**
   Where a directory's item comes before all items that put something into the directory, and its way is
   there, the directory is removed exactly if the kernel allows it and nothing is left in it at the end -
   also if it was there from the start.
   */
  lemma {:induction false} EarlyDirRemoved(env: Env, full: FS, acts: seq<Act>, j: nat, p: Path)
    requires j < |acts| && acts[j].PutDir? && Spot(acts[j]) == p && IsDir(full, p) && Works(env, acts, full, j)
    requires forall m :: 0 <= m < |acts| && Spot(acts[m]) != [] && Parent(Spot(acts[m])) == p ==> j < m
    ensures var end := Undone(env, full, acts, 0);
            p in end <==> p == [] || p in env.deny || exists c :: c in end && c != [] && Parent(c) == p
  {
    var end := Undone(env, full, acts, 0);
    if c :| c in end && c != [] && Parent(c) == p {
      GoneWasEmpty(env, full, acts, 0, p, c);
    }
    if p == [] || p in env.deny {
      NeverRemoved(env, full, acts, 0, p);
    } else if p in end {
      UndoneMonotone(env, full, acts, 0, j, p);
      var c := WhyItStays(env, full, acts, j, p);
      NotNamedStays(env, full, acts, j + 1, c);
    }
  }

  lemma {:induction false} NeverRemoved(env: Env, full: FS, acts: seq<Act>, k: nat, p: Path)
    requires k <= |acts| && IsDir(full, p) && (p == [] || p in env.deny)
    ensures p in Undone(env, full, acts, k)
    decreases |acts| - k
  {
    if k < |acts| {
      NeverRemoved(env, full, acts, k + 1, p);
      UndoneShrinks(env, full, acts, k + 1);
    }
  }

  /** A directory whose last component is "." or that has no name is never removed by its own item. */
  lemma {:induction false} DotStays(env: Env, full: FS, acts: seq<Act>, k: nat, p: Path)
    requires k <= |acts| && IsDir(full, p)
    requires forall j :: 0 <= j < |acts| && acts[j].PutDir? && Spot(acts[j]) == p ==> !Removable(acts[j])
    ensures p in Undone(env, full, acts, k)
    decreases |acts| - k
  {
    if k < |acts| {
      DotStays(env, full, acts, k + 1, p);
      UndoneShrinks(env, full, acts, k + 1);
    }
  }

  // --- Files and links ------------------------------------------------------------------------------

  /** An act from number `k` on that put a file or link at `p` takes it away again. */
  ghost predicate RetrievedAfter(env: Env, acts: seq<Act>, full: FS, k: nat, p: Path) {
    exists m :: k <= m < |acts| && !acts[m].PutDir? && Spot(acts[m]) == p && Works(env, acts, full, m)
  }

  /** A file or link that the kernel lets go goes exactly if it is retrieved. */
  lemma {:induction false} LeafGoes(env: Env, acts: seq<Act>, full: FS, k: nat, p: Path)
    requires k <= |acts| && IsLeaf(full, p) && p !in env.deny
    ensures p in Undone(env, full, acts, k) <==> !RetrievedAfter(env, acts, full, k, p)
  {
    UndoneExactly(env, full, acts, k);
    if m :| k <= m < |acts| && !acts[m].PutDir? && Spot(acts[m]) == p && Works(env, acts, full, m) {
      assert Taken(env, acts, full, m, p);
    }
    if p !in Undone(env, full, acts, k) {
      var j :| k <= j < |acts| && Spot(acts[j]) == p && Taken(env, acts, full, j, p);
      assert !acts[j].PutDir? && Works(env, acts, full, j);
    }
  }

  /** Every file and link that an item has put in place, and that is there, is taken away by one of its items. */
  ghost predicate Retrievable(env: Env, acts: seq<Act>, full: FS) {
    forall p :: IsPlaced(acts, p) && IsLeaf(full, p) ==> RetrievedAfter(env, acts, full, 0, p)
  }

  /** What an item puts in place is not refused by the kernel. */
  lemma {:induction false} PlacedNotDenied(env: Env, acts: seq<Act>, states: seq<FS>, p: Path)
    requires EffectRun(env, acts, states) && IsPlaced(acts, p)
    ensures p !in env.deny
  {
    var i :| 0 <= i < |acts| && !acts[i].PutDir? && Spot(acts[i]) == p;
    assert StepEffect(env, states[i], acts[i], states[i + 1]);
  }

  // --- Installing and then deinstalling -------------------------------------------------------------

  /** Entries that somebody else adds after the installation, away from everything the items own. */
  ghost predicate ExtraOk(env: Env, acts: seq<Act>, fs: FS, extra: FS) {
    && extra.Keys !! fs.Keys
    && TreeOk(fs + extra)
    && forall p :: p in extra ==> !IsPlaced(acts, p) && !IsItemDir(acts, p)
  }

  lemma {:induction false} FinalLeaf(env: Env, acts: seq<Act>, states: seq<FS>, extra: FS, p: Path)
    requires EffectRun(env, acts, states) && ExtraOk(env, acts, states[|acts|], extra)
    requires Retrievable(env, acts, states[|acts|] + extra)
    ensures var end := Undone(env, states[|acts|] + extra, acts, 0);
            IsLeaf(end, p) <==> (IsLeaf(states[0], p) && !IsPlaced(acts, p) && !IsTemporary(acts, p)) || IsLeaf(extra, p)
    ensures var end := Undone(env, states[|acts|] + extra, acts, 0);
            IsLeaf(end, p) && !IsItemDir(acts, p) ==> end[p] == if p in extra then extra[p] else states[0][p]
  {
    var n := |acts|;
    var full := states[n] + extra;
    UndoneShrinks(env, full, acts, 0);
    KindsStay(env, full, acts, 0, p);
    if p in extra {
      assert p !in states[n];
      if IsLeaf(states[0], p) && !IsPlaced(acts, p) && !IsTemporary(acts, p) {
        LeavesStay(env, acts, states, n, p);
      }
    } else if IsPlaced(acts, p) {
      PlacedNotDenied(env, acts, states, p);
      if IsLeaf(full, p) { LeafGoes(env, acts, full, 0, p); }
    } else if IsTemporary(acts, p) {
      TemporaryGone(env, acts, states, p);
    } else if IsLeaf(states[0], p) {
      LeavesStay(env, acts, states, n, p);
    } else if IsLeaf(states[n], p) {
      var k := WhoPlaced(env, acts, states, 0, n, p);
      assert IsPlaced(acts, p);
    }
  }

  // --- New directories ------------------------------------------------------------------------------

  /** The files and links in `p` that items have put in place are all taken away by acts from number `k` on. */
  ghost predicate EmptiedAfter(env: Env, acts: seq<Act>, full: FS, k: nat, p: Path) {
    forall c :: IsPlaced(acts, c) && IsLeaf(full, c) && c != [] && Parent(c) == p ==> RetrievedAfter(env, acts, full, k, c)
  }

  /** An item names `p` and gets to it once the files and links in it are gone. */
  ghost predicate IsEarlyDir(env: Env, acts: seq<Act>, full: FS, p: Path) {
    exists j :: 0 <= j < |acts| && acts[j].PutDir? && Spot(acts[j]) == p
                && Works(env, acts, full, j) && EmptiedAfter(env, acts, full, j + 1, p)
  }

  /** Somebody accounts for every new directory: it lies above an item's, or its item removes it. */
  ghost predicate NewDirsCovered(env: Env, acts: seq<Act>, start: FS, extra: FS, full: FS) {
    forall p :: IsDir(full, p) && !IsDir(start, p) && p !in extra ==> IsAncestor(acts, p) || IsEarlyDir(env, acts, full, p)
  }

  /** What a new directory holds is new: directories that items made, and what they put in place. */
  lemma {:induction false} InsideIsNew(env: Env, acts: seq<Act>, states: seq<FS>, p: Path, c: Path)
    requires EffectRun(env, acts, states) && !IsDir(states[0], p)
    requires c != [] && Parent(c) == p && c in states[|acts|]
    ensures c !in states[0] && (IsLeaf(states[|acts|], c) ==> IsPlaced(acts, c) && c !in env.deny)
  {
    assert !ParentIsDir(states[0], c);
    assert TreeOk(states[0]);
    if IsLeaf(states[|acts|], c) {
      var k := WhoPlaced(env, acts, states, 0, |acts|, c);
    }
  }

  /** What the items put into an early directory is gone when its turn comes. */
  lemma {:induction false} OwnIsGone(env: Env, acts: seq<Act>, full: FS, j: nat, p: Path, c: Path)
    requires j < |acts| && EmptiedAfter(env, acts, full, j + 1, p)
    requires c != [] && Parent(c) == p && IsLeaf(full, c) && IsPlaced(acts, c) && c !in env.deny
    ensures c !in Undone(env, full, acts, j + 1)
  {
    assert RetrievedAfter(env, acts, full, j + 1, c);
    LeafGoes(env, acts, full, j + 1, c);
  }

  /** What an early directory still holds when its turn comes belongs to somebody else. */
  lemma {:induction false} KeptByExtra(env: Env, acts: seq<Act>, states: seq<FS>, extra: FS, full: FS, j: nat, p: Path, c: Path)
    requires EffectRun(env, acts, states) && ExtraOk(env, acts, states[|acts|], extra) && full == states[|acts|] + extra
    requires NewDirsCovered(env, acts, states[0], extra, full) && !IsAncestor(acts, p) && !IsDir(states[0], p)
    requires j < |acts| && EmptiedAfter(env, acts, full, j + 1, p)
    requires c in full && c in Undone(env, full, acts, j + 1) && c != [] && Parent(c) == p
    ensures c in extra && c in Undone(env, full, acts, 0)
  {
    if c in extra {
      ExtraStays(env, acts, full, extra, states[|acts|], c);
    } else {
      InsideIsNew(env, acts, states, p, c);
      if IsLeaf(full, c) {
        OwnIsGone(env, acts, full, j, p, c);
      } else {
        assert IsDir(full, c) && !IsDir(states[0], c);
        InItsParent(env, acts, full, p, c);
      }
    }
  }

  lemma {:induction false} ExtraStays(env: Env, acts: seq<Act>, full: FS, extra: FS, fs: FS, c: Path)
    requires ExtraOk(env, acts, fs, extra) && c in extra && c in full
    ensures c in Undone(env, full, acts, 0)
  {
    forall i | 0 <= i < |acts| ensures Spot(acts[i]) != c {
      assert !IsPlaced(acts, c) && !IsItemDir(acts, c);
    }
    OthersStay(env, full, acts, 0, c);
  }

  lemma {:induction false} InItsParent(env: Env, acts: seq<Act>, full: FS, p: Path, c: Path)
    requires c != [] && Parent(c) == p && (IsAncestor(acts, c) || IsEarlyDir(env, acts, full, c))
    ensures IsAncestor(acts, p)
  {
    if IsAncestor(acts, c) {
      var i :| 0 <= i < |acts| && acts[i].PutDir? && c < Spot(acts[i]);
      assert p < Spot(acts[i]);
    } else {
      var i :| 0 <= i < |acts| && acts[i].PutDir? && Spot(acts[i]) == c;
      assert p < Spot(acts[i]);
    }
  }

  ghost predicate HoldsExtra(fs: FS, extra: FS, p: Path) {
    exists c :: c in extra && c in fs && c != [] && Parent(c) == p
  }

  /** If an early directory stays, somebody else uses it. */
  lemma {:induction false} EarlyDirHolds(env: Env, acts: seq<Act>, states: seq<FS>, extra: FS, full: FS, j: nat, p: Path)
    requires EffectRun(env, acts, states) && ExtraOk(env, acts, states[|acts|], extra) && full == states[|acts|] + extra
    requires NewDirsCovered(env, acts, states[0], extra, full) && !IsAncestor(acts, p) && !IsDir(states[0], p)
    requires j < |acts| && acts[j].PutDir? && Spot(acts[j]) == p && Works(env, acts, full, j)
    requires EmptiedAfter(env, acts, full, j + 1, p) && p in Undone(env, full, acts, j)
    requires IsDir(full, p) && p != [] && p !in env.deny
    ensures HoldsExtra(Undone(env, full, acts, 0), extra, p)
  {
    var c := WhyItStays(env, full, acts, j, p);
    KeptByExtra(env, acts, states, extra, full, j, p, c);
  }

  /** A new directory that stays is above some item's directory, or is one that somebody else uses. */
  lemma {:induction false} FinalNewDir(env: Env, acts: seq<Act>, states: seq<FS>, extra: FS, full: FS, p: Path)
    requires EffectRun(env, acts, states) && ExtraOk(env, acts, states[|acts|], extra) && full == states[|acts|] + extra
    requires NewDirsCovered(env, acts, states[0], extra, full)
    requires IsDir(full, p) && p in Undone(env, full, acts, 0) && !IsDir(states[0], p) && p !in extra
    ensures IsAncestor(acts, p) || (IsItemDir(acts, p) && HoldsExtra(Undone(env, full, acts, 0), extra, p))
  {
    if !IsAncestor(acts, p) {
      var i := WhoMadeDir(env, acts, states, 0, |acts|, p);
      var j :| 0 <= j < |acts| && acts[j].PutDir? && Spot(acts[j]) == p
               && Works(env, acts, full, j) && EmptiedAfter(env, acts, full, j + 1, p);
      UndoneMonotone(env, full, acts, 0, j, p);
      EarlyDirHolds(env, acts, states, extra, full, j, p);
    }
  }

  // --- The theorem ----------------------------------------------------------------------------------

  /**
   What remains at the end of `start`, of the entries `extra` added since, and of what the installation
   made, `full` being all there was before undoing.
   The files and links are those from the start that no act replaced - as a destination or through a
   temporary name - and the added ones. Directories from the start remain, except that one which an item
   names goes if it is empty when its turn comes. A new directory remains only above an item's directory,
   or with an added entry in it.
   */
  ghost predicate Restored(env: Env, acts: seq<Act>, start: FS, extra: FS, full: FS, end: FS) {
    && (forall p :: IsLeaf(end, p) <==> (IsLeaf(start, p) && !IsPlaced(acts, p) && !IsTemporary(acts, p)) || IsLeaf(extra, p))
    && (forall p :: IsLeaf(end, p) && !IsItemDir(acts, p) ==> end[p] == if p in extra then extra[p] else start[p])
    && (forall p :: IsDir(start, p) && !IsItemDir(acts, p) ==> p in end && end[p] == start[p])
    && (forall p :: IsDir(start, p) && IsItemDir(acts, p) ==> (p in end <==> !TakenByItem(env, acts, full, p)))
    && (forall p :: p in end ==> p in full && end[p] == full[p])
    && NewDirsAccounted(acts, start, extra, end)
  }

  ghost predicate NewDirsAccounted(acts: seq<Act>, start: FS, extra: FS, end: FS) {
    forall p :: IsDir(end, p) && !IsDir(start, p) && p !in extra ==>
      IsAncestor(acts, p) || (IsItemDir(acts, p) && HoldsExtra(end, extra, p))
  }

  /** A directory that was there and that an item names. */
  lemma {:induction false} FinalOldDir(env: Env, acts: seq<Act>, states: seq<FS>, extra: FS, p: Path)
    requires EffectRun(env, acts, states) && ExtraOk(env, acts, states[|acts|], extra) && IsDir(states[0], p)
    ensures var full := states[|acts|] + extra;
            p in Undone(env, full, acts, 0) <==> !TakenByItem(env, acts, full, p)
  {
    DirsStay(env, acts, states, 0, |acts|, p);
    UndoneExactly(env, states[|acts|] + extra, acts, 0);
  }

  /** Everything that the items have put in place can be taken away again, and every new directory is accounted for. */
  ghost predicate Restorable(env: Env, acts: seq<Act>, start: FS, extra: FS, full: FS) {
    Retrievable(env, acts, full) && NewDirsCovered(env, acts, start, extra, full)
  }

  /** Install every act successfully, let others add entries of their own, and undo the acts in reverse. */
  lemma {:induction false} InstallThenDeinstall(env: Env, acts: seq<Act>, states: seq<FS>, extra: FS)
    requires ActRun(env, acts, states) && ExtraOk(env, acts, states[|acts|], extra)
    requires Restorable(env, acts, states[0], extra, states[|acts|] + extra)
    ensures var full := states[|acts|] + extra;
            Restored(env, acts, states[0], extra, full, Undone(env, full, acts, 0))
  {
    var n := |acts|;
    var full := states[n] + extra;
    var end := Undone(env, full, acts, 0);
    RunEffects(env, acts, states);
    UndoneShrinks(env, full, acts, 0);
    forall p {
      FinalLeaf(env, acts, states, extra, p);
    }
    forall p | IsDir(states[0], p) && !IsItemDir(acts, p)
      ensures p in end && end[p] == states[0][p]
    {
      DirNodesStay(env, acts, states, n, p);
      KindsStay(env, full, acts, 0, p);
    }
    forall p | IsDir(states[0], p) && IsItemDir(acts, p) ensures p in end <==> !TakenByItem(env, acts, full, p) {
      FinalOldDir(env, acts, states, extra, p);
    }
    forall p | IsDir(end, p) && !IsDir(states[0], p) && p !in extra
      ensures IsAncestor(acts, p) || (IsItemDir(acts, p) && HoldsExtra(end, extra, p))
    {
      FinalNewDir(env, acts, states, extra, full, p);
    }
  }

  /** A file that is gone has been retrieved. */
  lemma {:induction false} GoneWasRetrieved(env: Env, acts: seq<Act>, states: seq<FS>, p: Path)
    requires EffectRun(env, acts, states) && IsPlaced(acts, p) && IsLeaf(states[|acts|], p)
    requires !IsLeaf(Undone(env, states[|acts|], acts, 0), p)
    ensures RetrievedAfter(env, acts, states[|acts|], 0, p)
  {
    var full := states[|acts|];
    PlacedNotDenied(env, acts, states, p);
    LeafGoes(env, acts, full, 0, p);
    UndoneShrinks(env, full, acts, 0);
  }

  /** When a directory was taken, the files in it had been. */
  lemma {:induction false} TakenWasEmptied(env: Env, acts: seq<Act>, full: FS, j: nat, p: Path)
    requires j < |acts| && Taken(env, acts, full, j, p) && IsDir(full, p)
    requires forall c :: IsPlaced(acts, c) ==> c !in env.deny
    ensures acts[j].PutDir? && EmptiedAfter(env, acts, full, j + 1, p)
  {
    forall c | IsPlaced(acts, c) && IsLeaf(full, c) && c != [] && Parent(c) == p
      ensures RetrievedAfter(env, acts, full, j + 1, c)
    {
      assert !StillThere(env, acts, full, j + 1, c);
      UndoneExactly(env, full, acts, j + 1);
      LeafGoes(env, acts, full, j + 1, c);
    }
  }

  /** A new directory that is gone was removed by its item after everything in it. */
  lemma {:induction false} GoneWasCovered(env: Env, acts: seq<Act>, states: seq<FS>, p: Path)
    requires EffectRun(env, acts, states)
    requires var full := states[|acts|]; NewDirsAccounted(acts, states[0], map[], Undone(env, full, acts, 0))
    requires IsDir(states[|acts|], p) && !IsDir(states[0], p)
    ensures IsAncestor(acts, p) || IsEarlyDir(env, acts, states[|acts|], p)
  {
    var full := states[|acts|];
    if p in Undone(env, full, acts, 0) {
      UndoneShrinks(env, full, acts, 0);
    } else {
      UndoneExactly(env, full, acts, 0);
      var j :| 0 <= j < |acts| && Spot(acts[j]) == p && Taken(env, acts, full, j, p);
      forall c | IsPlaced(acts, c) ensures c !in env.deny {
        PlacedNotDenied(env, acts, states, c);
      }
      TakenWasEmptied(env, acts, full, j, p);
    }
  }

  /** With nothing added in between, the round trip restores everything exactly if it can. This holds of every run. */
  lemma {:induction false} RestoredExactly(env: Env, acts: seq<Act>, states: seq<FS>)
    requires ActRun(env, acts, states)
    ensures var full := states[|acts|];
            Restored(env, acts, states[0], map[], full, Undone(env, full, acts, 0)) <==>
              Restorable(env, acts, states[0], map[], full)
  {
    var full := states[|acts|];
    RunEffects(env, acts, states);
    if Restorable(env, acts, states[0], map[], full) {
      assert full + map[] == full;
      InstallThenDeinstall(env, acts, states, map[]);
    }
    if Restored(env, acts, states[0], map[], full, Undone(env, full, acts, 0)) {
      forall p | IsPlaced(acts, p) && IsLeaf(full, p) ensures RetrievedAfter(env, acts, full, 0, p) {
        GoneWasRetrieved(env, acts, states, p);
      }
      forall p | IsDir(full, p) && !IsDir(states[0], p) ensures IsAncestor(acts, p) || IsEarlyDir(env, acts, full, p) {
        GoneWasCovered(env, acts, states, p);
      }
    }
  }
}
