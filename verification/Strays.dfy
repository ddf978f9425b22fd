/**
 What the names of the items decide about installing and deinstalling.

 A directory item makes every directory that its string runs through. One that lies beside the item's
 path, as ".." makes possible, and that no other item accounts for, stays behind; so does one whose only
 items are named with a final ".", which rmdir refuses.
 */
module Strays {
  import opened Paths
  import opened FileSystem
  import opened Chains
  import opened Steps
  import opened InstallRuns

  // --- Trails -----------------------------------------------------------------------------------------

  /** What the removal of the act passes through is the start or is visited. */
  ghost predicate WayVisited(start: Path, act: Act)
    requires act.PutDir?
  {
    forall q :: q in act.gone.through ==> q == start || Visits(act.chain, q)
  }

  /** The visits form a trail from the root or from the working directory. */
  ghost predicate TrailOk(cwd: Path, act: Act)
    requires act.PutDir?
  {
    || (Trail(Begin([]), act.chain) && WayVisited([], act))
    || (Trail(Begin(cwd), act.chain) && WayVisited(cwd, act))
  }

  ghost predicate TrailsOk(env: Env, acts: seq<Act>) {
    forall i :: 0 <= i < |acts| && acts[i].PutDir? ==> TrailOk(env.cwd, acts[i])
  }

  lemma {:induction false} TrailStart(cwd: Path, act: Act) returns (start: Path)
    requires act.PutDir? && TrailOk(cwd, act)
    ensures (start == [] || start == cwd) && Trail(Begin(start), act.chain) && WayVisited(start, act)
  {
    if Trail(Begin([]), act.chain) && WayVisited([], act) { start := []; } else { start := cwd; }
  }

  /** No mkdir of any item is blocked, by what was there at the start or by what another item puts there. */
  ghost predicate NoVisitBlocked(env: Env, acts: seq<Act>, start: FS) {
    forall i, p :: 0 <= i < |acts| && acts[i].PutDir? && Visits(acts[i].chain, p) ==> Open(env, start, p) && !IsPlaced(acts, p)
  }

  /** What is open at the start still is when an item's turn comes. */
  lemma {:induction false} StaysOpen(env: Env, acts: seq<Act>, states: seq<FS>, i: nat, p: Path)
    requires EffectRun(env, acts, states) && i < |states| && Open(env, states[0], p) && !IsPlaced(acts, p)
    ensures Open(env, states[i], p)
  {
    if IsDir(states[0], p) {
      DirsStay(env, acts, states, 0, i, p);
    } else if IsLeaf(states[i], p) {
      var k := WhoPlaced(env, acts, states, 0, i, p);
      assert IsPlaced(acts, p);
    }
  }

  /** Every visited path is a directory when everything is installed. */
  lemma {:induction false} VisitedIsMade(env: Env, acts: seq<Act>, states: seq<FS>, i: nat, p: Path)
    requires ActRun(env, acts, states) && EffectRun(env, acts, states) && TrailsOk(env, acts)
    requires NoVisitBlocked(env, acts, states[0]) && IsDir(states[0], env.cwd)
    requires i < |acts| && acts[i].PutDir? && Visits(acts[i].chain, p)
    ensures IsDir(states[|acts|], p)
  {
    var act := acts[i];
    var start := TrailStart(env.cwd, act);
    DirsStay(env, acts, states, 0, i, start);
    forall q | Visits(act.chain, q) ensures Open(env, states[i], q) {
      StaysOpen(env, acts, states, i, q);
    }
    var k :| 0 <= k < |act.chain| && act.chain[k].at == p;
    UnblockedIsMade(env, states[i], start, act.chain, k, NewDir(env, act.perm));
    assert ActStep(env, states[i], act, true, states[i + 1]);
    DirsStay(env, acts, states, i + 1, |acts|, p);
  }

  // --- Ways -------------------------------------------------------------------------------------------

  /** A link is removed over directories that its item leads over too. This holds of every relative name that fits. */
  predicate LinkWay(act: Act) {
    act.PutLink? ==> act.gone.named && act.gone.through <= Followed(act.dir) + act.name.through
  }

  ghost predicate LinkWays(acts: seq<Act>) {
    forall i :: 0 <= i < |acts| ==> LinkWay(acts[i])
  }

  /** What the removal of a file or link passes through is there once that has been put in place. */
  lemma {:induction false} LeafReached(env: Env, acts: seq<Act>, states: seq<FS>, m: nat)
    requires ActRun(env, acts, states) && EffectRun(env, acts, states) && LinkWays(acts)
    requires m < |acts| && !acts[m].PutDir?
    ensures Removable(acts[m]) && forall q :: q in Undo(acts[m]).way.through ==> IsDir(states[|acts|], q)
  {
    var act := acts[m];
    assert ActStep(env, states[m], act, true, states[m + 1]) && LinkWay(act);
    forall q | q in Undo(act).way.through ensures IsDir(states[|acts|], q) {
      DirsStay(env, acts, states, m, |acts|, q);
    }
  }

  /** Where the entry of an act is there and its name is accepted, the way to it is there too when its turn comes. */
  ghost predicate WaysOpen(env: Env, acts: seq<Act>, full: FS) {
    forall m :: 0 <= m < |acts| && InPlace(acts[m], full) ==> Works(env, acts, full, m)
  }

  ghost predicate InPlace(act: Act, full: FS) {
    if act.PutDir? then Removable(act) && IsDir(full, Spot(act)) else IsLeaf(full, Spot(act))
  }

  /**
   Everything that a removal passes through is its place or above it, as it is for names without "..", or was
   there from the start and is no item's directory.
   */
  ghost predicate WaysStraight(acts: seq<Act>, start: FS) {
    forall m :: 0 <= m < |acts| ==> WayStraight(acts, start, acts[m])
  }

  ghost predicate WayStraight(acts: seq<Act>, start: FS, act: Act) {
    forall q :: q in Undo(act).way.through ==> q <= Spot(act) || (IsDir(start, q) && !IsItemDir(acts, q))
  }

  /** What a removal passes through beside its place is no directory of a later item, which goes first. */
  ghost predicate WaysKept(acts: seq<Act>) {
    forall m, q :: 0 <= m < |acts| && q in Undo(acts[m]).way.through ==> q <= Spot(acts[m]) || !IsLaterDir(acts, m, q)
  }

  ghost predicate IsLaterDir(acts: seq<Act>, m: nat, q: Path) {
    exists j :: m < j < |acts| && acts[j].PutDir? && Spot(acts[j]) == q
  }

  /** A directory that lies above what is still there, or that no later item names, is there. */
  lemma {:induction false} PassedIsThere(env: Env, acts: seq<Act>, full: FS, m: nat, q: Path)
    requires TreeOk(full) && m < |acts| && IsDir(full, q) && StillThere(env, acts, full, m + 1, Spot(acts[m]))
    requires q <= Spot(acts[m]) || !IsLaterDir(acts, m, q)
    ensures StillThere(env, acts, full, m + 1, q)
  {
    UndoneExactly(env, full, acts, m + 1);
    if q <= Spot(acts[m]) {
      AboveStays(env, full, acts, m + 1, q, Spot(acts[m]));
    } else {
      forall j | m + 1 <= j < |acts| && Spot(acts[j]) == q ensures !Taken(env, acts, full, j, q) {
        assert !acts[j].PutDir?;
      }
    }
  }

  /** Names without "..": the ways are open, whatever else happens. */
  lemma {:induction false} StraightWaysOpen(env: Env, acts: seq<Act>, states: seq<FS>, extra: FS)
    requires ActRun(env, acts, states) && EffectRun(env, acts, states) && LinkWays(acts)
    requires WaysStraight(acts, states[0]) && ExtraOk(env, acts, states[|acts|], extra)
    ensures WaysOpen(env, acts, states[|acts|] + extra)
  {
    var full := states[|acts|] + extra;
    forall m | 0 <= m < |acts| && InPlace(acts[m], full) ensures Works(env, acts, full, m) {
      StraightWayWorks(env, acts, states, extra, m);
    }
  }

  lemma {:induction false} StraightWayWorks(env: Env, acts: seq<Act>, states: seq<FS>, extra: FS, m: nat)
    requires ActRun(env, acts, states) && EffectRun(env, acts, states) && LinkWays(acts)
    requires ExtraOk(env, acts, states[|acts|], extra)
    requires WaysStraight(acts, states[0]) && m < |acts| && InPlace(acts[m], states[|acts|] + extra)
    ensures Works(env, acts, states[|acts|] + extra, m)
  {
    var full := states[|acts|] + extra;
    if !acts[m].PutDir? { LeafReached(env, acts, states, m); }
    assert WayStraight(acts, states[0], acts[m]);
    if StillThere(env, acts, full, m + 1, Spot(acts[m])) {
      forall q | q in Undo(acts[m]).way.through ensures IsDir(full, q) && StillThere(env, acts, full, m + 1, q) {
        if !(q <= Spot(acts[m])) {
          DirsStay(env, acts, states, 0, |acts|, q);
          assert q in states[|acts|].Keys && q !in extra.Keys;
        } else if acts[m].PutDir? {
          PrefixesAreDirs(full, q, Spot(acts[m]));
        } else {
          assert q in states[|acts|].Keys && q !in extra.Keys;
        }
        PassedIsThere(env, acts, full, m, q);
      }
    }
  }

  /** The ways are open where no mkdir is blocked and what lies beside them is kept. */
  lemma {:induction false} KeptWaysOpen(env: Env, acts: seq<Act>, states: seq<FS>)
    requires ActRun(env, acts, states) && EffectRun(env, acts, states) && LinkWays(acts) && TrailsOk(env, acts)
    requires WaysKept(acts) && NoVisitBlocked(env, acts, states[0]) && IsDir(states[0], env.cwd)
    ensures WaysOpen(env, acts, states[|acts|])
  {
    var full := states[|acts|];
    forall m | 0 <= m < |acts| && InPlace(acts[m], full) ensures Works(env, acts, full, m) {
      if StillThere(env, acts, full, m + 1, Spot(acts[m])) {
        forall q | q in Undo(acts[m]).way.through ensures IsDir(full, q) && StillThere(env, acts, full, m + 1, q) {
          WayIsMade(env, acts, states, m, q);
          PassedIsThere(env, acts, full, m, q);
        }
      }
      if !acts[m].PutDir? { LeafReached(env, acts, states, m); }
    }
  }

  lemma {:induction false} WayIsMade(env: Env, acts: seq<Act>, states: seq<FS>, m: nat, q: Path)
    requires ActRun(env, acts, states) && EffectRun(env, acts, states) && LinkWays(acts) && TrailsOk(env, acts)
    requires NoVisitBlocked(env, acts, states[0]) && IsDir(states[0], env.cwd)
    requires m < |acts| && q in Undo(acts[m]).way.through
    ensures IsDir(states[|acts|], q)
  {
    if acts[m].PutDir? {
      var start := TrailStart(env.cwd, acts[m]);
      if q == start {
        DirsStay(env, acts, states, 0, |acts|, q);
      } else {
        VisitedIsMade(env, acts, states, m, q);
      }
    } else {
      LeafReached(env, acts, states, m);
    }
  }

  // --- Who accounts for a directory -------------------------------------------------------------------

  /** Whatever the items put into `p` is also put there by an item after number `j`. */
  ghost predicate PlacedLater(acts: seq<Act>, j: nat, p: Path) {
    forall c :: IsPlaced(acts, c) && c != [] && Parent(c) == p ==> PlacedAfter(acts, j, c)
  }

  ghost predicate PlacedAfter(acts: seq<Act>, j: nat, c: Path) {
    exists m :: j < m < |acts| && !acts[m].PutDir? && Spot(acts[m]) == c
  }

  /** `p` is the directory of an item that comes before everything put into it and has a name that rmdir accepts. */
  ghost predicate NamedEarly(acts: seq<Act>, p: Path) {
    exists j :: 0 <= j < |acts| && acts[j].PutDir? && Spot(acts[j]) == p && Removable(acts[j]) && PlacedLater(acts, j, p)
  }

  /**
   A directory that `act` visits, if it is new, is one that somebody accounts for: it is the act's own, or
   lies above an item's, or is another item's and comes early enough.
   */
  ghost predicate Covered(acts: seq<Act>, start: FS, act: Act, p: Path)
    requires act.PutDir?
  {
    IsDir(start, p) || (p == Spot(act) && Removable(act)) || IsAncestor(acts, p) || NamedEarly(acts, p)
  }

  ghost predicate VisitsCovered(acts: seq<Act>, start: FS) {
    forall i, p :: 0 <= i < |acts| && acts[i].PutDir? && Visits(acts[i].chain, p) ==> Covered(acts, start, acts[i], p)
  }

  /** What is put into a directory that act number `i` has made is put there later. */
  lemma {:induction false} InsideIsLater(env: Env, acts: seq<Act>, states: seq<FS>, i: nat, p: Path, c: Path)
    requires EffectRun(env, acts, states) && i < |acts| && acts[i].PutDir? && p !in states[i]
    requires c != [] && Parent(c) == p && IsLeaf(states[|acts|], c)
    ensures PlacedAfter(acts, i, c)
  {
    assert TreeOk(states[i]) && !ParentIsDir(states[i], c);
    var m := WhoPlaced(env, acts, states, i, |acts|, c);
    assert m != i;
  }

  /** A file that is put into a directory later is taken away before the directory's turn. */
  lemma {:induction false} LaterIsRetrieved(env: Env, acts: seq<Act>, full: FS, j: nat, c: Path)
    requires WaysOpen(env, acts, full) && PlacedAfter(acts, j, c) && IsLeaf(full, c)
    ensures RetrievedAfter(env, acts, full, j + 1, c)
  {
    var m :| j < m < |acts| && !acts[m].PutDir? && Spot(acts[m]) == c;
    assert InPlace(acts[m], full);
  }

  /** A directory that is covered by name is covered. */
  lemma {:induction false} CoveredByName(env: Env, acts: seq<Act>, states: seq<FS>, extra: FS, i: nat, p: Path)
    requires EffectRun(env, acts, states) && ExtraOk(env, acts, states[|acts|], extra)
    requires WaysOpen(env, acts, states[|acts|] + extra)
    requires i < |acts| && acts[i].PutDir? && p !in states[i] && IsDir(states[|acts|], p)
    requires !IsDir(states[0], p) && Covered(acts, states[0], acts[i], p)
    ensures IsAncestor(acts, p) || IsEarlyDir(env, acts, states[|acts|] + extra, p)
  {
    var full := states[|acts|] + extra;
    assert p in states[|acts|].Keys;
    if !IsAncestor(acts, p) {
      var j := i;
      if !(p == Spot(acts[i]) && Removable(acts[i])) {
        j :| 0 <= j < |acts| && acts[j].PutDir? && Spot(acts[j]) == p && Removable(acts[j]) && PlacedLater(acts, j, p);
      }
      assert InPlace(acts[j], full);
      forall c | IsPlaced(acts, c) && IsLeaf(full, c) && c != [] && Parent(c) == p
        ensures RetrievedAfter(env, acts, full, j + 1, c)
      {
        assert c !in extra;
        if !PlacedLater(acts, j, p) { InsideIsLater(env, acts, states, i, p, c); }
        LaterIsRetrieved(env, acts, full, j, c);
      }
      assert EmptiedAfter(env, acts, full, j + 1, p);
    }
  }

  /** With open ways, names that account for every visited directory are enough. */
  lemma {:induction false} RestorableByName(env: Env, acts: seq<Act>, states: seq<FS>, extra: FS)
    requires EffectRun(env, acts, states) && ExtraOk(env, acts, states[|acts|], extra)
    requires WaysOpen(env, acts, states[|acts|] + extra) && VisitsCovered(acts, states[0])
    ensures Restorable(env, acts, states[0], extra, states[|acts|] + extra)
  {
    var full := states[|acts|] + extra;
    forall p | IsPlaced(acts, p) && IsLeaf(full, p) ensures RetrievedAfter(env, acts, full, 0, p) {
      var m :| 0 <= m < |acts| && !acts[m].PutDir? && Spot(acts[m]) == p;
      assert InPlace(acts[m], full);
    }
    forall p | IsDir(full, p) && !IsDir(states[0], p) && p !in extra
      ensures IsAncestor(acts, p) || IsEarlyDir(env, acts, full, p)
    {
      var i := WhoMadeDir(env, acts, states, 0, |acts|, p);
      CoveredByName(env, acts, states, extra, i, p);
    }
  }

  /** For names without "..", whatever else happens and is added: covered visits are enough. */
  lemma {:induction false} StraightNamesRestore(env: Env, acts: seq<Act>, states: seq<FS>, extra: FS)
    requires ActRun(env, acts, states) && LinkWays(acts) && WaysStraight(acts, states[0])
    requires ExtraOk(env, acts, states[|acts|], extra) && VisitsCovered(acts, states[0])
    ensures Restorable(env, acts, states[0], extra, states[|acts|] + extra)
  {
    RunEffects(env, acts, states);
    StraightWaysOpen(env, acts, states, extra);
    RestorableByName(env, acts, states, extra);
  }

  // --- Exactly ----------------------------------------------------------------------------------------

  /** No destination is anybody's temporary name. */
  ghost predicate DestinationsKept(acts: seq<Act>) {
    forall p :: IsPlaced(acts, p) ==> !IsTemporary(acts, p)
  }

  /** What an item has put in place is there when everything is installed. */
  lemma {:induction false} PlacedStays(env: Env, acts: seq<Act>, states: seq<FS>, i: nat, j: nat, p: Path)
    requires EffectRun(env, acts, states) && !IsTemporary(acts, p)
    requires i < j < |states| && !acts[i].PutDir? && Spot(acts[i]) == p
    ensures IsLeaf(states[j], p)
  {
    assert StepEffect(env, states[j - 1], acts[j - 1], states[j]);
    if i < j - 1 { PlacedStays(env, acts, states, i, j - 1, p); }
  }

  /** If a directory is early, then by name. */
  lemma {:induction false} EarlyByName(env: Env, acts: seq<Act>, states: seq<FS>, p: Path)
    requires EffectRun(env, acts, states) && DestinationsKept(acts) && IsEarlyDir(env, acts, states[|acts|], p)
    ensures NamedEarly(acts, p)
  {
    var full := states[|acts|];
    var j :| 0 <= j < |acts| && acts[j].PutDir? && Spot(acts[j]) == p
             && Works(env, acts, full, j) && EmptiedAfter(env, acts, full, j + 1, p);
    forall c | IsPlaced(acts, c) && c != [] && Parent(c) == p ensures PlacedAfter(acts, j, c) {
      var i :| 0 <= i < |acts| && !acts[i].PutDir? && Spot(acts[i]) == c;
      PlacedStays(env, acts, states, i, |acts|, c);
      assert RetrievedAfter(env, acts, full, j + 1, c);
      var m :| j + 1 <= m < |acts| && !acts[m].PutDir? && Spot(acts[m]) == c && Works(env, acts, full, m);
    }
    assert PlacedLater(acts, j, p);
  }

  /**
   Where no mkdir is blocked, no destination is a temporary name and no directory beside a removal's place is
   taken before it: the round trip restores everything if and only if every visited path is covered.
   */
  lemma {:induction false} AccountsExactly(env: Env, acts: seq<Act>, states: seq<FS>)
    requires ActRun(env, acts, states) && TrailsOk(env, acts) && LinkWays(acts) && IsDir(states[0], env.cwd)
    requires NoVisitBlocked(env, acts, states[0]) && DestinationsKept(acts) && WaysKept(acts)
    ensures var full := states[|acts|];
            Restored(env, acts, states[0], map[], full, Undone(env, full, acts, 0)) <==> VisitsCovered(acts, states[0])
  {
    var full := states[|acts|];
    RunEffects(env, acts, states);
    RestoredExactly(env, acts, states);
    if VisitsCovered(acts, states[0]) {
      KeptWaysOpen(env, acts, states);
      assert full + map[] == full;
      RestorableByName(env, acts, states, map[]);
    } else {
      var i, p :| 0 <= i < |acts| && acts[i].PutDir? && Visits(acts[i].chain, p) && !Covered(acts, states[0], acts[i], p);
      VisitedIsMade(env, acts, states, i, p);
      if IsEarlyDir(env, acts, full, p) { EarlyByName(env, acts, states, p); }
    }
  }
}
