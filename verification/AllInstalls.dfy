/**
 When every item reports success: the file system allows all that the items ask for, judged by what is there
 at the start and by what the items before have made, and no call fails of its own accord.
 */
module AllInstalls {
  import opened Wrappers
  import opened Paths
  import opened FileSystem
  import opened Items
  import opened Chains
  import opened Steps
  import opened InstallRuns
  import opened Strays
  import opened InstallCheck
  import opened Drivers
  import opened WholeRuns

  // --- What an act needs ----------------------------------------------------------------------------

  /** `q` is a directory at the start, or an item before number `n` makes it one. */
  ghost predicate There(acts: seq<Act>, start: FS, n: nat, q: Path)
    requires n <= |acts|
  {
    IsDir(start, q) || exists j :: 0 <= j < n && acts[j].PutDir? && Visits(acts[j].chain, q)
  }

  ghost predicate RouteThere(acts: seq<Act>, start: FS, n: nat, r: Route)
    requires n <= |acts|
  {
    r.named && Grounded(r) && forall q :: q in r.through ==> There(acts, start, n, q)
  }

  /** Nobody makes `p` a directory, and it is none. */
  ghost predicate NoDirectory(acts: seq<Act>, start: FS, p: Path) {
    !IsDir(start, p) && forall j :: 0 <= j < |acts| && acts[j].PutDir? ==> !Visits(acts[j].chain, p)
  }

  /** A copy finds its source, which can be read, and its directory; its names are nobody's directory and not refused. */
  ghost predicate FileReady(env: Env, acts: seq<Act>, start: FS, n: nat)
    requires n < |acts| && acts[n].PutFile?
  {
    var act := acts[n];
    && RouteThere(acts, start, n, act.src) && RouteThere(acts, start, n, act.tmp) && RouteThere(acts, start, n, act.dst)
    && act.src.at in start && start[act.src.at].File? && act.src.at !in env.unreadable
    && act.tmp.at !in start && NoDirectory(acts, start, act.tmp.at) && act.tmp.at !in env.deny
    && NoDirectory(acts, start, act.dst.at) && act.dst.at !in env.deny
    && (env.uid == act.uid || env.uid == 0)
  }

  /** A link finds its directory and its place free. */
  ghost predicate LinkReady(env: Env, acts: seq<Act>, start: FS, n: nat)
    requires n < |acts| && acts[n].PutLink?
  {
    var act := acts[n];
    && RouteThere(acts, start, n, act.dir) && There(acts, start, n, act.dir.at)
    && RouteThere(acts, start, n, act.name)
    && act.name.at !in start && NoDirectory(acts, start, act.name.at) && act.name.at !in env.deny
  }

  /** A directory gets the owner that the process has or may give. */
  ghost predicate DirReady(env: Env, act: Act)
    requires act.PutDir?
  {
    env.uid == act.uid || (env.uid == 0 && ChainOk(env, act))
  }

  ghost predicate ActReady(env: Env, acts: seq<Act>, start: FS, n: nat)
    requires n < |acts|
  {
    match acts[n]
    case PutFile(_, _, _, _, _, _) => FileReady(env, acts, start, n)
    case PutLink(_, _, _, _) => LinkReady(env, acts, start, n)
    case PutDir(_, _, _, _, _, _) => DirReady(env, acts[n])
  }

  ghost predicate AllReady(env: Env, acts: seq<Act>, start: FS) {
    && NamesApart(acts) && TrailsOk(env, acts) && NoVisitBlocked(env, acts, start) && IsDir(start, env.cwd)
    && (forall i :: 0 <= i < |acts| ==> SameSpot(acts[i]))
    && forall n :: 0 <= n < |acts| ==> ActReady(env, acts, start, n)
  }

  // --- The first acts of a run ------------------------------------------------------------------------

  /** The first `n` acts have been installed: a run of its own. */
  ghost predicate FirstActs(env: Env, acts: seq<Act>, states: seq<FS>, n: nat) {
    n <= |acts| && n < |states| && ActRun(env, acts[..n], states[..n + 1]) && EffectRun(env, acts[..n], states[..n + 1])
  }

  lemma {:induction false} FirstPlaced(acts: seq<Act>, n: nat, p: Path)
    requires n <= |acts|
    ensures IsPlaced(acts[..n], p) ==> IsPlaced(acts, p)
    ensures IsTemporary(acts[..n], p) ==> IsTemporary(acts, p)
  {
    var first := acts[..n];
    if IsPlaced(first, p) {
      var i :| 0 <= i < |first| && !first[i].PutDir? && Spot(first[i]) == p;
      assert acts[i] == first[i];
    }
    if IsTemporary(first, p) {
      var i :| 0 <= i < |first| && first[i].PutFile? && first[i].tmp.at == p;
      assert acts[i] == first[i];
    }
  }

  lemma {:induction false} FirstNotBlocked(env: Env, acts: seq<Act>, start: FS, n: nat)
    requires n <= |acts| && TrailsOk(env, acts) && NoVisitBlocked(env, acts, start)
    ensures TrailsOk(env, acts[..n]) && NoVisitBlocked(env, acts[..n], start)
  {
    var first := acts[..n];
    forall i | 0 <= i < |first| && first[i].PutDir? ensures TrailOk(env.cwd, first[i]) {
      assert acts[i] == first[i];
    }
    forall i, p | 0 <= i < |first| && first[i].PutDir? && Visits(first[i].chain, p)
      ensures Open(env, start, p) && !IsPlaced(first, p)
    {
      assert acts[i] == first[i];
      FirstPlaced(acts, n, p);
    }
  }

  /** What is there by number `n` is a directory when its turn comes. */
  lemma {:induction false} ThereIsDir(env: Env, acts: seq<Act>, states: seq<FS>, n: nat, q: Path)
    requires FirstActs(env, acts, states, n) && AllReady(env, acts, states[0]) && There(acts, states[0], n, q)
    ensures IsDir(states[n], q)
  {
    var first, firstStates := acts[..n], states[..n + 1];
    if IsDir(states[0], q) {
      DirsStay(env, first, firstStates, 0, n, q);
    } else {
      var j :| 0 <= j < n && acts[j].PutDir? && Visits(acts[j].chain, q);
      assert first[j] == acts[j];
      FirstNotBlocked(env, acts, states[0], n);
      VisitedIsMade(env, first, firstStates, j, q);
    }
  }

  lemma {:induction false} WayIsReached(env: Env, acts: seq<Act>, states: seq<FS>, n: nat, r: Route)
    requires FirstActs(env, acts, states, n) && AllReady(env, acts, states[0]) && RouteThere(acts, states[0], n, r)
    ensures Reached(states[n], r) && TreeOk(states[n]) && (r.at != [] ==> ParentIsDir(states[n], r.at))
  {
    forall q | q in r.through ensures IsDir(states[n], q) {
      ThereIsDir(env, acts, states, n, q);
    }
    assert states[..n + 1][n] == states[n];
    ReachedHasParent(states[n], r);
  }

  /** A path that is no directory, and nobody makes one, is none when the turn of number `n` comes. */
  lemma {:induction false} StaysNoDirectory(env: Env, acts: seq<Act>, states: seq<FS>, n: nat, p: Path)
    requires FirstActs(env, acts, states, n) && NoDirectory(acts, states[0], p)
    ensures !IsDir(states[n], p) && p != []
    ensures p !in states[0] && !IsPlaced(acts, p) ==> p !in states[n]
  {
    var first, firstStates := acts[..n], states[..n + 1];
    assert firstStates[n] == states[n] && firstStates[0] == states[0] && TreeOk(firstStates[0]);
    assert forall k :: 0 <= k < n ==> first[k] == acts[k];
    if IsDir(states[n], p) {
      var k := WhoMadeDir(env, first, firstStates, 0, n, p);
    }
    if IsLeaf(states[n], p) && p !in states[0] {
      var k := WhoPlaced(env, first, firstStates, 0, n, p);
      assert IsPlaced(acts, p);
    }
  }

  /** The source of a copy is untouched by then. */
  lemma {:induction false} SourceUntouched(env: Env, acts: seq<Act>, states: seq<FS>, n: nat)
    requires FirstActs(env, acts, states, n) && NamesApart(acts) && n < |acts| && acts[n].PutFile?
    requires acts[n].src.at in states[0] && states[0][acts[n].src.at].File?
    ensures acts[n].src.at in states[n] && states[n][acts[n].src.at].File?
  {
    var p := acts[n].src.at;
    NotPlaced(acts, n);
    FirstPlaced(acts, n, p);
    assert states[..n + 1][0] == states[0] && states[..n + 1][n] == states[n];
    LeavesStay(env, acts[..n], states[..n + 1], n, p);
  }

  lemma {:induction false} FileAllowed(env: Env, acts: seq<Act>, states: seq<FS>, n: nat)
    requires FirstActs(env, acts, states, n) && AllReady(env, acts, states[0]) && n < |acts| && acts[n].PutFile?
    ensures ActAllowed(env, states[n], acts[n])
  {
    var act := acts[n];
    assert ActReady(env, acts, states[0], n);
    WayIsReached(env, acts, states, n, act.src);
    WayIsReached(env, acts, states, n, act.tmp);
    WayIsReached(env, acts, states, n, act.dst);
    SourceUntouched(env, acts, states, n);
    NotPlaced(acts, n);
    StaysNoDirectory(env, acts, states, n, act.tmp.at);
    StaysNoDirectory(env, acts, states, n, act.dst.at);
  }

  lemma {:induction false} LinkAllowed(env: Env, acts: seq<Act>, states: seq<FS>, n: nat)
    requires FirstActs(env, acts, states, n) && AllReady(env, acts, states[0]) && n < |acts| && acts[n].PutLink?
    ensures ActAllowed(env, states[n], acts[n])
  {
    var act := acts[n];
    assert ActReady(env, acts, states[0], n) && SameSpot(act);
    WayIsReached(env, acts, states, n, act.dir);
    WayIsReached(env, acts, states, n, act.name);
    ThereIsDir(env, acts, states, n, act.dir.at);
    StaysNoDirectory(env, acts, states, n, act.name.at);
    NotYetPlaced(env, acts, states, n);
  }

  /** The place of a link is free until its turn. */
  lemma {:induction false} NotYetPlaced(env: Env, acts: seq<Act>, states: seq<FS>, n: nat)
    requires FirstActs(env, acts, states, n) && NamesApart(acts) && n < |acts|
    requires Spot(acts[n]) !in states[0]
    ensures !IsLeaf(states[n], Spot(acts[n]))
  {
    var first, firstStates := acts[..n], states[..n + 1];
    assert firstStates[n] == states[n] && firstStates[0] == states[0];
    assert forall k :: 0 <= k < n ==> first[k] == acts[k];
    if IsLeaf(states[n], Spot(acts[n])) {
      var k := WhoPlaced(env, first, firstStates, 0, n, Spot(acts[n]));
    }
  }

  lemma {:induction false} DirAllowed(env: Env, acts: seq<Act>, states: seq<FS>, n: nat)
    requires FirstActs(env, acts, states, n) && AllReady(env, acts, states[0]) && n < |acts| && acts[n].PutDir?
    ensures ActAllowed(env, states[n], acts[n])
  {
    var act, fs := acts[n], states[n];
    var node := NewDir(env, act.perm);
    assert ActReady(env, acts, states[0], n) && SameSpot(act);
    assert states[..n + 1][n] == fs && TreeOk(fs);
    if env.uid != act.uid {
      FirstNotBlocked(env, acts, states[0], n);
      DirsStay(env, acts[..n], states[..n + 1], 0, n, env.cwd);
      var start := TrailStart(env.cwd, act);
      DirsStay(env, acts[..n], states[..n + 1], 0, n, start);
      forall p | Visits(act.chain, p) ensures Open(env, fs, p) {
        FirstPlaced(acts, n, p);
        StaysOpen(env, acts[..n], states[..n + 1], n, p);
      }
      SeenIsReached(env, fs, act, start);
    }
  }

  /** Where no visit is blocked, a directory item gets to its directory by the way it looks at it. */
  lemma {:induction false} SeenIsReached(env: Env, fs: FS, act: Act, start: Path)
    requires TreeOk(fs) && IsDir(fs, start) && act.PutDir? && SameSpot(act) && ChainOk(env, act)
    requires Trail(Begin(start), act.chain) && WayVisited(start, act) && Unblocked(env, fs, act.chain)
    ensures CanChown(MkDirs(env, fs, act.chain, NewDir(env, act.perm)), act.seen)
  {
    var node, n := NewDir(env, act.perm), |act.chain| - 1;
    var made := MkDirs(env, fs, act.chain, node);
    MkDirsFrame(env, fs, act.chain, node);
    UnblockedIsMade(env, fs, start, act.chain, n, node);
    assert act.chain[n].at == Spot(act) && IsDir(made, Spot(act));
    forall q | q in act.gone.through ensures IsDir(made, q) {
      if q == start {
        assert At(made, q) == At(fs, q);
      } else {
        var k :| 0 <= k < |act.chain| && act.chain[k].at == q;
        UnblockedIsMade(env, fs, start, act.chain, k, node);
      }
    }
  }

  /** When its turn comes, every act that is ready is allowed. */
  lemma {:induction false} ReadyIsAllowed(env: Env, acts: seq<Act>, states: seq<FS>, n: nat)
    requires FirstActs(env, acts, states, n) && AllReady(env, acts, states[0]) && n < |acts|
    ensures ActAllowed(env, states[n], acts[n])
  {
    match acts[n]
    case PutFile(_, _, _, _, _, _) => FileAllowed(env, acts, states, n);
    case PutLink(_, _, _, _) => LinkAllowed(env, acts, states, n);
    case PutDir(_, _, _, _, _, _) => DirAllowed(env, acts, states, n);
  }

  // --- Whole runs ---------------------------------------------------------------------------------------

  lemma {:induction false} InstalledIsFirst(env: Env, states: seq<FS>, acts: seq<Act>, n: nat)
    requires Installed(env, states, acts, n) && forall i :: 0 <= i < |acts| ==> SameSpot(acts[i])
    ensures FirstActs(env, acts, states, n)
  {
    var first, firstStates := acts[..n], states[..n + 1];
    forall i | 0 <= i < n
      ensures ActStep(env, firstStates[i], first[i], true, firstStates[i + 1]) && SameSpot(first[i])
    {
      assert first[i] == acts[i] && firstStates[i] == states[i] && firstStates[i + 1] == states[i + 1];
    }
    assert firstStates[0] == states[0];
    RunEffects(env, first, firstStates);
  }

  /** The next item succeeds, and is installed by its act. */
  lemma {:induction false} NextSucceeds(env: Env, states: seq<FS>, acts: seq<Act>, n: nat, e: Entry, status: Status)
    requires n < |acts| && Installed(env, states, acts, n) && AllReady(env, acts, states[0])
    requires Plan(env, states[0], e) == Some(acts[n]) && LibraryApart(env, states[0], e, acts)
    requires NoLinksCrossed(acts, states[0])
    requires InstallStep(env, states[n], e, status, states[n + 1]) && Answers(env, states[n], e, status)
    ensures status == OK && Installed(env, states, acts, n + 1)
  {
    PlanStays(env, states, acts, n, e);
    NoLinkYet(acts, states[0], states[n], acts[n]);
    InstalledIsFirst(env, states, acts, n);
    ReadyIsAllowed(env, acts, states, n);
    PlainAnswer(env, states[n], e, acts[n], status);
    assert SameSpot(acts[n]);
    InstallNext(env, states, acts, n, e, acts[n]);
  }

  lemma {:induction false} PlainAnswer(env: Env, fs: FS, e: Entry, act: Act, status: Status)
    requires Plan(env, fs, e) == Some(act) && LibrariesPlain(env, fs, e) && CrossesNoLink(fs, act)
    requires ActAllowed(env, fs, act) && Answers(env, fs, e, status)
    ensures status == OK
  {
  }

  /** A run of the installer in which no call fails of its own accord, of items that are ready at the start. */
  ghost predicate ReadyRun(env: Env, entries: seq<Entry>, acts: seq<Act>, statuses: seq<Status>, states: seq<FS>) {
    && InstallRun(env, entries, statuses, states) && AllAnswer(env, entries, statuses, states, |entries|)
    && TreeOk(states[0]) && Settled(env, states[0], entries, acts) && LibrariesApart(env, states[0], entries, acts)
    && NoLinksCrossed(acts, states[0]) && AllReady(env, acts, states[0])
  }

  lemma {:induction false} OneMoreSucceeds(env: Env, entries: seq<Entry>, acts: seq<Act>, statuses: seq<Status>,
                                           states: seq<FS>, n: nat)
    requires ReadyRun(env, entries, acts, statuses, states) && n < |entries| && Installed(env, states, acts, n)
    ensures statuses[n] == OK && Installed(env, states, acts, n + 1)
  {
    assert InstallStep(env, states[n], entries[n], statuses[n], states[n + 1]);
    assert Answers(env, states[n], entries[n], statuses[n]);
    assert Plan(env, states[0], entries[n]) == Some(acts[n]);
    NextSucceeds(env, states, acts, n, entries[n], statuses[n]);
  }

  lemma {:induction false} FirstSucceed(env: Env, entries: seq<Entry>, acts: seq<Act>, statuses: seq<Status>,
                                        states: seq<FS>, n: nat)
    requires ReadyRun(env, entries, acts, statuses, states) && n <= |entries|
    ensures Installed(env, states, acts, n) && forall i :: 0 <= i < n ==> statuses[i] == OK
  {
    if n > 0 {
      FirstSucceed(env, entries, acts, statuses, states, n - 1);
      OneMoreSucceeds(env, entries, acts, statuses, states, n - 1);
    }
  }

  /** Every item of such a run reports success. */
  lemma {:induction false} EverythingInstalls(env: Env, entries: seq<Entry>, acts: seq<Act>, statuses: seq<Status>, states: seq<FS>)
    requires ReadyRun(env, entries, acts, statuses, states)
    ensures AllOk(statuses) && GoodRun(env, entries, acts, statuses, states)
  {
    FirstSucceed(env, entries, acts, statuses, states, |entries|);
  }
}
