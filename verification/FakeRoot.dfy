/**
 With a fake root, nothing outside it changes - whether the calls succeed or fail - as long as no item
 leads over a symbolic link, neither one that was there nor one that another item has made.

 The directories above the fake root are visited again by every directory item; since they exist,
 nothing happens to them.
 */
module FakeRoot {
  import opened Wrappers
  import opened Paths
  import opened FileSystem
  import opened Items
  import opened Chains
  import opened Steps

  // --- Acts -----------------------------------------------------------------------------------------

  /** Every path that the act writes to lies in the directory `root`, or is a directory it only visits. */
  ghost predicate Inside(root: Path, fs: FS, act: Act) {
    match act
    case PutFile(_, tmp, dst, _, _, _) => root <= tmp.at && root <= dst.at
    case PutLink(_, name, _, _) => root <= name.at
    case PutDir(chain, seen, _, _, _, _) => root <= seen.at && forall p :: Visits(chain, p) ==> root <= p || IsDir(fs, p)
  }

  /** Outside `root` the two file systems agree. */
  ghost predicate SameOutside(root: Path, a: FS, b: FS) {
    forall p :: !(root <= p) ==> At(a, p) == At(b, p)
  }

  /** One installation step, successful or not. */
  lemma {:induction false} StepInside(env: Env, fs: FS, root: Path, act: Act, ok: bool, now: FS)
    requires TreeOk(fs) && Inside(root, fs, act) && ActStep(env, fs, act, ok, now)
    ensures SameOutside(root, fs, now)
  {
    if act.PutDir? {
      MkDirsFrame(env, fs, act.chain, NewDir(env, act.perm));
      var made := MkDirs(env, fs, act.chain, NewDir(env, act.perm));
      forall p | !(root <= p) ensures At(fs, p) == At(made, p) {
        if p in fs { assert At(made, p) == At(fs, p); }
      }
    }
  }

  // --- Items ----------------------------------------------------------------------------------------

  /** The directory and the name, below the fake root, at which an item is placed. */
  function Placement(env: Env, fs: FS, e: Entry): Option<(string, string)> {
    if e.dir.None? then None
    else match e.op
      case Mkdir => Some((e.dir.value, ""))
      case Symlink => if e.dst.None? then None else Some((e.dir.value, e.dst.value))
      case Liblink => if e.dst.None? then None else Some((e.dir.value, Basename(e.dst.value) + env.dlibSuffix))
      case Copy | CopyExec =>
        var name := if e.dst.None? then e.src else e.dst;
        if name.None? then None
        else
          var actual := RealName(env, fs, name.value);
          if actual.None? then None
          else Some((e.dir.value, Basename(actual.value) + if e.op.CopyExec? then env.execSuffix else ""))
  }

  /** No component of the placement is "..", a link's name is relative, and the paths fit their buffers. */
  predicate Tame(env: Env, fs: FS, e: Entry) {
    && env.fakeRoot.Some?
    && (Placement(env, fs, e).Some? ==>
          var (dir, name) := Placement(env, fs, e).value;
          && Descends(dir) && Descends(name)
          && (e.op.Symlink? || e.op.Liblink? ==> name == "" || name[0] != '/')
          && |env.fakeRoot.value| + |dir| + |name| + 6 < MAX_PATHLEN)
  }

  function RootPath(env: Env): Path
    requires env.fakeRoot.Some?
  {
    Canon(env.cwd, env.fakeRoot.value)
  }

  /** A string below the fake root names a path inside it. */
  lemma {:induction false} BelowRoot(env: Env, rest: string)
    requires EnvOk(env) && env.fakeRoot.Some? && Descends(rest)
    ensures RootPath(env) <= Canon(env.cwd, env.fakeRoot.value + "/" + rest)
  {
    CanonBelow(env.cwd, env.fakeRoot.value, rest);
  }

  lemma {:induction false} DescendsJoin(a: string, b: string)
    requires Descends(a) && Descends(b)
    ensures Descends(a + "/" + b)
  {
    ComponentsJoin(a, b);
  }

  /** The destination and the temporary name of a copied file. */
  lemma {:induction false} FileInside(env: Env, dir: string, name: string)
    requires EnvOk(env) && env.fakeRoot.Some? && Descends(dir) && Descends(name)
    requires |env.fakeRoot.value| + |dir| + |name| + 6 < MAX_PATHLEN
    ensures var dst := env.fakeRoot.value + "/" + dir + "/" + name;
            RootPath(env) <= Canon(env.cwd, dst) && RootPath(env) <= TemporaryFor(env, dst).at
  {
    var root, rest := env.fakeRoot.value, dir + "/" + name;
    var dst := root + "/" + dir + "/" + name;
    assert dst == root + "/" + rest;
    DescendsJoin(dir, name);
    BelowRoot(env, rest);
    DescendsWithSuffix(rest, TEMPORARY);
    BelowRoot(env, rest + TEMPORARY);
    assert dst + TEMPORARY == root + "/" + (rest + TEMPORARY);
  }

  /** What a copied file is called: the fake root, the directory and the name of its placement, none cut short. */
  lemma {:induction false} CopyName(env: Env, fs: FS, e: Entry)
    requires Tame(env, fs, e) && (e.op.Copy? || e.op.CopyExec?) && Translate(env, fs, e).Some?
    ensures var (dir, name) := Placement(env, fs, e).value;
            Translate(env, fs, e).value.dst == env.fakeRoot.value + "/" + dir + "/" + name
  {
    var actual := RealName(env, fs, if e.dst.None? then e.src.value else e.dst.value).value;
    var plain := env.fakeRoot.value + "/" + e.dir.value + "/" + Basename(actual);
    assert TranslateCopy(env, fs, e).value.dst == plain;
    if e.op.CopyExec? {
      ConcatAssociative(env.fakeRoot.value + "/" + e.dir.value + "/", Basename(actual), env.execSuffix);
    }
  }

  lemma {:induction false} CopyInside(env: Env, fs: FS, e: Entry)
    requires EnvOk(env) && Tame(env, fs, e) && (e.op.Copy? || e.op.CopyExec?)
    requires Translate(env, fs, e).Some?
    ensures var dst := Translate(env, fs, e).value.dst;
            RootPath(env) <= Canon(env.cwd, dst) && RootPath(env) <= TemporaryFor(env, dst).at
  {
    CopyName(env, fs, e);
    var (dir, name) := Placement(env, fs, e).value;
    FileInside(env, dir, name);
  }

  lemma {:induction false} LinkInside(env: Env, fs: FS, e: Entry)
    requires EnvOk(env) && Tame(env, fs, e) && (e.op.Symlink? || e.op.Liblink?)
    requires Translate(env, fs, e).Some?
    ensures var t := Translate(env, fs, e).value; RootPath(env) <= LinkPath(env, t) && PlainLink(t)
  {
    var t := Translate(env, fs, e).value;
    var (dir, name) := Placement(env, fs, e).value;
    BelowRoot(env, dir);
    WalkDescends(Canon(env.cwd, t.dir), Components(name));
  }

  /** Every directory that the fake root's own string runs through, up to itself, is there. */
  ghost predicate RootExists(env: Env, fs: FS)
    requires env.fakeRoot.Some?
  {
    forall s :: s <= env.fakeRoot.value + "/" && EndsInSlash(s) ==> IsDir(fs, Canon(env.cwd, s))
  }

  /** A part of a path, up to a slash, has no ".." if the path has none. */
  lemma {:induction false} PartDescends(part: string, rest: string)
    requires EndsInSlash(part) && Descends(part + rest)
    ensures Descends(part)
  {
    var head := part[..|part| - 1];
    assert part == head + "/";
    ComponentsJoin(head, rest);
    ComponentsSlash(head);
  }

  /** What follows the fake root in a string that install_rmkdir hands to mkdir. */
  lemma {:induction false} VisitBelow(env: Env, dir: string, s: string)
    requires EnvOk(env) && env.fakeRoot.Some? && Descends(dir)
    requires SlashPrefix(env.fakeRoot.value + "/" + dir, s, MAX_PATHLEN) && |s| > |env.fakeRoot.value| + 1
    ensures RootPath(env) <= Canon(env.cwd, s)
  {
    var root, full := env.fakeRoot.value, env.fakeRoot.value + "/" + dir;
    var part := s[|root| + 1..];
    if s <= full {
      assert full == s + full[|s|..];
      assert s == root + "/" + part;
      assert part[|part| - 1] == s[|s| - 1];
      assert dir == part + dir[|part|..];
      PartDescends(part, dir[|part|..]);
    } else {
      assert s == root + "/" + (dir + "/");
      assert part == dir + "/";
      ComponentsSlash(dir);
    }
    BelowRoot(env, part);
  }

  /** A visit above the fake root, or at it, finds a directory. */
  lemma {:induction false} VisitAbove(env: Env, fs: FS, dir: string, s: string)
    requires env.fakeRoot.Some? && RootExists(env, fs)
    requires s != "" && SlashPrefix(env.fakeRoot.value + "/" + dir, s, MAX_PATHLEN) && |s| <= |env.fakeRoot.value| + 1
    ensures IsDir(fs, Canon(env.cwd, s))
  {
    var root := env.fakeRoot.value + "/";
    assert (root + dir)[..|s|] == root[..|s|];
    assert s <= root;
  }

  /** The directories visited for an item lie inside the fake root, or are there already. */
  lemma {:induction false} VisitsInside(env: Env, fs: FS, dir: string)
    requires EnvOk(env) && env.fakeRoot.Some? && RootExists(env, fs) && Descends(dir)
    ensures forall p :: Visits(Routes(env.cwd, MkdirStrings(env.fakeRoot.value + "/" + dir)), p) ==>
              RootPath(env) <= p || IsDir(fs, p)
  {
    var ss := MkdirStrings(env.fakeRoot.value + "/" + dir);
    MkdirStringsAre(env.fakeRoot.value + "/" + dir);
    var chain := Routes(env.cwd, ss);
    forall i | 0 <= i < |chain| ensures RootPath(env) <= chain[i].at || IsDir(fs, chain[i].at) {
      assert ss[i] in ss;
      if |ss[i]| > |env.fakeRoot.value| + 1 { VisitBelow(env, dir, ss[i]); } else { VisitAbove(env, fs, dir, ss[i]); }
    }
  }

  /** What install_init finds out with stat is enough, for a fake root named without "..". */
  lemma {:induction false} TestedRootExists(env: Env, fs: FS)
    requires EnvOk(env) && env.fakeRoot.Some? && Descends(env.fakeRoot.value)
    requires TreeOk(fs) && IsDir(fs, RootPath(env))
    ensures RootExists(env, fs)
  {
    var root := env.fakeRoot.value;
    forall s | s <= root + "/" && EndsInSlash(s) ensures IsDir(fs, Canon(env.cwd, s)) {
      var rest := (root + "/")[|s|..];
      assert root + "/" == s + rest;
      ComponentsSlash(root);
      RestDescends(s, rest);
      assert SlashPrefix(root + "/", s, MAX_PATHLEN);
      VisitOnTheWay(env.cwd, root + "/", s, rest);
      SlashAddsNothing(env.cwd, root);
      PrefixesAreDirs(fs, Canon(env.cwd, s), RootPath(env));
    }
  }

  /** The directories visited for an item lie on the way to its own, or are there already. */
  lemma {:induction false} VisitsAccounted(env: Env, fs: FS, dir: string)
    requires EnvOk(env) && env.fakeRoot.Some? && RootExists(env, fs) && Descends(dir)
    ensures var full := env.fakeRoot.value + "/" + dir;
            forall p :: Visits(Routes(env.cwd, MkdirStrings(full)), p) ==> IsDir(fs, p) || p <= Canon(env.cwd, full)
  {
    var root, full := env.fakeRoot.value, env.fakeRoot.value + "/" + dir;
    var ss := MkdirStrings(full);
    MkdirStringsAre(full);
    var chain := Routes(env.cwd, ss);
    forall i | 0 <= i < |chain| ensures IsDir(fs, chain[i].at) || chain[i].at <= Canon(env.cwd, full) {
      var s := ss[i];
      assert s in ss;
      if |s| <= |root| + 1 {
        VisitAbove(env, fs, dir, s);
      } else {
        VisitBeyond(env, dir, s);
      }
    }
  }

  lemma {:induction false} VisitBeyond(env: Env, dir: string, s: string)
    requires env.fakeRoot.Some? && Descends(dir)
    requires SlashPrefix(env.fakeRoot.value + "/" + dir, s, MAX_PATHLEN) && |s| > |env.fakeRoot.value| + 1
    ensures Canon(env.cwd, s) <= Canon(env.cwd, env.fakeRoot.value + "/" + dir)
  {
    var root, full := env.fakeRoot.value, env.fakeRoot.value + "/" + dir;
    if s <= full {
      var part, rest := s[|root| + 1..], full[|s|..];
      assert full == s + rest;
      assert part[|part| - 1] == s[|s| - 1];
      assert dir == part + rest;
      RestDescends(part, rest);
      VisitOnTheWay(env.cwd, full, s, rest);
    } else {
      VisitOnTheWay(env.cwd, full, s, "");
    }
  }

  lemma {:induction false} DirInside(env: Env, fs: FS, e: Entry)
    requires EnvOk(env) && Tame(env, fs, e) && e.op.Mkdir? && e.dir.Some?
    ensures RootPath(env) <= Canon(env.cwd, RootedDir(env, e.dir.value))
  {
    BelowRoot(env, e.dir.value);
  }

  /** A tame item writes inside the fake root; `start` is the file system in which its names are understood. */
  lemma {:induction false} TameInside(env: Env, start: FS, fs: FS, e: Entry, act: Act)
    requires EnvOk(env) && Tame(env, start, e) && RootExists(env, fs) && Plan(env, start, e) == Some(act)
    ensures Inside(RootPath(env), fs, act)
  {
    match e.op
    case Copy | CopyExec => CopyInside(env, start, e);
    case Symlink | Liblink => LinkInside(env, start, e);
    case Mkdir =>
      DirInside(env, start, e);
      VisitsInside(env, fs, e.dir.value);
  }

  // --- Runs -----------------------------------------------------------------------------------------

  /** The library files that the item names lie outside the fake root and are reached over no link. */
  ghost predicate LibrariesOutside(env: Env, fs: FS, e: Entry)
    requires env.fakeRoot.Some?
  {
    forall r, p :: r in VirtualRoutes(env, e) && p in Followed(r) ==> !(RootPath(env) <= p) && !IsLink(fs, p)
  }

  /** The items of a run with a fake root: tame, and reading library names from outside of it. */
  ghost predicate TameRun(env: Env, fs: FS, items: seq<Entry>) {
    && EnvOk(env) && env.fakeRoot.Some?
    && forall i :: 0 <= i < |items| ==> Tame(env, fs, items[i]) && LibrariesOutside(env, fs, items[i])
  }

  /** Where the file systems agree outside the root, an item means the same, and its library files are as plain as before. */
  lemma {:induction false} SameMeaning(env: Env, a: FS, b: FS, e: Entry)
    requires env.fakeRoot.Some? && SameOutside(RootPath(env), a, b) && LibrariesOutside(env, a, e)
    ensures Translate(env, a, e) == Translate(env, b, e) && Plan(env, a, e) == Plan(env, b, e)
    ensures LibrariesPlain(env, b, e)
  {
    forall r | r in VirtualRoutes(env, e) ensures SameByRoute(a, b, r) && LinkFree(b, Followed(r)) {
      OutsideIsSame(env, a, b, r);
    }
    TranslateReadsVirtual(env, a, b, e);
  }

  lemma {:induction false} OutsideIsSame(env: Env, a: FS, b: FS, r: Route)
    requires env.fakeRoot.Some? && SameOutside(RootPath(env), a, b)
    requires forall p :: p in Followed(r) ==> !(RootPath(env) <= p) && !IsLink(a, p)
    ensures SameByRoute(a, b, r) && LinkFree(b, Followed(r))
  {
    forall p | p in Followed(r) ensures At(a, p) == At(b, p) {
    }
    assert r.at in Followed(r) && forall p :: p in r.through ==> p in Followed(r) && At(a, p) == At(b, p);
  }

  /** `acts` has what the items mean in `fs`, as far as they mean anything. */
  ghost predicate MeantBy(env: Env, fs: FS, items: seq<Entry>, acts: seq<Act>) {
    forall i :: 0 <= i < |items| ==> Meant(Plan(env, fs, items[i]), acts)
  }

  predicate Meant(plan: Option<Act>, acts: seq<Act>) {
    plan.Some? ==> plan.value in acts
  }

  /** What holds after any number of calls of install: `start` is the file system in which the names are understood. */
  ghost predicate StillInside(env: Env, acts: seq<Act>, start: FS, fs: FS)
    requires env.fakeRoot.Some?
  {
    SameOutside(RootPath(env), start, fs) && TreeOk(fs) && RootExists(env, fs) && LinksKnown(acts, start, fs)
  }

  /** One call of install. */
  lemma {:induction false} InstallStepInside(env: Env, start: FS, fs: FS, e: Entry, acts: seq<Act>, status: Status, now: FS)
    requires EnvOk(env) && Tame(env, start, e) && LibrariesOutside(env, start, e)
    requires NoLinksCrossed(acts, start) && Meant(Plan(env, start, e), acts)
    requires StillInside(env, acts, start, fs) && InstallStep(env, fs, e, status, now)
    ensures StillInside(env, acts, start, now)
  {
    SameMeaning(env, start, fs, e);
    var plan := Plan(env, start, e);
    if plan.Some? {
      assert CrossesNoLink(fs, plan.value);
      assert ActStep(env, fs, plan.value, status == OK, now);
      TameInside(env, start, fs, e, plan.value);
      ActStaysInside(env, start, fs, plan.value, acts, status == OK, now);
    }
  }

  lemma {:induction false} ActStaysInside(env: Env, start: FS, fs: FS, act: Act, acts: seq<Act>, ok: bool, now: FS)
    requires env.fakeRoot.Some? && act in acts && Inside(RootPath(env), fs, act)
    requires StillInside(env, acts, start, fs) && ActStep(env, fs, act, ok, now)
    ensures StillInside(env, acts, start, now)
  {
    StepInside(env, fs, RootPath(env), act, ok, now);
    ActKeepsDirs(env, fs, act, ok, now);
    LinksStayKnown(env, acts, start, fs, act, ok, now);
  }

  /** Installing never changes anything outside the fake root. */
  lemma {:induction false} InstallStaysInside(env: Env, items: seq<Entry>, acts: seq<Act>, statuses: seq<Status>, states: seq<FS>,
                                              n: nat)
    requires InstallRun(env, items, statuses, states) && n <= |items|
    requires TreeOk(states[0]) && TameRun(env, states[0], items) && RootExists(env, states[0])
    requires MeantBy(env, states[0], items, acts) && NoLinksCrossed(acts, states[0])
    ensures SameOutside(RootPath(env), states[0], states[n]) && StillInside(env, acts, states[0], states[n])
  {
    if n > 0 {
      InstallStaysInside(env, items, acts, statuses, states, n - 1);
      InstallStepInside(env, states[0], states[n - 1], items[n - 1], acts, statuses[n - 1], states[n]);
    }
  }

  /** Where an item is removed, if its names translate. */
  lemma {:induction false} RemovalInside(env: Env, fs: FS, e: Entry)
    requires EnvOk(env) && Tame(env, fs, e) && Translate(env, fs, e).Some?
    ensures RootPath(env) <= RemovalOf(env, Translate(env, fs, e).value).way.at
  {
    match e.op
    case Copy | CopyExec => CopyInside(env, fs, e);
    case Symlink | Liblink =>
      LinkInside(env, fs, e);
      LinkGoneInside(env, Translate(env, fs, e).value);
    case Mkdir => DirInside(env, fs, e);
  }

  lemma {:induction false} LinkGoneInside(env: Env, t: Target)
    requires env.fakeRoot.Some? && t.LinkTarget? && PlainLink(t) && RootPath(env) <= LinkPath(env, t)
    ensures RootPath(env) <= JoinedRoute(env, t).at
  {
    SamePath(env, t);
  }

  /** What is left of `start`: the same outside the fake root, and nothing that was not there. */
  ghost predicate LeftOf(root: Path, start: FS, fs: FS) {
    SameOutside(root, start, fs) && forall p :: p in fs ==> p in start && start[p] == fs[p]
  }

  /** One call of deinstall. */
  lemma {:induction false} DeinstallStepInside(env: Env, start: FS, fs: FS, e: Entry, now: FS)
    requires EnvOk(env) && Tame(env, start, e) && LibrariesOutside(env, start, e) && RemovalPlain(env, start, e)
    requires LeftOf(RootPath(env), start, fs) && DeinstallStep(env, fs, e, now)
    ensures LeftOf(RootPath(env), start, now)
  {
    SameMeaning(env, start, fs, e);
    assert RemovalPlain(env, fs, e);
    if Translate(env, start, e).Some? { RemovalInside(env, start, e); }
  }

  /** No removal leads over a link. */
  ghost predicate AllPlain(env: Env, fs: FS, items: seq<Entry>) {
    forall i :: 0 <= i < |items| ==> RemovalPlain(env, fs, items[i])
  }

  /** Nor does deinstalling, if no removal leads over what is a link when it begins. */
  lemma {:induction false} DeinstallStaysInside(env: Env, items: seq<Entry>, states: seq<FS>, k: nat)
    requires DeinstallRun(env, items, states) && k <= |items| && TameRun(env, states[0], items)
    requires AllPlain(env, states[0], items)
    ensures SameOutside(RootPath(env), states[0], states[k]) && LeftOf(RootPath(env), states[0], states[k])
  {
    if k > 0 {
      DeinstallStaysInside(env, items, states, k - 1);
      var e := items[|items| - k];
      assert DeinstallStep(env, states[k - 1], e, states[k]);
      assert Tame(env, states[0], e) && RemovalPlain(env, states[0], e);
      DeinstallStepInside(env, states[0], states[k - 1], e, states[k]);
    }
  }

  /** A directory that climbs first and then names a sibling of the fake root is made outside of it. */
  lemma {:induction false} ParentLeavesRoot(env: Env, word: string)
    requires EnvOk(env) && env.fakeRoot.Some? && RootPath(env) != []
    requires word != "" && NoSlash(word) && word != "." && word != ".."
    requires |env.fakeRoot.value| + |word| + 4 < MAX_PATHLEN && word != RootPath(env)[|RootPath(env)| - 1]
    ensures var e := Entry(Mkdir, None, None, Some("../" + word), None, None, 0);
            var at := InstallPath(env, TranslateMkdir(env, e).value);
            at == Parent(RootPath(env)) + [word] && !(RootPath(env) <= at)
  {
    var root := RootPath(env);
    CanonJoin(env.cwd, env.fakeRoot.value, "../" + word);
    ClimbAndEnter(root, word);
    var at := Parent(root) + [word];
    assert at[|root| - 1] != root[|root| - 1];
  }

  lemma {:induction false} ClimbAndEnter(base: Path, word: string)
    requires base != [] && word != "" && NoSlash(word) && word != "." && word != ".."
    ensures Walk(base, Components("../" + word)) == Parent(base) + [word]
  {
    ComponentsOfWord("..");
    ComponentsOfWord(word);
    ComponentsJoin("..", word);
    assert ".." + "/" + word == "../" + word;
    WalkConcat(base, [".."], [word]);
    WalkWord(base, "..");
    WalkWord(Parent(base), word);
  }
}
