/**
 Install items as the table declares them, and what they mean once names are translated.

 Translation is specified here on values. The procedures that overwrite the item's pointers with
 static buffers are in Translation.dfy.
 */
module Items {
  import opened Wrappers
  import opened Paths
  import opened Names
  import opened FileSystem

  datatype Op = Copy | CopyExec | Symlink | Mkdir | Liblink

  /** An item of the table before anything has touched it. */
  datatype Entry = Entry(
    op: Op,
    src: Option<string>,
    dst: Option<string>,
    dir: Option<string>,
    owner: Option<string>,
    group: Option<string>,
    perm: Mode)

  datatype Status = OK | ERROR | FATAL

  /** The strings the operators are left with after a successful translation. */
  datatype Target =
    | CopyTarget(src: string, dst: string)
    | LinkTarget(dir: string, src: string, dst: string)
    | DirTarget(dir: string)

  const VIRTUAL_LIBRARY := ".vlb"
  const TEMPORARY := ".tmp"

  predicate IsVirtual(name: string) {
    EndsWith(name, VIRTUAL_LIBRARY)
  }

  /** libname applied to the file called `name`. */
  function ReadLibraryName(env: Env, fs: FS, name: string): Option<string> {
    var r := FileRoute(env.cwd, name);
    if Readable(env, fs, r) then Some(LibraryName(fs[r.at].content)) else None
  }

  function RealName(env: Env, fs: FS, name: string): Option<string> {
    if IsVirtual(name) then ReadLibraryName(env, fs, name) else Some(name)
  }

  function ShortBasename(name: string): Option<string> {
    if |name| < MAX_PATHLEN then Some(Basename(name)) else None
  }

  function RootedFile(env: Env, dir: string, name: string): string {
    match env.fakeRoot
    case None => Format(dir + "/" + name)
    case Some(root) => Format(root + "/" + dir + "/" + name)
  }

  function RootedDir(env: Env, dir: string): string {
    match env.fakeRoot
    case None => dir
    case Some(root) => Format(root + "/" + dir)
  }

  function TranslateCopy(env: Env, fs: FS, e: Entry): (t: Option<Target>)
    ensures t.Some? ==> t.value.CopyTarget?
  {
    if e.src.None? || e.dir.None? then None
    else
      var src := RealName(env, fs, e.src.value);
      var dst := RealName(env, fs, if e.dst.None? then e.src.value else e.dst.value);
      if src.None? || dst.None? then None
      else
        var name := ShortBasename(dst.value);
        if name.None? then None
        else Some(CopyTarget(src.value, RootedFile(env, e.dir.value, name.value)))
  }

  function TranslateCopyExec(env: Env, fs: FS, e: Entry): Option<Target> {
    var t := TranslateCopy(env, fs, e);
    if t.None? then None
    else Some(CopyTarget(Format(t.value.src + env.execSuffix), Format(t.value.dst + env.execSuffix)))
  }

  function TranslateLink(env: Env, e: Entry): Option<Target> {
    if e.src.None? || e.dir.None? || e.dst.None? then None
    else Some(LinkTarget(RootedDir(env, e.dir.value), e.src.value, e.dst.value))
  }

  /** The text of a library link: only a virtual source is reduced to its last component. */
  function LibraryLinkText(env: Env, fs: FS, src: string): Option<string> {
    if IsVirtual(src) then
      var name := ReadLibraryName(env, fs, src);
      if name.None? then None else ShortBasename(name.value)
    else Some(src)
  }

  function TranslateLiblink(env: Env, fs: FS, e: Entry): Option<Target> {
    if e.src.None? || e.dir.None? || e.dst.None? then None
    else
      var src := LibraryLinkText(env, fs, e.src.value);
      var name := ShortBasename(e.dst.value);
      if src.None? || name.None? then None
      else Some(LinkTarget(RootedDir(env, e.dir.value), src.value, Format(name.value + env.dlibSuffix)))
  }

  function TranslateMkdir(env: Env, e: Entry): Option<Target> {
    if e.dir.None? then None else Some(DirTarget(RootedDir(env, e.dir.value)))
  }

  function Translate(env: Env, fs: FS, e: Entry): (t: Option<Target>)
    ensures t.Some? && e.op.Mkdir? ==> t.value.DirTarget?
    ensures t.Some? && (e.op.Copy? || e.op.CopyExec?) ==> t.value.CopyTarget?
    ensures t.Some? && (e.op.Symlink? || e.op.Liblink?) ==> t.value.LinkTarget?
  {
    match e.op
    case Copy => TranslateCopy(env, fs, e)
    case CopyExec => TranslateCopyExec(env, fs, e)
    case Symlink => TranslateLink(env, e)
    case Mkdir => TranslateMkdir(env, e)
    case Liblink => TranslateLiblink(env, fs, e)
  }

  function VirtualRoute(env: Env, name: Option<string>): set<Route> {
    if name.Some? && IsVirtual(name.value) then {FileRoute(env.cwd, name.value)} else {}
  }

  /** The routes of the files whose text a translation reads. */
  function VirtualRoutes(env: Env, e: Entry): set<Route> {
    match e.op
    case Copy | CopyExec => VirtualRoute(env, e.src) + VirtualRoute(env, e.dst)
    case Liblink => VirtualRoute(env, e.src)
    case Symlink | Mkdir => {}
  }

  predicate IsCString(name: Option<string>) {
    name.Some? ==> '\0' !in name.value
  }

  /** What the C code takes for granted of an item: its names are C strings and a directory item has one. */
  predicate ItemOk(e: Entry) {
    IsCString(e.src) && IsCString(e.dst) && IsCString(e.dir) && (e.op.Mkdir? ==> e.dir.Some?)
  }

  /** The same is found by a route in both file systems. */
  ghost predicate SameByRoute(a: FS, b: FS, r: Route) {
    Reached(a, r) == Reached(b, r) && At(a, r.at) == At(b, r.at)
  }

  lemma {:induction false} RealNameReads(env: Env, a: FS, b: FS, name: string)
    requires forall r :: r in VirtualRoute(env, Some(name)) ==> SameByRoute(a, b, r)
    ensures RealName(env, a, name) == RealName(env, b, name)
  {
    if IsVirtual(name) {
      var r := FileRoute(env.cwd, name);
      assert r in VirtualRoute(env, Some(name));
      assert SameByRoute(a, b, r);
    }
  }

  /** Translation looks at the file system only through the virtual library files. */
  lemma {:induction false} TranslateReadsVirtual(env: Env, a: FS, b: FS, e: Entry)
    requires forall r :: r in VirtualRoutes(env, e) ==> SameByRoute(a, b, r)
    ensures Translate(env, a, e) == Translate(env, b, e)
  {
    match e.op
    case Copy | CopyExec =>
      if e.src.Some? { RealNameReads(env, a, b, e.src.value); }
      if e.dst.Some? { RealNameReads(env, a, b, e.dst.value); }
      assert TranslateCopy(env, a, e) == TranslateCopy(env, b, e);
    case Liblink =>
      if e.src.Some? { RealNameReads(env, a, b, e.src.value); }
      assert TranslateLiblink(env, a, e) == TranslateLiblink(env, b, e);
    case Symlink =>
    case Mkdir =>
  }

  /** A name that is no virtual library file, or names one that can be read. */
  predicate NameThere(env: Env, fs: FS, name: string) {
    EndsWith(name, ".vlb") ==> Readable(env, fs, FileRoute(env.cwd, name))
  }

  /** What a name stands for: the first word of the file, if it is a virtual library file. */
  function StandsFor(env: Env, fs: FS, name: string): string
    requires NameThere(env, fs, name)
  {
    if EndsWith(name, ".vlb") then LibraryName(fs[FileRoute(env.cwd, name).at].content) else name
  }

  /**
   The names of a copied item: it needs a source and a directory; the source is what its name stands for, and the
   destination is the last component of what the other name stands for, or of the source if there is none, in the
   directory and below the fake root. For programs both have the suffix.
   */
  lemma {:induction false} CopyNames(env: Env, fs: FS, e: Entry)
    requires e.op.Copy? || e.op.CopyExec?
    ensures var other := if e.dst.Some? then e.dst else e.src;
            Translate(env, fs, e).Some? <==>
              && e.src.Some? && e.dir.Some? && NameThere(env, fs, e.src.value) && NameThere(env, fs, other.value)
              && |StandsFor(env, fs, other.value)| < 1024
    ensures Translate(env, fs, e).Some? ==>
              var other := if e.dst.Some? then e.dst.value else e.src.value;
              var below := if env.fakeRoot.Some? then env.fakeRoot.value + "/" + e.dir.value else e.dir.value;
              var dst := Format(below + "/" + Basename(StandsFor(env, fs, other)));
              && Translate(env, fs, e).value.src ==
                   (if e.op.Copy? then StandsFor(env, fs, e.src.value) else Format(StandsFor(env, fs, e.src.value) + env.execSuffix))
              && Translate(env, fs, e).value.dst == (if e.op.Copy? then dst else Format(dst + env.execSuffix))
  {
  }

  /** Those of a link: it needs a source, a name and a directory; only a library link reads a file and has a suffix. */
  lemma {:induction false} LinkNames(env: Env, fs: FS, e: Entry)
    requires e.op.Symlink? || e.op.Liblink?
    ensures Translate(env, fs, e).Some? <==>
              && e.src.Some? && e.dir.Some? && e.dst.Some?
              && (e.op.Liblink? ==> && |e.dst.value| < 1024 && NameThere(env, fs, e.src.value)
                                    && (EndsWith(e.src.value, ".vlb") ==> |StandsFor(env, fs, e.src.value)| < 1024))
    ensures Translate(env, fs, e).Some? ==>
              var t := Translate(env, fs, e).value;
              && t.dir == (if env.fakeRoot.Some? then Format(env.fakeRoot.value + "/" + e.dir.value) else e.dir.value)
              && t.src == (if e.op.Liblink? && EndsWith(e.src.value, ".vlb") then Basename(StandsFor(env, fs, e.src.value)) else e.src.value)
              && t.dst == (if e.op.Symlink? then e.dst.value else Format(Basename(e.dst.value) + env.dlibSuffix))
  {
  }

  // --- Where an item ends up ----------------------------------------------------------------

  /** The path that inst_link creates: it changes to the directory first. */
  function LinkPath(env: Env, t: Target): Path
    requires t.LinkTarget?
  {
    Canon(Canon(env.cwd, t.dir), t.dst)
  }

  /** The path that deinst_link removes and instchk_link looks at: the two strings joined. */
  function JoinedLinkPath(env: Env, t: Target): Path
    requires t.LinkTarget?
  {
    Canon(env.cwd, Format(t.dir + "/" + t.dst))
  }

  function InstallPath(env: Env, t: Target): Path {
    match t
    case CopyTarget(_, dst) => Canon(env.cwd, dst)
    case LinkTarget(_, _, _) => LinkPath(env, t)
    case DirTarget(dir) => Canon(env.cwd, dir)
  }

  function RemovePath(env: Env, t: Target): Path {
    match t
    case CopyTarget(_, dst) => Canon(env.cwd, dst)
    case LinkTarget(_, _, _) => JoinedLinkPath(env, t)
    case DirTarget(dir) => Canon(env.cwd, dir)
  }

  /** A link whose name is relative and whose joined path fits a buffer. */
  predicate PlainLink(t: Target) {
    t.LinkTarget? ==> t.dir != "" && JoinFits(t) && !IsAbsolute(t.dst)
  }

  predicate IsAbsolute(name: string) {
    name != "" && name[0] == '/'
  }

  predicate JoinFits(t: Target)
    requires t.LinkTarget?
  {
    |t.dir| + 1 + |t.dst| < MAX_PATHLEN
  }

  /** What is left of a link's name in the joined path, if the directory fits. */
  function KeptName(t: Target): (kept: string)
    requires t.LinkTarget? && |t.dir| < MAX_PATHLEN
    ensures kept <= t.dst
  {
    var room := MAX_PATHLEN - 1 - |t.dir|;
    if room == 0 then "" else if |t.dst| < room then t.dst else t.dst[..room - 1]
  }

  /** What is cut off the name adds nothing to it: it begins at a slash and consists of slashes and dots. */
  predicate HarmlessCut(kept: string, lost: string) {
    !CutInWord(kept, lost) && Named(Components(lost)) == []
  }

  /**
   The three operator tables agree on where a link lives exactly if its name is relative, or climbs out of
   all of its directory's path before it names anything that stays.
   */
  lemma {:induction false} SamePath(env: Env, t: Target)
    requires t.LinkTarget? && t.dir != "" && JoinFits(t)
    ensures InstallPath(env, t) == RemovePath(env, t) <==>
              !IsAbsolute(t.dst) || |Canon(env.cwd, t.dir)| <= Climb(Components(t.dst))
  {
    CanonJoin(env.cwd, t.dir, t.dst);
    if IsAbsolute(t.dst) {
      var base := Canon(env.cwd, t.dir);
      BaseCounts(base, [], Components(t.dst));
      assert base + [] == base;
    }
  }

  /** In particular an absolute name without ".." agrees only if the directory is the root. */
  lemma {:induction false} AbsoluteLinkDiffers(env: Env, t: Target)
    requires t.LinkTarget? && t.dir != "" && JoinFits(t) && IsAbsolute(t.dst) && Descends(t.dst)
    ensures InstallPath(env, t) == RemovePath(env, t) <==> Canon(env.cwd, t.dir) == []
  {
    SamePath(env, t);
    ClimbNeedsParents(Components(t.dst));
  }

  lemma {:induction false} ClimbNeedsParents(comps: seq<string>)
    requires ".." !in comps
    ensures Climb(comps) == 0
    decreases |comps|
  {
    if comps != [] { ClimbNeedsParents(comps[1..]); }
  }

  /** The joined path of a link that does not fit: the directory and the part of the name that is left. */
  lemma {:induction false} CutLinkPath(env: Env, t: Target)
    requires t.LinkTarget? && t.dir != "" && |t.dir| < MAX_PATHLEN && !JoinFits(t)
    ensures JoinedLinkPath(env, t) == Walk(Canon(env.cwd, t.dir), Components(KeptName(t)))
  {
    var kept, joined := KeptName(t), t.dir + "/" + t.dst;
    if |t.dir| == MAX_PATHLEN - 1 {
      assert joined[..MAX_PATHLEN - 1] == t.dir;
    } else {
      assert joined[..MAX_PATHLEN - 1] == t.dir + "/" + kept;
      CanonJoin(env.cwd, t.dir, kept);
    }
  }

  /** A directory that does not fit is itself cut; the name plays no part. */
  lemma {:induction false} CutDirectory(env: Env, t: Target)
    requires t.LinkTarget? && |t.dir| >= MAX_PATHLEN
    ensures JoinedLinkPath(env, t) == Canon(env.cwd, t.dir[..MAX_PATHLEN - 1])
  {
    assert (t.dir + "/" + t.dst)[..MAX_PATHLEN - 1] == t.dir[..MAX_PATHLEN - 1];
  }

  predicate CutInWord(kept: string, lost: string) {
    kept != "" && !EndsInSlash(kept) && lost != "" && lost[0] != '/'
  }

  /** A cut at a slash takes away whole components. */
  lemma {:induction false} CutAtSlash(kept: string, lost: string)
    requires !CutInWord(kept, lost)
    ensures Components(kept + lost) == Components(kept) + Components(lost)
  {
    if kept == "" {
      assert kept + lost == lost;
    } else if lost == "" {
      assert kept + lost == kept;
      ConcatEmpty(Components(kept));
    } else if EndsInSlash(kept) {
      var head := kept[..|kept| - 1];
      assert kept == head + "/";
      ComponentsSlash(head);
      ComponentsJoin(head, lost);
    } else {
      assert lost == "" + "/" + lost[1..];
      ComponentsJoin("", lost[1..]);
      assert kept + lost == kept + "/" + lost[1..];
      ComponentsJoin(kept, lost[1..]);
    }
  }

  /** The last word of a string that does not end in a slash. */
  lemma {:induction false} LastWord(s: string) returns (before: string, word: string)
    requires s != "" && !EndsInSlash(s)
    ensures s == before + word && word != "" && NoSlash(word) && (before == "" || EndsInSlash(before))
  {
    var u := |s| - 1;
    while u > 0 && s[u - 1] != '/'
      invariant 0 <= u < |s| && NoSlash(s[u..])
    {
      u := u - 1;
    }
    before, word := s[..u], s[u..];
  }

  /** A cut in a word leaves a shorter last word. */
  lemma {:induction false} CutWordInTwo(kept: string, lost: string)
    returns (comps: seq<string>, word: string, more: string, rest: seq<string>)
    requires CutInWord(kept, lost)
    ensures word != "" && more != ""
    ensures Components(kept) == comps + [word] && Components(kept + lost) == comps + [word + more] + rest
  {
    var before: string;
    before, word := LastWord(kept);
    var k := FirstSlash(lost);
    more := lost[..k];
    var tail := lost[k..];
    comps := Components(before);
    ComponentsAddWord(before, word);
    ComponentsAddWord(before, word + more);
    assert kept + lost == before + (word + more) + tail;
    if tail != "" {
      assert tail == "/" + tail[1..];
      ComponentsJoin(before + (word + more), tail[1..]);
      assert before + (word + more) + tail == before + (word + more) + "/" + tail[1..];
      rest := Components(tail[1..]);
    } else {
      assert before + (word + more) + tail == before + (word + more);
      rest := [];
      ConcatEmpty(comps + [word + more]);
    }
  }

  /** A word that goes on after the cut is another name. */
  lemma {:induction false} OtherName(base: Path, comps: seq<string>, word: string, more: string, rest: seq<string>)
    requires word != "" && more != "" && ".." !in comps + [word + more] + rest
    ensures Walk(base, comps + [word + more] + rest) != Walk(base, comps + [word])
  {
    var all := comps + [word + more] + rest;
    assert forall c :: c in comps ==> c in all;
    WalkNames(base, comps);
    WalkConcat(base, comps, [word]);
    WalkWord(Walk(base, comps), word);
    WalkNames(base, all);
    NamedConcat(comps + [word + more], rest);
    NamedConcat(comps, [word + more]);
    assert Named([word + more]) == [word + more];
    var n := |base| + |Named(comps)|;
    assert Walk(base, all)[n] == word + more;
  }

  /**
   A relative name without ".." that does not fit is removed where it was created exactly if the cut is
   harmless.
   */
  lemma {:induction false} CutLink(env: Env, t: Target)
    requires t.LinkTarget? && t.dir != "" && |t.dir| < MAX_PATHLEN && !JoinFits(t)
    requires Descends(t.dst) && !IsAbsolute(t.dst)
    ensures InstallPath(env, t) == RemovePath(env, t) <==> HarmlessCut(KeptName(t), t.dst[|KeptName(t)|..])
  {
    var kept, base := KeptName(t), Canon(env.cwd, t.dir);
    var lost := t.dst[|kept|..];
    assert t.dst == kept + lost;
    CutLinkPath(env, t);
    if CutInWord(kept, lost) {
      var comps, word, more, rest := CutWordInTwo(kept, lost);
      OtherName(base, comps, word, more, rest);
    } else {
      CutAtSlash(kept, lost);
      assert forall c :: c in Components(kept) ==> c in Components(t.dst);
      WalkNames(base, Components(t.dst));
      WalkNames(base, Components(kept));
      NamedConcat(Components(kept), Components(lost));
      ConcatEmpty(Named(Components(kept)));
      SamePrefix(base, Named(Components(t.dst)), Named(Components(kept)));
    }
  }

  // --- The directories that a path string runs through -------------------------------------------

  /**
   Cut `rest` at its slashes and join the pieces, one after another, to what has been cut off
   already: the slash-terminated prefixes of `done + rest` beyond `done`, and the whole with a slash
   added, if that is shorter than `limit`.
   */
  function Cuts(done: string, rest: string, limit: nat): seq<string>
    decreases |rest|
  {
    var k := FirstSlash(rest);
    if rest == "" then []
    else if k == |rest| then (if |done| + k + 1 < limit then [done + rest + "/"] else [])
    else [done + rest[..k] + "/"] + Cuts(done + rest[..k] + "/", rest[k + 1..], limit)
  }

  /** The strings install_rmkdir hands to mkdir. */
  function MkdirStrings(dir: string): seq<string> {
    Cuts("", dir, MAX_PATHLEN)
  }

  /** The routes of all the strings, for mkdir. */
  function Routes(cwd: Path, ss: seq<string>): (rs: seq<Route>)
    ensures |rs| == |ss|
    ensures forall i :: 0 <= i < |ss| ==> rs[i] == DirRoute(cwd, ss[i])
  {
    if ss == [] then [] else Routes(cwd, ss[..|ss| - 1]) + [DirRoute(cwd, ss[|ss| - 1])]
  }
}
