/** install_rmkdir: the loop that cuts a path at its slashes and calls mkdir on each part. */
module MakeDirectories {
  import opened Wrappers
  import opened Paths
  import opened Names
  import opened FileSystem
  import opened Items
  import opened Chains
  import opened HostSystem

  /** A C string in a buffer: everything before the terminator at `n`. */
  lemma {:induction false} CTextIs(s: string, n: nat)
    requires n < |s| && s[n] == '\0' && '\0' !in s[..n]
    ensures CText(s) == s[..n]
  {
    if n > 0 {
      assert s[0] == s[..n][0];
      assert s[1..][..n - 1] == s[..n][1..];
      CTextIs(s[1..], n - 1);
      assert s[..n] == [s[0]] + s[1..][..n - 1];
    }
  }

  lemma {:induction false} MkDirsAppend(env: Env, fs: FS, ss: seq<string>, s: string, node: Node)
    ensures MkDirs(env, fs, Routes(env.cwd, ss + [s]), node) ==
            MkDir(env, MkDirs(env, fs, Routes(env.cwd, ss), node), DirRoute(env.cwd, s), node)
  {
    RoutesAppend(env.cwd, ss, s);
    var ps := Routes(env.cwd, ss);
    assert (ps + [DirRoute(env.cwd, s)])[..|ps|] == ps;
  }

  /** Writes `word`, a slash and a terminator into the buffer from index `at` on. */
  method AddComponent(buf: array<char>, at: nat, word: string)
    requires at + |word| + 1 < buf.Length
    modifies buf
    ensures buf[..at + |word| + 1] == old(buf[..at]) + word + "/"
    ensures buf[at + |word| + 1] == '\0'
  {
    for i := 0 to |word|
      invariant buf[..at + i] == old(buf[..at]) + word[..i]
    {
      buf[at + i] := word[i];
    }
    buf[at + |word|] := '/';
    buf[at + |word| + 1] := '\0';
  }

  /** The directories made once the strings `made` have been given to mkdir. */
  ghost predicate Made(env: Env, start: FS, made: seq<string>, perm: Mode, now: FS) {
    now == MkDirs(env, start, Routes(env.cwd, made), NewDir(env, perm))
  }

  lemma {:induction false} MadeOneMore(env: Env, start: FS, made: seq<string>, perm: Mode, now: FS, s: string)
    requires Made(env, start, made, perm, now)
    ensures Made(env, start, made + [s], perm, MkDir(env, now, DirRoute(env.cwd, s), NewDir(env, perm)))
  {
    MkDirsAppend(env, start, made, s, NewDir(env, perm));
  }

  /** One turn of the loop: extend the buffer by a component and make that directory. */
  method MakeNext(host: Host, buf: array<char>, dir: string, ghost start: FS, ghost made: seq<string>,
                  done: string, rest: string, perm: Mode)
    returns (ghost next: string)
    requires host.Valid() && host.cwd == host.env.cwd && buf.Length == MAX_PATHLEN
    requires rest != "" && |done| + FirstSlash(rest) + 1 < MAX_PATHLEN && buf[..|done|] == done
    requires Pending(dir, made, done, rest) && Made(host.env, start, made, perm, host.fs)
    modifies host`fs, host`log, buf
    ensures host.Valid() && next == done + rest[..FirstSlash(rest)] + "/" && buf[..|next|] == next
    ensures Pending(dir, made + [next], next, AfterCut(rest))
    ensures Made(host.env, start, made + [next], perm, host.fs)
  {
    var word := rest[..FirstSlash(rest)];
    next := done + word + "/";
    NextCut(dir, made, done, rest);
    MadeOneMore(host.env, start, made, perm, host.fs, next);
    AddComponent(buf, |done|, word);
    CTextIs(buf[..], |next|) by { assert buf[..][..|next|] == buf[..|next|]; }
    var r := host.MakeDir(CText(buf[..]), perm);
    if r == -1 { assert false; }
  }

  /**
   `made` lists the strings given to mkdir. The result is false, and nothing is done, only for a path
   that does not fit the buffer; a path of exactly MAX_PATHLEN - 1 characters without a slash at its
   end loses its last component and still succeeds.
   */
  method MakePath(host: Host, dir: string, perm: Mode) returns (ok: bool, ghost made: seq<string>)
    requires host.Valid() && host.cwd == host.env.cwd
    requires '\0' !in dir
    modifies host`fs, host`log
    ensures host.Valid()
    ensures ok <==> |dir| < MAX_PATHLEN
    ensures made == if ok then MkdirStrings(dir) else []
    ensures Made(host.env, old(host.fs), made, perm, host.fs)
  {
    var pathBuf := new char[MAX_PATHLEN];
    var bufLen: int := MAX_PATHLEN;
    var bufPos: int := 0;
    var len: int := |dir|;
    var rest := dir;
    made := [];
    ghost var start, done := host.fs, "";
    if len >= MAX_PATHLEN { return false, made; }

    while len != 0
      invariant host.Valid() && fresh(pathBuf)
      invariant Pending(dir, made, done, rest) && len == |rest|
      invariant 0 <= bufPos && bufPos + bufLen == MAX_PATHLEN
      invariant len != 0 ==> bufPos == |done| && pathBuf[..bufPos] == done
      invariant Made(host.env, start, made, perm, host.fs)
      decreases len
    {
      var pos := FirstSlash(rest);
      if bufLen <= pos + 1 {
        NextCut(dir, made, done, rest);
        return true, made;
      }
      done := MakeNext(host, pathBuf, dir, start, made, pathBuf[..bufPos], rest, perm);
      made := made + [done];
      bufPos := bufPos + pos + 1;
      bufLen := bufLen - pos - 1;
      rest := AfterCut(rest);
      len := |rest|;
    }
    ok := true;
  }

  /** What follows the piece up to the first slash, and the slash. */
  function AfterCut(rest: string): (tail: string)
    requires rest != ""
    ensures |tail| < |rest|
  {
    var pos := FirstSlash(rest);
    if pos < |rest| then rest[pos + 1..] else ""
  }

  /** `made` has been made, which covers the path up to `done`; `rest` is still to be cut. */
  ghost predicate Pending(dir: string, made: seq<string>, done: string, rest: string) {
    && '\0' !in done && '\0' !in rest
    && made + Cuts(done, rest, MAX_PATHLEN) == MkdirStrings(dir)
    && (rest != "" ==> |done| + |rest| < MAX_PATHLEN)
  }

  /** What is pending after the next cut, or that there is none. */
  lemma {:induction false} NextCut(dir: string, made: seq<string>, done: string, rest: string)
    requires rest != "" && Pending(dir, made, done, rest)
    ensures var k := FirstSlash(rest);
            var next := done + rest[..k] + "/";
            if |done| + k + 1 < MAX_PATHLEN then Pending(dir, made + [next], next, AfterCut(rest))
            else made == MkdirStrings(dir)
  {
    if FirstSlash(rest) == |rest| { LastCut(dir, made, done, rest); } else { InnerCut(dir, made, done, rest); }
  }

  lemma {:induction false} LastCut(dir: string, made: seq<string>, done: string, rest: string)
    requires rest != "" && Pending(dir, made, done, rest) && FirstSlash(rest) == |rest|
    ensures var next := done + rest + "/";
            rest[..|rest|] == rest
            && if |done| + |rest| + 1 < MAX_PATHLEN then Pending(dir, made + [next], next, "") else made == MkdirStrings(dir)
  {
    var next := done + rest + "/";
    ConcatEmpty(made);
    ConcatEmpty(made + [next]);
  }

  lemma {:induction false} InnerCut(dir: string, made: seq<string>, done: string, rest: string)
    requires rest != "" && Pending(dir, made, done, rest) && FirstSlash(rest) < |rest|
    ensures var next := done + rest[..FirstSlash(rest)] + "/";
            |next| < MAX_PATHLEN && Pending(dir, made + [next], next, AfterCut(rest))
  {
    var k := FirstSlash(rest);
    var next, tail := done + rest[..k] + "/", rest[k + 1..];
    ConcatAssociative(made, [next], Cuts(next, tail, MAX_PATHLEN));
  }
}
