/**
 The operating system under the installer: a file system that system calls change in place.

 Calls that read or write file contents, open for writing, change modes or owners, rename or link, and getcwd,
 may fail of their own accord even where the file system would allow them: which do is up to `luck`, an arbitrary
 function of the number of the call, so that a failure always has a reason. All other calls fail exactly when the
 file system or `env.deny` says so. No call follows a symbolic link: on a way that leads over one every call fails,
 and Steps.dfy promises nothing of such items.
 */
module HostSystem {
  import opened Wrappers
  import opened Paths
  import opened FileSystem

  /** Of the calls from number `from` up to number `to` one has failed of its own accord. */
  ghost predicate Unlucky(luck: nat -> bool, from: nat, to: nat) {
    exists i :: from <= i < to && !luck(i)
  }

  class Host {
    const env: Env
    /** Whether call number i, of those that may fail of their own accord, goes well. */
    const luck: nat -> bool
    var calls: nat
    var fs: FS
    var cwd: Path
    /** Every state of the file system so far, in order. */
    ghost var log: seq<FS>

    ghost predicate Valid()
      reads this
    {
      TreeOk(fs)
    }

    constructor (env: Env, fs: FS, luck: nat -> bool)
      requires TreeOk(fs)
      ensures Valid() && this.env == env && this.fs == fs && cwd == env.cwd && log == [fs]
      ensures this.luck == luck && calls == 0
    {
      this.env := env;
      this.luck := luck;
      calls := 0;
      this.fs := fs;
      cwd := env.cwd;
      log := [fs];
    }

    /** How a string leads to a place from here, for mkdir and rmdir and for all other calls. */
    function DirWay(path: string): Route
      reads this`cwd
    {
      DirRoute(cwd, path)
    }

    function Way(path: string): Route
      reads this`cwd
    {
      FileRoute(cwd, path)
    }

    /** A call that may fail of its own accord, although the file system would allow it. */
    method Try() returns (ok: bool)
      modifies this`calls
      ensures calls == old(calls) + 1 && ok == luck(old(calls))
    {
      ok := luck(calls);
      calls := calls + 1;
    }

    /** Puts a new state in place and records it. */
    method Commit(next: FS)
      requires TreeOk(next)
      modifies this`fs, this`log
      ensures Valid() && fs == next && log == old(log) + [next]
    {
      fs := next;
      log := log + [next];
    }

    /** iposix_mkdir: 1 when a directory was made, otherwise 0 - never -1. */
    method MakeDir(path: string, perm: Mode) returns (r: int)
      requires Valid()
      modifies this`fs, this`log
      ensures Valid() && fs == MkDir(env, old(fs), DirWay(path), NewDir(env, perm))
      ensures log == old(log) + [fs]
      ensures r == if CanCreate(env, old(fs), DirWay(path)) then 1 else 0
    {
      r := if CanCreate(env, fs, DirWay(path)) then 1 else 0;
      if CanCreate(env, fs, DirWay(path)) { TreeWith(fs, DirWay(path).at, NewDir(env, perm)); }
      Commit(MkDir(env, fs, DirWay(path), NewDir(env, perm)));
    }

    method OpenForReading(path: string) returns (ok: bool)
      ensures ok <==> Readable(env, fs, Way(path))
    {
      ok := Readable(env, fs, Way(path));
    }

    method OpenForWriting(path: string) returns (ok: bool)
      requires Valid()
      modifies this`fs, this`log, this`calls
      ensures Valid() && calls == old(calls) + 1
      ensures ok <==> Writable(env, old(fs), Way(path)) && luck(old(calls))
      ensures ok ==> fs == old(fs)[Way(path).at := Truncated(env, old(fs), Way(path))]
      ensures ok ==> log == old(log) + [fs]
      ensures !ok ==> fs == old(fs) && log == old(log)
    {
      var r := Way(path);
      ok := Try();
      ok := ok && Writable(env, fs, r);
      if ok {
        TreeWith(fs, r.at, Truncated(env, fs, r));
        Commit(fs[r.at := Truncated(env, fs, r)]);
      }
    }

    /** The file gains `bytes` at its end. */
    method Append(path: string, bytes: string)
      requires Valid() && Way(path).at in fs && fs[Way(path).at].File?
      modifies this`fs, this`log
      ensures Valid()
      ensures var node := old(fs)[Way(path).at];
              fs == old(fs)[Way(path).at := WithContent(node, node.content + bytes)]
      ensures log == old(log) + [fs]
    {
      var p := Way(path).at;
      TreeWith(fs, p, WithContent(fs[p], fs[p].content + bytes));
      Commit(fs[p := WithContent(fs[p], fs[p].content + bytes)]);
    }

    /** iposix_file_mode_set. */
    method SetMode(path: string, perm: Mode) returns (ok: bool)
      requires Valid() && Way(path).at in fs && fs[Way(path).at].File?
      modifies this`fs, this`log, this`calls
      ensures Valid() && calls == old(calls) + 1 && ok == luck(old(calls))
      ensures ok ==> fs == old(fs)[Way(path).at := WithMode(old(fs)[Way(path).at], perm & FULL_MODE)]
      ensures ok ==> log == old(log) + [fs]
      ensures !ok ==> fs == old(fs) && log == old(log)
    {
      var p := Way(path).at;
      ok := Try();
      if ok {
        TreeWith(fs, p, WithMode(fs[p], perm & FULL_MODE));
        Commit(fs[p := WithMode(fs[p], perm & FULL_MODE)]);
      }
    }

    /** iposix_file_ownership_set. */
    method SetOwner(path: string, uid: int, gid: int) returns (ok: bool)
      requires Valid()
      modifies this`fs, this`log, this`calls
      ensures Valid() && calls == old(calls) + 1
      ensures ok <==> CanChown(old(fs), Way(path)) && luck(old(calls))
      ensures ok ==> fs == old(fs)[Way(path).at := Chowned(old(fs)[Way(path).at], uid, gid)]
      ensures ok ==> log == old(log) + [fs]
      ensures !ok ==> fs == old(fs) && log == old(log)
    {
      var p := Way(path).at;
      ok := Try();
      ok := ok && CanChown(fs, Way(path));
      if ok {
        TreeWith(fs, p, Chowned(fs[p], uid, gid));
        Commit(fs[p := Chowned(fs[p], uid, gid)]);
      }
    }

    method RenameFile(from: string, to: string) returns (ok: bool)
      requires Valid()
      modifies this`fs, this`log, this`calls
      ensures Valid() && calls == old(calls) + 1
      ensures ok <==> CanRename(env, old(fs), Way(from), Way(to)) && luck(old(calls))
      ensures ok ==> fs == Rename(old(fs), Way(from).at, Way(to).at)
      ensures ok ==> log == old(log) + [fs]
      ensures !ok ==> fs == old(fs) && log == old(log)
    {
      var p, q := Way(from), Way(to);
      ok := Try();
      ok := ok && CanRename(env, fs, p, q);
      if ok {
        TreeRename(env, fs, p, q);
        Commit(Rename(fs, p.at, q.at));
      }
    }

    /** iposix_file_link. */
    method MakeLink(text: string, path: string) returns (ok: bool)
      requires Valid()
      modifies this`fs, this`log, this`calls
      ensures Valid() && calls == old(calls) + 1
      ensures ok <==> CanCreate(env, old(fs), Way(path)) && luck(old(calls))
      ensures fs == if ok then old(fs)[Way(path).at := Link(text)] else old(fs)
    {
      var p := Way(path).at;
      ok := Try();
      ok := ok && CanCreate(env, fs, Way(path));
      if ok {
        TreeWith(fs, p, Link(text));
        Commit(fs[p := Link(text)]);
      }
    }

    method Unlink(path: string) returns (ok: bool)
      requires Valid()
      modifies this`fs, this`log
      ensures Valid()
      ensures ok <==> CanUnlink(env, old(fs), Way(path))
      ensures fs == if ok then old(fs) - {Way(path).at} else old(fs)
      ensures log == if ok then old(log) + [fs] else old(log)
    {
      var p := Way(path).at;
      ok := CanUnlink(env, fs, Way(path));
      if ok {
        TreeWithout(fs, p);
        Commit(fs - {p});
      }
    }

    method RemoveDir(path: string) returns (ok: bool)
      requires Valid()
      modifies this`fs, this`log
      ensures Valid()
      ensures ok <==> CanRmdir(env, old(fs), DirWay(path))
      ensures fs == if ok then old(fs) - {DirWay(path).at} else old(fs)
    {
      var r := DirWay(path);
      ok := CanRmdir(env, fs, r);
      if ok {
        TreeWithout(fs, r.at);
        Commit(fs - {r.at});
      }
    }

    /** stat: what is there, if anything is and the way to it is open. */
    function Stat(path: string): Option<Node>
      reads this
    {
      Seen(fs, Way(path))
    }

    /** getcwd may fail. */
    method GetCwd() returns (p: Option<Path>)
      modifies this`calls
      ensures calls == old(calls) + 1 && (p.Some? <==> luck(old(calls)))
      ensures p.Some? ==> p.value == cwd
    {
      var ok := Try();
      p := if ok then Some(cwd) else None;
    }

    /** chdir works for every directory that is reached. */
    method ChangeDir(path: string) returns (ok: bool)
      modifies this`cwd
      ensures ok <==> Reached(fs, old(Way(path))) && IsDir(fs, old(Way(path)).at)
      ensures cwd == if ok then old(Way(path)).at else old(cwd)
    {
      ok := Reached(fs, Way(path)) && IsDir(fs, Way(path).at);
      if ok { cwd := Way(path).at; }
    }

    /** chdir to a path that getcwd has returned. */
    method GoBack(p: Path) returns (ok: bool)
      modifies this`cwd
      ensures ok <==> IsDir(fs, p)
      ensures cwd == if ok then p else old(cwd)
    {
      ok := IsDir(fs, p);
      if ok { cwd := p; }
    }
  }
}
