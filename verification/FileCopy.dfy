/** install_file_copy: copy through a temporary name, then rename. */
module FileCopy {
  import opened Wrappers
  import opened Paths
  import opened FileSystem
  import opened HostSystem

  const BUFFER_SIZE: nat := 65536

  // --- What a copy does ---------------------------------------------------------------------------

  /** The file system allows the whole copy: source, temporary file, owner and destination. */
  predicate CopyAllowed(env: Env, fs: FS, src: Route, tmp: Route, dst: Route, uid: int) {
    && Readable(env, fs, src)
    && Writable(env, fs, tmp) && tmp.at !in env.deny
    && (env.uid == uid || env.uid == 0)
    && Reached(fs, dst) && ParentIsDir(fs, dst.at) && !IsDir(fs, dst.at) && dst.at !in env.deny
  }

  /**
   Owner and group of the finished file. They are set only when the owner asked for is not the one
   the process has; otherwise a temporary file left over from before hands on its own.
   */
  function CopyOwner(env: Env, fs: FS, tmp: Path, uid: int, gid: int): (int, int) {
    if env.uid != uid then (uid, gid)
    else if tmp in fs && fs[tmp].File? then (fs[tmp].uid, fs[tmp].gid)
    else (env.uid, env.gid)
  }

  /** The text of the copy: opening the temporary file first empties a source of the same name. */
  function CopyText(fs: FS, src: Path, tmp: Path): string
    requires src in fs && fs[src].File?
  {
    if src == tmp then "" else fs[src].content
  }

  function Finished(env: Env, fs: FS, src: Path, tmp: Path, uid: int, gid: int, perm: Mode): Node
    requires src in fs && fs[src].File?
  {
    var owner := CopyOwner(env, fs, tmp, uid, gid);
    File(CopyText(fs, src, tmp), perm & FULL_MODE, owner.0, owner.1)
  }

  /** The destination holds the finished file, the temporary name is gone, all else is as before. */
  ghost predicate CopyDone(env: Env, fs: FS, src: Route, tmp: Route, dst: Route, uid: int, gid: int, perm: Mode, now: FS) {
    && CopyAllowed(env, fs, src, tmp, dst, uid)
    && now == (fs - {tmp.at})[dst.at := Finished(env, fs, src.at, tmp.at, uid, gid, perm)]
  }

  /**
   Nothing but the temporary name is touched, and nothing is left there, unless the kernel does not
   let go of a file that was there before.
   */
  ghost predicate CopyFailed(env: Env, fs: FS, tmp: Path, now: FS) {
    || now == fs
    || (tmp !in env.deny && !IsDir(fs, tmp) && now == fs - {tmp})
    || (tmp in env.deny && tmp in fs && fs[tmp].File? && tmp in now && now[tmp].File? && now == fs[tmp := now[tmp]])
  }

  // --- Streams ------------------------------------------------------------------------------------

  /** fread: some of what is left, or nothing at the end of the file or on an error. */
  method Fread(host: Host, content: string, pos: nat) returns (chunk: string, eof: bool, error: bool)
    requires pos <= |content|
    modifies host`calls
    ensures host.calls == old(host.calls) + 1 && error == !host.luck(old(host.calls))
    ensures pos + |chunk| <= |content| && chunk == content[pos..pos + |chunk|] && |chunk| <= BUFFER_SIZE
    ensures chunk == "" ==> eof || error
    ensures eof ==> pos + |chunk| == |content|
  {
    var ok := host.Try();
    error := !ok;
    if error { return "", false, true; }
    var n :| 0 <= n <= BUFFER_SIZE && pos + n <= |content| && (n == 0 ==> pos == |content|);
    chunk := content[pos..pos + n];
    eof := pos + n == |content|;
  }

  /** `now` is `start` with `text` in the file `tmp`. */
  ghost predicate Filled(start: FS, tmp: Path, text: string, now: FS) {
    tmp in start && start[tmp].File? && now == start[tmp := WithContent(start[tmp], text)]
  }

  ghost predicate Untouched(log: seq<FS>, from: nat, dst: Path, fs: FS) {
    forall k :: from <= k < |log| ==> At(log[k], dst) == At(fs, dst)
  }

  lemma {:induction false} StillUntouched(log: seq<FS>, from: nat, dst: Path, fs: FS, tmp: Path, text: string, now: FS)
    requires Untouched(log, from, dst, fs) && Filled(fs, tmp, text, now) && tmp != dst
    ensures Untouched(log + [now], from, dst, fs)
  {
  }

  lemma {:induction false} TakeMore(text: string, chunk: string, at: nat, w: nat)
    requires at + w <= |chunk|
    ensures text + chunk[..at] + chunk[at..][..w] == text + chunk[..at + w]
  {
    assert chunk[..at] + chunk[at..][..w] == chunk[..at + w];
  }

  /**
   fwrite of what follows the first `at` characters of `chunk`: some of it is appended to the file;
   writing none of it means an error.
   */
  method Fwrite(host: Host, tmp: string, chunk: string, at: nat, ghost start: FS, ghost text: string,
                ghost from: nat, ghost dst: Path)
    returns (w: nat, error: bool)
    requires host.Valid() && at < |chunk|
    requires Filled(start, host.Way(tmp).at, text + chunk[..at], host.fs)
    requires host.Way(tmp).at != dst ==> Untouched(host.log, from, dst, start)
    modifies host`fs, host`log, host`calls
    ensures host.Valid() && at + w <= |chunk| && (w == 0 <==> error)
    ensures host.calls == old(host.calls) + 1 && error == !host.luck(old(host.calls))
    ensures Filled(start, host.Way(tmp).at, text + chunk[..at + w], host.fs)
    ensures host.Way(tmp).at != dst ==> Untouched(host.log, from, dst, start)
  {
    ghost var log := host.log;
    var ok := host.Try();
    error := !ok;
    w :| 0 <= w <= |chunk| - at && (w == 0 <==> error);
    TakeMore(text, chunk, at, w);
    host.Append(tmp, chunk[at..][..w]);
    if host.Way(tmp).at != dst {
      StillUntouched(log, from, dst, start, host.Way(tmp).at, text + chunk[..at + w], host.fs);
    }
  }

  /** The inner loop: hand one chunk to fwrite until all of it is written; what is written and what remains add up. */
  method WriteChunk(host: Host, tmp: string, chunk: string, ghost start: FS, ghost text: string,
                    ghost from: nat, ghost dst: Path)
    returns (ok: bool, ghost written: nat)
    requires host.Valid()
    requires Filled(start, host.Way(tmp).at, text, host.fs)
    requires host.Way(tmp).at != dst ==> Untouched(host.log, from, dst, start)
    modifies host`fs, host`log, host`calls
    ensures host.Valid() && written <= |chunk| && (ok ==> written == |chunk|)
    ensures old(host.calls) <= host.calls && (!ok ==> Unlucky(host.luck, old(host.calls), host.calls))
    ensures Filled(start, host.Way(tmp).at, text + chunk[..written], host.fs)
    ensures host.Way(tmp).at != dst ==> Untouched(host.log, from, dst, start)
  {
    var r := |chunk|;
    var at := 0;
    ConcatEmpty(text);
    while r > 0
      invariant host.Valid() && 0 <= r && 0 <= at && at + r == |chunk| && old(host.calls) <= host.calls
      invariant Filled(start, host.Way(tmp).at, text + chunk[..at], host.fs)
      invariant host.Way(tmp).at != dst ==> Untouched(host.log, from, dst, start)
      decreases r
    {
      var w, error := Fwrite(host, tmp, chunk, at, start, text, from, dst);
      if w == 0 && error { return false, at; }
      r := r - w;
      at := at + w;
    }
    return true, at;
  }

  /** The two loops: the temporary file ends up with the whole source text, or with a part of it on failure. */
  method CopyContents(host: Host, src: string, tmp: string, ghost start: FS, ghost from: nat, ghost dst: Path)
    returns (ok: bool, ghost text: string)
    requires host.Valid() && host.Way(src).at in start && start[host.Way(src).at].File?
    requires Filled(start, host.Way(tmp).at, "", host.fs) && start[host.Way(tmp).at].content == ""
    requires host.Way(tmp).at != dst ==> Untouched(host.log, from, dst, start)
    modifies host`fs, host`log, host`calls
    ensures host.Valid() && Filled(start, host.Way(tmp).at, text, host.fs)
    ensures ok ==> text == start[host.Way(src).at].content
    ensures old(host.calls) <= host.calls && (!ok ==> Unlucky(host.luck, old(host.calls), host.calls))
    ensures host.Way(tmp).at != dst ==> Untouched(host.log, from, dst, start)
  {
    ghost var whole := start[host.Way(src).at].content;
    var pos := 0;
    text := "";
    while true
      invariant host.Valid() && 0 <= pos <= |whole| && text == whole[..pos] && old(host.calls) <= host.calls
      invariant Filled(start, host.Way(tmp).at, text, host.fs)
      invariant host.Way(tmp).at != dst ==> Untouched(host.log, from, dst, start)
      decreases |whole| - pos
    {
      var chunk, eof, error := Fread(host, host.fs[host.Way(src).at].content, pos);
      if chunk == "" {
        if eof { return true, text; }
        if error { return false, text; }
      }
      ghost var written: nat;
      ok, written := WriteChunk(host, tmp, chunk, start, text, from, dst);
      text := text + chunk[..written];
      if !ok { return false, text; }
      pos := pos + |chunk|;
    }
  }

  // --- The whole copy -----------------------------------------------------------------------------

  /** The temporary file as it is just before the rename. */
  ghost predicate Ready(env: Env, fs: FS, src: Route, tmp: Route, uid: int, gid: int, perm: Mode, now: FS) {
    && Readable(env, fs, src) && Writable(env, fs, tmp)
    && (env.uid == uid || env.uid == 0)
    && now == fs[tmp.at := Finished(env, fs, src.at, tmp.at, uid, gid, perm)]
  }

  /** The state `now` differs from `fs` at most in the file `tmp`, which could be opened. */
  ghost predicate OnlyTemporary(env: Env, fs: FS, tmp: Route, now: FS) {
    now == fs || (Writable(env, fs, tmp) && tmp.at in now && now[tmp.at].File? && now == fs[tmp.at := now[tmp.at]])
  }

  /** stdio calls that report success or failure and change no path: fflush and fclose. */
  method StreamCall(host: Host) returns (ok: bool)
    modifies host`calls
    ensures host.calls == old(host.calls) + 1 && ok == host.luck(old(host.calls))
  {
    ok := host.Try();
  }

  /** fchmod and chown of the temporary file, as far as they are wanted and allowed. */
  method SetModeAndOwner(host: Host, tmp: string, uid: int, gid: int, perm: Mode, ghost start: FS,
                         ghost from: nat, ghost dst: Path)
    returns (ok: bool)
    requires host.Valid() && host.Way(tmp).at in host.fs && host.fs[host.Way(tmp).at].File?
    requires host.Way(tmp).at != dst ==> Untouched(host.log, from, dst, start) && At(host.fs, dst) == At(start, dst)
    requires Reached(host.fs, host.Way(tmp))
    modifies host`fs, host`log, host`calls
    ensures host.Valid() && host.Way(tmp).at in host.fs && host.fs[host.Way(tmp).at].File?
    ensures var p, node := host.Way(tmp).at, old(host.fs)[host.Way(tmp).at];
            && host.fs == old(host.fs)[p := host.fs[p]]
            && (ok ==>
                 && (host.env.uid == uid || host.env.uid == 0)
                 && host.fs[p] == File(node.content, perm & FULL_MODE,
                                       if host.env.uid == uid then node.uid else uid,
                                       if host.env.uid == uid then node.gid else gid))
    ensures host.Way(tmp).at != dst ==> Untouched(host.log, from, dst, start)
    ensures old(host.calls) <= host.calls
    ensures !ok ==> Unlucky(host.luck, old(host.calls), host.calls) || (host.env.uid != uid && host.env.uid != 0)
  {
    ok := host.SetMode(tmp, perm);
    if !ok { return; }
    var canChangeOwner := host.env.uid == 0;
    var wantChangeOwner := host.env.uid != uid;
    if !canChangeOwner && wantChangeOwner { return false; }
    if canChangeOwner && wantChangeOwner {
      ok := host.SetOwner(tmp, uid, gid);
    }
  }

  /** Everything up to the rename. */
  method FillTemporary(host: Host, src: string, tmp: string, uid: int, gid: int, perm: Mode, ghost dst: Path)
    returns (ok: bool)
    requires host.Valid() && Readable(host.env, host.fs, host.Way(src))
    modifies host`fs, host`log, host`calls
    ensures host.Valid() && OnlyTemporary(host.env, old(host.fs), host.Way(tmp), host.fs)
    ensures ok ==> Ready(host.env, old(host.fs), host.Way(src), host.Way(tmp), uid, gid, perm, host.fs)
    ensures old(host.calls) <= host.calls
    ensures !ok ==> || Unlucky(host.luck, old(host.calls), host.calls) || (host.env.uid != uid && host.env.uid != 0)
                    || !Writable(host.env, old(host.fs), host.Way(tmp))
    ensures host.Way(tmp).at != dst ==> Untouched(host.log, |old(host.log)|, dst, old(host.fs))
  {
    ghost var env, fs, from, s, t := host.env, host.fs, |host.log|, host.Way(src), host.Way(tmp);
    ok := host.OpenForWriting(tmp);
    if !ok { return; }
    ghost var start := host.fs;
    OpenedTemporary(env, fs, t, start);
    ghost var text: string;
    ok, text := CopyContents(host, src, tmp, start, from, dst);
    ghost var filled := host.fs;
    FilledTemporary(env, fs, t, start, text, filled);
    if ok { ok := StreamCall(host); }
    if !ok { return; }
    ok := SetModeAndOwner(host, tmp, uid, gid, perm, fs, from, dst);
    FinishedTemporary(env, fs, s, t, uid, gid, perm, start, text, filled, host.fs, ok);
  }

  lemma {:induction false} OpenedTemporary(env: Env, fs: FS, tmp: Route, start: FS)
    requires Writable(env, fs, tmp) && start == fs[tmp.at := Truncated(env, fs, tmp)]
    ensures Filled(start, tmp.at, "", start) && start[tmp.at].content == ""
  {
  }

  lemma {:induction false} FilledTemporary(env: Env, fs: FS, tmp: Route, start: FS, text: string, filled: FS)
    requires Writable(env, fs, tmp) && start == fs[tmp.at := Truncated(env, fs, tmp)]
    requires Filled(start, tmp.at, text, filled)
    ensures OnlyTemporary(env, fs, tmp, filled) && tmp.at in filled && filled[tmp.at].File? && Reached(filled, tmp)
  {
    assert filled == fs[tmp.at := filled[tmp.at]];
  }

  lemma {:induction false} FinishedTemporary(env: Env, fs: FS, src: Route, tmp: Route, uid: int, gid: int, perm: Mode,
                                             start: FS, text: string, filled: FS, now: FS, ok: bool)
    requires Readable(env, fs, src) && Writable(env, fs, tmp)
    requires start == fs[tmp.at := Truncated(env, fs, tmp)] && Filled(start, tmp.at, text, filled)
    requires tmp.at in now && now[tmp.at].File? && now == filled[tmp.at := now[tmp.at]]
    ensures OnlyTemporary(env, fs, tmp, now)
    ensures (ok && src.at in start && start[src.at].File? && text == start[src.at].content
             && (env.uid == uid || env.uid == 0)
             && now[tmp.at] == File(filled[tmp.at].content, perm & FULL_MODE,
                                    if env.uid == uid then filled[tmp.at].uid else uid,
                                    if env.uid == uid then filled[tmp.at].gid else gid))
            ==> Ready(env, fs, src, tmp, uid, gid, perm, now)
  {
    assert now == fs[tmp.at := now[tmp.at]];
  }

  /** rename, and its effect on the temporary file. */
  lemma {:induction false} RenameFinishes(env: Env, fs: FS, src: Route, tmp: Route, dst: Route, uid: int, gid: int, perm: Mode, now: FS)
    requires Ready(env, fs, src, tmp, uid, gid, perm, now) && CanRename(env, now, tmp, dst)
    ensures CopyDone(env, fs, src, tmp, dst, uid, gid, perm, Rename(now, tmp.at, dst.at))
  {
    assert now - {tmp.at} == fs - {tmp.at};
    assert IsDir(now, Parent(dst.at)) ==> Parent(dst.at) != tmp.at;
  }

  /** If the copy is allowed, the finished temporary file can be renamed. */
  lemma {:induction false} RenameAllowed(env: Env, fs: FS, src: Route, tmp: Route, dst: Route, uid: int, gid: int, perm: Mode, now: FS)
    requires Ready(env, fs, src, tmp, uid, gid, perm, now) && CopyAllowed(env, fs, src, tmp, dst, uid)
    ensures CanRename(env, now, tmp, dst)
  {
    assert forall p :: IsDir(fs, p) ==> p != tmp.at && IsDir(now, p);
  }

  /**
   At every step the destination is either as it was or, at the very end, complete. On failure it is
   as it was and the temporary file is gone. If the two names coincide, which takes a destination
   that leaves no room for the extension, the first does not hold. It fails only where the file system
   does not allow the copy, or a call has failed of its own accord.
   */
  method InstallFileCopy(host: Host, src: string, dst: string, uid: int, gid: int, perm: Mode) returns (ok: bool)
    requires host.Valid()
    modifies host`fs, host`log, host`calls
    ensures host.Valid()
    ensures CopyStep(host.env, old(host.fs), host.Way(src), host.Way(Format(dst + ".tmp")), host.Way(dst),
                     uid, gid, perm, ok, host.fs)
    ensures var p := host.Way(dst).at;
            p != host.Way(Format(dst + ".tmp")).at ==>
              forall k :: |old(host.log)| <= k < |host.log| ==>
                At(host.log[k], p) == At(old(host.fs), p) || (ok && host.log[k] == host.fs)
    ensures var t := host.Way(Format(dst + ".tmp")).at;
            !ok ==> && (forall p :: p != t ==> At(host.fs, p) == At(old(host.fs), p))
                    && (t !in host.env.deny && t in host.fs ==> host.fs == old(host.fs))
    ensures old(host.calls) <= host.calls
    ensures !ok ==> || Unlucky(host.luck, old(host.calls), host.calls)
                    || !CopyAllowed(host.env, old(host.fs), host.Way(src), host.Way(Format(dst + ".tmp")), host.Way(dst), uid)
  {
    var tmp := Format(dst + ".tmp");
    ok := host.OpenForReading(src);
    if ok { ok := FillAndRename(host, src, tmp, dst, uid, gid, perm); }
  }

  /** What the two outcomes of a copy promise. */
  ghost predicate CopyStep(env: Env, fs: FS, src: Route, tmp: Route, dst: Route, uid: int, gid: int, perm: Mode, ok: bool, now: FS) {
    && (ok ==> CopyDone(env, fs, src, tmp, dst, uid, gid, perm, now))
    && (!ok ==> CopyFailed(env, fs, tmp.at, now))
  }

  /** No state of the log since `from` shows anything at `dst` but the old entry or the finished copy. */
  ghost predicate Atomic(log: seq<FS>, from: nat, dst: Path, ok: bool, fs: FS, now: FS) {
    forall k :: from <= k < |log| ==> At(log[k], dst) == At(fs, dst) || (ok && log[k] == now)
  }

  /** Both streams are closed, then the temporary file is renamed. */
  method MoveIntoPlace(host: Host, tmp: string, dst: string) returns (ok: bool)
    requires host.Valid()
    modifies host`fs, host`log, host`calls
    ensures host.Valid()
    ensures ok ==> CanRename(host.env, old(host.fs), host.Way(tmp), host.Way(dst))
    ensures ok ==> host.fs == Rename(old(host.fs), host.Way(tmp).at, host.Way(dst).at) && host.log == old(host.log) + [host.fs]
    ensures !ok ==> host.fs == old(host.fs) && host.log == old(host.log)
    ensures old(host.calls) <= host.calls
    ensures !ok ==> Unlucky(host.luck, old(host.calls), host.calls) || !CanRename(host.env, old(host.fs), host.Way(tmp), host.Way(dst))
  {
    ok := StreamCall(host);
    if ok { ok := StreamCall(host); }
    if ok { ok := host.RenameFile(tmp, dst); }
  }

  /** The copy once the source is known to open, with the cleaning up that a failure calls for. */
  method FillAndRename(host: Host, src: string, tmp: string, dst: string, uid: int, gid: int, perm: Mode)
    returns (ok: bool)
    requires host.Valid() && Readable(host.env, host.fs, host.Way(src))
    modifies host`fs, host`log, host`calls
    ensures host.Valid()
    ensures CopyStep(host.env, old(host.fs), host.Way(src), host.Way(tmp), host.Way(dst), uid, gid, perm, ok, host.fs)
    ensures host.Way(dst).at != host.Way(tmp).at ==>
              Atomic(host.log, |old(host.log)|, host.Way(dst).at, ok, old(host.fs), host.fs)
    ensures old(host.calls) <= host.calls
    ensures !ok ==> || Unlucky(host.luck, old(host.calls), host.calls)
                    || !CopyAllowed(host.env, old(host.fs), host.Way(src), host.Way(tmp), host.Way(dst), uid)
  {
    ghost var env, fs, from := host.env, host.fs, |host.log|;
    ghost var s, t, d := host.Way(src), host.Way(tmp), host.Way(dst);
    ok := FillTemporary(host, src, tmp, uid, gid, perm, d.at);
    ghost var left, log := host.fs, host.log;
    if ok {
      if CopyAllowed(env, fs, s, t, d, uid) { RenameAllowed(env, fs, s, t, d, uid, gid, perm, left); }
      ok := MoveIntoPlace(host, tmp, dst);
    }
    if ok {
      RenameFinishes(env, fs, s, t, d, uid, gid, perm, left);
      if d.at != t.at { LastState(log, from, d.at, fs, host.fs); }
      return;
    }
    var gone := host.Unlink(tmp);
    RemovedTemporary(env, fs, t, left, host.fs);
    if d.at != t.at { OtherKept(env, fs, t, d.at, left, host.fs); NotTouched(log, from, d.at, fs, host.fs); }
  }

  /** The finished copy appears in the last state only. */
  lemma {:induction false} LastState(log: seq<FS>, from: nat, dst: Path, fs: FS, now: FS)
    requires Untouched(log, from, dst, fs)
    ensures Atomic(log + [now], from, dst, true, fs, now)
  {
  }

  lemma {:induction false} NotTouched(log: seq<FS>, from: nat, dst: Path, fs: FS, now: FS)
    requires Untouched(log, from, dst, fs) && At(now, dst) == At(fs, dst)
    ensures Atomic(log, from, dst, false, fs, now) && Atomic(log + [now], from, dst, false, fs, now)
  {
  }

  lemma {:induction false} OtherKept(env: Env, fs: FS, tmp: Route, dst: Path, left: FS, now: FS)
    requires OnlyTemporary(env, fs, tmp, left) && dst != tmp.at
    requires now == if CanUnlink(env, left, tmp) then left - {tmp.at} else left
    ensures At(now, dst) == At(fs, dst)
  {
  }

  lemma {:induction false} RemovedTemporary(env: Env, fs: FS, tmp: Route, left: FS, now: FS)
    requires OnlyTemporary(env, fs, tmp, left)
    requires now == if CanUnlink(env, left, tmp) then left - {tmp.at} else left
    ensures CopyFailed(env, fs, tmp.at, now)
  {
  }

  /**
   When the finished file has the owner and group that were asked for. If the owner is the process's
   own, neither is set: the group must be the process's too, and a temporary file left over from
   before must have had both already.
   */
  lemma {:induction false} OwnerAsRequested(env: Env, fs: FS, src: Route, tmp: Route, dst: Route, uid: int, gid: int,
                                            perm: Mode, now: FS)
    requires CopyDone(env, fs, src, tmp, dst, uid, gid, perm, now)
    ensures now[dst.at].uid == uid && now[dst.at].gid == gid <==>
            || env.uid != uid
            || (if tmp.at in fs then fs[tmp.at].uid == uid && fs[tmp.at].gid == gid else env.gid == gid)
  {
  }
}
