/**
 Many builds run sysdep-system at the same time. Each compiles helper programs and runs them, every
 command under sd-locker, which takes a POSIX record lock on a file, forks, and waits for the command.

 One state holds the script, the locker and the command of every process; one step is one action of
 one of them that others can notice. Locks belong to the process that took them: a child does not
 inherit them, and closing the file or exiting drops those of the process that does it and no others
 (fcntl() in the System Interfaces volume of IEEE Std 1003.1-2008).
 */
module ParallelBuild {
  import opened Wrappers

  type Pid = nat

  /** A program file: not there, being written by a linker, or finished. */
  datatype Content = Absent | Partial | Complete

  datatype Program = SharedLocker | OwnLocker(pid: Pid) | Helper(name: string)

  type Files = map<Program, Content>

  /** One locked command of the script. A run may use a helper, directly or through a shell script. */
  datatype Call =
    | Compile(helper: string)
    | Run(lock: string, uses: Option<string>)

  datatype Owner = Locker(pid: Pid) | Child(pid: Pid)

  datatype Lock = Lock(file: string, owner: Owner)

  datatype Phase =
    // SDM_prepare_locker and the test that follows it
    | TestLocker | CompileLocker | LinkLocker | MoveLocker | RetestLocker
    // sd-locker
    | Open | Acquire | Fork | Reap | Release | Close | Exit
    // its child, and sd-compile or the helper in it
    | ChildClose | ChildExec | Testing(helper: string) | Linking(helper: string) | Running(uses: Option<string>)
    // the script again
    | Returned | Failed | Done | Fatal

  /** A build: what it is to do, how far it is, and the variables of its present sd-locker. */
  datatype Proc = Proc(
    script: seq<Call>,
    at: nat,
    phase: Phase,
    locked: bool,
    exitCode: nat,
    status: Option<nat>,   // what the command exited with
    fault: bool)           // a system call of the locker failed

  /** `links` counts the successful links of each helper. */
  datatype State = State(procs: map<Pid, Proc>, locks: set<Lock>, files: Files, links: map<string, nat>)

  /** How an action turns out where the state does not decide it. */
  datatype Choice = Choice(ok: bool, code: nat)

  const EXIT_FAILURE: nat := 1

  function FileOf(files: Files, f: Program): Content {
    if f in files then files[f] else Absent
  }

  function LinksOf(links: map<string, nat>, h: string): nat {
    if h in links then links[h] else 0
  }

  function LockOf(call: Call): string {
    match call
    case Compile(h) => h + ".o.lock"
    case Run(lock, _) => lock
  }

  predicate InCall(p: Proc) {
    p.at < |p.script|
  }

  function Current(p: Proc): Call
    requires InCall(p)
  {
    p.script[p.at]
  }

  /** The lock that the locker of process `pid` is for. */
  function OwnLock(p: Proc, pid: Pid): Lock
    requires InCall(p)
  {
    Lock(LockOf(Current(p)), Locker(pid))
  }

  predicate Preparing(phase: Phase) {
    phase.TestLocker? || phase.CompileLocker? || phase.LinkLocker? || phase.MoveLocker? || phase.RetestLocker?
  }

  predicate InLocker(phase: Phase) {
    phase.Open? || phase.Acquire? || phase.Fork? || phase.Reap? || phase.Release? || phase.Close? || phase.Exit?
  }

  predicate InChild(phase: Phase) {
    phase.ChildClose? || phase.ChildExec? || phase.Testing? || phase.Linking? || phase.Running?
  }

  predicate InScript(phase: Phase) {
    phase.Returned? || phase.Failed?
  }

  // --- Record locks -------------------------------------------------------------------------------

  predicate Grantable(locks: set<Lock>, want: Lock) {
    forall l :: l in locks && l.file == want.file ==> l.owner == want.owner
  }

  /** close() drops the locks that the calling process holds on the file. */
  function DropOn(locks: set<Lock>, owner: Owner, file: string): set<Lock> {
    locks - {Lock(file, owner)}
  }

  /** Exiting drops all of them. */
  function DropAll(locks: set<Lock>, owner: Owner): set<Lock> {
    set l | l in locks && l.owner != owner
  }

  // --- One step -----------------------------------------------------------------------------------

  /** SDM_prepare_locker: the program is linked under a name of its own and then moved; the move may fail unnoticed. */
  function PrepareStep(p: Proc, pid: Pid, files: Files, c: Choice): (Proc, Files)
    requires Preparing(p.phase)
  {
    var own := OwnLocker(pid);
    match p.phase
    case TestLocker => (p.(phase := if FileOf(files, SharedLocker).Absent? then CompileLocker else RetestLocker), files)
    case CompileLocker =>
      if c.ok then (p.(phase := LinkLocker), files[own := Partial]) else (p.(phase := Failed), files)
    case LinkLocker =>
      if c.ok then (p.(phase := MoveLocker), files[own := Complete]) else (p.(phase := Failed), files[own := Absent])
    case MoveLocker =>
      (p.(phase := RetestLocker), if c.ok then files[SharedLocker := FileOf(files, own)][own := Absent] else files)
    case RetestLocker =>
      if FileOf(files, SharedLocker).Absent? then (p.(phase := Failed), files)
      else (p.(phase := Open, locked := false, exitCode := 0, status := None, fault := false), files)
  }

  /** sd_locker_fatal in the locker: it exits with a failure. */
  function Fault(p: Proc): Proc {
    p.(phase := Exit, exitCode := EXIT_FAILURE, fault := true)
  }

  /** sd-locker itself. Only the wait for the lock can keep it from going on. */
  function LockerStep(p: Proc, pid: Pid, locks: set<Lock>, c: Choice): Option<(Proc, set<Lock>)>
    requires InCall(p) && InLocker(p.phase)
  {
    var mine := OwnLock(p, pid);
    match p.phase
    case Open => Some((if c.ok then p.(phase := Acquire) else Fault(p), locks))
    case Acquire =>
      if !c.ok then Some((Fault(p), locks))
      else if !Grantable(locks, mine) then None
      else Some((p.(phase := Fork, locked := true), locks + {mine}))
    case Fork => Some((if c.ok then p.(phase := ChildClose) else Fault(p), locks))
    case Reap => Some((p.(phase := Release, exitCode := if p.status.Some? then p.status.value else 0), locks))
    case Release =>
      Some(if c.ok then (p.(phase := Close, locked := false), DropOn(locks, mine.owner, mine.file)) else (Fault(p), locks))
    case Close =>
      Some(if c.ok then (p.(phase := Exit), DropOn(locks, mine.owner, mine.file)) else (Fault(p), locks))
    case Exit => Some((p.(phase := Returned), DropAll(locks, mine.owner)))
  }

  /** What a child works on. */
  datatype Work = Work(proc: Proc, locks: set<Lock>, files: Files, links: map<string, nat>)

  /** The child exits: its own locks go, and the locker can collect its status. */
  function ChildExits(w: Work, pid: Pid, code: nat): Work {
    w.(proc := w.proc.(phase := Reap, status := Some(code % 256)), locks := DropAll(w.locks, Child(pid)))
  }

  function ChildGoes(w: Work, phase: Phase): Work {
    w.(proc := w.proc.(phase := phase))
  }

  function Writes(w: Work, h: string, content: Content): Work {
    w.(files := w.files[Helper(h) := content])
  }

  /** The child: it closes the lock file and becomes the command. A failed link leaves nothing behind. */
  function CommandStep(w: Work, pid: Pid, c: Choice): Work
    requires InCall(w.proc) && InChild(w.proc.phase)
  {
    var call := Current(w.proc);
    match w.proc.phase
    case ChildClose =>
      if c.ok then ChildGoes(w, ChildExec).(locks := DropOn(w.locks, Child(pid), LockOf(call)))
      else ChildExits(w, pid, EXIT_FAILURE)
    case ChildExec =>
      if !c.ok then ChildExits(w, pid, EXIT_FAILURE)
      else if call.Compile? then ChildGoes(w, Testing(call.helper))
      else if call.uses.Some? && FileOf(w.files, Helper(call.uses.value)).Absent? then ChildExits(w, pid, c.code)
      else ChildGoes(w, Running(call.uses))
    case Testing(h) =>
      if !FileOf(w.files, Helper(h)).Absent? then ChildExits(w, pid, 0)
      else if c.ok then ChildGoes(Writes(w, h, Partial), Linking(h))
      else ChildExits(w, pid, EXIT_FAILURE)
    case Linking(h) =>
      if c.ok then ChildExits(Writes(w, h, Complete).(links := w.links[h := LinksOf(w.links, h) + 1]), pid, 0)
      else ChildExits(Writes(w, h, Absent), pid, EXIT_FAILURE)
    case Running(_) => ChildExits(w, pid, c.code)
  }

  function NextCall(p: Proc): Proc {
    p.(at := p.at + 1, phase := if p.at + 1 < |p.script| then TestLocker else Done)
  }

  /** The script: a failed compilation ends it, a failed run may or may not. */
  function ScriptStep(p: Proc, c: Choice): Proc
    requires InCall(p) && InScript(p.phase)
  {
    if p.phase.Returned? && p.exitCode == 0 then NextCall(p)
    else if Current(p).Compile? || !c.ok then p.(phase := Fatal)
    else NextCall(p)
  }

  /** What process `pid` does next; None if it has to wait or is finished. */
  function Step(s: State, pid: Pid, c: Choice): Option<State>
    requires pid in s.procs
  {
    var p := s.procs[pid];
    if !InCall(p) then None
    else if Preparing(p.phase) then
      var (q, files) := PrepareStep(p, pid, s.files, c);
      Some(s.(procs := s.procs[pid := q], files := files))
    else if InLocker(p.phase) then
      var next := LockerStep(p, pid, s.locks, c);
      if next.None? then None else Some(s.(procs := s.procs[pid := next.value.0], locks := next.value.1))
    else if InChild(p.phase) then
      var w := CommandStep(Work(p, s.locks, s.files, s.links), pid, c);
      Some(State(s.procs[pid := w.proc], w.locks, w.files, w.links))
    else if InScript(p.phase) then
      Some(s.(procs := s.procs[pid := ScriptStep(p, c)]))
    else None
  }

  // --- Runs ---------------------------------------------------------------------------------------

  /** A helper is used only after a call that compiles it. */
  predicate WellOrdered(script: seq<Call>) {
    forall k :: 0 <= k < |script| && script[k].Run? && script[k].uses.Some? ==> CompiledBefore(script, k, script[k].uses.value)
  }

  predicate CompiledBefore(script: seq<Call>, k: nat, h: string)
    requires k <= |script|
  {
    exists j :: 0 <= j < k && script[j] == Compile(h)
  }

  ghost predicate Start(s: State) {
    && (forall pid :: pid in s.procs ==> FreshProc(s.procs[pid]))
    && s.locks == {} && s.links == map[]
    && !FileOf(s.files, SharedLocker).Partial?
    && forall h :: !FileOf(s.files, Helper(h)).Partial?
  }

  predicate FreshProc(p: Proc) {
    p.at == 0 && p.phase == (if p.script == [] then Done else TestLocker) && WellOrdered(p.script)
  }

  ghost predicate Next(s: State, t: State) {
    exists pid, c :: pid in s.procs && Step(s, pid, c) == Some(t)
  }

  ghost predicate IsRun(states: seq<State>) {
    |states| > 0 && Start(states[0]) && forall i :: 0 <= i < |states| - 1 ==> Next(states[i], states[i + 1])
  }

  // --- The invariant ------------------------------------------------------------------------------

  /** The locker holds its lock. */
  predicate Holds(phase: Phase) {
    phase.Fork? || InChild(phase) || phase.Reap? || phase.Release?
  }

  ghost predicate ProcOk(p: Proc) {
    && p.at <= |p.script| && (p.phase.Done? <==> !InCall(p)) && WellOrdered(p.script)
    && FlagOk(p) && CodeOk(p) && CommandOk(p)
  }

  /** What the assertions of sd-locker say of its `locked` flag. */
  predicate FlagOk(p: Proc) {
    && (p.phase.Open? || p.phase.Acquire? ==> !p.locked)
    && (Holds(p.phase) ==> p.locked)
  }

  /** The exit code is that of the command, unless a system call of the locker failed. */
  predicate CodeOk(p: Proc) {
    && (Holds(p.phase) || p.phase.Open? || p.phase.Acquire? || p.phase.Close? ==> !p.fault)
    && (p.phase.Reap? || p.phase.Release? || p.phase.Close? ==> p.status.Some?)
    && (p.phase.Release? || p.phase.Close? ==> p.exitCode == p.status.value)
    && (p.phase.Exit? || p.phase.Returned? ==> if p.fault then p.exitCode == EXIT_FAILURE else p.status == Some(p.exitCode))
  }

  /** The command is that of the present call. */
  predicate CommandOk(p: Proc) {
    match p.phase
    case Testing(h) => InCall(p) && Current(p) == Compile(h)
    case Linking(h) => InCall(p) && Current(p) == Compile(h)
    case Running(uses) => InCall(p) && Current(p).Run? && Current(p).uses == uses
    case _ => true
  }

  ghost predicate ProcsOk(s: State) {
    forall pid :: pid in s.procs ==> ProcOk(s.procs[pid])
  }

  /** A lock is held by the locker of a process that is at a call for that file. */
  ghost predicate LockOk(procs: map<Pid, Proc>, l: Lock) {
    && l.owner.Locker? && l.owner.pid in procs
    && var p := procs[l.owner.pid];
       InCall(p) && l == OwnLock(p, l.owner.pid) && (Holds(p.phase) || p.phase.Exit?)
  }

  ghost predicate Exclusive(locks: set<Lock>) {
    forall a, b :: a in locks && b in locks && a.file == b.file ==> a == b
  }

  ghost predicate LocksOk(procs: map<Pid, Proc>, locks: set<Lock>) {
    && Exclusive(locks)
    && (forall l :: l in locks ==> LockOk(procs, l))
    && (forall pid :: pid in procs ==> HoldsOwn(procs[pid], pid, locks))
  }

  ghost predicate HoldsOwn(p: Proc, pid: Pid, locks: set<Lock>) {
    InCall(p) && Holds(p.phase) ==> OwnLock(p, pid) in locks
  }

  // --- Steps keep it: processes ---------------------------------------------------------------------

  lemma {:induction false} PrepareKeeps(p: Proc, pid: Pid, files: Files, c: Choice)
    requires Preparing(p.phase) && InCall(p) && ProcOk(p)
    ensures var q := PrepareStep(p, pid, files, c).0;
            && ProcOk(q) && q.script == p.script && q.at == p.at
            && (Preparing(q.phase) || q.phase.Failed? || q.phase.Open?)
  {
  }

  lemma {:induction false} LockerKeeps(p: Proc, pid: Pid, locks: set<Lock>, c: Choice)
    requires InLocker(p.phase) && InCall(p) && ProcOk(p) && LockerStep(p, pid, locks, c).Some?
    ensures var q := LockerStep(p, pid, locks, c).value.0;
            ProcOk(q) && q.script == p.script && q.at == p.at && !Preparing(q.phase) && !q.phase.Linking?
  {
  }

  lemma {:induction false} CommandKeeps(w: Work, pid: Pid, c: Choice)
    requires InCall(w.proc) && InChild(w.proc.phase) && ProcOk(w.proc)
    ensures var q := CommandStep(w, pid, c).proc;
            ProcOk(q) && q.script == w.proc.script && q.at == w.proc.at && Holds(q.phase)
  {
  }

  lemma {:induction false} ScriptKeeps(p: Proc, c: Choice)
    requires InCall(p) && InScript(p.phase) && ProcOk(p)
    ensures var q := ScriptStep(p, c);
            ProcOk(q) && q.script == p.script && (q.phase.TestLocker? || q.phase.Done? || q.phase.Fatal?)
  {
  }

  lemma {:induction false} OneReplaced(s: State, pid: Pid, q: Proc, t: State)
    requires ProcsOk(s) && pid in s.procs && ProcOk(q) && t.procs == s.procs[pid := q]
    ensures ProcsOk(t) && t.procs.Keys == s.procs.Keys
  {
  }

  lemma {:induction false} ProcsKept(s: State, pid: Pid, c: Choice, t: State)
    requires ProcsOk(s) && pid in s.procs && Step(s, pid, c) == Some(t)
    ensures ProcsOk(t)
    ensures t.procs.Keys == s.procs.Keys && t.procs == s.procs[pid := t.procs[pid]]
    ensures t.procs[pid].script == s.procs[pid].script
  {
    var p := s.procs[pid];
    assert ProcOk(p);
    var q: Proc;
    if Preparing(p.phase) {
      PrepareKeeps(p, pid, s.files, c);
      q := PrepareStep(p, pid, s.files, c).0;
    } else if InLocker(p.phase) {
      LockerKeeps(p, pid, s.locks, c);
      q := LockerStep(p, pid, s.locks, c).value.0;
    } else if InChild(p.phase) {
      CommandKeeps(Work(p, s.locks, s.files, s.links), pid, c);
      q := CommandStep(Work(p, s.locks, s.files, s.links), pid, c).proc;
    } else {
      ScriptKeeps(p, c);
      q := ScriptStep(p, c);
    }
    OneReplaced(s, pid, q, t);
  }

  // --- Steps keep it: locks -------------------------------------------------------------------------

  /** A process that neither holds a lock before nor after a step leaves the locks in order. */
  lemma {:induction false} Bystander(procs: map<Pid, Proc>, locks: set<Lock>, pid: Pid, q: Proc)
    requires LocksOk(procs, locks) && pid in procs && ProcOk(procs[pid])
    requires !Holds(procs[pid].phase) && !procs[pid].phase.Exit? && !Holds(q.phase)
    ensures LocksOk(procs[pid := q], locks)
  {
    forall l | l in locks ensures LockOk(procs[pid := q], l) {
      assert LockOk(procs, l);
    }
  }

  /** A process that goes on holding its lock. */
  lemma {:induction false} KeepsHolding(procs: map<Pid, Proc>, locks: set<Lock>, pid: Pid, q: Proc)
    requires LocksOk(procs, locks) && pid in procs && InCall(procs[pid]) && Holds(procs[pid].phase)
    requires q.script == procs[pid].script && q.at == procs[pid].at && (Holds(q.phase) || q.phase.Exit?)
    ensures LocksOk(procs[pid := q], locks)
  {
    forall l | l in locks ensures LockOk(procs[pid := q], l) {
      assert LockOk(procs, l);
    }
    assert HoldsOwn(procs[pid], pid, locks);
  }

  /** A process that lets go of its lock: the others keep theirs. */
  lemma {:induction false} LetsGo(procs: map<Pid, Proc>, locks: set<Lock>, pid: Pid, q: Proc, now: set<Lock>)
    requires LocksOk(procs, locks) && pid in procs && InCall(procs[pid]) && !Holds(q.phase)
    requires now <= locks && OwnLock(procs[pid], pid) !in now
    requires forall l :: l in locks && l.owner != Locker(pid) ==> l in now
    ensures LocksOk(procs[pid := q], now)
  {
    forall l | l in now ensures LockOk(procs[pid := q], l) {
      assert LockOk(procs, l);
    }
    forall r | r in procs && r != pid ensures HoldsOwn(procs[r], r, now) {
      assert HoldsOwn(procs[r], r, locks);
    }
  }

  /** A process that is granted a lock: nobody else has it. */
  lemma {:induction false} Granted(procs: map<Pid, Proc>, locks: set<Lock>, pid: Pid, q: Proc)
    requires LocksOk(procs, locks) && pid in procs && InCall(procs[pid]) && Grantable(locks, OwnLock(procs[pid], pid))
    requires !Holds(procs[pid].phase) && !procs[pid].phase.Exit?
    requires q.script == procs[pid].script && q.at == procs[pid].at && Holds(q.phase)
    ensures LocksOk(procs[pid := q], locks + {OwnLock(procs[pid], pid)})
  {
    forall l | l in locks ensures LockOk(procs[pid := q], l) {
      assert LockOk(procs, l);
    }
  }

  /** The locks of children are never there to be dropped. */
  lemma {:induction false} NoChildLocks(procs: map<Pid, Proc>, locks: set<Lock>, pid: Pid, file: string)
    requires LocksOk(procs, locks)
    ensures DropOn(locks, Child(pid), file) == locks && DropAll(locks, Child(pid)) == locks
  {
    forall l | l in locks ensures l.owner != Child(pid) {
      assert LockOk(procs, l);
    }
  }

  lemma {:induction false} LockerLocks(procs: map<Pid, Proc>, locks: set<Lock>, pid: Pid, c: Choice)
    requires LocksOk(procs, locks) && pid in procs && ProcOk(procs[pid])
    requires InCall(procs[pid]) && InLocker(procs[pid].phase) && LockerStep(procs[pid], pid, locks, c).Some?
    ensures var (q, now) := LockerStep(procs[pid], pid, locks, c).value; LocksOk(procs[pid := q], now)
  {
    var p := procs[pid];
    var (q, now) := LockerStep(p, pid, locks, c).value;
    match p.phase
    case Open => Bystander(procs, locks, pid, q);
    case Acquire => if c.ok { Granted(procs, locks, pid, q); } else { Bystander(procs, locks, pid, q); }
    case Fork | Reap => KeepsHolding(procs, locks, pid, q);
    case Release => if c.ok { LetsGo(procs, locks, pid, q, now); } else { KeepsHolding(procs, locks, pid, q); }
    case Close => LetsGo(procs, locks, pid, q, now);
    case Exit => LetsGo(procs, locks, pid, q, now);
  }

  lemma {:induction false} PrepareLocks(procs: map<Pid, Proc>, locks: set<Lock>, pid: Pid, files: Files, c: Choice)
    requires LocksOk(procs, locks) && pid in procs && ProcOk(procs[pid])
    requires InCall(procs[pid]) && Preparing(procs[pid].phase)
    ensures LocksOk(procs[pid := PrepareStep(procs[pid], pid, files, c).0], locks)
  {
    PrepareKeeps(procs[pid], pid, files, c);
    Bystander(procs, locks, pid, PrepareStep(procs[pid], pid, files, c).0);
  }

  /** A command changes no locks. */
  lemma {:induction false} CommandLocks(w: Work, pid: Pid, c: Choice)
    requires InCall(w.proc) && InChild(w.proc.phase)
    requires forall file :: DropOn(w.locks, Child(pid), file) == w.locks
    requires DropAll(w.locks, Child(pid)) == w.locks
    ensures CommandStep(w, pid, c).locks == w.locks
  {
  }

  lemma {:induction false} ChildLocks(procs: map<Pid, Proc>, w: Work, pid: Pid, c: Choice)
    requires LocksOk(procs, w.locks) && pid in procs && procs[pid] == w.proc && ProcOk(w.proc)
    requires InCall(w.proc) && InChild(w.proc.phase)
    ensures LocksOk(procs[pid := CommandStep(w, pid, c).proc], CommandStep(w, pid, c).locks)
  {
    forall file { NoChildLocks(procs, w.locks, pid, file); }
    CommandLocks(w, pid, c);
    CommandKeeps(w, pid, c);
    KeepsHolding(procs, w.locks, pid, CommandStep(w, pid, c).proc);
  }

  lemma {:induction false} ScriptLocks(procs: map<Pid, Proc>, locks: set<Lock>, pid: Pid, c: Choice)
    requires LocksOk(procs, locks) && pid in procs && ProcOk(procs[pid])
    requires InCall(procs[pid]) && InScript(procs[pid].phase)
    ensures LocksOk(procs[pid := ScriptStep(procs[pid], c)], locks)
  {
    ScriptKeeps(procs[pid], c);
    Bystander(procs, locks, pid, ScriptStep(procs[pid], c));
  }

  lemma {:induction false} LocksKept(s: State, pid: Pid, c: Choice, t: State)
    requires ProcsOk(s) && LocksOk(s.procs, s.locks) && pid in s.procs && Step(s, pid, c) == Some(t)
    ensures LocksOk(t.procs, t.locks)
  {
    assert ProcOk(s.procs[pid]);
    if Preparing(s.procs[pid].phase) {
      PrepareLocks(s.procs, s.locks, pid, s.files, c);
    } else if InLocker(s.procs[pid].phase) {
      LockerLocks(s.procs, s.locks, pid, c);
    } else if InChild(s.procs[pid].phase) {
      ChildLocks(s.procs, Work(s.procs[pid], s.locks, s.files, s.links), pid, c);
    } else {
      ScriptLocks(s.procs, s.locks, pid, c);
    }
  }

  // --- Steps keep it: program files -----------------------------------------------------------------

  /** The command of this process succeeded, as far as it or its locker can tell. */
  predicate Succeeded(p: Proc) {
    || ((p.phase.Reap? || p.phase.Release? || p.phase.Close?) && p.status == Some(0))
    || ((p.phase.Exit? || p.phase.Returned?) && p.exitCode == 0)
  }

  /** The calls of `p` up to the present one that have compiled their helper. */
  predicate HasCompiled(p: Proc, h: string) {
    (p.at <= |p.script| && CompiledBefore(p.script, p.at, h)) || (InCall(p) && Current(p) == Compile(h) && Succeeded(p))
  }

  /** What a process may rely on of the program files. */
  ghost predicate FilesFor(p: Proc, pid: Pid, files: Files) {
    && (p.phase.MoveLocker? ==> FileOf(files, OwnLocker(pid)).Complete?)
    && (InLocker(p.phase) || InChild(p.phase) ==> FileOf(files, SharedLocker).Complete?)
    && (p.phase.Linking? ==> FileOf(files, Helper(p.phase.helper)).Partial?)
    && (forall h :: HasCompiled(p, h) ==> FileOf(files, Helper(h)).Complete?)
  }

  ghost predicate BeingLinked(procs: map<Pid, Proc>, h: string) {
    exists pid :: pid in procs && procs[pid].phase == Linking(h)
  }

  ghost predicate FilesOk(procs: map<Pid, Proc>, files: Files) {
    && !FileOf(files, SharedLocker).Partial?
    && (forall h :: FileOf(files, Helper(h)).Partial? ==> BeingLinked(procs, h))
    && (forall pid :: pid in procs ==> FilesFor(procs[pid], pid, files))
  }

  /** What is finished stays finished. */
  ghost predicate Lasts(files: Files, now: Files) {
    forall f: Program :: !f.OwnLocker? && FileOf(files, f).Complete? ==> FileOf(now, f).Complete?
  }

  /** A helper has been linked once if it is finished now and was not at the start, and otherwise never. */
  ghost predicate LinksOk(start: Files, files: Files, links: map<string, nat>) {
    && Lasts(start, files)
    && forall h :: LinksOf(links, h) == if FileOf(files, Helper(h)).Complete? && !FileOf(start, Helper(h)).Complete? then 1 else 0
  }

  predicate AtHelper(p: Proc, h: string) {
    p.phase == Testing(h) || p.phase == Linking(h)
  }

  /** Testing and linking a helper happens under its lock. */
  lemma {:induction false} OneAtHelper(s: State, a: Pid, b: Pid, h: string)
    requires ProcsOk(s) && LocksOk(s.procs, s.locks) && a in s.procs && b in s.procs
    requires AtHelper(s.procs[a], h) && AtHelper(s.procs[b], h)
    ensures a == b
  {
    assert ProcOk(s.procs[a]) && ProcOk(s.procs[b]);
    assert HoldsOwn(s.procs[a], a, s.locks) && HoldsOwn(s.procs[b], b, s.locks);
    assert OwnLock(s.procs[a], a) == OwnLock(s.procs[b], b);
  }

  /** A step that writes the files `now` keeps them in order if it changes no helper that somebody else links. */
  lemma {:induction false} OthersFiles(procs: map<Pid, Proc>, files: Files, pid: Pid, now: Files, r: Pid)
    requires r in procs && r != pid && FilesFor(procs[r], r, files) && Lasts(files, now)
    requires procs[r].phase.Linking? ==> FileOf(now, Helper(procs[r].phase.helper)) == FileOf(files, Helper(procs[r].phase.helper))
    requires FileOf(now, OwnLocker(r)) == FileOf(files, OwnLocker(r))
    ensures FilesFor(procs[r], r, now)
  {
  }

  lemma {:induction false} PrepareFiles(p: Proc, pid: Pid, files: Files, c: Choice)
    requires Preparing(p.phase) && InCall(p) && ProcOk(p) && FilesFor(p, pid, files) && !FileOf(files, SharedLocker).Partial?
    ensures var (q, now) := PrepareStep(p, pid, files, c);
            && FilesFor(q, pid, now) && Lasts(files, now) && !FileOf(now, SharedLocker).Partial?
            && (forall h :: FileOf(now, Helper(h)) == FileOf(files, Helper(h)))
            && (forall r :: r != pid ==> FileOf(now, OwnLocker(r)) == FileOf(files, OwnLocker(r)))
  {
    var (q, now) := PrepareStep(p, pid, files, c);
    forall h | HasCompiled(q, h) ensures HasCompiled(p, h) {}
  }

  /** What a command writes: nothing but the helper it is at, and never over a finished one. */
  lemma {:induction false} CommandWrites(w: Work, pid: Pid, c: Choice)
    requires InCall(w.proc) && InChild(w.proc.phase) && FilesFor(w.proc, pid, w.files)
    requires w.proc.phase.Testing? ==> !FileOf(w.files, Helper(w.proc.phase.helper)).Partial?
    ensures var v := CommandStep(w, pid, c);
            && Lasts(w.files, v.files)
            && (forall f: Program :: FileOf(v.files, f) != FileOf(w.files, f) ==> f.Helper? && AtHelper(w.proc, f.name))
            && (forall h :: FileOf(v.files, Helper(h)).Partial? ==> FileOf(w.files, Helper(h)).Partial? || v.proc.phase == Linking(h))
            && (forall h :: FileOf(v.files, Helper(h)).Partial? && w.proc.phase == Linking(h) ==> v.proc.phase == Linking(h))
  {
  }

  lemma {:induction false} LastsTransitive(a: Files, b: Files, c: Files)
    requires Lasts(a, b) && Lasts(b, c)
    ensures Lasts(a, c)
  {
  }

  /** A command keeps the count of links. */
  lemma {:induction false} CommandLinks(start: Files, w: Work, pid: Pid, c: Choice)
    requires InCall(w.proc) && InChild(w.proc.phase) && FilesFor(w.proc, pid, w.files) && LinksOk(start, w.files, w.links)
    requires w.proc.phase.Testing? ==> !FileOf(w.files, Helper(w.proc.phase.helper)).Partial?
    ensures var v := CommandStep(w, pid, c); LinksOk(start, v.files, v.links)
  {
    CommandWrites(w, pid, c);
    LastsTransitive(start, w.files, CommandStep(w, pid, c).files);
  }

  /** A command leaves its process with files it can rely on. */
  lemma {:induction false} CommandFiles(w: Work, pid: Pid, c: Choice)
    requires InCall(w.proc) && InChild(w.proc.phase) && ProcOk(w.proc) && FilesFor(w.proc, pid, w.files)
    requires w.proc.phase.Testing? ==> !FileOf(w.files, Helper(w.proc.phase.helper)).Partial?
    ensures var v := CommandStep(w, pid, c); FilesFor(v.proc, pid, v.files)
  {
    CommandWrites(w, pid, c);
    var v := CommandStep(w, pid, c);
    forall h | HasCompiled(v.proc, h) ensures FileOf(v.files, Helper(h)).Complete? {
      if HasCompiled(w.proc, h) { assert FileOf(w.files, Helper(h)).Complete?; }
    }
  }

  lemma {:induction false} LockerFiles(p: Proc, pid: Pid, locks: set<Lock>, files: Files, c: Choice)
    requires InLocker(p.phase) && InCall(p) && ProcOk(p) && LockerStep(p, pid, locks, c).Some? && FilesFor(p, pid, files)
    ensures FilesFor(LockerStep(p, pid, locks, c).value.0, pid, files)
  {
    var q := LockerStep(p, pid, locks, c).value.0;
    forall h | HasCompiled(q, h) ensures FileOf(files, Helper(h)).Complete? {
      assert HasCompiled(p, h);
    }
  }

  lemma {:induction false} ScriptFiles(p: Proc, pid: Pid, files: Files, c: Choice)
    requires InScript(p.phase) && InCall(p) && ProcOk(p) && FilesFor(p, pid, files)
    ensures FilesFor(ScriptStep(p, c), pid, files)
  {
    var q := ScriptStep(p, c);
    forall h | HasCompiled(q, h) ensures FileOf(files, Helper(h)).Complete? {
      assert HasCompiled(p, h);
    }
  }

  /** A step that leaves the helpers alone. */
  lemma {:induction false} NoHelperWritten(procs: map<Pid, Proc>, files: Files, pid: Pid, q: Proc, now: Files)
    requires pid in procs && FilesOk(procs, files) && FilesFor(q, pid, now) && Lasts(files, now)
    requires !FileOf(now, SharedLocker).Partial? && !procs[pid].phase.Linking?
    requires forall h :: FileOf(now, Helper(h)) == FileOf(files, Helper(h))
    requires forall r :: r != pid ==> FileOf(now, OwnLocker(r)) == FileOf(files, OwnLocker(r))
    ensures FilesOk(procs[pid := q], now)
  {
    forall r | r in procs && r != pid ensures FilesFor(procs[r], r, now) {
      OthersFiles(procs, files, pid, now, r);
    }
    forall h | FileOf(now, Helper(h)).Partial? ensures BeingLinked(procs[pid := q], h) {
      assert BeingLinked(procs, h);
      var r :| r in procs && procs[r].phase == Linking(h);
      assert procs[pid := q][r].phase == Linking(h);
    }
  }

  /** Who is about to link a helper sees no half-written one. */
  lemma {:induction false} TesterSeesNoPart(s: State, pid: Pid)
    requires ProcsOk(s) && LocksOk(s.procs, s.locks) && FilesOk(s.procs, s.files)
    requires pid in s.procs && s.procs[pid].phase.Testing?
    ensures !FileOf(s.files, Helper(s.procs[pid].phase.helper)).Partial?
  {
    var h := s.procs[pid].phase.helper;
    if FileOf(s.files, Helper(h)).Partial? {
      assert BeingLinked(s.procs, h);
      var r :| r in s.procs && s.procs[r].phase == Linking(h);
      OneAtHelper(s, pid, r, h);
    }
  }

  ghost predicate Inv(start: Files, s: State) {
    ProcsOk(s) && LocksOk(s.procs, s.locks) && FilesOk(s.procs, s.files) && LinksOk(start, s.files, s.links)
  }

  /** The only helper that a command writes is one that nobody else is at. */
  lemma {:induction false} OtherCommandsFiles(start: Files, s: State, pid: Pid, c: Choice, r: Pid)
    requires Inv(start, s) && pid in s.procs && InCall(s.procs[pid]) && InChild(s.procs[pid].phase) && r in s.procs && r != pid
    ensures FilesFor(s.procs[r], r, CommandStep(Work(s.procs[pid], s.locks, s.files, s.links), pid, c).files)
  {
    var w := Work(s.procs[pid], s.locks, s.files, s.links);
    var v := CommandStep(w, pid, c);
    if w.proc.phase.Testing? { TesterSeesNoPart(s, pid); }
    CommandWrites(w, pid, c);
    if s.procs[r].phase.Linking? {
      var h := s.procs[r].phase.helper;
      if FileOf(v.files, Helper(h)) != FileOf(s.files, Helper(h)) {
        OneAtHelper(s, pid, r, h);
      }
    }
    OthersFiles(s.procs, s.files, pid, v.files, r);
  }

  lemma {:induction false} StillBeingLinked(procs: map<Pid, Proc>, pid: Pid, q: Proc, h: string)
    requires pid in procs && BeingLinked(procs, h) && (procs[pid].phase == Linking(h) ==> q.phase == Linking(h))
    ensures BeingLinked(procs[pid := q], h)
  {
    var r :| r in procs && procs[r].phase == Linking(h);
    assert procs[pid := q][r].phase == Linking(h);
  }

  lemma {:induction false} HelperWritten(start: Files, s: State, pid: Pid, c: Choice)
    requires Inv(start, s) && pid in s.procs && InCall(s.procs[pid]) && InChild(s.procs[pid].phase)
    ensures var v := CommandStep(Work(s.procs[pid], s.locks, s.files, s.links), pid, c);
            FilesOk(s.procs[pid := v.proc], v.files) && LinksOk(start, v.files, v.links) && Lasts(s.files, v.files)
  {
    var w := Work(s.procs[pid], s.locks, s.files, s.links);
    var v := CommandStep(w, pid, c);
    if w.proc.phase.Testing? { TesterSeesNoPart(s, pid); }
    CommandWrites(w, pid, c);
    CommandFiles(w, pid, c);
    CommandLinks(start, w, pid, c);
    forall r | r in s.procs && r != pid ensures FilesFor(s.procs[r], r, v.files) {
      OtherCommandsFiles(start, s, pid, c, r);
    }
    forall h | FileOf(v.files, Helper(h)).Partial? ensures BeingLinked(s.procs[pid := v.proc], h) {
      if v.proc.phase == Linking(h) {
        assert s.procs[pid := v.proc][pid].phase == Linking(h);
      } else {
        StillBeingLinked(s.procs, pid, v.proc, h);
      }
    }
  }

  lemma {:induction false} FilesKept(start: Files, s: State, pid: Pid, c: Choice, t: State)
    requires Inv(start, s) && pid in s.procs && Step(s, pid, c) == Some(t)
    ensures FilesOk(t.procs, t.files) && LinksOk(start, t.files, t.links) && Lasts(s.files, t.files)
  {
    var p := s.procs[pid];
    assert ProcOk(p) && FilesFor(p, pid, s.files);
    if Preparing(p.phase) {
      PrepareFiles(p, pid, s.files, c);
      NoHelperWritten(s.procs, s.files, pid, t.procs[pid], t.files);
    } else if InLocker(p.phase) {
      LockerFiles(p, pid, s.locks, s.files, c);
      NoHelperWritten(s.procs, s.files, pid, t.procs[pid], t.files);
    } else if InChild(p.phase) {
      HelperWritten(start, s, pid, c);
    } else {
      ScriptFiles(p, pid, s.files, c);
      NoHelperWritten(s.procs, s.files, pid, t.procs[pid], t.files);
    }
  }

  /** Every step of every process keeps the invariant, and what is finished stays finished. */
  lemma {:induction false} StepKeepsInv(start: Files, s: State, t: State)
    requires Inv(start, s) && Next(s, t)
    ensures Inv(start, t) && Lasts(s.files, t.files)
  {
    var pid, c :| pid in s.procs && Step(s, pid, c) == Some(t);
    ProcsKept(s, pid, c, t);
    LocksKept(s, pid, c, t);
    FilesKept(start, s, pid, c, t);
  }

  lemma {:induction false} StartInv(s: State)
    requires Start(s)
    ensures Inv(s.files, s)
  {
    forall pid | pid in s.procs ensures ProcOk(s.procs[pid]) && FilesFor(s.procs[pid], pid, s.files) {
      assert FreshProc(s.procs[pid]);
    }
  }

  lemma {:induction false} RunInv(states: seq<State>, i: nat)
    requires IsRun(states) && i < |states|
    ensures Inv(states[0].files, states[i])
  {
    if i == 0 {
      StartInv(states[0]);
    } else {
      RunInv(states, i - 1);
      StepKeepsInv(states[0].files, states[i - 1], states[i]);
    }
  }

  lemma {:induction false} LastsThroughout(files: seq<Files>, i: nat, j: nat)
    requires i <= j < |files|
    requires forall k :: 0 <= k < |files| - 1 ==> Lasts(files[k], files[k + 1])
    ensures Lasts(files[i], files[j])
  {
    if i < j {
      LastsThroughout(files, i, j - 1);
      assert Lasts(files[j - 1], files[j - 1 + 1]);
    }
  }

  lemma {:induction false} LastsOneStep(states: seq<State>, j: nat)
    requires IsRun(states) && j + 1 < |states|
    ensures Lasts(states[j].files, states[j + 1].files)
  {
    RunInv(states, j);
    StepKeepsInv(states[0].files, states[j], states[j + 1]);
  }

  lemma {:induction false} RunLasts(states: seq<State>, i: nat, j: nat)
    requires IsRun(states) && i <= j < |states|
    ensures Lasts(states[i].files, states[j].files)
  {
    var files := seq(|states|, k requires 0 <= k < |states| => states[k].files);
    forall k | 0 <= k < |files| - 1 ensures Lasts(files[k], files[k + 1]) {
      LastsOneStep(states, k);
    }
    LastsThroughout(files, i, j);
  }

  // --- Main results: every state of every run -------------------------------------------------------

  /**
   At most one command runs for each lock file: of two processes whose lockers hold a lock - up to and
   including the whole life of the child, which closes the lock file - the files differ.
   */
  lemma {:induction false} OneCommandPerLock(states: seq<State>, i: nat, a: Pid, b: Pid)
    requires IsRun(states) && i < |states| && a in states[i].procs && b in states[i].procs && a != b
    requires Holds(states[i].procs[a].phase) && Holds(states[i].procs[b].phase)
    ensures InCall(states[i].procs[a]) && InCall(states[i].procs[b])
    ensures LockOf(Current(states[i].procs[a])) != LockOf(Current(states[i].procs[b]))
  {
    RunInv(states, i);
    var s := states[i];
    assert ProcOk(s.procs[a]) && ProcOk(s.procs[b]);
    assert HoldsOwn(s.procs[a], a, s.locks) && HoldsOwn(s.procs[b], b, s.locks);
  }

  /** Every assertion on `locked` holds where it stands: before acquiring, executing and releasing. */
  lemma {:induction false} LockedAssertionsHold(states: seq<State>, i: nat, pid: Pid)
    requires IsRun(states) && i < |states| && pid in states[i].procs
    ensures states[i].procs[pid].phase.Acquire? ==> !states[i].procs[pid].locked
    ensures states[i].procs[pid].phase.Fork? ==> states[i].procs[pid].locked
    ensures states[i].procs[pid].phase.Release? ==> states[i].procs[pid].locked
  {
    RunInv(states, i);
    assert ProcOk(states[i].procs[pid]);
  }

  /** The locker's exit code is its command's; only a failed system call of its own makes it a failure. */
  lemma {:induction false} ExitCodeIsTheCommands(states: seq<State>, i: nat, pid: Pid)
    requires IsRun(states) && i < |states| && pid in states[i].procs && states[i].procs[pid].phase.Returned?
    ensures var p := states[i].procs[pid];
            if p.fault then p.exitCode == EXIT_FAILURE else p.status == Some(p.exitCode)
  {
    RunInv(states, i);
    assert ProcOk(states[i].procs[pid]);
  }

  /** Each helper is linked at most once in a whole run, and exactly if it is finished now and was not at the start. */
  lemma {:induction false} LinkedAtMostOnce(states: seq<State>, i: nat, h: string)
    requires IsRun(states) && i < |states|
    ensures LinksOf(states[i].links, h) <= 1
    ensures LinksOf(states[i].links, h) == 1 <==>
            FileOf(states[i].files, Helper(h)).Complete? && !FileOf(states[0].files, Helper(h)).Complete?
  {
    RunInv(states, i);
  }

  /** Nobody runs a helper that is not finished; in particular nobody runs one that another process is linking. */
  lemma {:induction false} RunsFinishedHelper(states: seq<State>, i: nat, a: Pid, h: string)
    requires IsRun(states) && i < |states| && a in states[i].procs && states[i].procs[a].phase == Running(Some(h))
    ensures FileOf(states[i].files, Helper(h)).Complete?
    ensures forall b :: b in states[i].procs ==> states[i].procs[b].phase != Linking(h)
  {
    RunInv(states, i);
    var s := states[i];
    var p := s.procs[a];
    assert ProcOk(p) && FilesFor(p, a, s.files);
    assert CompiledBefore(p.script, p.at, h);
    assert HasCompiled(p, h);
    forall b | b in s.procs ensures s.procs[b].phase != Linking(h) {
      assert FilesFor(s.procs[b], b, s.files);
    }
  }

  /** A build that gets to its end has every helper it compiles. */
  lemma {:induction false} DoneHasHelpers(states: seq<State>, i: nat, pid: Pid, k: nat)
    requires IsRun(states) && i < |states| && pid in states[i].procs && states[i].procs[pid].phase.Done?
    requires k < |states[i].procs[pid].script| && states[i].procs[pid].script[k].Compile?
    ensures FileOf(states[i].files, Helper(states[i].procs[pid].script[k].helper)).Complete?
  {
    RunInv(states, i);
    var p := states[i].procs[pid];
    assert ProcOk(p) && FilesFor(p, pid, states[i].files);
    assert HasCompiled(p, p.script[k].helper);
  }

  /**
   The shared sd-locker is absent or finished, never half-written; once there it stays; and whoever
   gets past the second test runs a finished program.
   */
  lemma {:induction false} LockerIsWhole(states: seq<State>, i: nat, j: nat, pid: Pid)
    requires IsRun(states) && i <= j < |states|
    ensures !FileOf(states[i].files, SharedLocker).Partial?
    ensures !FileOf(states[i].files, SharedLocker).Absent? ==> FileOf(states[j].files, SharedLocker).Complete?
    ensures pid in states[i].procs && (InLocker(states[i].procs[pid].phase) || InChild(states[i].procs[pid].phase)) ==>
              FileOf(states[i].files, SharedLocker).Complete?
  {
    RunInv(states, i);
    RunLasts(states, i, j);
    if pid in states[i].procs { assert FilesFor(states[i].procs[pid], pid, states[i].files); }
  }

  predicate Finished(p: Proc) {
    p.phase.Done? || p.phase.Fatal?
  }

  /** No deadlock: as long as some build is not finished, some build can go on, without any call failing. */
  lemma {:induction false} SomebodyGoesOn(states: seq<State>, i: nat, pid: Pid) returns (next: Pid)
    requires IsRun(states) && i < |states| && pid in states[i].procs && !Finished(states[i].procs[pid])
    ensures next in states[i].procs && Step(states[i], next, Choice(true, 0)).Some?
  {
    RunInv(states, i);
    var s := states[i];
    assert ProcOk(s.procs[pid]);
    next := pid;
    if Step(s, pid, Choice(true, 0)).None? {
      var mine := OwnLock(s.procs[pid], pid);
      var l :| l in s.locks && l.file == mine.file && l.owner != mine.owner;
      assert LockOk(s.procs, l);
      next := l.owner.pid;
    }
  }

  // --- The script -----------------------------------------------------------------------------------

  const ARCH := "sd-arch"
  const CCTYPE := "sd-cctype"
  const OS := "sd-os"
  const CCVERSION := "sd-ccversion"
  const CPUID := "sd-cpuidx86"

  /** A shell script that may ask sd-cpuidx86. */
  const ASK_CPU := Run(CPUID + ".lock", Some(CPUID))

  /** The locked commands of sysdep-system when it does not cross-compile. */
  const SYSDEP_SYSTEM: seq<Call> := [
    Compile(ARCH), Compile(CCTYPE), Compile(OS), Compile(CCVERSION),
    Run(ARCH + ".lock", Some(ARCH)),
    Run(CCTYPE + ".lock", Some(CCTYPE)),
    Run("sd-cpuidx86.h.lock", None),
    Compile(CPUID),
    Run(OS + ".lock", Some(OS)),
    Run("sd-osversion.lock", None),
    Run(CCVERSION + ".lock", Some(CCVERSION)),
    ASK_CPU, ASK_CPU, ASK_CPU, ASK_CPU, ASK_CPU, ASK_CPU, ASK_CPU, ASK_CPU, ASK_CPU]

  /** The script compiles every helper before it uses it. */
  lemma {:induction false} ScriptIsWellOrdered()
    ensures WellOrdered(SYSDEP_SYSTEM)
  {
    var script := SYSDEP_SYSTEM;
    forall k | 0 <= k < |script| && script[k].Run? && script[k].uses.Some?
      ensures CompiledBefore(script, k, script[k].uses.value)
    {
      var j := if k == 4 then 0 else if k == 5 then 1 else if k == 8 then 2 else if k == 10 then 3 else 7;
      assert script[j] == Compile(script[k].uses.value);
    }
  }
}
