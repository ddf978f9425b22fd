/**
 The programs of the parallel build as they are written: sd-locker with its child, sd-compile, and the
 shell functions around them. Between any two of their actions the other processes may act. They are
 proved to take the steps of ParallelBuild, so what is proved there of every run holds of them.
 */
module LockedCommands {
  import opened Wrappers
  import opened ParallelBuild
  import opened BuildSucceeds

  lemma {:induction false} Extends(run: seq<State>, now: State, pid: Pid, c: Choice, next: State)
    requires IsRun(run) && run[|run| - 1] == now && pid in now.procs && Step(now, pid, c) == Some(next)
    ensures IsRun(run + [next])
  {
    var more := run + [next];
    assert Next(now, next);
    forall i | 0 <= i < |more| - 1 ensures Next(more[i], more[i + 1]) {
      if i < |run| - 1 { assert Next(run[i], run[i + 1]); }
    }
  }

  /** The step of a process in its child is that of the command. */
  lemma {:induction false} ChildStep(s: State, pid: Pid, c: Choice)
    requires pid in s.procs && InCall(s.procs[pid]) && InChild(s.procs[pid].phase)
    ensures var next := Step(s, pid, c);
            && next.Some? && pid in next.value.procs
            && next.value.procs[pid] == CommandStep(Work(s.procs[pid], {}, s.files, map[]), pid, c).proc
  {
    SameProc(s.procs[pid], s.locks, s.files, s.links, pid, c);
  }

  /** What becomes of a child depends on the program files, and not on locks or counts. */
  lemma {:induction false} SameProc(p: Proc, locks: set<Lock>, files: Files, links: map<string, nat>, pid: Pid, c: Choice)
    requires InCall(p) && InChild(p.phase)
    ensures CommandStep(Work(p, locks, files, links), pid, c).proc == CommandStep(Work(p, {}, files, map[]), pid, c).proc
  {
  }

  /** Every action of the run turned out as `fate` has it. */
  ghost predicate Fated(run: seq<State>, fate: nat -> Choice) {
    forall i :: 0 <= i < |run| - 1 ==> FatedStep(run[i], fate(i), run[i + 1])
  }

  ghost predicate FatedStep(s: State, c: Choice, t: State) {
    exists pid :: pid in s.procs && Step(s, pid, c) == Some(t)
  }

  /** `run` has led to `now` in `time` actions. */
  ghost predicate History(run: seq<State>, fate: nat -> Choice, now: State, time: nat) {
    IsRun(run) && run[|run| - 1] == now && time == |run| - 1 && Fated(run, fate)
  }

  lemma {:induction false} StaysFated(run: seq<State>, fate: nat -> Choice, pid: Pid, next: State)
    requires |run| > 0 && Fated(run, fate) && pid in run[|run| - 1].procs
    requires Step(run[|run| - 1], pid, fate(|run| - 1)) == Some(next)
    ensures Fated(run + [next], fate)
  {
    var more := run + [next];
    forall i | 0 <= i < |more| - 1 ensures FatedStep(more[i], fate(i), more[i + 1]) {
      if i < |run| - 1 { assert FatedStep(run[i], fate(i), run[i + 1]); }
    }
  }

  /** One more action. */
  lemma {:induction false} NextAction(run: seq<State>, fate: nat -> Choice, now: State, time: nat, pid: Pid, next: State)
    requires History(run, fate, now, time) && pid in now.procs && Step(now, pid, fate(time)) == Some(next)
    ensures History(run + [next], fate, next, time + 1)
    ensures next.procs.Keys == now.procs.Keys && forall q :: q in now.procs && q != pid ==> next.procs[q] == now.procs[q]
  {
    RunInv(run, |run| - 1);
    ProcsKept(now, pid, fate(time), next);
    Extends(run, now, pid, fate(time), next);
    StaysFated(run, fate, pid, next);
  }

  /** Where a build is hurt, fate has a failure or another exit code than zero in store for the action. */
  lemma {:induction false} HurtByFate(run: seq<State>, fate: nat -> Choice, n: nat, pid: Pid)
    requires IsRun(run) && Fated(run, fate) && HurtBefore(run, n, pid)
    ensures exists i :: 0 <= i < n && fate(i) != WELL
  {
    var i :| 0 <= i < n && Hurt(run[i], pid, run[i + 1]);
    assert FatedStep(run[i], fate(i), run[i + 1]);
    if fate(i) == WELL {
      RunInv(run, i);
      WellStepHurtsNobody(run[i], run[i + 1], pid);
    }
  }

  /**
   The machine: its present state, and the run that led to it. How an action turns out is up to `fate`: the
   outcome of action number `time`, whoever takes it.
   */
  class System {
    const fate: nat -> Choice
    var now: State
    var time: nat
    ghost var run: seq<State>

    ghost predicate Valid()
      reads this
    {
      History(run, fate, now, time)
    }

    constructor (start: State, fate: nat -> Choice)
      requires Start(start)
      ensures Valid() && now == start && this.fate == fate && time == 0
    {
      this.fate := fate;
      now := start;
      time := 0;
      run := [start];
    }

    function Me(pid: Pid): Proc
      requires pid in now.procs
      reads this
    {
      now.procs[pid]
    }

    /** One action of a process, unless it has to wait. */
    method Act(pid: Pid) returns (moved: bool, c: Choice)
      requires Valid() && pid in now.procs
      modifies this
      ensures old(run) <= run
      ensures Valid() && now.procs.Keys == old(now.procs.Keys)
      ensures forall q :: q in now.procs && q != pid ==> now.procs[q] == old(now.procs)[q]
      ensures c == fate(old(time)) && (moved <==> Step(old(now), pid, c).Some?)
      ensures now == if moved then Step(old(now), pid, c).value else old(now)
    {
      c := fate(time);
      var next := Step(now, pid, c);
      moved := next.Some?;
      if moved {
        NextAction(run, fate, now, time, pid, next.value);
        now := next.value;
        time := time + 1;
        run := run + [now];
      }
    }

    /** The other processes act, any number of times and in any order. */
    method Others(pid: Pid)
      requires Valid() && pid in now.procs
      modifies this
      ensures old(run) <= run
      ensures Valid() && pid in now.procs && Me(pid) == old(Me(pid))
    {
      var n :| 0 <= n;
      for i := 0 to n
        invariant Valid() && pid in now.procs && Me(pid) == old(Me(pid)) && old(run) <= run
      {
        var q :| q in now.procs;
        if q != pid {
          var moved, c := Act(q);
        }
      }
    }

    /** An action of the locker that cannot be made to wait; the others may act before it. */
    method LockerGoes(pid: Pid) returns (ok: bool)
      requires Valid() && pid in now.procs && InCall(Me(pid)) && InLocker(Me(pid).phase) && !Me(pid).phase.Acquire?
      modifies this
      ensures old(run) <= run
      ensures Valid() && pid in now.procs && Me(pid) == LockerStep(old(Me(pid)), pid, {}, Choice(ok, 0)).value.0
    {
      Others(pid);
      var moved, c := Act(pid);
      ok := c.ok;
    }

    /** fcntl with F_SETLKW. */
    method LockerAcquires(pid: Pid) returns (moved: bool, ok: bool)
      requires Valid() && pid in now.procs && InCall(Me(pid)) && Me(pid).phase.Acquire?
      modifies this
      ensures old(run) <= run
      ensures Valid() && pid in now.procs && (!ok ==> moved)
      ensures Me(pid) == if !ok then Fault(old(Me(pid)))
                         else if moved then old(Me(pid)).(phase := Fork, locked := true) else old(Me(pid))
      ensures !moved ==> !Grantable(now.locks, OwnLock(Me(pid), pid))
    {
      Others(pid);
      var c: Choice;
      moved, c := Act(pid);
      ok := c.ok;
    }

    /** An action of the child; what it finds of the program files is up to the others. */
    method ChildGoes(pid: Pid) returns (files: Files, c: Choice)
      requires Valid() && pid in now.procs && InCall(Me(pid)) && InChild(Me(pid).phase)
      modifies this
      ensures old(run) <= run
      ensures Valid() && pid in now.procs && Lasts(old(now.files), files)
      ensures Me(pid) == CommandStep(Work(old(Me(pid)), {}, files, map[]), pid, c).proc
    {
      ghost var from := |run| - 1;
      Others(pid);
      RunLasts(run, from, |run| - 1);
      files := now.files;
      ghost var s := now;
      var moved: bool;
      moved, c := Act(pid);
      ChildStep(s, pid, c);
    }

    /** An action of SDM_prepare_locker or the test after it. */
    method PrepareGoes(pid: Pid) returns (files: Files, ok: bool)
      requires Valid() && pid in now.procs && InCall(Me(pid)) && Preparing(Me(pid).phase)
      modifies this
      ensures old(run) <= run
      ensures Valid() && pid in now.procs && Me(pid) == PrepareStep(old(Me(pid)), pid, files, Choice(ok, 0)).0
    {
      Others(pid);
      files := now.files;
      var moved, c := Act(pid);
      ok := c.ok;
    }

    /** The script looks at how a command ended. */
    method ScriptGoes(pid: Pid)
      requires Valid() && pid in now.procs && InCall(Me(pid)) && InScript(Me(pid).phase)
      modifies this
      ensures old(run) <= run
      ensures Valid() && pid in now.procs && exists ok :: Me(pid) == ScriptStep(old(Me(pid)), Choice(ok, 0))
    {
      Others(pid);
      var moved, c := Act(pid);
      assert Me(pid) == ScriptStep(old(Me(pid)), Choice(c.ok, 0));
    }
  }

  /** execvp ends the child, or it goes on as the command. */
  lemma {:induction false} AfterExec(p: Proc, files: Files, pid: Pid, c: Choice)
    requires InCall(p) && p.phase.ChildExec?
    ensures var q := CommandStep(Work(p, {}, files, map[]), pid, c).proc;
            if q.phase.Reap? then q == p.(phase := Reap, status := Some(if c.ok then c.code % 256 else EXIT_FAILURE))
            else c.ok && (q.phase.Testing? || q.phase.Running?) && q == p.(phase := q.phase)
  {
  }

  datatype Outcome = Proceeds | Dies | Waits

  /** The locker waits for its lock, which another process has. */
  predicate Waiting(s: State, pid: Pid) {
    && pid in s.procs && InCall(s.procs[pid]) && s.procs[pid].phase == Acquire
    && !Grantable(s.locks, OwnLock(s.procs[pid], pid))
  }

  /** Between releasing and exiting, a locker has no lock. */
  lemma {:induction false} NoLockInClose(s: State, pid: Pid)
    requires LocksOk(s.procs, s.locks) && pid in s.procs && InCall(s.procs[pid])
    ensures s.procs[pid].phase.Close? ==> OwnLock(s.procs[pid], pid) !in s.locks
  {
    if OwnLock(s.procs[pid], pid) in s.locks { assert LockOk(s.procs, OwnLock(s.procs[pid], pid)); }
  }

  /** sd-locker: the fields are those of sd_locker_state. */
  class SdLocker {
    const system: System
    const pid: Pid
    var locked: bool
    var exitCode: nat

    ghost predicate Valid()
      reads this, system
    {
      system.Valid() && pid in system.now.procs && InCall(system.Me(pid)) && locked == system.Me(pid).locked
    }

    /** main, up to the opening of the lock file. */
    constructor (system: System, pid: Pid)
      requires system.Valid() && pid in system.now.procs && InCall(system.Me(pid)) && system.Me(pid).phase == Open
      ensures Valid() && this.system == system && this.pid == pid && exitCode == 0
    {
      this.system, this.pid := system, pid;
      locked := false;
      exitCode := 0;
      new;
      RunInv(system.run, |system.run| - 1);
      assert ProcOk(system.Me(pid));
    }

    /** sd_locker_posix_lock_file_open. */
    method LockFileOpen() returns (ok: bool)
      requires Valid() && system.Me(pid).phase == Open
      modifies system
      ensures old(system.run) <= system.run
      ensures Valid()
      ensures system.Me(pid) == if ok then old(system.Me(pid)).(phase := Acquire) else Fault(old(system.Me(pid)))
    {
      ok := system.LockerGoes(pid);
    }

    /** sd_locker_lock_acquire: it waits as long as another process has the lock. */
    method LockAcquire() returns (r: Outcome)
      requires Valid() && system.Me(pid).phase == Acquire
      modifies system, this`locked
      ensures old(system.run) <= system.run
      ensures Valid()
      ensures system.Me(pid) == match r
                                case Proceeds => old(system.Me(pid)).(phase := Fork, locked := true)
                                case Dies => Fault(old(system.Me(pid)))
                                case Waits => old(system.Me(pid))
      ensures r.Proceeds? ==> OwnLock(system.Me(pid), pid) in system.now.locks
      ensures r.Waits? ==> !Grantable(system.now.locks, OwnLock(system.Me(pid), pid))
    {
      RunInv(system.run, |system.run| - 1);
      assert ProcOk(system.Me(pid));
      assert !locked;
      var moved, ok := system.LockerAcquires(pid);
      if !ok { return Dies; }
      if !moved { return Waits; }
      locked := true;
      RunInv(system.run, |system.run| - 1);
      assert HoldsOwn(system.Me(pid), pid, system.now.locks);
      r := Proceeds;
    }

    /** sd_locker_execute: fork, wait for the child, and take over its status. */
    method Execute() returns (ok: bool)
      requires Valid() && system.Me(pid).phase == Fork
      modifies system, this`exitCode
      ensures old(system.run) <= system.run
      ensures Valid()
      ensures system.Me(pid).script == old(system.Me(pid)).script && system.Me(pid).at == old(system.Me(pid)).at
      ensures !ok ==> system.Me(pid) == Fault(old(system.Me(pid)))
      ensures ok ==> system.Me(pid).phase == Release && system.Me(pid).exitCode == exitCode &&
                     system.Me(pid).status == Some(exitCode) && exitCode < 256
    {
      RunInv(system.run, |system.run| - 1);
      assert ProcOk(system.Me(pid));
      assert locked;
      ok := system.LockerGoes(pid);
      if !ok { return; }
      var status := Child();
      var reaped := system.LockerGoes(pid);
      exitCode := status;
    }

    /** The child: it closes the lock file and becomes the command. */
    method Child() returns (status: nat)
      requires Valid() && system.Me(pid).phase == ChildClose
      modifies system
      ensures old(system.run) <= system.run
      ensures Valid() && status < 256
      ensures system.Me(pid) == old(system.Me(pid)).(phase := Reap, status := Some(status))
    {
      var files, c := system.ChildGoes(pid);
      if !c.ok { return EXIT_FAILURE; }
      status := Become();
    }

    /** execvp: sd-compile or another command takes the place of the child. */
    method Become() returns (status: nat)
      requires Valid() && system.Me(pid).phase == ChildExec
      modifies system
      ensures old(system.run) <= system.run
      ensures Valid() && status < 256
      ensures system.Me(pid) == old(system.Me(pid)).(phase := Reap, status := Some(status))
    {
      ghost var p := system.Me(pid);
      var files, c := system.ChildGoes(pid);
      AfterExec(p, files, pid, c);
      if !c.ok { return EXIT_FAILURE; }
      if system.Me(pid).phase.Testing? {
        status := SdCompile(system.Me(pid).phase.helper);
      } else if system.Me(pid).phase.Running? {
        status := Command();
      } else {
        status := c.code % 256;
      }
    }

    /** A command other than sd-compile may exit with anything. */
    method Command() returns (status: nat)
      requires Valid() && system.Me(pid).phase.Running?
      modifies system
      ensures old(system.run) <= system.run
      ensures Valid() && status < 256
      ensures system.Me(pid) == old(system.Me(pid)).(phase := Reap, status := Some(status))
    {
      var files, c := system.ChildGoes(pid);
      status := c.code % 256;
    }

    /**
     sd-compile: nothing to do for a program that is there; otherwise compile and link. It exits with 0
     if the program was there to begin with, and only if it is there, finished, in the end.
     */
    method SdCompile(helper: string) returns (status: nat)
      requires Valid() && system.Me(pid).phase == Testing(helper)
      modifies system
      ensures old(system.run) <= system.run
      ensures Valid() && status < 256
      ensures system.Me(pid) == old(system.Me(pid)).(phase := Reap, status := Some(status))
      ensures old(FileOf(system.now.files, Helper(helper))).Complete? ==> status == 0
      ensures status == 0 ==> FileOf(system.now.files, Helper(helper)).Complete?
    {
      RunInv(system.run, |system.run| - 1);
      assert ProcOk(system.Me(pid));
      status := CompileIfAbsent(helper);
      RunInv(system.run, |system.run| - 1);
      assert FilesFor(system.Me(pid), pid, system.now.files);
      assert status == 0 ==> HasCompiled(system.Me(pid), helper);
    }

    /** The test and the two commands after it. */
    method CompileIfAbsent(helper: string) returns (status: nat)
      requires Valid() && system.Me(pid).phase == Testing(helper)
      modifies system
      ensures old(system.run) <= system.run
      ensures Valid() && status < 256
      ensures system.Me(pid) == old(system.Me(pid)).(phase := Reap, status := Some(status))
      ensures old(FileOf(system.now.files, Helper(helper))).Complete? ==> status == 0
    {
      var files, c := system.ChildGoes(pid);
      if !FileOf(files, Helper(helper)).Absent? { return 0; }
      if !c.ok { return EXIT_FAILURE; }
      files, c := system.ChildGoes(pid);
      status := if c.ok then 0 else EXIT_FAILURE;
    }

    /** sd_locker_lock_release. */
    method LockRelease() returns (ok: bool)
      requires Valid() && system.Me(pid).phase == Release
      modifies system, this`locked
      ensures old(system.run) <= system.run
      ensures Valid()
      ensures system.Me(pid) == if ok then old(system.Me(pid)).(phase := Close, locked := false) else Fault(old(system.Me(pid)))
      ensures ok ==> OwnLock(system.Me(pid), pid) !in system.now.locks
    {
      RunInv(system.run, |system.run| - 1);
      assert ProcOk(system.Me(pid));
      assert locked;
      ok := system.LockerGoes(pid);
      if ok { locked := false; }
      RunInv(system.run, |system.run| - 1);
      NoLockInClose(system.now, pid);
    }

    /** sd_locker_lock_file_close. */
    method LockFileClose() returns (ok: bool)
      requires Valid() && system.Me(pid).phase == Close
      modifies system
      ensures old(system.run) <= system.run
      ensures Valid()
      ensures system.Me(pid) == if ok then old(system.Me(pid)).(phase := Exit) else Fault(old(system.Me(pid)))
    {
      ok := system.LockerGoes(pid);
    }

    /** What main does once it has the lock. */
    method ExecuteAndRelease() returns (ok: bool)
      requires Valid() && system.Me(pid).phase == Fork
      modifies system, this
      ensures old(system.run) <= system.run
      ensures Valid() && Leaves(system.Me(pid), if ok then exitCode else EXIT_FAILURE)
      ensures system.Me(pid).script == old(system.Me(pid)).script && system.Me(pid).at == old(system.Me(pid)).at
    {
      ok := Execute();
      if ok { ok := LockRelease(); }
      if ok { ok := LockFileClose(); }
    }

    /** main: the exit code, or None while it waits for the lock. */
    method RunLocker() returns (code: Option<nat>)
      requires Valid() && system.Me(pid).phase == Open
      modifies system, this
      ensures old(system.run) <= system.run
      ensures Valid()
      ensures system.Me(pid).script == old(system.Me(pid)).script && system.Me(pid).at == old(system.Me(pid)).at
      ensures code.None? ==> Waiting(system.now, pid)
      ensures code.Some? ==> system.Me(pid).phase == Returned && system.Me(pid).exitCode == code.value < 256
    {
      var ok := LockFileOpen();
      if ok {
        var r := LockAcquire();
        if r.Waits? { return None; }
        ok := r.Proceeds?;
      }
      if ok { ok := ExecuteAndRelease(); }
      code := Some(if ok then exitCode else EXIT_FAILURE);
      var gone := system.LockerGoes(pid);
    }
  }

  predicate Leaves(p: Proc, code: nat) {
    p.phase == Exit && p.exitCode == code < 256
  }

  /** The functions of sysdep-system. */
  class Script {
    const system: System
    const pid: Pid

    ghost predicate Valid()
      reads this, system
    {
      system.Valid() && pid in system.now.procs
    }

    constructor (system: System, pid: Pid)
      requires system.Valid() && pid in system.now.procs
      ensures Valid() && this.system == system && this.pid == pid
    {
      this.system, this.pid := system, pid;
    }

    /** SDM_prepare_locker, which ends the script unless the locker is there or was linked. */
    method PrepareLocker() returns (ok: bool)
      requires Valid() && InCall(system.Me(pid)) && system.Me(pid).phase == TestLocker
      modifies system
      ensures old(system.run) <= system.run
      ensures Valid() && system.Me(pid) == old(system.Me(pid)).(phase := if ok then RetestLocker else Failed)
    {
      var files: Files;
      files, ok := system.PrepareGoes(pid);
      if !FileOf(files, SharedLocker).Absent? { return true; }
      files, ok := system.PrepareGoes(pid);
      if !ok { return; }
      files, ok := system.PrepareGoes(pid);
      if !ok { return; }
      var moved: bool;
      files, moved := system.PrepareGoes(pid);
    }

    /**
     SDM_lock_and_exec and SDM_lock_and_compile: prepare, test again, and run the locker, which is started
     only if it is there, finished.
     */
    method LockAndRun() returns (waits: bool)
      requires Valid() && InCall(system.Me(pid)) && system.Me(pid).phase == TestLocker
      modifies system
      ensures old(system.run) <= system.run
      ensures Valid() && InCall(system.Me(pid))
      ensures system.Me(pid).script == old(system.Me(pid)).script && system.Me(pid).at == old(system.Me(pid)).at
      ensures if waits then Waiting(system.now, pid) else InScript(system.Me(pid).phase)
      ensures !system.Me(pid).phase.Failed? ==> FileOf(system.now.files, SharedLocker).Complete?
    {
      var ok := PrepareLocker();
      if !ok { return false; }
      var files, tested := system.PrepareGoes(pid);
      if FileOf(files, SharedLocker).Absent? { return false; }
      waits := StartLocker();
    }

    /** The locker, which is there, finished. */
    method StartLocker() returns (waits: bool)
      requires Valid() && InCall(system.Me(pid)) && system.Me(pid).phase == Open
      modifies system
      ensures old(system.run) <= system.run
      ensures Valid() && InCall(system.Me(pid))
      ensures system.Me(pid).script == old(system.Me(pid)).script && system.Me(pid).at == old(system.Me(pid)).at
      ensures if waits then Waiting(system.now, pid) else system.Me(pid).phase == Returned
      ensures FileOf(system.now.files, SharedLocker).Complete?
    {
      ghost var start := |system.run| - 1;
      LockerIsWhole(system.run, start, start, pid);
      var locker := new SdLocker(system, pid);
      var code := locker.RunLocker();
      waits := code.None?;
      LockerIsWhole(system.run, start, |system.run| - 1, pid);
    }

    /**
     The commands of the script, one after the other: it gets to its end, or waits for a lock, or stops because
     an action of its own has failed or a program that it ran has exited with another code than zero.
     */
    method RunScript() returns (waits: bool)
      requires Valid() && FreshProc(system.Me(pid))
      modifies system
      ensures old(system.run) <= system.run
      ensures Valid() && system.Me(pid).script == old(system.Me(pid)).script
      ensures if waits then Waiting(system.now, pid) else Finished(system.Me(pid))
      ensures !waits && !system.Me(pid).phase.Done? ==>
                && HurtBefore(system.run, |system.run| - 1, pid)
                && exists i :: 0 <= i < system.time && system.fate(i) != WELL
    {
      waits := false;
      while !Finished(system.Me(pid))
        invariant Valid() && system.Me(pid).script == old(system.Me(pid)).script && old(system.run) <= system.run
        invariant Finished(system.Me(pid)) || (InCall(system.Me(pid)) && system.Me(pid).phase == TestLocker)
        decreases |system.Me(pid).script| - system.Me(pid).at, !Finished(system.Me(pid))
      {
        waits := LockAndRun();
        if waits { return; }
        system.ScriptGoes(pid);
      }
      if system.Me(pid).phase.Fatal? {
        FailureIsOwn(system.run, |system.run| - 1, pid);
        HurtByFate(system.run, system.fate, |system.run| - 1, pid);
      }
    }
  }
}
