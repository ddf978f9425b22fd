/**
 A build fails only if one of its own actions does: a system call of it fails, or a program that it runs
 exits with something else than zero. Without such an action every build gets to its end.
 */
module BuildSucceeds {
  import opened Wrappers
  import opened ParallelBuild
  import opened BuildEnds

  const WELL := Choice(true, 0)

  /** In this step `pid` acts, and something fails or exits with another code than zero, which makes a difference. */
  ghost predicate Hurt(s: State, pid: Pid, t: State) {
    pid in s.procs && Step(s, pid, WELL) != Some(t) && exists c :: c != WELL && Step(s, pid, c) == Some(t)
  }

  ghost predicate HurtBefore(states: seq<State>, n: nat, pid: Pid) {
    exists i :: 0 <= i < n < |states| && Hurt(states[i], pid, states[i + 1])
  }

  /** Nothing has failed in this build: the codes of its present call are zero, and a prepared locker is there. */
  predicate Unhurt(p: Proc, shared: Content) {
    && !p.phase.Failed? && !p.phase.Fatal?
    && (p.phase.RetestLocker? ==> !shared.Absent?)
    && (InLocker(p.phase) || InChild(p.phase) || p.phase.Returned? ==> !p.fault && (p.status.Some? ==> p.status == Some(0)))
    && (p.phase.Release? || p.phase.Close? || p.phase.Exit? || p.phase.Returned? ==> p.exitCode == 0)
  }

  lemma {:induction false} PrepareUnhurt(p: Proc, pid: Pid, files: Files)
    requires Preparing(p.phase) && Unhurt(p, FileOf(files, SharedLocker))
    requires p.phase.MoveLocker? ==> FileOf(files, OwnLocker(pid)).Complete?
    ensures var (q, now) := PrepareStep(p, pid, files, WELL); Unhurt(q, FileOf(now, SharedLocker))
  {
  }

  lemma {:induction false} LockerUnhurt(p: Proc, pid: Pid, locks: set<Lock>, shared: Content)
    requires InCall(p) && InLocker(p.phase) && ProcOk(p) && Unhurt(p, shared) && LockerStep(p, pid, locks, WELL).Some?
    ensures Unhurt(LockerStep(p, pid, locks, WELL).value.0, shared)
  {
  }

  lemma {:induction false} CommandUnhurt(w: Work, pid: Pid, shared: Content)
    requires InCall(w.proc) && InChild(w.proc.phase) && Unhurt(w.proc, shared)
    ensures Unhurt(CommandStep(w, pid, WELL).proc, shared)
  {
  }

  /** A program file that is there stays, or is replaced by a finished one. */
  lemma {:induction false} SharedStays(s: State, t: State)
    requires !FileOf(s.files, SharedLocker).Partial? && Lasts(s.files, t.files)
    ensures !FileOf(s.files, SharedLocker).Absent? ==> !FileOf(t.files, SharedLocker).Absent?
  {
    if !FileOf(s.files, SharedLocker).Absent? { assert FileOf(s.files, SharedLocker).Complete?; }
  }

  /** A step in which nothing fails. */
  lemma {:induction false} OwnStepUnhurt(start: Files, s: State, pid: Pid, t: State)
    requires Inv(start, s) && pid in s.procs && Step(s, pid, WELL) == Some(t)
    requires Unhurt(s.procs[pid], FileOf(s.files, SharedLocker))
    ensures pid in t.procs && Unhurt(t.procs[pid], FileOf(t.files, SharedLocker))
  {
    var p, shared := s.procs[pid], FileOf(s.files, SharedLocker);
    assert ProcOk(p) && FilesFor(p, pid, s.files);
    if Preparing(p.phase) {
      PrepareUnhurt(p, pid, s.files);
    } else if InLocker(p.phase) {
      LockerUnhurt(p, pid, s.locks, shared);
    } else if InChild(p.phase) {
      CommandUnhurt(Work(p, s.locks, s.files, s.links), pid, shared);
    }
  }

  /** Without a step that hurts it, a build is unhurt. */
  lemma {:induction false} StaysUnhurt(states: seq<State>, n: nat, pid: Pid)
    requires IsRun(states) && n < |states| && pid in states[0].procs && !HurtBefore(states, n, pid)
    ensures pid in states[n].procs && Unhurt(states[n].procs[pid], FileOf(states[n].files, SharedLocker))
  {
    if n == 0 {
      assert FreshProc(states[0].procs[pid]);
    } else {
      assert !HurtBefore(states, n - 1, pid);
      StaysUnhurt(states, n - 1, pid);
      var s, t := states[n - 1], states[n];
      RunInv(states, n - 1);
      assert Next(s, t) && !Hurt(s, pid, t);
      StepKeepsInv(states[0].files, s, t);
      var q, c :| q in s.procs && Step(s, q, c) == Some(t);
      if q == pid {
        OwnStepUnhurt(states[0].files, s, pid, t);
      } else {
        StepLowers(s, q, c, t);
        SharedStays(s, t);
      }
    }
  }

  /** Processes come and go with nobody. */
  lemma {:induction false} SameBuilds(states: seq<State>, n: nat)
    requires IsRun(states) && n < |states|
    ensures states[n].procs.Keys == states[0].procs.Keys
    ensures forall pid :: pid in states[0].procs ==> states[n].procs[pid].script == states[0].procs[pid].script
  {
    if n > 0 {
      SameBuilds(states, n - 1);
      RunInv(states, n - 1);
      assert Next(states[n - 1], states[n]);
      var q, c :| q in states[n - 1].procs && Step(states[n - 1], q, c) == Some(states[n]);
      StepLowers(states[n - 1], q, c, states[n]);
      ScriptStays(states[n - 1], q, c, states[n]);
    }
  }

  lemma {:induction false} ScriptStays(s: State, pid: Pid, c: Choice, t: State)
    requires ProcsOk(s) && pid in s.procs && Step(s, pid, c) == Some(t) && pid in t.procs
    ensures t.procs[pid].script == s.procs[pid].script
  {
    var p := s.procs[pid];
    if Preparing(p.phase) {
      PrepareKeeps(p, pid, s.files, c);
    } else if InChild(p.phase) {
      CommandKeeps(Work(p, s.locks, s.files, s.links), pid, c);
    }
  }

  /** In any run: a build that has failed, or given up, has had an action of its own that failed. */
  lemma {:induction false} FailureIsOwn(states: seq<State>, n: nat, pid: Pid)
    requires IsRun(states) && n < |states| && pid in states[n].procs
    requires states[n].procs[pid].phase.Failed? || states[n].procs[pid].phase.Fatal?
    ensures HurtBefore(states, n, pid)
  {
    SameBuilds(states, n);
    if !HurtBefore(states, n, pid) { StaysUnhurt(states, n, pid); }
  }

  // --- Runs in which nothing fails ----------------------------------------------------------------------

  /** Every action is one in which all calls succeed and every program exits with zero. */
  ghost predicate AllWell(states: seq<State>) {
    forall i :: 0 <= i < |states| - 1 ==> WellStep(states[i], states[i + 1])
  }

  ghost predicate WellStep(s: State, t: State) {
    exists pid :: pid in s.procs && Step(s, pid, WELL) == Some(t)
  }

  lemma {:induction false} WellStepHurtsNobody(s: State, t: State, pid: Pid)
    requires ProcsOk(s) && WellStep(s, t)
    ensures !Hurt(s, pid, t)
  {
    if Hurt(s, pid, t) {
      var q :| q in s.procs && Step(s, q, WELL) == Some(t);
      var c :| c != WELL && Step(s, pid, c) == Some(t);
      StepLowers(s, q, WELL, t);
      StepLowers(s, pid, c, t);
    }
  }

  lemma {:induction false} NobodyHurt(states: seq<State>, n: nat, pid: Pid)
    requires IsRun(states) && AllWell(states) && n < |states|
    ensures !HurtBefore(states, n, pid)
  {
    if HurtBefore(states, n, pid) {
      var i :| 0 <= i < n && Hurt(states[i], pid, states[i + 1]);
      RunInv(states, i);
      assert WellStep(states[i], states[i + 1]);
      WellStepHurtsNobody(states[i], states[i + 1], pid);
    }
  }

  /** The command of call number `k` of process `pid` has begun: sd-compile, or the program of a run. */
  ghost predicate CallMade(states: seq<State>, n: nat, pid: Pid, k: nat) {
    exists i :: 0 <= i <= n < |states| && pid in states[i].procs && Begun(states[i].procs[pid], k)
  }

  predicate Begun(p: Proc, k: nat) {
    k < |p.script| && p.at == k && p.phase == match p.script[k] case Compile(h) => Testing(h) case Run(_, uses) => Running(uses)
  }

  /** The phases of a call that come after the beginning of its command. */
  predicate PastBeginning(phase: Phase) {
    || phase.Testing? || phase.Linking? || phase.Running? || phase.Reap? || phase.Release? || phase.Close? || phase.Exit?
    || phase.Returned?
  }

  /** All calls before the present one have been made, and the present one if it is past its beginning. */
  ghost predicate CallsMade(states: seq<State>, n: nat, pid: Pid)
    requires n < |states| && pid in states[n].procs
  {
    var p := states[n].procs[pid];
    && (forall k: nat :: k < p.at ==> CallMade(states, n, pid, k))
    && (PastBeginning(p.phase) ==> CallMade(states, n, pid, p.at))
  }

  /** From `p` to `q` a build has stayed at its call or gone on to the next, and has begun a command or had done so. */
  predicate GoesOn(p: Proc, q: Proc) {
    if q.at == p.at then PastBeginning(q.phase) ==> PastBeginning(p.phase) || Begun(q, q.at)
    else q.at == p.at + 1 && PastBeginning(p.phase) && !PastBeginning(q.phase)
  }

  lemma {:induction false} PrepareGoesOn(p: Proc, pid: Pid, files: Files)
    requires Preparing(p.phase)
    ensures GoesOn(p, PrepareStep(p, pid, files, WELL).0)
  {
  }

  lemma {:induction false} LockerGoesOn(p: Proc, pid: Pid, locks: set<Lock>)
    requires InCall(p) && InLocker(p.phase) && LockerStep(p, pid, locks, WELL).Some?
    ensures GoesOn(p, LockerStep(p, pid, locks, WELL).value.0)
  {
  }

  lemma {:induction false} CommandGoesOn(w: Work, pid: Pid)
    requires InCall(w.proc) && InChild(w.proc.phase)
    requires Current(w.proc).Run? && Current(w.proc).uses.Some? ==> !FileOf(w.files, Helper(Current(w.proc).uses.value)).Absent?
    ensures GoesOn(w.proc, CommandStep(w, pid, WELL).proc)
  {
  }

  /** One step of a build in which nothing fails. */
  lemma {:induction false} WellStepGoesOn(start: Files, s: State, pid: Pid, t: State)
    requires Inv(start, s) && pid in s.procs && Step(s, pid, WELL) == Some(t)
    requires Unhurt(s.procs[pid], FileOf(s.files, SharedLocker))
    ensures pid in t.procs && GoesOn(s.procs[pid], t.procs[pid])
  {
    var p := s.procs[pid];
    assert ProcOk(p) && FilesFor(p, pid, s.files);
    if Preparing(p.phase) {
      PrepareGoesOn(p, pid, s.files);
    } else if InLocker(p.phase) {
      LockerGoesOn(p, pid, s.locks);
    } else if InChild(p.phase) {
      HelperIsThere(p, pid, s.files);
      CommandGoesOn(Work(p, s.locks, s.files, s.links), pid);
    }
  }

  /** A helper that a run uses has been compiled by an earlier call. */
  lemma {:induction false} HelperIsThere(p: Proc, pid: Pid, files: Files)
    requires ProcOk(p) && FilesFor(p, pid, files) && InCall(p)
    ensures Current(p).Run? && Current(p).uses.Some? ==> FileOf(files, Helper(Current(p).uses.value)).Complete?
  {
    if Current(p).Run? && Current(p).uses.Some? {
      assert CompiledBefore(p.script, p.at, Current(p).uses.value);
      assert HasCompiled(p, Current(p).uses.value);
    }
  }

  lemma {:induction false} MadeStays(states: seq<State>, n: nat, m: nat, pid: Pid, k: nat)
    requires n <= m < |states| && CallMade(states, n, pid, k)
    ensures CallMade(states, m, pid, k)
  {
  }

  /** As long as nothing fails in a build, it makes its calls one after the other and leaves none out. */
  lemma {:induction false} MakesItsCalls(states: seq<State>, n: nat, pid: Pid)
    requires IsRun(states) && n < |states| && pid in states[0].procs && !HurtBefore(states, n, pid)
    ensures pid in states[n].procs && CallsMade(states, n, pid)
  {
    SameBuilds(states, n);
    if n == 0 {
      assert FreshProc(states[0].procs[pid]);
    } else {
      assert !HurtBefore(states, n - 1, pid);
      MakesItsCalls(states, n - 1, pid);
      StaysUnhurt(states, n - 1, pid);
      RunInv(states, n - 1);
      OneMoreStep(states, n, pid);
    }
  }

  lemma {:induction false} OneMoreStep(states: seq<State>, n: nat, pid: Pid)
    requires IsRun(states) && 0 < n < |states| && pid in states[n - 1].procs && pid in states[n].procs
    requires CallsMade(states, n - 1, pid) && Inv(states[0].files, states[n - 1])
    requires !Hurt(states[n - 1], pid, states[n])
    requires Unhurt(states[n - 1].procs[pid], FileOf(states[n - 1].files, SharedLocker))
    ensures CallsMade(states, n, pid)
  {
    var s, t := states[n - 1], states[n];
    assert Next(s, t);
    var q, c :| q in s.procs && Step(s, q, c) == Some(t);
    if q == pid {
      WellStepGoesOn(states[0].files, s, pid, t);
    } else {
      StepLowers(s, q, c, t);
    }
    var p := t.procs[pid];
    forall k: nat | k < p.at || (k == p.at && PastBeginning(p.phase)) ensures CallMade(states, n, pid, k) {
      if k == p.at && Begun(p, k) {
        assert CallMade(states, n, pid, k);
      } else {
        MadeStays(states, n - 1, n, pid, k);
      }
    }
  }

  /** A build at its end in which nothing has failed has made every call of its script. */
  lemma {:induction false} EveryCallMade(states: seq<State>, n: nat, pid: Pid, k: nat)
    requires IsRun(states) && n < |states| && pid in states[n].procs && states[n].procs[pid].phase.Done?
    requires !HurtBefore(states, n, pid) && k < |states[n].procs[pid].script|
    ensures CallMade(states, n, pid, k)
  {
    SameBuilds(states, n);
    MakesItsCalls(states, n, pid);
    RunInv(states, n);
    assert ProcOk(states[n].procs[pid]);
  }

  /**
   If nothing fails, then once nobody can go on every build is done, has made every call of its script, and
   every helper that it compiles is finished.
   */
  lemma {:induction false} AllBuildsSucceed(states: seq<State>, pids: seq<Pid>)
    requires IsRun(states) && AllWell(states) && Lists(pids, states[0].procs) && Stuck(states[|states| - 1])
    ensures var last := states[|states| - 1];
            forall pid :: pid in states[0].procs ==>
              && pid in last.procs && last.procs[pid].phase.Done? && last.procs[pid].script == states[0].procs[pid].script
              && forall k :: 0 <= k < |last.procs[pid].script| ==>
                   && CallMade(states, |states| - 1, pid, k)
                   && (last.procs[pid].script[k].Compile? ==> FileOf(last.files, Helper(last.procs[pid].script[k].helper)).Complete?)
  {
    var n := |states| - 1;
    var last := states[n];
    EveryRunEnds(states, pids);
    SameBuilds(states, n);
    forall pid | pid in states[0].procs
      ensures last.procs[pid].phase.Done?
      ensures forall k :: 0 <= k < |last.procs[pid].script| ==>
                && CallMade(states, n, pid, k)
                && (last.procs[pid].script[k].Compile? ==> FileOf(last.files, Helper(last.procs[pid].script[k].helper)).Complete?)
    {
      NobodyHurt(states, n, pid);
      StaysUnhurt(states, n, pid);
      assert Finished(last.procs[pid]);
      forall k | 0 <= k < |last.procs[pid].script|
        ensures CallMade(states, n, pid, k)
        ensures last.procs[pid].script[k].Compile? ==> FileOf(last.files, Helper(last.procs[pid].script[k].helper)).Complete?
      {
        EveryCallMade(states, n, pid, k);
        if last.procs[pid].script[k].Compile? { DoneHasHelpers(states, n, pid, k); }
      }
    }
  }

  // --- What a command exits with --------------------------------------------------------------------------

  /** The command of call number `at` has ended with `code`, and the build is still at it, or further on, or stopped. */
  predicate Ended(p: Proc, at: nat, code: nat) {
    || p.at > at
    || (p.at == at && p.phase.Fatal?)
    || (p.at == at && p.status == Some(code)
        && (p.phase.Reap? || p.phase.Release? || p.phase.Close? || p.phase.Exit? || p.phase.Returned?))
  }

  lemma {:induction false} StepStaysEnded(s: State, pid: Pid, c: Choice, t: State, at: nat, code: nat)
    requires pid in s.procs && Step(s, pid, c) == Some(t) && Ended(s.procs[pid], at, code)
    ensures pid in t.procs && Ended(t.procs[pid], at, code)
  {
    var p := s.procs[pid];
    if Preparing(p.phase) {
      assert p.at > at && PrepareStep(p, pid, s.files, c).0.at == p.at;
    } else if InLocker(p.phase) {
      LockerStaysEnded(p, pid, s.locks, c, at, code);
    } else if InChild(p.phase) {
      ChildStaysAt(Work(p, s.locks, s.files, s.links), pid, c);
    }
  }

  lemma {:induction false} LockerStaysEnded(p: Proc, pid: Pid, locks: set<Lock>, c: Choice, at: nat, code: nat)
    requires InCall(p) && InLocker(p.phase) && LockerStep(p, pid, locks, c).Some? && Ended(p, at, code)
    ensures Ended(LockerStep(p, pid, locks, c).value.0, at, code)
  {
  }

  lemma {:induction false} ChildStaysAt(w: Work, pid: Pid, c: Choice)
    requires InCall(w.proc) && InChild(w.proc.phase)
    ensures CommandStep(w, pid, c).proc.at == w.proc.at
  {
  }

  lemma {:induction false} NextStaysEnded(s: State, t: State, pid: Pid, at: nat, code: nat)
    requires ProcsOk(s) && Next(s, t) && pid in s.procs && Ended(s.procs[pid], at, code)
    ensures pid in t.procs && Ended(t.procs[pid], at, code)
  {
    var q, c :| q in s.procs && Step(s, q, c) == Some(t);
    if q == pid {
      StepStaysEnded(s, pid, c, t, at, code);
    } else {
      ProcsKept(s, q, c, t);
    }
  }

  lemma {:induction false} StepOfRunStaysEnded(states: seq<State>, k: nat, pid: Pid, at: nat, code: nat)
    requires IsRun(states) && k + 1 < |states| && pid in states[k].procs && Ended(states[k].procs[pid], at, code)
    ensures pid in states[k + 1].procs && Ended(states[k + 1].procs[pid], at, code)
  {
    RunInv(states, k);
    assert Next(states[k], states[k + 1]);
    NextStaysEnded(states[k], states[k + 1], pid, at, code);
  }

  /** What every step from number `i` on keeps holds at number `j`. */
  lemma {:induction false} Kept<S>(holds: S -> bool, states: seq<S>, i: nat, j: nat)
    requires i <= j < |states| && holds(states[i])
    requires forall k :: i <= k < j && holds(states[k]) ==> holds(states[k + 1])
    ensures holds(states[j])
  {
    if i < j { Kept(holds, states, i, j - 1); }
  }

  lemma {:induction false} StaysEnded(states: seq<State>, i: nat, j: nat, pid: Pid, at: nat, code: nat)
    requires IsRun(states) && i <= j < |states| && pid in states[i].procs && Ended(states[i].procs[pid], at, code)
    ensures pid in states[j].procs && Ended(states[j].procs[pid], at, code)
  {
    var holds := (s: State) => pid in s.procs && Ended(s.procs[pid], at, code);
    forall k | i <= k < j && holds(states[k]) ensures holds(states[k + 1]) {
      StepOfRunStaysEnded(states, k, pid, at, code);
    }
    Kept(holds, states, i, j);
  }

  lemma {:induction false} RunningEnds(s: State, pid: Pid, c: Choice, t: State)
    requires pid in s.procs && InCall(s.procs[pid]) && s.procs[pid].phase.Running? && Step(s, pid, c) == Some(t)
    ensures pid in t.procs && Ended(t.procs[pid], s.procs[pid].at, c.code % 256)
  {
  }

  /** What a command exits with its sd-locker exits with, unless a system call of that fails, which makes it 1. */
  lemma {:induction false} CodeIsReported(states: seq<State>, i: nat, j: nat, pid: Pid, c: Choice)
    requires IsRun(states) && i < j < |states| && pid in states[i].procs && pid in states[j].procs
    requires states[i].procs[pid].phase.Running? && Step(states[i], pid, c) == Some(states[i + 1])
    requires states[j].procs[pid].phase.Returned? && states[j].procs[pid].at == states[i].procs[pid].at
    ensures states[j].procs[pid].exitCode == if states[j].procs[pid].fault then 1 else c.code % 256
  {
    RunInv(states, i);
    assert ProcOk(states[i].procs[pid]);
    RunningEnds(states[i], pid, c, states[i + 1]);
    StaysEnded(states, i + 1, j, pid, states[i].procs[pid].at, c.code % 256);
    ExitCodeIsTheCommands(states, j, pid);
  }

  /**
   The script goes on to its next command if the last one's locker has exited with 0, and else only after a run, not
   after a compilation, and not always; otherwise it stops.
   */
  lemma {:induction false} ScriptGoesOn(states: seq<State>, i: nat, pid: Pid, c: Choice)
    requires IsRun(states) && i + 1 < |states|
    requires pid in states[i].procs && Step(states[i], pid, c) == Some(states[i + 1])
    requires InCall(states[i].procs[pid]) && InScript(states[i].procs[pid].phase)
    ensures pid in states[i + 1].procs
    ensures var p, q := states[i].procs[pid], states[i + 1].procs[pid];
            if (p.phase.Returned? && p.exitCode == 0) || (Current(p).Run? && c.ok) then
              q.at == p.at + 1 && q.phase == if q.at < |q.script| then TestLocker else Done
            else q.at == p.at && q.phase == Fatal
  {
    RunInv(states, i);
    ProcsKept(states[i], pid, c, states[i + 1]);
  }
}
