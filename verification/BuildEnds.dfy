/** Every run of the parallel build ends, and when it ends, every build is finished. */
module BuildEnds {
  import opened Wrappers
  import opened ParallelBuild

  /** How many actions a build may still take in its present call. */
  function Rank(phase: Phase): (r: nat)
    ensures r < 20
  {
    match phase
    case TestLocker => 19
    case CompileLocker => 18
    case LinkLocker => 17
    case MoveLocker => 16
    case RetestLocker => 15
    case Open => 14
    case Acquire => 13
    case Fork => 12
    case ChildClose => 11
    case ChildExec => 10
    case Testing(_) => 9
    case Linking(_) => 8
    case Running(_) => 8
    case Reap => 7
    case Release => 6
    case Close => 5
    case Exit => 4
    case Returned => 3
    case Failed => 2
    case Done | Fatal => 0
  }

  function Measure(p: Proc): nat {
    (if p.at <= |p.script| then (|p.script| - p.at) * 20 else 0) + Rank(p.phase)
  }

  lemma {:induction false} PrepareLowers(p: Proc, pid: Pid, files: Files, c: Choice)
    requires Preparing(p.phase)
    ensures Measure(PrepareStep(p, pid, files, c).0) < Measure(p)
  {
  }

  lemma {:induction false} LockerLowers(p: Proc, pid: Pid, locks: set<Lock>, c: Choice)
    requires InCall(p) && InLocker(p.phase) && LockerStep(p, pid, locks, c).Some?
    ensures Measure(LockerStep(p, pid, locks, c).value.0) < Measure(p)
  {
  }

  lemma {:induction false} CommandLowers(w: Work, pid: Pid, c: Choice)
    requires InCall(w.proc) && InChild(w.proc.phase)
    ensures Measure(CommandStep(w, pid, c).proc) < Measure(w.proc)
  {
    var v := CommandStep(w, pid, c);
    assert v.proc.at == w.proc.at && v.proc.script == w.proc.script;
  }

  lemma {:induction false} ScriptLowers(p: Proc, c: Choice)
    requires InCall(p) && InScript(p.phase)
    ensures Measure(ScriptStep(p, c)) < Measure(p)
  {
  }

  /** Every action brings its build nearer to its end. */
  lemma {:induction false} StepLowers(s: State, pid: Pid, c: Choice, t: State)
    requires ProcsOk(s) && pid in s.procs && Step(s, pid, c) == Some(t)
    ensures pid in t.procs && t.procs == s.procs[pid := t.procs[pid]] && Measure(t.procs[pid]) < Measure(s.procs[pid])
  {
    var p := s.procs[pid];
    ProcsKept(s, pid, c, t);
    if Preparing(p.phase) {
      PrepareLowers(p, pid, s.files, c);
    } else if InLocker(p.phase) {
      LockerLowers(p, pid, s.locks, c);
    } else if InChild(p.phase) {
      CommandLowers(Work(p, s.locks, s.files, s.links), pid, c);
    } else {
      ScriptLowers(p, c);
    }
  }

  /** The actions that the listed builds may still take. */
  function Total(procs: map<Pid, Proc>, pids: seq<Pid>): nat
    requires forall pid :: pid in pids ==> pid in procs
  {
    if pids == [] then 0 else Measure(procs[pids[0]]) + Total(procs, pids[1..])
  }

  ghost predicate Lists(pids: seq<Pid>, procs: map<Pid, Proc>) {
    && (forall pid :: pid in pids <==> pid in procs)
    && forall i, j :: 0 <= i < j < |pids| ==> pids[i] != pids[j]
  }

  lemma {:induction false} TotalElsewhere(procs: map<Pid, Proc>, pids: seq<Pid>, pid: Pid, q: Proc)
    requires (forall r :: r in pids ==> r in procs) && pid !in pids
    ensures Total(procs[pid := q], pids) == Total(procs, pids)
  {
    if pids != [] { TotalElsewhere(procs, pids[1..], pid, q); }
  }

  lemma {:induction false} TotalDrops(procs: map<Pid, Proc>, pids: seq<Pid>, pid: Pid, q: Proc)
    requires (forall r :: r in pids ==> r in procs) && pid in pids && Measure(q) < Measure(procs[pid])
    requires forall i, j :: 0 <= i < j < |pids| ==> pids[i] != pids[j]
    ensures Total(procs[pid := q], pids) < Total(procs, pids)
  {
    if pids[0] == pid {
      TotalElsewhere(procs, pids[1..], pid, q);
    } else {
      TotalDrops(procs, pids[1..], pid, q);
    }
  }

  lemma {:induction false} NextLowers(s: State, t: State, pids: seq<Pid>)
    requires ProcsOk(s) && Lists(pids, s.procs) && Next(s, t)
    ensures Lists(pids, t.procs) && Total(t.procs, pids) < Total(s.procs, pids)
  {
    var pid, c :| pid in s.procs && Step(s, pid, c) == Some(t);
    StepLowers(s, pid, c, t);
    TotalDrops(s.procs, pids, pid, t.procs[pid]);
  }

  lemma {:induction false} RunShort(states: seq<State>, pids: seq<Pid>, i: nat)
    requires IsRun(states) && Lists(pids, states[0].procs) && i < |states|
    ensures Lists(pids, states[i].procs) && i + Total(states[i].procs, pids) <= Total(states[0].procs, pids)
  {
    if i > 0 {
      RunShort(states, pids, i - 1);
      RunInv(states, i - 1);
      assert Next(states[i - 1], states[i]);
      NextLowers(states[i - 1], states[i], pids);
    }
  }

  /** Nobody can do anything. */
  ghost predicate Stuck(s: State) {
    forall t :: !Next(s, t)
  }

  ghost predicate AllFinished(s: State) {
    forall pid :: pid in s.procs ==> Finished(s.procs[pid])
  }

  /** Where a build is not finished, somebody can go on. */
  lemma {:induction false} NotStuck(states: seq<State>, pid: Pid)
    requires IsRun(states) && pid in states[|states| - 1].procs && !Finished(states[|states| - 1].procs[pid])
    ensures !Stuck(states[|states| - 1])
  {
    var last := states[|states| - 1];
    var next := SomebodyGoesOn(states, |states| - 1, pid);
    assert Next(last, Step(last, next, Choice(true, 0)).value);
  }

  /** No run takes more actions than Total says at its start; and once nobody can go on, all builds are finished. */
  lemma {:induction false} EveryRunEnds(states: seq<State>, pids: seq<Pid>)
    requires IsRun(states) && Lists(pids, states[0].procs)
    ensures |states| <= Total(states[0].procs, pids) + 1
    ensures Stuck(states[|states| - 1]) ==> AllFinished(states[|states| - 1])
  {
    RunShort(states, pids, |states| - 1);
    var last := states[|states| - 1];
    if !AllFinished(last) {
      var pid :| pid in last.procs && !Finished(last.procs[pid]);
      NotStuck(states, pid);
    }
  }
}
