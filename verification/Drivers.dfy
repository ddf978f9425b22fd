/** The programs installer, deinstaller and instchk: loops over the item table. */
module Drivers {
  import opened FileSystem
  import opened Items
  import opened Steps
  import opened Translation
  import opened Engine
  import opened HostSystem

  /** The table as it was declared: no item appears twice and none has been rewritten. */
  ghost predicate Table(items: seq<Item>, entries: seq<Entry>)
    reads items
  {
    && |items| == |entries|
    && (forall i, j :: 0 <= i < j < |items| ==> items[i] != items[j])
    && Rows(items, entries, 0, |items|)
  }

  /** The rows from `low` up to `high` are as declared. */
  ghost predicate Rows(items: seq<Item>, entries: seq<Entry>, low: int, high: int)
    requires 0 <= low <= high <= |items| == |entries|
    reads items
  {
    forall i :: low <= i < high ==> items[i].Fresh() && items[i].Declared() == entries[i] && ItemOk(entries[i])
  }

  /** What one call of install for each of the first `n` items does; a dry run changes nothing. */
  ghost predicate Outcomes(env: Env, entries: seq<Entry>, dryRun: bool, statuses: seq<Status>, states: seq<FS>, n: nat) {
    && n <= |entries| && |statuses| == n && |states| == n + 1
    && forall i :: 0 <= i < n ==> InstallOutcome(env, states[i], entries[i], dryRun, statuses[i], states[i + 1])
  }

  lemma {:induction false} OneMoreOutcome(env: Env, entries: seq<Entry>, dryRun: bool, statuses: seq<Status>, states: seq<FS>,
                                          n: nat, status: Status, now: FS)
    requires n < |entries| && Outcomes(env, entries, dryRun, statuses, states, n)
    requires InstallOutcome(env, states[n], entries[n], dryRun, status, now)
    ensures Outcomes(env, entries, dryRun, statuses + [status], states + [now], n + 1)
  {
    var more, after := statuses + [status], states + [now];
    forall i | 0 <= i < n + 1
      ensures InstallOutcome(env, after[i], entries[i], dryRun, more[i], after[i + 1])
    {
      if i < n {
        assert after[i] == states[i] && more[i] == statuses[i] && after[i + 1] == states[i + 1];
        assert InstallOutcome(env, states[i], entries[i], dryRun, statuses[i], states[i + 1]);
      }
    }
  }

  lemma {:induction false} LuckyParts(luck: nat -> bool, from: nat, mid: nat, to: nat)
    requires from <= mid <= to && !Unlucky(luck, from, to)
    ensures !Unlucky(luck, from, mid) && !Unlucky(luck, mid, to)
  {
  }

  /** Every one of the first `n` items that the file system allows has been installed. */
  ghost predicate AllAnswer(env: Env, entries: seq<Entry>, statuses: seq<Status>, states: seq<FS>, n: nat) {
    && n <= |entries| && n <= |statuses| && n < |states|
    && forall i :: 0 <= i < n ==> Answers(env, states[i], entries[i], statuses[i])
  }

  lemma {:induction false} OneMoreAnswer(env: Env, entries: seq<Entry>, statuses: seq<Status>, states: seq<FS>, n: nat,
                                         status: Status, now: FS)
    requires n < |entries| && |statuses| == n && |states| == n + 1
    requires AllAnswer(env, entries, statuses, states, n) && Answers(env, states[n], entries[n], status)
    ensures AllAnswer(env, entries, statuses + [status], states + [now], n + 1)
  {
    AlsoForLast((fs, e, answer) => Answers(env, fs, e, answer), states, entries, statuses, status, now);
  }

  /** What holds of every item so far and of the next holds of one item more. */
  lemma {:induction false} AlsoForLast<S, E, R>(holds: (S, E, R) -> bool, states: seq<S>, entries: seq<E>, results: seq<R>,
                                                result: R, now: S)
    requires |results| < |entries| && |states| == |results| + 1
    requires forall i :: 0 <= i < |results| ==> holds(states[i], entries[i], results[i])
    requires holds(states[|results|], entries[|results|], result)
    ensures forall i :: 0 <= i < |results| + 1 ==> holds((states + [now])[i], entries[i], (results + [result])[i])
  {
    forall i | 0 <= i < |results| + 1 ensures holds((states + [now])[i], entries[i], (results + [result])[i]) {
      if i < |results| { assert holds(states[i], entries[i], results[i]); }
    }
  }

  /** installer: items in order; an error does not stop it and it never fails. An argument makes it a dry run. */
  method RunInstaller(engine: Installer, items: seq<Item>, argc: int, ghost entries: seq<Entry>)
    returns (code: int, ghost statuses: seq<Status>, ghost states: seq<FS>)
    requires engine.Valid() && IsDir(engine.host.fs, engine.host.cwd) && Table(items, entries)
    modifies engine.host`fs, engine.host`log, engine.host`calls, engine.host`cwd, engine.names`statics, items
    ensures engine.Valid() && code == 0
    ensures Outcomes(engine.host.env, entries, argc > 1, statuses, states, |entries|)
    ensures argc <= 1 ==> InstallRun(engine.host.env, entries, statuses, states)
    ensures states[0] == old(engine.host.fs) && states[|entries|] == engine.host.fs
    ensures argc > 1 ==> engine.host.fs == old(engine.host.fs)
    ensures old(engine.host.calls) <= engine.host.calls
    ensures argc <= 1 && !Unlucky(engine.host.luck, old(engine.host.calls), engine.host.calls) ==>
              AllAnswer(engine.host.env, entries, statuses, states, |entries|)
  {
    var dryRun := argc > 1;
    var index := 0;
    ghost var env := engine.host.env;
    statuses, states := [], [engine.host.fs];
    while index < |items|
      invariant 0 <= index <= |items| && engine.Valid() && IsDir(engine.host.fs, engine.host.cwd)
      invariant Rows(items, entries, index, |items|)
      invariant Outcomes(env, entries, dryRun, statuses, states, index)
      invariant states[0] == old(engine.host.fs) && states[index] == engine.host.fs
      invariant dryRun ==> engine.host.fs == old(engine.host.fs)
      invariant old(engine.host.calls) <= engine.host.calls
      invariant !dryRun && !Unlucky(engine.host.luck, old(engine.host.calls), engine.host.calls) ==>
                  AllAnswer(env, entries, statuses, states, index)
    {
      ghost var before := engine.host.calls;
      var status := engine.Install(items[index], dryRun);
      if !dryRun && !Unlucky(engine.host.luck, old(engine.host.calls), engine.host.calls) {
        LuckyParts(engine.host.luck, old(engine.host.calls), before, engine.host.calls);
        OneMoreAnswer(env, entries, statuses, states, index, status, engine.host.fs);
      }
      OneMoreOutcome(env, entries, dryRun, statuses, states, index, status, engine.host.fs);
      statuses, states := statuses + [status], states + [engine.host.fs];
      match status {
        case OK =>
        case ERROR =>
        case FATAL => assert false;
      }
      index := index + 1;
    }
    code := 0;
  }

  /** The first `k` removals of a run. */
  ghost predicate Deinstalling(env: Env, entries: seq<Entry>, states: seq<FS>, k: nat) {
    && k <= |entries| && |states| == k + 1
    && forall j :: 0 <= j < k ==> DeinstallStep(env, states[j], entries[|entries| - 1 - j], states[j + 1])
  }

  /** The first `k` removals, from `start` to `now`. */
  ghost predicate Removing(env: Env, entries: seq<Entry>, states: seq<FS>, k: nat, start: FS, now: FS) {
    Deinstalling(env, entries, states, k) && states[0] == start && states[k] == now
  }

  lemma {:induction false} OneMoreRemoval(env: Env, entries: seq<Entry>, states: seq<FS>, k: nat, start: FS, now: FS)
    requires k < |entries| && |states| == k + 1 && Removing(env, entries, states, k, start, states[k])
    requires DeinstallStep(env, states[k], entries[|entries| - 1 - k], now)
    ensures Removing(env, entries, states + [now], k + 1, start, now)
  {
    var after := states + [now];
    forall j | 0 <= j < k + 1 ensures DeinstallStep(env, after[j], entries[|entries| - 1 - j], after[j + 1]) {
      if j < k {
        assert after[j] == states[j] && after[j + 1] == states[j + 1];
        assert DeinstallStep(env, states[j], entries[|entries| - 1 - j], states[j + 1]);
      }
    }
  }

  /** Removing one row leaves the rows before it as declared. */
  method DeinstallNext(engine: Installer, items: seq<Item>, index: nat, dryRun: bool, ghost entries: seq<Entry>)
    returns (status: Status)
    requires engine.Valid() && index < |items| == |entries| && Rows(items, entries, 0, index + 1)
    requires forall i, j :: 0 <= i < j < |items| ==> items[i] != items[j]
    modifies engine.host`fs, engine.host`log, engine.names`statics, items[index]
    ensures engine.Valid() && Rows(items, entries, 0, index) && status != FATAL
    ensures dryRun ==> engine.host.fs == old(engine.host.fs)
    ensures !dryRun ==> DeinstallStep(engine.host.env, old(engine.host.fs), entries[index], engine.host.fs)
  {
    status := engine.Deinstall(items[index], dryRun);
  }

  /** deinstaller: items from the last to the first. The table is not empty. */
  method RunDeinstaller(engine: Installer, items: seq<Item>, argc: int, ghost entries: seq<Entry>)
    returns (code: int, ghost states: seq<FS>)
    requires engine.Valid() && Table(items, entries) && |items| > 0
    modifies engine.host`fs, engine.host`log, engine.names`statics, items
    ensures engine.Valid() && code == 0
    ensures argc <= 1 ==>
              && DeinstallRun(engine.host.env, entries, states)
              && states[0] == old(engine.host.fs) && states[|entries|] == engine.host.fs
    ensures argc > 1 ==> engine.host.fs == old(engine.host.fs)
  {
    var dryRun := argc > 1;
    var index := |items| - 1;
    ghost var k, env := 0, engine.host.env;
    states := [engine.host.fs];
    while true
      invariant 0 <= index && k + index + 1 == |items| && engine.Valid()
      invariant Rows(items, entries, 0, index + 1)
      invariant dryRun ==> engine.host.fs == old(engine.host.fs)
      invariant !dryRun ==> Removing(env, entries, states, k, old(engine.host.fs), engine.host.fs)
      decreases index
    {
      var status := DeinstallNext(engine, items, index, dryRun, entries);
      if !dryRun { OneMoreRemoval(env, entries, states, k, old(engine.host.fs), engine.host.fs); }
      states, k := states + [engine.host.fs], k + 1;
      match status {
        case OK =>
        case ERROR =>
        case FATAL => assert false;
      }
      if index == 0 { break; }
      index := index - 1;
    }
    code := 0;
  }

  function Count(bits: seq<bool>): (n: nat)
    ensures n == 0 <==> forall i :: 0 <= i < |bits| ==> !bits[i]
  {
    if bits == [] then 0
    else Count(bits[..|bits| - 1]) + if bits[|bits| - 1] then 1 else 0
  }

  /** One call of install_check for each of the first `n` items. */
  ghost predicate CheckRun(env: Env, fs: FS, entries: seq<Entry>, statuses: seq<Status>, counted: seq<bool>, n: nat) {
    && n <= |entries| && |statuses| == n && |counted| == n
    && forall i :: 0 <= i < n ==> CheckStep(env, fs, entries[i], statuses[i], counted[i])
  }

  lemma {:induction false} OneMoreCheck(env: Env, fs: FS, entries: seq<Entry>, statuses: seq<Status>, counted: seq<bool>,
                                        n: nat, status: Status, bit: bool)
    requires n < |entries| && CheckRun(env, fs, entries, statuses, counted, n)
    requires CheckStep(env, fs, entries[n], status, bit)
    ensures CheckRun(env, fs, entries, statuses + [status], counted + [bit], n + 1)
    ensures Count(counted + [bit]) == Count(counted) + if bit then 1 else 0
  {
    var more, bits := statuses + [status], counted + [bit];
    assert bits[..n] == counted;
    forall i | 0 <= i < n + 1 ensures CheckStep(env, fs, entries[i], more[i], bits[i]) {
      if i < n { assert CheckStep(env, fs, entries[i], statuses[i], counted[i]); }
    }
  }

  /** The check of the next row leaves the rows after it as declared. */
  method CheckNext(engine: Installer, items: seq<Item>, index: nat, ghost entries: seq<Entry>)
    returns (status: Status, ghost bit: bool)
    requires engine.Valid() && index < |items| == |entries| && Rows(items, entries, index, |items|)
    requires forall i, j :: 0 <= i < j < |items| ==> items[i] != items[j]
    modifies engine`failed, engine.names`statics, items[index]
    ensures engine.Valid() && Rows(items, entries, index + 1, |items|)
    ensures CheckStep(engine.host.env, engine.host.fs, entries[index], status, bit)
    ensures engine.failed == old(engine.failed) + if bit then 1 else 0
  {
    status := engine.Check(items[index]);
    bit := engine.failed > old(engine.failed);
  }

  /** instchk: it fails exactly when the check of some file was counted as failed. */
  method RunCheck(engine: Installer, items: seq<Item>, ghost entries: seq<Entry>)
    returns (code: int, ghost statuses: seq<Status>, ghost counted: seq<bool>)
    requires engine.Valid() && Table(items, entries) && engine.failed == 0
    modifies engine`failed, engine.names`statics, items
    ensures engine.Valid()
    ensures CheckRun(engine.host.env, engine.host.fs, entries, statuses, counted, |entries|)
    ensures engine.failed == Count(counted)
    ensures code == if forall i :: 0 <= i < |counted| ==> !counted[i] then 0 else 1
  {
    var index := 0;
    statuses, counted := [], [];
    while index < |items|
      invariant 0 <= index <= |items| && engine.Valid()
      invariant Rows(items, entries, index, |items|)
      invariant CheckRun(engine.host.env, engine.host.fs, entries, statuses, counted, index)
      invariant engine.failed == Count(counted)
    {
      var status, bit := CheckNext(engine, items, index, entries);
      OneMoreCheck(engine.host.env, engine.host.fs, entries, statuses, counted, index, status, bit);
      statuses, counted := statuses + [status], counted + [bit];
      match status {
        case OK =>
        case ERROR =>
        case FATAL => assert false;
      }
      index := index + 1;
    }
    if engine.failed != 0 { return 1, statuses, counted; }
    code := 0;
  }
}
