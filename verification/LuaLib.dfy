/** lua-lib.adb: metatables and libraries as stack programs. */
module LuaLib {
  import opened Names
  import opened LuaState

  // --- New_Metatable ------------------------------------------------------------------------------

  /** The metatable registered under `name`, or nil. */
  function Registered(h: Heap, name: string): Value
    requires h.registry in h.tables
  {
    Field(h.tables[h.registry], Str(name))
  }

  /** A new table that the registry maps the name to, and back. */
  function NewMetatableHeap(h: Heap, name: string): Heap
    requires HeapOk(h)
  {
    if Registered(h, name) != Nil then h
    else
      var grown := Grow(h);
      Store(Store(grown, h.registry, Str(name), Ref(h.next)), h.registry, Ref(h.next), Str(name))
  }

  /** The name's table ends up on top of the stack, whether it is new or not. */
  method NewMetatable<T>(state: State<T>, name: string) returns (isNew: bool)
    requires state.Valid()
    modifies state`stack, state`heap, state`peak
    ensures state.Valid() && isNew == (Registered(old(state.heap), name) == Nil)
    ensures state.heap == NewMetatableHeap(old(state.heap), name)
    ensures state.stack == old(state.stack) + [Registered(state.heap, name)]
    ensures state.peak <= Max(old(state.peak), |old(state.stack)| + 3)
  {
    ghost var below := state.stack;
    state.PushString(name);
    state.RawGet(REGISTRY_INDEX);
    assert state.stack == below + [Registered(state.heap, name)];
    if !state.IsNil(-1) { return false; }
    state.Pop(1);
    assert state.stack == below;
    RegisterTable(state, name);
    isNew := true;
  }

  /** The second half of New_Metatable: a new table is entered in the registry, in both directions. */
  method RegisterTable<T>(state: State<T>, name: string)
    requires state.Valid() && Registered(state.heap, name) == Nil
    modifies state`stack, state`heap, state`peak
    ensures state.Valid() && state.heap == NewMetatableHeap(old(state.heap), name)
    ensures state.stack == old(state.stack) + [Ref(old(state.heap.next))]
    ensures state.peak <= Max(old(state.peak), |old(state.stack)| + 3)
  {
    ghost var below := state.stack;
    ghost var id := state.NewTable();
    state.PushString(name);
    state.PushValue(-2);
    assert state.stack == below + [Ref(id), Str(name), Ref(id)];
    state.RawSet(REGISTRY_INDEX);
    assert state.stack == below + [Ref(id)];
    state.PushValue(-1);
    state.PushString(name);
    assert state.stack == below + [Ref(id), Ref(id), Str(name)];
    state.RawSet(REGISTRY_INDEX);
    assert state.stack == below + [Ref(id)];
  }

  /** The name now leads to a table, and a table made for it leads back; everything else is as it was. */
  lemma {:induction false} NewMetatableEffect(h: Heap, name: string)
    requires HeapOk(h)
    ensures var now := NewMetatableHeap(h, name);
            && HeapOk(now) && Registered(now, name) != Nil
            && (Registered(h, name) == Nil ==> Registered(now, name) == Ref(h.next) && now.tables[h.next] == map[]
                                                && Field(now.tables[now.registry], Ref(h.next)) == Str(name))
            && (forall key :: key != Str(name) && key != Ref(h.next) ==>
                  Field(now.tables[now.registry], key) == Field(h.tables[h.registry], key))
            && (forall id :: id in h.tables && id != h.registry ==> id in now.tables && now.tables[id] == h.tables[id])
  {
  }

  // --- Sequences of calls ---------------------------------------------------------------------------

  /** The heap after New_Metatable has been called for each name in turn. */
  function AfterCalls(h: Heap, names: seq<string>): Heap
    requires HeapOk(h)
    ensures HeapOk(AfterCalls(h, names))
    decreases |names|
  {
    if names == [] then h else NewMetatableHeap(AfterCalls(h, names[..|names| - 1]), names[|names| - 1])
  }

  /** The names and the tables so far lead to each other, one to one, and no unused number is in the registry. */
  ghost predicate Paired(h: Heap, names: seq<string>)
    requires HeapOk(h)
  {
    && (forall name :: name in names ==>
          Registered(h, name).Ref? && Registered(h, name).table < h.next
          && Field(h.tables[h.registry], Registered(h, name)) == Str(name))
    && (forall id :: h.next <= id ==> Field(h.tables[h.registry], Ref(id)) == Nil)
  }

  lemma {:induction false} OneMorePaired(h: Heap, names: seq<string>, name: string)
    requires HeapOk(h) && Paired(h, names) && (name !in names ==> Registered(h, name) == Nil)
    ensures HeapOk(NewMetatableHeap(h, name)) && Paired(NewMetatableHeap(h, name), names + [name])
  {
    NewMetatableEffect(h, name);
    var now := NewMetatableHeap(h, name);
    forall other | other in names + [name]
      ensures Registered(now, other).Ref? && Registered(now, other).table < now.next
      ensures Field(now.tables[now.registry], Registered(now, other)) == Str(other)
    {
      if other in names {
        assert Registered(h, other).Ref? && Registered(h, other).table < h.next;
      }
    }
  }

  /** From a registry without the names: each leads to its own table, and that table back to the name. */
  lemma {:induction false} CallsPair(h: Heap, names: seq<string>)
    requires HeapOk(h) && forall name :: name in names ==> Registered(h, name) == Nil
    requires forall id :: h.next <= id ==> Field(h.tables[h.registry], Ref(id)) == Nil
    ensures Paired(AfterCalls(h, names), names)
    ensures forall name :: name !in names ==> Registered(AfterCalls(h, names), name) == Registered(h, name)
    decreases |names|
  {
    if names != [] {
      var init, last := names[..|names| - 1], names[|names| - 1];
      CallsPair(h, init);
      assert names == init + [last];
      assert Registered(h, last) == Nil;
      OneMorePaired(AfterCalls(h, init), init, last);
      NewMetatableEffect(AfterCalls(h, init), last);
    }
  }

  /** Distinct names have distinct tables. */
  lemma {:induction false} DistinctTables(h: Heap, names: seq<string>, a: string, b: string)
    requires HeapOk(h) && Paired(h, names) && a in names && b in names && a != b
    ensures Registered(h, a) != Registered(h, b)
  {
  }

  /** A second call for a name changes nothing, whatever names came in between. */
  lemma {:induction false} RepeatedCall(h: Heap, names: seq<string>, more: seq<string>, name: string)
    requires HeapOk(h) && name in names
    ensures Registered(AfterCalls(h, names), name) != Nil
    ensures NewMetatableHeap(AfterCalls(AfterCalls(h, names), more), name) == AfterCalls(AfterCalls(h, names), more)
    ensures Registered(AfterCalls(AfterCalls(h, names), more), name) == Registered(AfterCalls(h, names), name)
    decreases |names| + |more|
  {
    if more != [] {
      RepeatedCall(h, names, more[..|more| - 1], name);
      NewMetatableEffect(AfterCalls(AfterCalls(h, names), more[..|more| - 1]), more[|more| - 1]);
    } else {
      var init, last := names[..|names| - 1], names[|names| - 1];
      NewMetatableEffect(AfterCalls(h, init), last);
      if name != last {
        RepeatedCall(h, init, [], name);
      }
    }
  }

  // --- Open_Library -----------------------------------------------------------------------------------

  datatype Register = Register(name: string, func: int)

  /** A table overridden, in array order, by closures of the functions over the same upvalues. */
  function Overridden(t: Table, functions: seq<Register>, upvalues: seq<Value>): Table
    decreases |functions|
  {
    if functions == [] then t
    else
      var last := functions[|functions| - 1];
      WithField(Overridden(t, functions[..|functions| - 1], upvalues), Str(CText(last.name)), Closure(last.func, upvalues))
  }

  /** The last function of that name counts; other keys are as before. */
  lemma {:induction false} OverriddenAt(t: Table, functions: seq<Register>, upvalues: seq<Value>, i: nat, key: Value)
    requires i < |functions| && key == Str(CText(functions[i].name))
    requires forall j :: i < j < |functions| ==> CText(functions[j].name) != CText(functions[i].name)
    ensures Field(Overridden(t, functions, upvalues), key) == Closure(functions[i].func, upvalues)
    decreases |functions|
  {
    if i < |functions| - 1 {
      OverriddenAt(t, functions[..|functions| - 1], upvalues, i, key);
    }
  }

  lemma {:induction false} OverriddenElsewhere(t: Table, functions: seq<Register>, upvalues: seq<Value>, key: Value)
    requires forall i :: 0 <= i < |functions| ==> key != Str(CText(functions[i].name))
    ensures Field(Overridden(t, functions, upvalues), key) == Field(t, key)
    decreases |functions|
  {
    if functions != [] {
      OverriddenElsewhere(t, functions[..|functions| - 1], upvalues, key);
    }
  }

  function GlobalOf(h: Heap, name: string): Value
    requires h.globals in h.tables
  {
    Field(h.tables[h.globals], Str(name))
  }

  /** The global of that name, made a new table if there was none. */
  function LibraryHeap(h: Heap, name: string): Heap
    requires HeapOk(h)
  {
    if GlobalOf(h, name) == Nil then Store(Grow(h), h.globals, Str(name), Ref(h.next)) else h
  }

  function WithFunctions(h: Heap, lib: nat, functions: seq<Register>, upvalues: seq<Value>): Heap
    requires lib in h.tables
  {
    h.(tables := h.tables[lib := Overridden(h.tables[lib], functions, upvalues)])
  }

  /** The table that Open_Library fills: the global of that name, or the table below the upvalues. */
  function LibraryTable(h: Heap, stack: seq<Value>, name: string, count: nat): Value
    requires HeapOk(h) && (name == "" ==> count < |stack|)
  {
    if name != "" then GlobalOf(LibraryHeap(h, name), name) else stack[|stack| - count - 1]
  }

  function OpenedHeap(h: Heap, stack: seq<Value>, name: string, functions: seq<Register>, count: nat): Heap
    requires LibraryOk(h, stack, name, count)
  {
    var lib := LibraryTable(h, stack, name, count);
    var ready := if name != "" then LibraryHeap(h, name) else h;
    WithFunctions(ready, lib.table, functions, stack[|stack| - count..])
  }

  /** What Open_Library takes for granted: the upvalues are there, and what it fills is a table. */
  predicate LibraryOk(h: Heap, stack: seq<Value>, name: string, count: nat) {
    && HeapOk(h) && count <= MAX_UPVALUES && count <= |stack|
    && if name != "" then GlobalOf(h, name) == Nil || IsTable(h, GlobalOf(h, name))
       else count < |stack| && IsTable(h, stack[|stack| - count - 1])
  }

  /** A new table becomes the global of that name. */
  method CreateLibrary<T>(state: State<T>, name: string)
    requires state.Valid() && GlobalOf(state.heap, name) == Nil
    modifies state`stack, state`heap, state`peak
    ensures state.Valid() && state.heap == LibraryHeap(old(state.heap), name)
    ensures state.stack == old(state.stack) + [Ref(old(state.heap.next))]
    ensures state.peak <= Max(old(state.peak), |old(state.stack)| + 3)
  {
    ghost var below := state.stack;
    ghost var id := state.NewTable();
    state.PushString(name);
    state.PushValue(-2);
    assert state.stack == below + [Ref(id), Str(name), Ref(id)];
    state.RawSet(GLOBALS_INDEX);
    assert state.stack == below + [Ref(id)];
  }

  /** The first half: the library's table goes below the upvalues. */
  method FindLibrary<T>(state: State<T>, name: string, count: nat, ghost below: seq<Value>, ghost upvalues: seq<Value>)
    requires state.Valid() && name != "" && LibraryOk(state.heap, state.stack, name, count)
    requires state.stack == below + upvalues && |upvalues| == count
    modifies state`stack, state`heap, state`peak
    ensures state.Valid() && state.heap == LibraryHeap(old(state.heap), name)
    ensures state.stack == below + [GlobalOf(state.heap, name)] + upvalues && IsTable(state.heap, GlobalOf(state.heap, name))
    ensures state.peak <= Max(old(state.peak), |old(state.stack)| + 3)
  {
    ghost var start := state.stack;
    state.PushString(name);
    state.RawGet(GLOBALS_INDEX);
    assert state.stack == start + [GlobalOf(state.heap, name)];
    if state.IsNil(-1) {
      state.Pop(1);
      assert state.stack == start;
      CreateLibrary(state, name);
    }
    ghost var lib := GlobalOf(state.heap, name);
    assert state.stack == start + [lib];
    state.Insert(-(count + 1));
    InsertBelow(below, upvalues, lib);
  }

  lemma {:induction false} InsertBelow(below: seq<Value>, upvalues: seq<Value>, lib: Value)
    ensures var all := below + upvalues + [lib]; var n := |all|;
            all[..n - |upvalues| - 1] + [all[n - 1]] + all[n - |upvalues| - 1..n - 1] == below + [lib] + upvalues
  {
    var all := below + upvalues + [lib];
    assert all[..|below|] == below;
    assert all[|below|..|all| - 1] == upvalues;
  }

  /** One turn of the loop: a closure over copies of the upvalues, in their order, goes into the table. */
  method AddFunction<T>(state: State<T>, f: Register, count: nat, ghost below: seq<Value>, ghost lib: nat, ghost upvalues: seq<Value>)
    requires state.Valid() && lib in state.heap.tables && count <= MAX_UPVALUES
    requires state.stack == below + [Ref(lib)] + upvalues && |upvalues| == count
    modifies state`stack, state`heap, state`peak
    ensures state.Valid() && state.stack == old(state.stack)
    ensures state.heap == Store(old(state.heap), lib, Str(CText(f.name)), Closure(f.func, upvalues))
    ensures state.peak <= Max(old(state.peak), |old(state.stack)| + 1 + Max(1, count))
  {
    ghost var start := state.stack;
    state.PushCString(f.name);
    var j := 1;
    while j <= count
      invariant 1 <= j <= count + 1 && state.Valid() && state.heap == old(state.heap)
      invariant state.stack == start + [Str(CText(f.name))] + upvalues[..j - 1]
      invariant state.peak <= Max(old(state.peak), |start| + j)
    {
      assert state.At(-(count + 1)) == upvalues[j - 1];
      state.PushValue(-(count + 1));
      j := j + 1;
    }
    assert upvalues[..j - 1] == upvalues;
    assert state.stack[|start| + 1..] == upvalues;
    assert state.stack[..|start| + 1] == start + [Str(CText(f.name))];
    state.PushClosure(f.func, count);
    assert state.stack == start + [Str(CText(f.name)), Closure(f.func, upvalues)];
    assert state.At(-(count + 3)) == Ref(lib);
    state.RawSet(-(count + 3));
    assert state.stack == start;
  }

  lemma {:induction false} OneMoreFunction(h: Heap, lib: nat, functions: seq<Register>, index: nat, upvalues: seq<Value>)
    requires lib in h.tables && index < |functions|
    ensures WithFunctions(h, lib, functions[..index + 1], upvalues) ==
            Store(WithFunctions(h, lib, functions[..index], upvalues), lib,
                  Str(CText(functions[index].name)), Closure(functions[index].func, upvalues))
  {
    assert functions[..index + 1][..index] == functions[..index];
  }

  /** The loop over the functions. */
  method AddFunctions<T>(state: State<T>, functions: seq<Register>, count: nat, ghost below: seq<Value>, ghost lib: nat,
                         ghost upvalues: seq<Value>)
    requires state.Valid() && lib in state.heap.tables && count <= MAX_UPVALUES
    requires state.stack == below + [Ref(lib)] + upvalues && |upvalues| == count
    modifies state`stack, state`heap, state`peak
    ensures state.Valid() && state.stack == old(state.stack)
    ensures state.heap == WithFunctions(old(state.heap), lib, functions, upvalues)
    ensures state.peak <= Max(old(state.peak), |old(state.stack)| + 1 + Max(1, count))
  {
    ghost var ready := state.heap;
    var index := 0;
    while index < |functions|
      invariant 0 <= index <= |functions| && state.Valid() && state.stack == old(state.stack)
      invariant state.heap == WithFunctions(ready, lib, functions[..index], upvalues)
      invariant state.peak <= Max(old(state.peak), |old(state.stack)| + 1 + Max(1, count))
    {
      AddFunction(state, functions[index], count, below, lib, upvalues);
      OneMoreFunction(ready, lib, functions, index, upvalues);
      index := index + 1;
    }
    assert functions[..index] == functions;
  }

  /** Number `i` is the last function of its name. */
  predicate LastOfName(functions: seq<Register>, i: nat)
    requires i < |functions|
  {
    forall j :: i < j < |functions| ==> CText(functions[j].name) != CText(functions[i].name)
  }

  /** No function has the name `key`. */
  predicate NamesNone(functions: seq<Register>, key: Value) {
    forall i :: 0 <= i < |functions| ==> key != Str(CText(functions[i].name))
  }

  /** The last function of a name is in the table as a closure over the upvalues. */
  lemma {:induction false} OpenedAt(h: Heap, stack: seq<Value>, name: string, functions: seq<Register>, count: nat, i: nat)
    requires LibraryOk(h, stack, name, count) && i < |functions| && LastOfName(functions, i)
    ensures var now, lib := OpenedHeap(h, stack, name, functions, count), LibraryTable(h, stack, name, count);
            && IsTable(now, lib)
            && Field(now.tables[lib.table], Str(CText(functions[i].name))) == Closure(functions[i].func, stack[|stack| - count..])
  {
    var lib := LibraryTable(h, stack, name, count);
    var ready := if name != "" then LibraryHeap(h, name) else h;
    OverriddenAt(ready.tables[lib.table], functions, stack[|stack| - count..], i, Str(CText(functions[i].name)));
  }

  /** Every other key of the table is as before, or nil if the table is new. */
  lemma {:induction false} OpenedElsewhere(h: Heap, stack: seq<Value>, name: string, functions: seq<Register>, count: nat, key: Value)
    requires LibraryOk(h, stack, name, count) && NamesNone(functions, key)
    ensures var now, lib := OpenedHeap(h, stack, name, functions, count), LibraryTable(h, stack, name, count);
            && IsTable(now, lib)
            && Field(now.tables[lib.table], key) == (if lib.table in h.tables then Field(h.tables[lib.table], key) else Nil)
  {
    var lib := LibraryTable(h, stack, name, count);
    var ready := if name != "" then LibraryHeap(h, name) else h;
    OverriddenElsewhere(ready.tables[lib.table], functions, stack[|stack| - count..], key);
  }

  /** The table is that below the upvalues, or the global of the name, which is new if there was none. */
  lemma {:induction false} OpenedTable(h: Heap, stack: seq<Value>, name: string, functions: seq<Register>, count: nat)
    requires LibraryOk(h, stack, name, count)
    ensures var now, lib := OpenedHeap(h, stack, name, functions, count), LibraryTable(h, stack, name, count);
            && lib.Ref? && now.globals == h.globals && now.registry == h.registry
            && (name == "" ==> lib == stack[|stack| - count - 1])
            && (name != "" && lib.table != h.globals ==> GlobalOf(now, name) == lib)
            && (name != "" ==> if GlobalOf(h, name) == Nil then lib.table !in h.tables else lib == GlobalOf(h, name))
  {
  }

  /**
   Open_Library: below the upvalues the stack is as it was, above it there is exactly the library's
   table. In it the last function of each name is a closure over the upvalues, and every other key is as
   it was, or nil in a new table, which is the global of the library's name. The depth never exceeds that at the
   start by more than three or the upvalues and two.
   */
  method OpenLibrary<T>(state: State<T>, name: string, functions: seq<Register>, count: nat)
    requires state.Valid() && LibraryOk(state.heap, state.stack, name, count)
    modifies state`stack, state`heap, state`peak
    ensures state.Valid()
    ensures var n, lib := |old(state.stack)|, LibraryTable(old(state.heap), old(state.stack), name, count);
            state.stack == old(state.stack)[..n - count - (if name == "" then 1 else 0)] + [lib]
    ensures state.heap == OpenedHeap(old(state.heap), old(state.stack), name, functions, count)
    ensures var lib := state.stack[|state.stack| - 1];
            && IsTable(state.heap, lib)
            && (forall i :: 0 <= i < |functions| && LastOfName(functions, i) ==>
                  Field(state.heap.tables[lib.table], Str(CText(functions[i].name)))
                  == Closure(functions[i].func, old(state.stack)[|old(state.stack)| - count..]))
            && (forall key :: NamesNone(functions, key) ==>
                  Field(state.heap.tables[lib.table], key)
                  == (if lib.table in old(state.heap.tables) then Field(old(state.heap).tables[lib.table], key) else Nil))
            && (name == "" ==> lib == old(state.stack)[|old(state.stack)| - count - 1])
            && (name != "" && GlobalOf(old(state.heap), name) != Nil ==> lib == GlobalOf(old(state.heap), name))
            && (name != "" && GlobalOf(old(state.heap), name) == Nil ==>
                  lib.table !in old(state.heap.tables) && GlobalOf(state.heap, name) == lib)
    ensures state.peak <= Max(old(state.peak), |old(state.stack)| + Max(3, count + 2))
  {
    ghost var n, stack := |state.stack|, state.stack;
    ghost var upvalues := stack[n - count..];
    ghost var below := stack[..n - count - (if name == "" then 1 else 0)];
    ghost var h := state.heap;
    ghost var lib := LibraryTable(h, stack, name, count);
    if name != "" {
      assert stack == below + upvalues;
      FindLibrary(state, name, count, below, upvalues);
    }
    assert state.stack == below + [lib] + upvalues;
    AddFunctions(state, functions, count, below, lib.table, upvalues);
    state.Pop(count);
    assert state.stack == below + [lib];
    OpenedTable(h, stack, name, functions, count);
    forall i | 0 <= i < |functions| && LastOfName(functions, i) {
      OpenedAt(h, stack, name, functions, count, i);
    }
    forall key | NamesNone(functions, key) {
      OpenedElsewhere(h, stack, name, functions, count, key);
    }
  }

  /** Opening a library leaves every other table alone, but for the global of its name. */
  lemma {:induction false} OtherTablesUnchanged(h: Heap, stack: seq<Value>, name: string, functions: seq<Register>, count: nat, id: nat)
    requires LibraryOk(h, stack, name, count) && id in h.tables
    requires id != LibraryTable(h, stack, name, count).table
    ensures var now := OpenedHeap(h, stack, name, functions, count);
            && id in now.tables
            && (id != h.globals ==> now.tables[id] == h.tables[id])
            && (id == h.globals ==> forall key :: key != Str(name) ==> Field(now.tables[id], key) == Field(h.tables[id], key))
  {
  }
}
