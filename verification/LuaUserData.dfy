/** lua-user_data.adb: one class of userdata with its methods and its metatable. */
module LuaUserData {
  import opened Wrappers
  import opened Names
  import opened LuaState
  import opened LuaLib

  /** The parameters of the generic package. */
  datatype Class = Class(name: string, methodTable: seq<Register>, metaTable: seq<Register>)

  const INDEX := Str("__index")
  const METATABLE := Str("__metatable")

  /** The class has a name, and what goes by that name is a table of its own, or nothing yet. */
  predicate ClassOk(h: Heap, cls: Class) {
    && HeapOk(h) && cls.name != ""
    && var lib := GlobalOf(h, cls.name);
       lib == Nil || (IsTable(h, lib) && lib.table != h.globals && lib.table != h.registry)
  }

  /** The methods table: the global of the class's name. */
  function MethodsOf(h: Heap, cls: Class): Value
    requires ClassOk(h, cls)
  {
    LibraryTable(h, [], cls.name, 0)
  }

  /** After the methods have been entered. */
  function WithMethods(h: Heap, cls: Class): Heap
    requires ClassOk(h, cls)
  {
    OpenedHeap(h, [], cls.name, cls.methodTable, 0)
  }

  /** A new metatable is filled and gets the methods table as its __index and its __metatable. */
  function FilledMetatable(h: Heap, id: nat, cls: Class, lib: Value): Heap
    requires id in h.tables
  {
    Store(Store(WithFunctions(h, id, cls.metaTable, []), id, INDEX, lib), id, METATABLE, lib)
  }

  lemma {:induction false} MethodsEntered(h: Heap, cls: Class)
    requires ClassOk(h, cls)
    ensures var now := WithMethods(h, cls);
            && HeapOk(now) && MethodsOf(h, cls).Ref? && MethodsOf(h, cls).table in now.tables
            && GlobalOf(now, cls.name) == MethodsOf(h, cls)
            && now.tables[now.registry] == h.tables[h.registry]
            && now.registry == h.registry && now.globals == h.globals
            && MethodsOf(h, cls).table != now.globals && MethodsOf(h, cls).table != now.registry
            && MethodsOf(h, cls).table < now.next
  {
  }

  function RegisteredHeap(h: Heap, cls: Class): Heap
    requires ClassOk(h, cls)
  {
    MethodsEntered(h, cls);
    var one := WithMethods(h, cls);
    var two := NewMetatableHeap(one, cls.name);
    if Registered(one, cls.name) != Nil then two
    else FilledMetatable(two, one.next, cls, MethodsOf(h, cls))
  }

  /**
   Register leaves the methods table on the stack, and on top of it the old metatable if the class
   had been registered before.
   */
  method Register<T>(state: State<T>, cls: Class)
    requires state.Valid() && ClassOk(state.heap, cls)
    modifies state`stack, state`heap, state`peak
    ensures state.Valid() && state.heap == RegisteredHeap(old(state.heap), cls)
    ensures var lib, known := MethodsOf(old(state.heap), cls), Registered(old(state.heap), cls.name);
            state.stack == old(state.stack) + if known == Nil then [lib] else [lib, known]
  {
    ghost var start, h := state.stack, state.heap;
    MethodsEntered(h, cls);
    OpenLibrary(state, cls.name, cls.methodTable, 0);
    ghost var lib := MethodsOf(h, cls);
    assert start[|start|..] == [];
    assert state.stack == start + [lib];
    assert state.heap == WithMethods(h, cls);
    var isNew := NewMetatable(state, cls.name);
    ghost var meta := Registered(state.heap, cls.name);
    assert state.stack == start + [lib, meta];
    if !isNew { return; }
    FillMetatable(state, cls, start, lib, meta.table);
  }

  /** The second half of Register, for a class that was not known. */
  method FillMetatable<T>(state: State<T>, cls: Class, ghost below: seq<Value>, ghost lib: Value, ghost id: nat)
    requires state.Valid() && id in state.heap.tables && state.stack == below + [lib, Ref(id)]
    modifies state`stack, state`heap, state`peak
    ensures state.Valid() && state.stack == below + [lib]
    ensures state.heap == FilledMetatable(old(state.heap), id, cls, lib)
  {
    ghost var start := state.stack;
    OpenLibrary(state, "", cls.metaTable, 0);
    assert start[|start|..] == [];
    assert state.stack == start;
    PointAtMethods(state, "__index", below, lib, id);
    PointAtMethods(state, "__metatable", below, lib, id);
    state.Pop(1);
  }

  /** A field of the metatable on top is set to the methods table below it. */
  method PointAtMethods<T>(state: State<T>, field: string, ghost below: seq<Value>, ghost lib: Value, ghost id: nat)
    requires state.Valid() && id in state.heap.tables && state.stack == below + [lib, Ref(id)]
    modifies state`stack, state`heap, state`peak
    ensures state.Valid() && state.stack == old(state.stack)
    ensures state.heap == Store(old(state.heap), id, Str(field), lib)
  {
    ghost var start := state.stack;
    state.PushString(field);
    state.PushValue(-3);
    assert state.stack == start + [Str(field), lib];
    state.RawSet(-3);
    assert state.stack == start;
  }

  /** A userdata with the class's metatable is pushed. lua_setmetatable answers 1, which is not OK, and nothing depends on it. */
  method Push<T>(state: State<T>, cls: Class, item: T)
    requires state.Valid() && (Registered(state.heap, cls.name) == Nil || IsTable(state.heap, Registered(state.heap, cls.name)))
    modifies state`stack, state`blocks, state`nextBlock, state`peak
    ensures state.Valid() && state.stack == old(state.stack) + [Block(old(state.nextBlock))]
    ensures old(state.nextBlock) !in old(state.blocks)
    ensures state.blocks ==
            old(state.blocks)[old(state.nextBlock) := Data(Some(item), Registered(state.heap, cls.name))]
  {
    ghost var start := state.stack;
    var block := state.NewUserData();
    state.blocks := state.blocks[block := state.blocks[block].(item := Some(item))];
    state.PushString(cls.name);
    state.RawGet(REGISTRY_INDEX);
    assert state.stack == start + [Block(block), Registered(state.heap, cls.name)];
    var error := state.SetMetatable(-2);
    assert state.stack == start + [Block(block)];
    if error != 0 { return; }
  }

  /** The contents of a userdata on the stack. */
  method Get<T>(state: State<T>, index: int) returns (item: T)
    requires state.ValidIndex(index) && state.At(index).Block? && state.At(index).block in state.blocks
    requires state.blocks[state.At(index).block].item.Some?
    ensures state.blocks[state.At(index).block].item == Some(item)
  {
    item := state.blocks[state.At(index).block].item.value;
  }

  // --- What Register achieves -----------------------------------------------------------------------

  lemma {:induction false} FilledIs(h: Heap, id: nat, cls: Class, lib: Value)
    requires id in h.tables
    ensures var now := FilledMetatable(h, id, cls, lib);
            && id in now.tables && Field(now.tables[id], INDEX) == lib && Field(now.tables[id], METATABLE) == lib
            && (forall key :: key != INDEX && key != METATABLE ==>
                  Field(now.tables[id], key) == Field(Overridden(h.tables[id], cls.metaTable, []), key))
            && (forall other :: other in h.tables && other != id ==> other in now.tables && now.tables[other] == h.tables[other])
            && now.registry == h.registry && now.globals == h.globals && now.next == h.next
  {
  }

  /**
   The global of the class's name holds the last method of each name, and else what it held in `h`, or
   nothing if it is new.
   */
  ghost predicate HoldsMethods(h: Heap, now: Heap, cls: Class)
    requires ClassOk(h, cls) && now.globals in now.tables
  {
    var lib := GlobalOf(now, cls.name);
    && IsTable(now, lib)
    && (forall i :: 0 <= i < |cls.methodTable| && LastOfName(cls.methodTable, i) ==>
          Field(now.tables[lib.table], Str(CText(cls.methodTable[i].name))) == Closure(cls.methodTable[i].func, []))
    && (forall key :: NamesNone(cls.methodTable, key) ==>
          Field(now.tables[lib.table], key)
          == (if GlobalOf(h, cls.name) == Nil then Nil else Field(h.tables[GlobalOf(h, cls.name).table], key)))
  }

  lemma {:induction false} MethodsHeld(h: Heap, cls: Class)
    requires ClassOk(h, cls)
    ensures var now := WithMethods(h, cls); now.globals in now.tables && HoldsMethods(h, now, cls)
  {
    MethodsEntered(h, cls);
    OpenedTable(h, [], cls.name, cls.methodTable, 0);
    forall i | 0 <= i < |cls.methodTable| && LastOfName(cls.methodTable, i) {
      OpenedAt(h, [], cls.name, cls.methodTable, 0, i);
    }
    forall key | NamesNone(cls.methodTable, key) {
      OpenedElsewhere(h, [], cls.name, cls.methodTable, 0, key);
    }
  }

  /** The meta functions of a new metatable. */
  ghost predicate HoldsMeta(t: Table, cls: Class) {
    && (forall i :: 0 <= i < |cls.metaTable| && LastOfName(cls.metaTable, i)
                    && Str(CText(cls.metaTable[i].name)) != INDEX && Str(CText(cls.metaTable[i].name)) != METATABLE ==>
          Field(t, Str(CText(cls.metaTable[i].name))) == Closure(cls.metaTable[i].func, []))
    && (forall key :: key != INDEX && key != METATABLE && NamesNone(cls.metaTable, key) ==> Field(t, key) == Nil)
  }

  lemma {:induction false} MetaHeld(t: Table, cls: Class)
    requires forall key :: key != INDEX && key != METATABLE ==> Field(t, key) == Field(Overridden(map[], cls.metaTable, []), key)
    ensures HoldsMeta(t, cls)
  {
    forall i | 0 <= i < |cls.metaTable| && LastOfName(cls.metaTable, i) {
      OverriddenAt(map[], cls.metaTable, [], i, Str(CText(cls.metaTable[i].name)));
    }
    forall key | NamesNone(cls.metaTable, key) {
      OverriddenElsewhere(map[], cls.metaTable, [], key);
    }
  }

  /**
   The first registration: the class's metatable is a new table holding the meta functions, and both
   its __index and its __metatable are the global that goes by the class's name, which holds the methods.
   */
  lemma {:induction false} FirstRegistration(h: Heap, cls: Class)
    requires ClassOk(h, cls) && Registered(h, cls.name) == Nil
    ensures var now := RegisteredHeap(h, cls); var meta := Registered(now, cls.name);
            && HeapOk(now) && IsTable(now, meta) && meta.table !in h.tables
            && Field(now.tables[meta.table], Str("__index")) == GlobalOf(now, cls.name)
            && Field(now.tables[meta.table], Str("__metatable")) == GlobalOf(now, cls.name)
            && GlobalOf(now, cls.name) == MethodsOf(h, cls)
            && HoldsMeta(now.tables[meta.table], cls) && HoldsMethods(h, now, cls)
  {
    MethodsEntered(h, cls);
    MethodsHeld(h, cls);
    var one := WithMethods(h, cls);
    NewMetatableEffect(one, cls.name);
    FilledIs(NewMetatableHeap(one, cls.name), one.next, cls, MethodsOf(h, cls));
    var now := RegisteredHeap(h, cls);
    MetaHeld(now.tables[one.next], cls);
    assert now.tables[MethodsOf(h, cls).table] == one.tables[MethodsOf(h, cls).table];
  }

  /** Registering a class again enters the methods again and leaves the registry and the metatable alone. */
  lemma {:induction false} RegisterAgain(h: Heap, cls: Class)
    requires ClassOk(h, cls) && IsTable(h, Registered(h, cls.name))
    requires Registered(h, cls.name) != GlobalOf(h, cls.name)
    ensures var now, meta := RegisteredHeap(h, cls), Registered(h, cls.name);
            && now.tables[now.registry] == h.tables[h.registry] && Registered(now, cls.name) == meta
            && (meta.table != h.globals ==> now.tables[meta.table] == h.tables[meta.table])
            && now.globals in now.tables && HoldsMethods(h, now, cls)
  {
    MethodsEntered(h, cls);
    MethodsHeld(h, cls);
    OtherTablesUnchanged(h, [], cls.name, cls.methodTable, 0, Registered(h, cls.name).table);
  }

  /** In particular right after the first registration, whose metatable then stays as it was made. */
  lemma {:induction false} RegisterTwice(h: Heap, cls: Class)
    requires ClassOk(h, cls) && Registered(h, cls.name) == Nil
    ensures var once := RegisteredHeap(h, cls);
            && ClassOk(once, cls)
            && var twice, meta := RegisteredHeap(once, cls), Registered(once, cls.name);
               && IsTable(once, meta) && meta.table in twice.tables
               && twice.tables[twice.registry] == once.tables[once.registry]
               && twice.tables[meta.table] == once.tables[meta.table]
               && MethodsOf(once, cls) == GlobalOf(once, cls.name)
  {
    MethodsEntered(h, cls);
    FirstRegistration(h, cls);
    var once := RegisteredHeap(h, cls);
    RegisterAgain(once, cls);
  }
}
