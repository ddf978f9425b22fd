/**
 A Lua 5.1 state as the Ada binding sees it: a stack, tables, userdata blocks, and the primitives of
 sections 3.1 to 3.7 of the Lua 5.1 Reference Manual. Tables carry no metatable of their own, so the
 raw and the ordinary accesses agree.
 */
module LuaState {
  import opened Wrappers
  import opened Names

  datatype Value =
    | Nil
    | Str(text: string)
    | Ref(table: nat)                              // a table
    | Closure(func: int, upvalues: seq<Value>)     // a C function with its upvalues
    | Block(block: nat)                            // a full userdata
    | Other(code: int)

  /** A table; a key that is not there is nil. */
  type Table = map<Value, Value>

  function Field(t: Table, key: Value): Value {
    if key in t then t[key] else Nil
  }

  function WithField(t: Table, key: Value, value: Value): (r: Table)
    ensures Field(r, key) == value
    ensures forall k :: k != key ==> Field(r, k) == Field(t, k)
  {
    if value == Nil then t - {key} else t[key := value]
  }

  function Max(a: int, b: int): int {
    if a < b then b else a
  }

  const REGISTRY_INDEX: int := -10000
  const GLOBALS_INDEX: int := -10002
  const MAX_UPVALUES: nat := 255

  /** All tables, by number; numbers from `next` on are not in use. */
  datatype Heap = Heap(tables: map<nat, Table>, next: nat, registry: nat, globals: nat)

  predicate HeapOk(h: Heap) {
    && h.registry in h.tables && h.globals in h.tables && h.registry != h.globals
    && forall id :: id in h.tables ==> id < h.next
  }

  function Store(h: Heap, id: nat, key: Value, value: Value): Heap
    requires id in h.tables
  {
    h.(tables := h.tables[id := WithField(h.tables[id], key, value)])
  }

  /** A new table, empty, under the next number. */
  function Grow(h: Heap): Heap {
    h.(tables := h.tables[h.next := map[]], next := h.next + 1)
  }

  predicate IsTable(h: Heap, v: Value) {
    v.Ref? && v.table in h.tables
  }

  /** The contents of a userdata block, and its metatable. */
  datatype Data<T> = Data(item: Option<T>, metatable: Value)

  class State<T> {
    var stack: seq<Value>
    var heap: Heap
    var blocks: map<nat, Data<T>>
    var nextBlock: nat
    /** The greatest depth of the stack so far. */
    ghost var peak: nat

    ghost predicate Valid()
      reads this
    {
      HeapOk(heap) && |stack| <= peak && forall b :: b in blocks ==> b < nextBlock
    }

    constructor (heap: Heap)
      requires HeapOk(heap)
      ensures Valid() && this.heap == heap && stack == [] && blocks == map[] && peak == 0
    {
      this.heap := heap;
      stack, blocks, nextBlock, peak := [], map[], 0, 0;
    }

    /** A position on the stack, counted from the bottom or from the top, or a pseudo-index. */
    predicate ValidIndex(index: int)
      reads this`stack
    {
      0 < index <= |stack| || (REGISTRY_INDEX < index < 0 && -index <= |stack|) || index == REGISTRY_INDEX || index == GLOBALS_INDEX
    }

    function At(index: int): Value
      requires ValidIndex(index)
      reads this`stack, this`heap
    {
      if index == REGISTRY_INDEX then Ref(heap.registry)
      else if index == GLOBALS_INDEX then Ref(heap.globals)
      else if index > 0 then stack[index - 1]
      else stack[|stack| + index]
    }

    method Push(v: Value)
      requires Valid()
      modifies this`stack, this`peak
      ensures Valid() && stack == old(stack) + [v]
      ensures peak == Max(old(peak), |stack|)
    {
      stack := stack + [v];
      peak := Max(peak, |stack|);
    }

    /** lua_pushlstring: all characters. */
    method PushString(s: string)
      requires Valid()
      modifies this`stack, this`peak
      ensures Valid() && stack == old(stack) + [Str(s)]
      ensures peak == Max(old(peak), |stack|)
    {
      Push(Str(s));
    }

    /** lua_pushstring: the characters before the first NUL. */
    method PushCString(s: string)
      requires Valid()
      modifies this`stack, this`peak
      ensures Valid() && stack == old(stack) + [Str(CText(s))]
      ensures peak == Max(old(peak), |stack|)
    {
      Push(Str(CText(s)));
    }

    method PushValue(index: int)
      requires Valid() && ValidIndex(index)
      modifies this`stack, this`peak
      ensures Valid() && stack == old(stack) + [old(At(index))]
      ensures peak == Max(old(peak), |stack|)
    {
      Push(At(index));
    }

    /** Pop: lua_settop with a negative index. */
    method Pop(count: nat)
      requires Valid() && count <= |stack|
      modifies this`stack
      ensures Valid() && stack == old(stack)[..|old(stack)| - count]
    {
      var n: int := count;
      SetTop(-n - 1);
    }

    method SetTop(index: int)
      requires Valid() && index < 0 && -index <= |stack| + 1
      modifies this`stack
      ensures Valid() && stack == old(stack)[..|old(stack)| + index + 1]
    {
      stack := stack[..|stack| + index + 1];
    }

    /** lua_insert: the top moves down to a place counted from the top. */
    method Insert(index: int)
      requires Valid() && REGISTRY_INDEX < index < 0 && -index <= |stack|
      modifies this`stack
      ensures Valid()
      ensures var n := |old(stack)|;
              stack == old(stack)[..n + index] + [old(stack)[n - 1]] + old(stack)[n + index..n - 1]
    {
      var n := |stack|;
      stack := stack[..n + index] + [stack[n - 1]] + stack[n + index..n - 1];
    }

    predicate IsNil(index: int)
      requires ValidIndex(index)
      reads this`stack, this`heap
    {
      At(index) == Nil
    }

    method NewTable() returns (ghost id: nat)
      requires Valid()
      modifies this`stack, this`heap, this`peak
      ensures Valid() && id == old(heap.next) && heap == Grow(old(heap)) && stack == old(stack) + [Ref(id)]
      ensures peak == Max(old(peak), |stack|)
    {
      id := heap.next;
      Push(Ref(heap.next));
      heap := Grow(heap);
    }

    /** lua_rawget and, without metatables, lua_gettable: the key on top gives way to its value. */
    method RawGet(index: int)
      requires Valid() && ValidIndex(index) && IsTable(heap, At(index)) && |stack| > 0
      modifies this`stack
      ensures Valid()
      ensures var n := |old(stack)|;
              stack == old(stack)[..n - 1] + [Field(heap.tables[old(At(index)).table], old(stack)[n - 1])]
    {
      var n := |stack|;
      var value := Field(heap.tables[At(index).table], stack[n - 1]);
      stack := stack[..n - 1] + [value];
    }

    /** lua_rawset and, without metatables, lua_settable: the key below the top is set to the value on top. */
    method RawSet(index: int)
      requires Valid() && ValidIndex(index) && IsTable(heap, At(index)) && |stack| > 1 && stack[|stack| - 2] != Nil
      modifies this`stack, this`heap
      ensures Valid()
      ensures var n := |old(stack)|;
              && stack == old(stack)[..n - 2]
              && heap == Store(old(heap), old(At(index)).table, old(stack)[n - 2], old(stack)[n - 1])
    {
      var n := |stack|;
      heap := Store(heap, At(index).table, stack[n - 2], stack[n - 1]);
      stack := stack[..n - 2];
    }

    /** lua_pushcclosure: the upvalues on top give way to a closure over them. */
    method PushClosure(func: int, count: nat)
      requires Valid() && count <= |stack| && count <= MAX_UPVALUES
      modifies this`stack, this`peak
      ensures Valid()
      ensures var n := |old(stack)|;
              stack == old(stack)[..n - count] + [Closure(func, old(stack)[n - count..])]
      ensures peak == Max(old(peak), |stack|)
    {
      var n := |stack|;
      var upvalues := stack[n - count..];
      stack := stack[..n - count];
      Push(Closure(func, upvalues));
    }

    /** lua_newuserdata: a block whose contents are not yet set. */
    method NewUserData() returns (block: nat)
      requires Valid()
      modifies this`stack, this`blocks, this`nextBlock, this`peak
      ensures Valid() && block == old(nextBlock) && stack == old(stack) + [Block(block)]
      ensures blocks == old(blocks)[block := Data(None, Nil)] && nextBlock == block + 1
      ensures peak == Max(old(peak), |stack|)
    {
      block := nextBlock;
      blocks := blocks[block := Data(None, Nil)];
      nextBlock := nextBlock + 1;
      Push(Block(block));
    }

    /** lua_setmetatable on a userdata: pops a table or nil, and always returns 1. */
    method SetMetatable(index: int) returns (r: int)
      requires Valid() && ValidIndex(index) && At(index).Block? && At(index).block in blocks
      requires |stack| > 0 && (stack[|stack| - 1] == Nil || IsTable(heap, stack[|stack| - 1]))
      modifies this`stack, this`blocks
      ensures Valid() && r == 1
      ensures var n, b := |old(stack)|, old(At(index)).block;
              && stack == old(stack)[..n - 1]
              && blocks == old(blocks)[b := old(blocks)[b].(metatable := old(stack)[n - 1])]
    {
      var n, b := |stack|, At(index).block;
      blocks := blocks[b := blocks[b].(metatable := stack[n - 1])];
      stack := stack[..n - 1];
      r := 1;
    }
  }
}
