/**
 Load_File and Load_Buffer of lua.adb: a file is gathered line by line through a buffer of fixed
 size, and the result handed to the loader through a reader that delivers it once.

 A file is its characters, with lines separated by line feeds. Get_Line stops at the end of the line
 or when its buffer is full, and skips the line feed only in the first case; End_Of_File is also true
 before a last line feed (sections A.10.5 and A.10.7 of the Ada Reference Manual).
 */
module LoadFile {
  import opened Wrappers

  const LF := '\n'
  const LINE_BUFFER: nat := 4096

  // --- Ada.Text_IO ----------------------------------------------------------------------------------

  predicate EndOfFile(rest: string) {
    rest == "" || rest == [LF]
  }

  /** Number of characters before the first line feed, or all of them. */
  function LineLength(rest: string): (k: nat)
    ensures k <= |rest| && LF !in rest[..k]
    ensures k < |rest| ==> rest[k] == LF
  {
    if rest == "" || rest[0] == LF then 0
    else
      var k := 1 + LineLength(rest[1..]);
      assert rest[..k] == [rest[0]] + rest[1..][..k - 1];
      k
  }

  /** What Get_Line reads, and what is left. */
  function GetLine(rest: string, cap: nat): (string, string) {
    var k := LineLength(rest);
    if k >= cap then (rest[..cap], rest[cap..])
    else if k < |rest| then (rest[..k], rest[k + 1..])
    else (rest, "")
  }

  /** The text gathered from what is left of a file: every piece followed by a line feed. */
  function Gathered(rest: string, cap: nat): string
    requires cap > 0
    decreases |rest|
  {
    if EndOfFile(rest) then ""
    else
      var (piece, left) := GetLine(rest, cap);
      piece + [LF] + Gathered(left, cap)
  }

  // --- The loop -------------------------------------------------------------------------------------

  /** Load_File up to the call of Load_Buffer. */
  method GatherFile(content: string) returns (text: string)
    ensures text == Gathered(content, LINE_BUFFER)
  {
    text := "";
    var rest := content;
    while !EndOfFile(rest)
      invariant Gathered(content, LINE_BUFFER) == text + Gathered(rest, LINE_BUFFER)
      decreases |rest|
    {
      var (piece, left) := GetLine(rest, LINE_BUFFER);
      ConcatAssociative(text, piece + [LF], Gathered(left, LINE_BUFFER));
      text := text + (piece + [LF]);
      rest := left;
    }
    ConcatEmpty(text);
  }

  /** The context that Load_Buffer passes to the reader. */
  class Context {
    const buffer: string
    var size: nat

    constructor (buffer: string, size: nat)
      ensures this.buffer == buffer && this.size == size
    {
      this.buffer := buffer;
      this.size := size;
    }

    /** read_buffer: the whole buffer the first time, nothing afterwards. */
    method Read() returns (data: Option<string>)
      requires size <= |buffer|
      modifies this`size
      ensures size == 0
      ensures data == if old(size) == 0 then None else Some(buffer[..old(size)])
    {
      if size == 0 { return None; }
      var n := size;
      size := 0;
      data := Some(buffer[..n]);
    }
  }

  /** lua_load: it calls the reader until that signals the end, and takes what it delivers as one chunk. */
  method LoadBuffer(buffer: string, size: nat) returns (chunk: string, deliveries: nat)
    requires size <= |buffer|
    ensures chunk == buffer[..size] && deliveries == if size == 0 then 0 else 1
  {
    var context := new Context(buffer, size);
    chunk, deliveries := "", 0;
    var data := context.Read();
    while data.Some?
      invariant context.size == 0 && deliveries <= 1
      invariant data.Some? ==> chunk == "" && deliveries == 0 && size > 0 && data.value == buffer[..size]
      invariant data.None? ==> chunk == buffer[..size] && deliveries == if size == 0 then 0 else 1
      decreases data.Some?
    {
      chunk := chunk + data.value;
      deliveries := deliveries + 1;
      data := context.Read();
    }
  }

  // --- What the loader gets -------------------------------------------------------------------------

  /** The text without its line feeds. */
  function Erased(s: string): string {
    if s == "" then "" else (if s[0] == LF then "" else [s[0]]) + Erased(s[1..])
  }

  lemma {:induction false} ErasedConcat(a: string, b: string)
    ensures Erased(a + b) == Erased(a) + Erased(b)
    decreases |a|
  {
    if a == "" {
      assert a + b == b;
    } else {
      assert (a + b)[1..] == a[1..] + b;
      ErasedConcat(a[1..], b);
    }
  }

  /** A piece and what is left have the characters of the text, line feeds aside. */
  lemma {:induction false} PieceErased(rest: string, cap: nat)
    ensures var (piece, left) := GetLine(rest, cap); Erased(piece) + Erased(left) == Erased(rest)
  {
    var k := LineLength(rest);
    if k >= cap {
      ErasedConcat(rest[..cap], rest[cap..]);
      assert rest == rest[..cap] + rest[cap..];
    } else if k < |rest| {
      ErasedConcat(rest[..k], rest[k..]);
      assert rest == rest[..k] + rest[k..];
      assert rest[k..][1..] == rest[k + 1..];
    } else {
      assert Erased("") == "";
    }
  }

  /** For every file: nothing but line feeds is added or lost. */
  lemma {:induction false} NothingLost(rest: string, cap: nat)
    requires cap > 0
    ensures Erased(Gathered(rest, cap)) == Erased(rest)
    decreases |rest|
  {
    if rest == [LF] {
      assert rest[1..] == "";
    } else if rest != "" {
      var (piece, left) := GetLine(rest, cap);
      NothingLost(left, cap);
      PieceErased(rest, cap);
      ErasedConcat(piece + [LF], Gathered(left, cap));
      ErasedConcat(piece, [LF]);
      assert [LF][1..] == "";
      assert Erased([LF]) == "";
    }
  }

  /** The file with every line, also the last, ended by a line feed. */
  function Terminated(s: string): string {
    if s == "" || s[|s| - 1] == LF then s else s + [LF]
  }

  predicate AllLineFeeds(s: string) {
    forall i :: 0 <= i < |s| ==> s[i] == LF
  }

  /**
   Every line is shorter than the buffer and the last one is not empty; or a line that fills the
   buffer exactly comes last, or is followed by empty lines only.
   */
  predicate Regular(rest: string, cap: nat)
    decreases |rest|
  {
    var k := LineLength(rest);
    if rest == "" then true
    else if rest == [LF] then false
    else if k < cap then k == |rest| || Regular(rest[k + 1..], cap)
    else k == cap && AllLineFeeds(rest[k..])
  }

  lemma {:induction false} TerminatedTail(line: string, tail: string)
    requires LF !in line
    ensures Terminated(line + [LF] + tail) == line + [LF] + Terminated(tail)
  {
    var s := line + [LF] + tail;
    if tail == "" {
      assert s == line + [LF];
    } else {
      assert s[|s| - 1] == tail[|tail| - 1];
      if tail[|tail| - 1] != LF { assert s + [LF] == line + [LF] + (tail + [LF]); }
    }
  }

  lemma {:induction false} LineFeedFirst(more: string)
    ensures AllLineFeeds([LF] + more) <==> AllLineFeeds(more)
  {
    var s := [LF] + more;
    forall i | 0 <= i < |more| ensures more[i] == s[i + 1] {}
    if AllLineFeeds(s) {
      forall i | 0 <= i < |more| ensures more[i] == LF { assert s[i + 1] == LF; }
    }
  }

  /** Reading an empty line that is not the last. */
  lemma {:induction false} GatherEmptyLine(tail: string, cap: nat)
    requires cap > 0 && tail != ""
    ensures Gathered([LF] + tail, cap) == [LF] + Gathered(tail, cap)
  {
    var s := [LF] + tail;
    assert LineLength(s) == 0;
    assert s[1..] == tail;
    assert GetLine(s, cap) == ("", tail);
  }

  /** After a line that fills the buffer there is one line feed too many, which only empty lines make up for. */
  lemma {:induction false} OneTooMany(tail: string, cap: nat)
    requires cap > 0
    ensures Gathered([LF] + tail, cap) == Terminated(tail) <==> AllLineFeeds(tail)
    decreases |tail|
  {
    if tail == "" {
      assert [LF] + tail == [LF];
    } else {
      GatherEmptyLine(tail, cap);
      if tail[0] == LF {
        var more := tail[1..];
        assert tail == [LF] + more;
        OneTooMany(more, cap);
        TerminatedTail("", more);
        ConcatEmpty([LF]);
        SamePrefix([LF], Gathered(tail, cap), Terminated(more));
        LineFeedFirst(more);
      } else {
        assert Terminated(tail)[0] == tail[0];
      }
    }
  }

  /** The loader gets the file with every line ended by a line feed if and only if the file is regular. */
  lemma {:induction false} LinesKeptExactly(rest: string, cap: nat)
    requires cap > 0
    ensures Gathered(rest, cap) == Terminated(rest) <==> Regular(rest, cap)
    decreases |rest|
  {
    var k := LineLength(rest);
    if rest == "" || rest == [LF] {
    } else if k < cap && k == |rest| {
      assert rest[..k] == rest;
      assert LF !in rest;
      assert rest[|rest| - 1] in rest;
      assert Gathered("", cap) == "";
    } else if k < cap {
      var tail := rest[k + 1..];
      assert rest == rest[..k] + [LF] + tail;
      LinesKeptExactly(tail, cap);
      TerminatedTail(rest[..k], tail);
      SamePrefix(rest[..k] + [LF], Gathered(tail, cap), Terminated(tail));
    } else {
      FullLine(rest, cap);
    }
  }

  lemma {:induction false} FullLine(rest: string, cap: nat)
    requires cap > 0 && LineLength(rest) >= cap
    ensures Gathered(rest, cap) == Terminated(rest) <==> LineLength(rest) == cap && AllLineFeeds(rest[LineLength(rest)..])
  {
    var k := LineLength(rest);
    if k > cap {
      LongLine(rest, cap);
    } else if k == |rest| {
      LastFullLine(rest, cap);
    } else {
      assert rest[k..] == [LF] + rest[k + 1..];
      FullLineThenMore(rest, rest[..k], rest[k + 1..], cap);
    }
  }

  /** A line longer than the buffer is broken up. */
  lemma {:induction false} LongLine(rest: string, cap: nat)
    requires 0 < cap < LineLength(rest)
    ensures Gathered(rest, cap) != Terminated(rest)
  {
    var k := LineLength(rest);
    assert rest[..k][0] == rest[0] && rest[..k][cap] == rest[cap];
    assert Terminated(rest)[cap] == rest[cap] != LF;
    assert Gathered(rest, cap) == rest[..cap] + [LF] + Gathered(rest[cap..], cap);
  }

  lemma {:induction false} LastFullLine(rest: string, cap: nat)
    requires cap > 0 && LineLength(rest) == cap == |rest|
    ensures Gathered(rest, cap) == Terminated(rest)
  {
    assert rest[..cap] == rest;
    assert rest[0] in rest && rest[|rest| - 1] in rest;
    assert rest[cap..] == "";
    assert Gathered("", cap) == "";
  }

  lemma {:induction false} FullLineThenMore(rest: string, piece: string, tail: string, cap: nat)
    requires |piece| == cap > 0 && LF !in piece && rest == piece + [LF] + tail && LineLength(rest) == cap
    ensures Gathered(rest, cap) == Terminated(rest) <==> AllLineFeeds([LF] + tail)
  {
    var left := [LF] + tail;
    assert rest[0] == piece[0] && piece[0] in piece;
    assert rest[..cap] == piece && rest[cap..] == left;
    OneTooMany(tail, cap);
    TerminatedTail(piece, tail);
    SamePrefix(piece + [LF], Gathered(left, cap), Terminated(tail));
    LineFeedFirst(tail);
  }

  /** Load_File: the loader gets the characters of the file, line feeds aside, and exactly its lines if it is regular. */
  method Load(content: string) returns (chunk: string)
    ensures chunk == Gathered(content, LINE_BUFFER) && Erased(chunk) == Erased(content)
    ensures chunk == Terminated(content) <==> Regular(content, 4096)
  {
    var text := GatherFile(content);
    var deliveries: nat;
    chunk, deliveries := LoadBuffer(text, |text|);
    NothingLost(content, LINE_BUFFER);
    LinesKeptExactly(content, LINE_BUFFER);
  }
}
