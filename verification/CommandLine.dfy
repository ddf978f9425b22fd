/**
 sd_locker_win32_convert_command: an argument vector flattened into one command line for a POSIX
 shell, with an allocation computed in a first pass and filled in a second.
 */
module CommandLine {
  import opened Wrappers

  const PREFIX := "sh -c \""
  const SIZE_OF_INT: nat := 4

  // --- What is built --------------------------------------------------------------------------------

  /** Every argument in single quotes, with a space after it. */
  function Body(argv: seq<string>): string
    decreases |argv|
  {
    if argv == [] then "" else Body(argv[..|argv| - 1]) + "'" + argv[|argv| - 1] + "'" + " "
  }

  function Line(argv: seq<string>): string {
    PREFIX + Body(argv) + "\""
  }

  /** The size of the allocation: the space after an argument is counted as an int. */
  function Total(argv: seq<string>): nat
    decreases |argv|
  {
    if argv == [] then |PREFIX| + 1 else Total(argv[..|argv| - 1]) + 1 + |argv[|argv| - 1]| + 1 + SIZE_OF_INT
  }

  /** The bytes that are written, including the terminator. */
  function Used(argv: seq<string>): nat {
    |Line(argv)| + 1
  }

  lemma {:induction false} SizesDiffer(argv: seq<string>)
    ensures Total(argv) + 1 == Used(argv) + (SIZE_OF_INT - 1) * |argv|
    decreases |argv|
  {
    if argv != [] {
      SizesDiffer(argv[..|argv| - 1]);
    }
  }

  /** The allocation is large enough exactly for the vectors that are not empty. */
  lemma {:induction false} AllocationSuffices(argv: seq<string>)
    ensures Used(argv) <= Total(argv) <==> |argv| >= 1
  {
    SizesDiffer(argv);
  }

  /** What has been written after some arguments fits with room for the end. */
  lemma {:induction false} PartFits(argv: seq<string>, k: nat)
    requires k < |argv|
    ensures |PREFIX| + |Body(argv[..k])| + |argv[k]| + 5 <= Total(argv)
    ensures Body(argv[..k + 1]) == Body(argv[..k]) + "'" + argv[k] + "'" + " "
    decreases |argv|
  {
    if k < |argv| - 1 {
      PartFits(argv[..|argv| - 1], k);
      assert argv[..|argv| - 1][..k] == argv[..k];
      assert argv[..|argv| - 1][..k + 1] == argv[..k + 1];
    } else {
      assert argv[..k + 1] == argv;
      AllocationSuffices(argv);
    }
    assert argv[..k + 1][..k] == argv[..k];
  }

  // --- The procedure --------------------------------------------------------------------------------

  /** memcpy to the index `at`: what precedes it stays. */
  method CopyTo(buffer: array<char>, at: nat, s: string, ghost before: string)
    requires at + |s| <= buffer.Length && buffer[..at] == before
    modifies buffer
    ensures buffer[..at + |s|] == before + s
  {
    for i := 0 to |s|
      invariant buffer[..at + i] == before + s[..i]
    {
      buffer[at + i] := s[i];
    }
    assert s[..|s|] == s;
  }

  /** One turn of the second loop. */
  method AddArgument(buffer: array<char>, start: nat, arg: string, ghost before: string)
    returns (ptr: nat)
    requires start + |arg| + 3 <= buffer.Length && buffer[..start] == before
    modifies buffer
    ensures ptr == start + |arg| + 3 && buffer[..ptr] == before + "'" + arg + "'" + " "
  {
    ptr := start;
    CopyTo(buffer, ptr, "'", before);
    ptr := ptr + 1;
    CopyTo(buffer, ptr, arg, before + "'");
    ptr := ptr + |arg|;
    CopyTo(buffer, ptr, "'", before + "'" + arg);
    ptr := ptr + 1;
    CopyTo(buffer, ptr, " ", before + "'" + arg + "'");
    ptr := ptr + 1;
  }

  /** The first pass. */
  method MeasureCommand(argv: seq<string>) returns (total: nat)
    ensures total == Total(argv)
  {
    total := |PREFIX| + 1;
    var index := 0;
    while index < |argv|
      invariant 0 <= index <= |argv| && total == Total(argv[..index])
    {
      total := total + 1 + |argv[index]| + 1 + SIZE_OF_INT;
      assert argv[..index + 1][..index] == argv[..index];
      index := index + 1;
    }
    assert argv[..index] == argv;
  }

  /** The caller asserts that there is an argument. The result is null exactly if malloc fails. */
  method ConvertCommand(argv: seq<string>, available: bool) returns (buffer: array?<char>)
    requires |argv| >= 1
    ensures buffer != null <==> available
    ensures buffer != null ==> fresh(buffer) && buffer.Length == Total(argv) && Used(argv) <= buffer.Length
    ensures buffer != null ==> buffer[..Used(argv) - 1] == Line(argv) && buffer[Used(argv) - 1] == '\0'
  {
    var total := MeasureCommand(argv);
    AllocationSuffices(argv);
    if !available { return null; }
    var memory := new char[total];
    CopyTo(memory, 0, PREFIX, "");
    var ptr := |PREFIX|;
    var used := |PREFIX|;
    var index := 0;
    while index < |argv|
      invariant 0 <= index <= |argv| && fresh(memory) && memory.Length == total
      invariant ptr == used == |PREFIX| + |Body(argv[..index])| <= total && memory[..ptr] == PREFIX + Body(argv[..index])
    {
      PartFits(argv, index);
      var next := AddArgument(memory, ptr, argv[index], PREFIX + Body(argv[..index]));
      assert memory[..next] == PREFIX + Body(argv[..index + 1]);
      used := used + |argv[index]| + 3;
      ptr := next;
      index := index + 1;
    }
    assert argv[..index] == argv;
    CopyTo(memory, ptr, "\"", PREFIX + Body(argv));
    memory[ptr + 1] := '\0';
    used := used + 2;
    assert memory[used - 1] == '\0';
    assert used <= total;
    buffer := memory;
  }

  // --- What the shell makes of it -------------------------------------------------------------------

  /**
   Words made of single-quoted pieces (section 2.2.2 of the Shell and Utilities volume of IEEE Std
   1003.1-2008), separated by spaces. Anything else outside quotes is not a plain word.
   */
  function Words(s: string, word: Option<string>, quoted: bool): Option<seq<string>>
    requires quoted ==> word.Some?
    decreases |s|
  {
    if s == "" then
      if quoted then None else Some(if word.Some? then [word.value] else [])
    else if quoted then
      if s[0] == '\'' then Words(s[1..], word, false) else Words(s[1..], Some(word.value + [s[0]]), true)
    else if s[0] == '\'' then Words(s[1..], Some(if word.Some? then word.value else ""), true)
    else if s[0] == ' ' then
      var rest := Words(s[1..], None, false);
      if rest.None? || word.None? then rest else Some([word.value] + rest.value)
    else None
  }

  /** The text in the double quotes after "sh -c ", if they end the line. */
  function Inside(line: string): Option<string> {
    if "sh -c \"" <= line && |line| > 7 && line[|line| - 1] == '"' && '"' !in line[7..|line| - 1]
    then Some(line[7..|line| - 1])
    else None
  }

  function Decode(line: string): Option<seq<string>> {
    var text := Inside(line);
    if text.None? then None else Words(text.value, None, false)
  }

  predicate Unquoted(s: string) {
    '\'' !in s && '"' !in s
  }

  lemma {:induction false} WordsQuoted(arg: string, word: string, rest: string)
    requires '\'' !in arg
    ensures Words(arg + "'" + rest, Some(word), true) == Words(rest, Some(word + arg), false)
    decreases |arg|
  {
    var s := arg + "'" + rest;
    if arg == "" {
      assert s[1..] == rest;
      assert word + arg == word;
    } else {
      assert s[1..] == arg[1..] + "'" + rest;
      WordsQuoted(arg[1..], word + [arg[0]], rest);
      assert word + [arg[0]] + arg[1..] == word + arg;
    }
  }

  /** One argument of the body becomes one word. */
  lemma {:induction false} WordsOfArgument(arg: string, rest: string)
    requires '\'' !in arg
    ensures var words := Words(rest, None, false);
            Words("'" + arg + "'" + " " + rest, None, false) == if words.None? then None else Some([arg] + words.value)
  {
    var s := "'" + arg + "'" + " " + rest;
    assert s[1..] == arg + "'" + (" " + rest);
    WordsQuoted(arg, "", " " + rest);
    assert (" " + rest)[1..] == rest;
    assert "" + arg == arg;
  }

  /** The body with one argument more, and what follows it. */
  lemma {:induction false} BodyMore(init: seq<string>, last: string, rest: string)
    ensures Body(init + [last]) + rest == Body(init) + ("'" + last + "'" + " " + rest)
  {
    assert (init + [last])[..|init|] == init;
    ConcatAssociative(Body(init), "'" + last + "'" + " ", rest);
    assert Body(init) + "'" + last + "'" + " " == Body(init) + ("'" + last + "'" + " ");
  }

  /** If the text after the arguments has the words `words`, the whole has the arguments before them. */
  lemma {:induction false} WordsOfBody(argv: seq<string>, rest: string, words: seq<string>)
    requires forall arg :: arg in argv ==> '\'' !in arg
    requires Words(rest, None, false) == Some(words)
    ensures Words(Body(argv) + rest, None, false) == Some(argv + words)
    decreases |argv|
  {
    if argv == [] {
      ConcatEmpty(rest);
      ConcatEmpty(words);
    } else {
      var init, last := argv[..|argv| - 1], argv[|argv| - 1];
      assert argv == init + [last];
      WordsOfArgument(last, rest);
      WordsOfBody(init, "'" + last + "'" + " " + rest, [last] + words);
      BodyMore(init, last, rest);
      ConcatAssociative(init, [last], words);
    }
  }

  /** Words contain no single quote, and no character that is not in the text. */
  lemma {:induction false} WordsAreFrom(s: string, word: Option<string>, quoted: bool, c: char)
    requires quoted ==> word.Some?
    requires word.Some? ==> c !in word.value
    requires c == '\'' || c !in s
    ensures Words(s, word, quoted).Some? ==> forall w :: w in Words(s, word, quoted).value ==> c !in w
    decreases |s|
  {
    if s == "" {
    } else if quoted {
      if s[0] == '\'' {
        WordsAreFrom(s[1..], word, false, c);
      } else {
        WordsAreFrom(s[1..], Some(word.value + [s[0]]), true, c);
      }
    } else if s[0] == '\'' {
      WordsAreFrom(s[1..], Some(if word.Some? then word.value else ""), true, c);
    } else if s[0] == ' ' {
      WordsAreFrom(s[1..], None, false, c);
    }
  }

  lemma {:induction false} BodyHas(argv: seq<string>, c: char)
    requires c != '\'' && c != ' '
    ensures c in Body(argv) <==> exists arg :: arg in argv && c in arg
    decreases |argv|
  {
    if argv != [] {
      BodyHas(argv[..|argv| - 1], c);
      assert argv == argv[..|argv| - 1] + [argv[|argv| - 1]];
    }
  }

  lemma {:induction false} InsideLine(argv: seq<string>)
    ensures Inside(Line(argv)) == if '"' in Body(argv) then None else Some(Body(argv))
  {
    var line := Line(argv);
    assert PREFIX == "sh -c \"" && |PREFIX| == 7;
    assert line[7..|line| - 1] == Body(argv);
  }

  /** The shell gets the argument vector back if and only if no argument contains a quote of either kind. */
  lemma {:induction false} DecodesExactly(argv: seq<string>)
    ensures Decode(Line(argv)) == Some(argv) <==> forall arg :: arg in argv ==> Unquoted(arg)
  {
    InsideLine(argv);
    BodyHas(argv, '"');
    if forall arg :: arg in argv ==> Unquoted(arg) {
      WordsOfBody(argv, "", []);
      assert Body(argv) + "" == Body(argv);
      assert argv + [] == argv;
    }
    if Decode(Line(argv)) == Some(argv) {
      WordsAreFrom(Body(argv), None, false, '\'');
    }
  }
}
