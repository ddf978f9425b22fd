/** lua-ada-conf.c: arguments are collected in a flag word, and the flags then printed in table order. */
module Conf {

  /** The configured values that can be printed. */
  datatype Config = Config(incdir: string, dlibdir: string, slibdir: string, version: string, help: string)

  type Word = bv16

  const FLAGS: nat := 9
  const HELP: nat := 0
  const COMPILE: nat := 1

  /** The names of the table, in its order. */
  const NAMES: seq<string> :=
    ["help", "compile", "incdir", "cflags", "dlibdir", "slibdir", "ldflags", "version", "newline"]

  /** The flag bits, in the order of the table. */
  const VALUES: seq<Word> := [0x0040, 0x0020, 0x0001, 0x0080, 0x0002, 0x0004, 0x0100, 0x0010, 0x0008]

  predicate HasFlag(word: Word, j: nat)
    requires j < FLAGS
  {
    Overlap(word, VALUES[j])
  }

  predicate Overlap(a: Word, b: Word) {
    a & b != 0
  }

  /** The bits of the table are distinct. */
  lemma {:induction false} FlagsDistinct(i: nat, j: nat)
    requires i < FLAGS && j < FLAGS
    ensures Overlap(VALUES[j], VALUES[i]) <==> i == j
  {
  }

  lemma {:induction false} OverlapOfBoth(word: Word, added: Word, test: Word)
    ensures Overlap(word | added, test) <==> Overlap(word, test) || Overlap(added, test)
  {
    assert (word | added) & test == (word & test) | (added & test);
  }

  /** Setting one flag leaves the others as they are. */
  lemma {:induction false} SetsOneFlag(word: Word, i: nat, j: nat)
    requires i < FLAGS && j < FLAGS
    ensures HasFlag(word | VALUES[j], i) <==> i == j || HasFlag(word, i)
  {
    FlagsDistinct(i, j);
    OverlapOfBoth(word, VALUES[j], VALUES[i]);
  }

  // --- Comparing ------------------------------------------------------------------------------------

  function CharAt(s: string, i: nat): char {
    if i < |s| then s[i] else '\0'
  }

  /** str_diff, with its loop unrolled four times: zero exactly for equal strings. */
  method StrDiff(s: string, t: string) returns (d: int)
    requires '\0' !in s && '\0' !in t
    ensures d == 0 <==> s == t
  {
    var i := 0;
    var u := CharAt(s, i);
    while true
      invariant 0 <= i <= |s| && i <= |t| && s[..i] == t[..i]
      decreases |s| - i
    {
      u := CharAt(s, i); if u != CharAt(t, i) { break; } if u == '\0' { break; } i := i + 1;
      u := CharAt(s, i); if u != CharAt(t, i) { break; } if u == '\0' { break; } i := i + 1;
      u := CharAt(s, i); if u != CharAt(t, i) { break; } if u == '\0' { break; } i := i + 1;
      u := CharAt(s, i); if u != CharAt(t, i) { break; } if u == '\0' { break; } i := i + 1;
    }
    d := u as int - CharAt(t, i) as int;
  }

  // --- Parsing --------------------------------------------------------------------------------------

  /** The table entries that some argument names. */
  function Recognised(args: seq<string>): set<nat> {
    set j: nat | j < FLAGS && NAMES[j] in args
  }

  ghost predicate WordFor(word: Word, args: seq<string>) {
    forall j: nat :: j < FLAGS ==> (HasFlag(word, j) <==> NAMES[j] in args)
  }

  lemma {:induction false} NamesDiffer(i: nat, j: nat)
    requires i < FLAGS && j < FLAGS && NAMES[i] == NAMES[j]
    ensures i == j
  {
    assert NAMES[i][0] == NAMES[j][0] && NAMES[i][1] == NAMES[j][1] && |NAMES[i]| == |NAMES[j]|;
  }

  /** The search for one argument: the flag of that name, or FLAGS if it is unknown. */
  method FindFlag(arg: string) returns (j: nat)
    requires '\0' !in arg
    ensures j <= FLAGS && (j < FLAGS ==> NAMES[j] == arg)
    ensures j == FLAGS ==> forall k: nat :: k < FLAGS ==> NAMES[k] != arg
  {
    j := 0;
    while j < FLAGS
      invariant j <= FLAGS && forall k: nat :: k < j ==> NAMES[k] != arg
    {
      NamesHaveNoNul(j);
      var d := StrDiff(arg, NAMES[j]);
      if d == 0 { break; }
      j := j + 1;
    }
  }

  lemma {:induction false} NamesHaveNoNul(j: nat)
    requires j < FLAGS
    ensures '\0' !in NAMES[j]
  {
  }

  lemma {:induction false} OneMoreArgument(word: Word, args: seq<string>, arg: string, j: nat)
    requires WordFor(word, args) && j <= FLAGS && (j < FLAGS ==> NAMES[j] == arg)
    requires j == FLAGS ==> forall k: nat :: k < FLAGS ==> NAMES[k] != arg
    ensures WordFor(if j < FLAGS then word | VALUES[j] else word, args + [arg])
  {
    if j < FLAGS {
      forall i: nat | i < FLAGS ensures HasFlag(word | VALUES[j], i) <==> NAMES[i] in args + [arg] {
        SetsOneFlag(word, i, j);
        if NAMES[i] == arg { NamesDiffer(i, j); }
      }
    }
  }

  method ParseFlags(args: seq<string>) returns (word: Word)
    requires forall arg :: arg in args ==> '\0' !in arg
    ensures WordFor(word, args)
  {
    word := 0;
    var index := 0;
    while index < |args|
      invariant 0 <= index <= |args| && WordFor(word, args[..index])
    {
      var j := FindFlag(args[index]);
      OneMoreArgument(word, args[..index], args[index], j);
      assert args[..index + 1] == args[..index] + [args[index]];
      if j < FLAGS { word := word | VALUES[j]; }
      index := index + 1;
    }
    assert args[..index] == args;
  }

  // --- Printing -------------------------------------------------------------------------------------

  /** What one entry prints. */
  function Printed(j: nat, compile: bool, config: Config): string {
    match j
    case 2 => (if compile then "-I" else "") + config.incdir + " "
    case 4 => (if compile then "-L" else "") + config.dlibdir + " "
    case 5 => (if compile then "-L" else "") + config.slibdir + " "
    case 6 => "-llua-ada "
    case 7 => config.version + " "
    case 8 => "\n"
    case _ => ""
  }

  /** What the chosen entries before number `n` print, in table order; help is printed alone. */
  function Rendered(chosen: set<nat>, config: Config, n: nat): string {
    if HELP in chosen then config.help
    else if n == 0 then ""
    else Rendered(chosen, config, n - 1) + if n - 1 in chosen then Printed(n - 1, COMPILE in chosen, config) else ""
  }

  /** The part of one entry. */
  function Part(chosen: set<nat>, config: Config, n: nat): string {
    if n in chosen then Printed(n, COMPILE in chosen, config) else ""
  }

  lemma {:induction false} RenderedNext(chosen: set<nat>, config: Config, n: nat, before: string)
    requires HELP !in chosen && Rendered(chosen, config, n) == before
    ensures Rendered(chosen, config, n + 1) == before + Part(chosen, config, n)
  {
  }

  lemma {:induction false} SilentNext(chosen: set<nat>, config: Config, n: nat, before: string)
    requires HELP !in chosen && Rendered(chosen, config, n) == before && Part(chosen, config, n) == ""
    ensures Rendered(chosen, config, n + 1) == before
  {
    assert before + "" == before;
  }

  /** The parts of the entries, one after the other. */
  lemma {:induction false} RenderedParts(chosen: set<nat>, config: Config, p: seq<string>)
    requires HELP !in chosen && |p| == FLAGS && forall n: nat :: n < FLAGS ==> p[n] == Part(chosen, config, n)
    ensures Rendered(chosen, config, FLAGS) == p[2] + p[4] + p[5] + p[6] + p[7] + p[8]
  {
    SilentNext(chosen, config, 0, "");
    SilentNext(chosen, config, 1, "");
    RenderedNext(chosen, config, 2, "");
    assert "" + p[2] == p[2];
    SilentNext(chosen, config, 3, p[2]);
    RenderedNext(chosen, config, 4, p[2]);
    RenderedNext(chosen, config, 5, p[2] + p[4]);
    RenderedNext(chosen, config, 6, p[2] + p[4] + p[5]);
    RenderedNext(chosen, config, 7, p[2] + p[4] + p[5] + p[6]);
    RenderedNext(chosen, config, 8, p[2] + p[4] + p[5] + p[6] + p[7]);
  }

  lemma {:induction false} RenderedIs(chosen: set<nat>, config: Config)
    ensures 0 in chosen ==> Rendered(chosen, config, FLAGS) == config.help
    ensures 0 !in chosen ==>
              Rendered(chosen, config, FLAGS) ==
                (if 2 in chosen then (if 1 in chosen then "-I" else "") + config.incdir + " " else "") +
                (if 4 in chosen then (if 1 in chosen then "-L" else "") + config.dlibdir + " " else "") +
                (if 5 in chosen then (if 1 in chosen then "-L" else "") + config.slibdir + " " else "") +
                (if 6 in chosen then "-llua-ada " else "") +
                (if 7 in chosen then config.version + " " else "") +
                (if 8 in chosen then "\n" else "")
  {
    if 0 !in chosen {
      RenderedParts(chosen, config, seq(FLAGS, n requires 0 <= n < FLAGS => Part(chosen, config, n)));
    }
  }

  method CallFlags(word: Word, config: Config, ghost chosen: set<nat>) returns (out: string)
    requires forall j: nat :: j < FLAGS ==> (HasFlag(word, j) <==> j in chosen)
    ensures out == Rendered(chosen, config, FLAGS)
    ensures 0 in chosen ==> out == config.help
    ensures 0 !in chosen ==>
              out == (if 2 in chosen then (if 1 in chosen then "-I" else "") + config.incdir + " " else "") +
                     (if 4 in chosen then (if 1 in chosen then "-L" else "") + config.dlibdir + " " else "") +
                     (if 5 in chosen then (if 1 in chosen then "-L" else "") + config.slibdir + " " else "") +
                     (if 6 in chosen then "-llua-ada " else "") +
                     (if 7 in chosen then config.version + " " else "") +
                     (if 8 in chosen then "\n" else "")
  {
    RenderedIs(chosen, config);
    out := "";
    var index := 0;
    while index < FLAGS
      invariant 0 <= index <= FLAGS && (index > 0 ==> HELP !in chosen)
      invariant HELP !in chosen ==> out == Rendered(chosen, config, index)
    {
      if HasFlag(word, index) {
        if index == HELP { return config.help; }
        out := out + Printed(index, HasFlag(word, COMPILE), config);
      }
      index := index + 1;
    }
  }

  const USAGE: int := 111
  const FLUSH: int := 112

  /**
   main: with "help" among the arguments the help text is printed, otherwise what the names among the
   arguments stand for, in the order of the table, and the directories as compiler flags if "compile" is
   among them. `flushed` is whether the output gets out.
   */
  method Run(args: seq<string>, config: Config, flushed: bool) returns (code: int, out: string)
    requires forall arg :: arg in args ==> '\0' !in arg
    ensures args == [] ==> code == 111
    ensures args != [] ==> code == if "help" !in args && !flushed then 112 else 0
    ensures "help" in args ==> out == config.help
    ensures args != [] && "help" !in args ==>
              out == (if "incdir" in args then (if "compile" in args then "-I" else "") + config.incdir + " " else "") +
                     (if "dlibdir" in args then (if "compile" in args then "-L" else "") + config.dlibdir + " " else "") +
                     (if "slibdir" in args then (if "compile" in args then "-L" else "") + config.slibdir + " " else "") +
                     (if "ldflags" in args then "-llua-ada " else "") +
                     (if "version" in args then config.version + " " else "") +
                     (if "newline" in args then "\n" else "")
  {
    if args == [] { return USAGE, ""; }
    var word := ParseFlags(args);
    var chosen := Recognised(args);
    out := CallFlags(word, config, chosen);
    EntriesAreNames(args);
    code := if HELP !in chosen && !flushed then FLUSH else 0;
  }

  lemma {:induction false} EntriesAreNames(args: seq<string>)
    ensures var chosen := Recognised(args);
            && (0 in chosen <==> "help" in args) && (1 in chosen <==> "compile" in args) && (2 in chosen <==> "incdir" in args)
            && (4 in chosen <==> "dlibdir" in args) && (5 in chosen <==> "slibdir" in args) && (6 in chosen <==> "ldflags" in args)
            && (7 in chosen <==> "version" in args) && (8 in chosen <==> "newline" in args)
  {
    assert NAMES[0] == "help" && NAMES[1] == "compile" && NAMES[2] == "incdir" && NAMES[4] == "dlibdir";
    assert NAMES[5] == "slibdir" && NAMES[6] == "ldflags" && NAMES[7] == "version" && NAMES[8] == "newline";
  }

  /** Order, repetition and unknown words make no difference. */
  lemma {:induction false} OnlyTheSetCounts(a: seq<string>, b: seq<string>, config: Config)
    requires forall name :: name in NAMES ==> (name in a <==> name in b)
    ensures Rendered(Recognised(a), config, FLAGS) == Rendered(Recognised(b), config, FLAGS)
  {
    assert Recognised(a) == Recognised(b);
  }
}
