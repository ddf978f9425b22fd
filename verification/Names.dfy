/** The portability functions of install-core.c that pick file names apart. */
module Names {
  import opened Wrappers
  import opened Paths

  /** base_name: the index loops over the two ends of the last component. */
  method BaseName(dir: string) returns (out: Option<string>)
    ensures out.Some? <==> |dir| < MAX_PATHLEN
    ensures out.Some? ==> out.value == Basename(dir) && |out.value| < MAX_PATHLEN
  {
    var len := |dir|;
    if len == 0 { return Some("."); }
    if len >= MAX_PATHLEN { return None; }

    var t := len - 1;
    while t > 0 && dir[t] == '/'
      invariant 0 <= t < len
      invariant forall i :: t < i < len ==> dir[i] == '/'
    {
      t := t - 1;
    }
    if t == 0 && dir[t] == '/' {
      ComponentsOfSlashes(dir);
      return Some("/");
    }
    var u := t;
    while u > 0 && dir[u - 1] != '/'
      invariant 0 <= u <= t
      invariant forall i :: u <= i <= t ==> dir[i] != '/'
    {
      u := u - 1;
    }
    BasenameIsWord(dir, u, t + 1);
    out := Some(dir[u..t + 1]);
  }

  predicate EndsWith(s: string, end: string) {
    |end| <= |s| && s[|s| - |end|..] == end
  }

  lemma {:induction false} SuffixIs(s: string, end: string)
    ensures EndsWith(s, end) <==> exists k :: 0 <= k <= |s| && s[k..] == end
  {
    if k :| 0 <= k <= |s| && s[k..] == end { assert k == |s| - |end|; }
  }

  /** str_ends: the comparison starts at most |s| characters from the end. */
  method StrEnds(s: string, end: string) returns (r: bool)
    ensures r <==> EndsWith(s, end)
    ensures r <==> exists k :: 0 <= k <= |s| && s[k..] == end
  {
    var slen := |s|;
    var elen := |end|;
    if elen > slen { elen := slen; }
    r := s[slen - elen..] == end;
    SuffixIs(s, end);
  }

  predicate White(c: char) {
    c == ' ' || c == '\t' || c == '\n' || c == '\r'
  }

  /** The longest prefix without white space. */
  function FirstWord(s: string): string {
    if s == "" || White(s[0]) then "" else [s[0]] + FirstWord(s[1..])
  }

  lemma {:induction false} FirstWordIsLongest(s: string, k: nat)
    requires k <= |s|
    requires forall i :: 0 <= i < k ==> !White(s[i])
    requires k == |s| || White(s[k])
    ensures FirstWord(s) == s[..k]
  {
    if k > 0 {
      FirstWordIsLongest(s[1..], k - 1);
      assert s[..k] == [s[0]] + s[1..][..k - 1];
    }
  }

  /** The part of a buffer that is a C string. */
  function CText(s: string): (r: string)
    ensures r <= s
  {
    if s == "" || s[0] == '\0' then "" else [s[0]] + CText(s[1..])
  }

  /** The file text that one `fread` of a whole path buffer delivers. */
  function ReadOnce(content: string): string {
    if |content| <= MAX_PATHLEN then content else content[..MAX_PATHLEN]
  }

  /** The library name that the text of a .vlb file stands for. */
  function LibraryName(content: string): (r: string)
    ensures |r| <= |FirstWord(ReadOnce(content))|
  {
    CText(FirstWord(ReadOnce(content)))
  }

  /**
   The terminating NUL of libname lands inside the path buffer exactly when white space follows
   the name within the first MAX_PATHLEN characters, or the file ends before them.
   */
  predicate LibraryNameFits(content: string) {
    |FirstWord(ReadOnce(content))| < MAX_PATHLEN
  }

  lemma {:induction false} FirstWordIsShort(s: string)
    ensures |FirstWord(s)| <= |s|
    ensures |FirstWord(s)| < |s| <==> exists i :: 0 <= i < |s| && White(s[i])
  {
    if s != "" && !White(s[0]) {
      FirstWordIsShort(s[1..]);
      if i :| 0 <= i < |s| && White(s[i]) {
        assert White(s[1..][i - 1]);
      }
    }
  }

  lemma {:induction false} LibraryNameFitsExactly(content: string)
    ensures LibraryNameFits(content) <==>
            |content| < MAX_PATHLEN || exists i :: 0 <= i < MAX_PATHLEN && White(content[i])
  {
    var s := ReadOnce(content);
    FirstWordIsShort(s);
    if |content| >= MAX_PATHLEN {
      if i :| 0 <= i < MAX_PATHLEN && White(content[i]) { assert White(s[i]); }
      if i :| 0 <= i < |s| && White(s[i]) { assert White(content[i]); }
    }
  }

  /** Where the name in a library file ends: at white space, a NUL, the 1024th character or the end of the file. */
  predicate EndsName(content: string, n: nat)
    requires n <= |content|
  {
    n == 1024 || n == |content| || content[n] in {' ', '\t', '\n', '\r', '\0'}
  }

  /** The name is the longest beginning of the file that has none of these in it. */
  lemma {:induction false} LibraryNameIs(content: string)
    ensures var name := LibraryName(content);
            && name <= content && |name| <= 1024 && EndsName(content, |name|)
            && forall i :: 0 <= i < |name| ==> !EndsName(content, i)
  {
    var read := ReadOnce(content);
    FirstWordEnds(read);
    CTextEnds(FirstWord(read));
    var name := LibraryName(content);
    assert name <= FirstWord(read) <= read <= content;
    forall i | 0 <= i < |name| ensures !EndsName(content, i) {
      assert content[i] == name[i] == FirstWord(read)[i];
    }
    if |name| < |FirstWord(read)| { assert content[|name|] == FirstWord(read)[|name|]; }
  }

  lemma {:induction false} FirstWordEnds(s: string)
    ensures FirstWord(s) <= s && (|FirstWord(s)| < |s| ==> White(s[|FirstWord(s)|]))
    ensures forall i :: 0 <= i < |FirstWord(s)| ==> !White(FirstWord(s)[i])
  {
    if s != "" && !White(s[0]) { FirstWordEnds(s[1..]); }
  }

  lemma {:induction false} CTextEnds(s: string)
    ensures |CText(s)| < |s| ==> s[|CText(s)|] == '\0'
    ensures forall i :: 0 <= i < |CText(s)| ==> CText(s)[i] != '\0'
  {
    if s != "" && s[0] != '\0' { CTextEnds(s[1..]); }
  }

  /** libname, after its buffer has been read: scan for white space and copy what precedes it. */
  method LibName(content: string) returns (name: string)
    ensures name == LibraryName(content)
    ensures name <= content && EndsName(content, |name|) && forall i :: 0 <= i < |name| ==> !EndsName(content, i)
  {
    LibraryNameIs(content);
    var readBuf := ReadOnce(content);
    var r := |readBuf|;
    var s := 0;
    var clean := false;
    while r != 0 && !clean
      invariant 0 <= s <= |readBuf| && s + r == |readBuf|
      invariant forall i :: 0 <= i < s ==> !White(readBuf[i])
      invariant clean ==> r != 0 && White(readBuf[s])
      decreases r, !clean
    {
      if White(readBuf[s]) {
        clean := true;
      } else {
        r := r - 1;
        s := s + 1;
      }
    }
    FirstWordIsLongest(readBuf, s);
    name := CText(readBuf[..s]);
  }
}
