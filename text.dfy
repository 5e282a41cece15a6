/** The three pieces of Python's string and path library the collectors
    rely on: `str.strip()`, `str.split(c)[0]` and `os.path.join` (POSIX). */
module Text {

  /** The characters Python's `str.isspace` accepts, which `str.strip()`
      with no argument removes: the ASCII controls U+0009..U+000D and
      U+001C..U+001F, the space, U+0085, and the Unicode space separators. */
  const Whitespace: set<char> :=
    {'\U{9}', '\U{A}', '\U{B}', '\U{C}', '\U{D}', '\U{1C}', '\U{1D}', '\U{1E}',
     '\U{1F}', '\U{20}', '\U{85}', '\U{A0}', '\U{1680}', '\U{2000}', '\U{2001}', '\U{2002}',
     '\U{2003}', '\U{2004}', '\U{2005}', '\U{2006}', '\U{2007}', '\U{2008}', '\U{2009}', '\U{200A}',
     '\U{2028}', '\U{2029}', '\U{202F}', '\U{205F}', '\U{3000}'}

  predicate IsSpace(c: char) {
    c in Whitespace
  }

  /** Every character of `s[lo..hi]` is whitespace. */
  predicate SpaceIn(s: string, lo: nat, hi: nat)
    requires lo <= hi <= |s|
  {
    forall k :: lo <= k < hi ==> IsSpace(s[k])
  }

  /** Neither end of the text is whitespace. */
  predicate Trimmed(s: string) {
    s == [] || (!IsSpace(s[0]) && !IsSpace(s[|s| - 1]))
  }

  /** Where `s.lstrip()` starts when scanning from `i`: the first index at
      or after `i` that is not whitespace, or the end of the text. */
  function SkipSpace(s: string, i: nat): (j: nat)
    requires i <= |s|
    ensures i <= j <= |s| && SpaceIn(s, i, j)
    ensures j == |s| || !IsSpace(s[j])
    decreases |s| - i
  {
    if i < |s| && IsSpace(s[i]) then SkipSpace(s, i + 1) else i
  }

  /** Where `s.rstrip()` ends when scanning back from `j` no further than
      `lo`: just after the last character before `j` that is not
      whitespace, or `lo`. */
  function SkipSpaceBack(s: string, lo: nat, j: nat): (e: nat)
    requires lo <= j <= |s|
    ensures lo <= e <= j && SpaceIn(s, e, j)
    ensures e == lo || !IsSpace(s[e - 1])
  {
    if lo < j && IsSpace(s[j - 1]) then SkipSpaceBack(s, lo, j - 1) else j
  }

  /** `s.strip()`: the infix `s[i..j]` with only whitespace outside it and
      none at its ends. */
  function Strip(s: string): (r: string)
    ensures Trimmed(r)
    ensures exists i, j :: 0 <= i <= j <= |s| && r == s[i..j] && SpaceIn(s, 0, i) && SpaceIn(s, j, |s|)
  {
    var i := SkipSpace(s, 0);
    var j := SkipSpaceBack(s, i, |s|);
    s[i..j]
  }

  /** Everything `Strip` keeps comes from the text it was given. */
  lemma StripKeepsOnlyInput(s: string, c: char)
    requires c in Strip(s)
    ensures c in s
  {
    var i := SkipSpace(s, 0);
    var j := SkipSpaceBack(s, i, |s|);
    var k :| 0 <= k < j - i && s[i..j][k] == c;
    assert s[i + k] == c;
  }

  /** Text that is already trimmed is left as it is. */
  lemma StripTrimmed(s: string)
    requires Trimmed(s)
    ensures Strip(s) == s
  {
    assert SkipSpace(s, 0) == 0;
    assert SkipSpaceBack(s, 0, |s|) == |s|;
    assert s[0..|s|] == s;
  }

  /** Stripping twice is stripping once. */
  lemma StripIdempotent(s: string)
    ensures Strip(Strip(s)) == Strip(s)
  {
    StripTrimmed(Strip(s));
  }

  /** `SkipSpace` stops at the only place it can: any `j` past whitespace
      only and at a non-whitespace character or the end is where it stops. */
  lemma {:induction false} SkipSpaceAt(s: string, i: nat, j: nat)
    requires i <= j <= |s| && SpaceIn(s, i, j)
    requires j == |s| || !IsSpace(s[j])
    ensures SkipSpace(s, i) == j
    decreases |s| - i
  {
    if i < j {
      SkipSpaceAt(s, i + 1, j);
    }
  }

  /** `SkipSpaceBack` stops at the only place it can. */
  lemma {:induction false} SkipSpaceBackAt(s: string, lo: nat, j: nat, e: nat)
    requires lo <= e <= j <= |s| && SpaceIn(s, e, j)
    requires e == lo || !IsSpace(s[e - 1])
    ensures SkipSpaceBack(s, lo, j) == e
    decreases j
  {
    if e < j {
      SkipSpaceBackAt(s, lo, j - 1, e);
    }
  }

  /** `strip()` is determined: an infix with non-whitespace ends and only
      whitespace around it is the stripped text. */
  lemma StripAt(s: string, i: nat, j: nat)
    requires i < j <= |s| && SpaceIn(s, 0, i) && SpaceIn(s, j, |s|)
    requires !IsSpace(s[i]) && !IsSpace(s[j - 1])
    ensures Strip(s) == s[i..j]
  {
    SkipSpaceAt(s, 0, i);
    SkipSpaceBackAt(s, i, |s|, j);
  }

  /** Text made of whitespace only strips to the empty text. */
  lemma StripAllSpace(s: string)
    requires SpaceIn(s, 0, |s|)
    ensures Strip(s) == []
  {
    SkipSpaceAt(s, 0, |s|);
  }

  /** `s.split(c)[0]`: the text before the first `c`, or all of it when
      there is no `c`. */
  function BeforeFirst(s: string, c: char): (r: string)
    ensures c !in r
    ensures |r| <= |s| && r == s[..|r|]
    ensures |r| < |s| ==> s[|r|] == c
  {
    if s == [] then []
    else if s[0] == c then []
    else [s[0]] + BeforeFirst(s[1..], c)
  }

  /** The text before the first `c` of `p + [c] + rest` is `p` when `p`
      holds no `c`. */
  lemma {:induction false} BeforeFirstAt(p: string, c: char, rest: string)
    requires c !in p
    ensures BeforeFirst(p + [c] + rest, c) == p
  {
    if p != [] {
      assert (p + [c] + rest)[1..] == p[1..] + [c] + rest;
      BeforeFirstAt(p[1..], c, rest);
    }
  }

  /** `os.path.join(dir, name)` on POSIX: an absolute name replaces the
      directory; otherwise a `/` is put between them unless the directory
      is empty or already ends in one. */
  function JoinPath(dir: string, name: string): (path: string)
    ensures |name| <= |path| && path[|path| - |name|..] == name
    ensures (name == [] || name[0] != '/') ==> |dir| <= |path| && path[..|dir|] == dir
    ensures |path| <= |dir| + 1 + |name|
    ensures name != [] && name[0] == '/' ==> path == name
    ensures (name == [] || name[0] != '/') && (dir == [] || dir[|dir| - 1] == '/') ==> path == dir + name
    ensures (name == [] || name[0] != '/') && dir != [] && dir[|dir| - 1] != '/' ==> path == dir + "/" + name
  {
    if name != [] && name[0] == '/' then name
    else if dir == [] || dir[|dir| - 1] == '/' then dir + name
    else dir + "/" + name
  }

  /** With the directory fixed, two relative names of the same length give
      the same path only when they are the same name. */
  lemma JoinPathInjective(dir: string, n1: string, n2: string)
    requires |n1| == |n2|
    requires n1 == [] || n1[0] != '/'
    requires n2 == [] || n2[0] != '/'
    requires JoinPath(dir, n1) == JoinPath(dir, n2)
    ensures n1 == n2
  {
  }
}
