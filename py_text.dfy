/** The string and path helpers `generate-toc.py` relies on, with the meaning
    Python gives them: `os.path.basename`, `os.path.dirname` (POSIX),
    `str.rsplit(".", 1)[0]` and `str.strip`. */
module PyText {

  /** The position just after the last `c` in `s`, or 0 when `s` has none. */
  function AfterLast(s: string, c: char): (i: nat)
    ensures i <= |s|
    ensures i > 0 ==> s[i - 1] == c
    ensures forall j | i <= j < |s| :: s[j] != c
  {
    if s == [] then 0
    else if s[|s| - 1] == c then |s|
    else AfterLast(s[..|s| - 1], c)
  }

  /** AfterLast is determined by its two defining facts. */
  lemma AfterLastIs(s: string, c: char, i: nat)
    requires 0 < i <= |s| && s[i - 1] == c
    requires forall j | i <= j < |s| :: s[j] != c
    ensures AfterLast(s, c) == i
  {
    var k := AfterLast(s, c);
    if k != i {
      assert false;
    }
  }

  /** `os.path.basename`: everything after the last slash. */
  function Basename(p: string): (r: string)
    ensures r == p[AfterLast(p, '/')..] && '/' !in r
  {
    p[AfterLast(p, '/')..]
  }

  predicate AllSlashes(s: string) {
    forall j | 0 <= j < |s| :: s[j] == '/'
  }

  /** `s.rstrip("/")` */
  function RStripSlashes(s: string): (r: string)
    ensures r <= s && (r == [] || r[|r| - 1] != '/')
    ensures AllSlashes(s[|r|..])
  {
    if s != [] && s[|s| - 1] == '/' then
      var r := RStripSlashes(s[..|s| - 1]);
      assert s[|r|..] == s[..|s| - 1][|r|..] + ['/'];
      r
    else s
  }

  /** `os.path.dirname`: everything up to the last slash, without trailing
      slashes unless the head consists of slashes only. */
  function Dirname(p: string): (r: string)
    ensures r <= p
  {
    var head := p[..AfterLast(p, '/')];
    if head != [] && !AllSlashes(head) then RStripSlashes(head) else head
  }

  /** Joining a directory and a file name with a slash, then splitting the path
      again, gives back the two parts. */
  lemma SplitJoined(dir: string, name: string)
    requires dir != [] && dir[|dir| - 1] != '/' && '/' !in name
    ensures Dirname(dir + "/" + name) == dir
    ensures Basename(dir + "/" + name) == name
  {
    var p := dir + "/" + name;
    forall j | |dir| + 1 <= j < |p| ensures p[j] != '/' {
      assert p[j] == name[j - |dir| - 1];
    }
    AfterLastIs(p, '/', |dir| + 1);
    assert p[..|dir| + 1] == dir + "/";
    assert p[|dir| + 1..] == name;
    assert (dir + "/")[..|dir|] == dir;
    assert RStripSlashes(dir + "/") == RStripSlashes(dir) == dir;
    assert !AllSlashes(dir + "/") by { assert (dir + "/")[|dir| - 1] != '/'; }
  }

  /** `s.rsplit(".", 1)[0]`: the name without its last extension. */
  function StripExtension(s: string): (r: string)
    ensures r <= s
  {
    var k := AfterLast(s, '.');
    if k == 0 then s else s[..k - 1]
  }

  /** Removing the extension from `stem.ext` gives back the stem. */
  lemma StripExtensionOf(stem: string, ext: string)
    requires '.' !in ext
    ensures StripExtension(stem + "." + ext) == stem
    ensures '.' !in stem ==> StripExtension(stem) == stem
  {
    var s := stem + "." + ext;
    forall j | |stem| + 1 <= j < |s| ensures s[j] != '.' {
      assert s[j] == ext[j - |stem| - 1];
    }
    AfterLastIs(s, '.', |stem| + 1);
    assert s[..|stem|] == stem;
  }

  /** The characters `str.strip()` removes when called without arguments. */
  const PyWhitespace: set<char> := {
    ' ', '\t', '\n', '\r', '\U{b}', '\U{c}', '\U{1c}', '\U{1d}', '\U{1e}', '\U{1f}',
    '\U{85}', '\U{a0}', '\U{1680}', '\U{2000}', '\U{2001}', '\U{2002}', '\U{2003}',
    '\U{2004}', '\U{2005}', '\U{2006}', '\U{2007}', '\U{2008}', '\U{2009}', '\U{200a}',
    '\U{2028}', '\U{2029}', '\U{202f}', '\U{205f}', '\U{3000}' }

  /** Every character of `s` in positions `lo` up to `hi` belongs to `cs`. */
  predicate AllIn(s: string, lo: int, hi: int, cs: set<char>)
    requires 0 <= lo <= hi <= |s|
  {
    forall j | lo <= j < hi :: s[j] in cs
  }

  /** How many characters at the start of `s` belong to `cs`. */
  function LeadingIn(s: string, cs: set<char>): (i: nat)
    ensures i <= |s| && AllIn(s, 0, i, cs) && (i < |s| ==> s[i] !in cs)
  {
    if s != [] && s[0] in cs then
      var i := 1 + LeadingIn(s[1..], cs);
      assert AllIn(s, 0, i, cs) by {
        forall j | 0 <= j < i ensures s[j] in cs {
          if j > 0 { assert s[j] == s[1..][j - 1]; }
        }
      }
      i
    else 0
  }

  /** Where the run of characters from `cs` at the end of `s` starts. */
  function TrailingFrom(s: string, cs: set<char>): (k: nat)
    ensures k <= |s| && AllIn(s, k, |s|, cs) && (k > 0 ==> s[k - 1] !in cs)
  {
    if s != [] && s[|s| - 1] in cs then
      var k := TrailingFrom(s[..|s| - 1], cs);
      assert AllIn(s, k, |s|, cs) by {
        forall j | k <= j < |s| ensures s[j] in cs {
          if j < |s| - 1 { assert s[j] == s[..|s| - 1][j]; }
        }
      }
      k
    else |s|
  }

  /** `s.strip(chars)`: the longest middle part of `s` whose first and last
      characters are not in `cs`; everything cut off is in `cs`. */
  function Strip(s: string, cs: set<char>): (r: string)
    ensures exists i, k | 0 <= i <= k <= |s| :: r == s[i..k] && AllIn(s, 0, i, cs) && AllIn(s, k, |s|, cs)
    ensures r == [] || (r[0] !in cs && r[|r| - 1] !in cs)
  {
    var i := LeadingIn(s, cs);
    var t := s[i..];
    var k := TrailingFrom(t, cs);
    assert AllIn(s, i + k, |s|, cs) by {
      forall j | i + k <= j < |s| ensures s[j] in cs {
        assert s[j] == t[j - i];
      }
    }
    assert t[..k] == s[i..i + k];
    t[..k]
  }

  /** The title `extract_title` reads from a file's first line:
      `line.strip("#").strip()`. */
  function ExtractTitle(line: string): (r: string)
    ensures r == [] || (r[0] !in PyWhitespace && r[|r| - 1] !in PyWhitespace)
    ensures forall c | c in r :: c in line
  {
    var unhashed := Strip(line, {'#'});
    var r := Strip(unhashed, PyWhitespace);
    StripKeepsChars(line, {'#'});
    StripKeepsChars(unhashed, PyWhitespace);
    r
  }

  /** Stripping keeps only characters of the input. */
  lemma StripKeepsChars(s: string, cs: set<char>)
    ensures forall c | c in Strip(s, cs) :: c in s
  {
    var r := Strip(s, cs);
    var i, k :| 0 <= i <= k <= |s| && r == s[i..k] && AllIn(s, 0, i, cs) && AllIn(s, k, |s|, cs);
    forall c | c in r ensures c in s {
      var j :| 0 <= j < |r| && r[j] == c;
      assert s[i + j] == c;
    }
  }
}
