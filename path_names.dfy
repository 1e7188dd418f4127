/**
 * The few rules of Python's `pathlib` and `os.path` that both programs rely on,
 * written over plain strings for POSIX paths.
 *
 * A path's final component (`name`) is what follows its last '/'.  `suffix` and
 * `stem` follow pathlib's rule: the suffix starts at the LAST '.' of the name,
 * provided that dot is neither the first character of the name (".bashrc" has
 * no suffix) nor its last one ("song." has no suffix).
 */
module PathNames {
  import opened Wrappers

  /** Index of the last occurrence of `c` in `s`, or -1 (Python's `str.rfind`). */
  function RFind(s: string, c: char): (i: int)
    ensures -1 <= i < |s|
    ensures i >= 0 ==> s[i] == c
    ensures forall j :: i < j < |s| ==> s[j] != c
  {
    if s == [] then -1
    else if s[|s| - 1] == c then |s| - 1
    else RFind(s[..|s| - 1], c)
  }

  /**
   * The final component of `p` (`PurePath.name`): the longest tail of `p`
   * without '/', so it is either all of `p` or preceded by a '/'.
   */
  function Name(p: string): (n: string)
    ensures '/' !in n
  {
    p[RFind(p, '/') + 1..]
  }

  /** The name is the tail of `p` after its last '/', or all of `p` when it has none. */
  lemma NameIsFinalComponent(p: string)
    ensures var n := Name(p); |n| <= |p| && n == p[|p| - |n|..]
    ensures var n := Name(p); |n| < |p| ==> p[|p| - |n| - 1] == '/'
  {
  }

  /** Everything of `p` up to and including its last '/' (the parent, as text). */
  function Dir(p: string): (d: string)
    ensures d == "" || d[|d| - 1] == '/'
  {
    p[..RFind(p, '/') + 1]
  }

  /** Whether the last dot of `name` starts a suffix (pathlib's `0 < i < len(name) - 1`). */
  predicate HasSuffix(name: string) {
    var i := RFind(name, '.');
    0 < i < |name| - 1
  }

  /** `PurePath.suffix` of a final component. */
  function SuffixOfName(name: string): (suf: string) {
    if HasSuffix(name) then name[RFind(name, '.')..] else ""
  }

  /** `PurePath.stem` of a final component. */
  function StemOfName(name: string): (stem: string) {
    if HasSuffix(name) then name[..RFind(name, '.')] else name
  }

  /** `Path(p).suffix`: empty, or a dot and at least one character, none a dot or '/'. */
  function Suffix(p: string): (suf: string)
    ensures suf == "" || IsSuffixShaped(suf)
  {
    SuffixSplitsName(Name(p));
    SuffixOfName(Name(p))
  }

  /** `Path(p).stem`: the name without '/' that, followed by the suffix, gives back the final component. */
  function Stem(p: string): (stem: string)
    ensures '/' !in stem
    ensures stem + Suffix(p) == Name(p)
  {
    SuffixSplitsName(Name(p));
    StemOfName(Name(p))
  }

  /** The shape every non-empty suffix has: a dot, then at least one character, none a dot or '/'. */
  predicate IsSuffixShaped(suf: string) {
    |suf| >= 2 && suf[0] == '.' && forall j :: 1 <= j < |suf| ==> suf[j] != '.' && suf[j] != '/'
  }

  /** A suffix is either empty or suffix-shaped, and a name is its stem followed by its suffix. */
  lemma SuffixSplitsName(name: string)
    requires '/' !in name
    ensures SuffixOfName(name) == "" || IsSuffixShaped(SuffixOfName(name))
    ensures StemOfName(name) + SuffixOfName(name) == name
    ensures '/' !in StemOfName(name)
  {
    if HasSuffix(name) {
      var i := RFind(name, '.');
      assert name[..i] + name[i..] == name;
      var suf := name[i..];
      forall j | 1 <= j < |suf| ensures suf[j] != '.' && suf[j] != '/' {
        assert suf[j] == name[i + j];
      }
    }
  }

  /** `rfind` on a concatenation whose right part contains the character looks only at that part. */
  lemma RFindAppend(s: string, t: string, c: char)
    requires RFind(t, c) >= 0
    ensures RFind(s + t, c) == |s| + RFind(t, c)
  {
    var k := RFind(t, c);
    var r := RFind(s + t, c);
    assert (s + t)[|s| + k] == t[k];
  }

  /**
   * Re-attaching a suffix: if `suf` is suffix-shaped and `stem` is non-empty,
   * then the name `stem + suf` has exactly that stem and that suffix.
   */
  lemma StemSuffixRoundTrip(stem: string, suf: string)
    requires |stem| > 0
    requires IsSuffixShaped(suf)
    ensures SuffixOfName(stem + suf) == suf
    ensures StemOfName(stem + suf) == stem
  {
    var name := stem + suf;
    assert RFind(suf, '.') == 0;
    RFindAppend(stem, suf, '.');
    assert RFind(name, '.') == |stem|;
    assert name[|stem|..] == suf;
    assert name[..|stem|] == stem;
  }

  /** Concatenation has no '/' when neither part has one. */
  lemma NoSlashConcat(s: string, t: string)
    ensures '/' !in s && '/' !in t ==> '/' !in s + t
  {
  }

  /** ASCII lower-casing of one character. */
  function LowerChar(c: char): (d: char)
    ensures d == '.' <==> c == '.'
    ensures d == '/' <==> c == '/'
    ensures 'A' <= c <= 'Z' ==> d as int == c as int + 32
    ensures !('A' <= c <= 'Z') ==> d == c
  {
    if 'A' <= c <= 'Z' then (c as int + 32) as char else c
  }

  /** `str.lower()` restricted to ASCII letters: it maps character by character. */
  function Lower(s: string): (r: string)
    ensures |r| == |s|
    ensures forall j :: 0 <= j < |s| ==> r[j] == LowerChar(s[j])
    ensures forall j :: 0 <= j < |r| ==> !('A' <= r[j] <= 'Z')
  {
    seq(|s|, j requires 0 <= j < |s| => LowerChar(s[j]))
  }

  /**
   * `PurePath.with_name(n)`: replaces the final component; pathlib raises
   * ValueError (here None) when the path has an empty name or `n` is not a
   * valid name.
   */
  function WithName(p: string, n: string): (r: Option<string>)
    ensures r.Some? <==> Name(p) != "" && n != "" && n != "." && '/' !in n
    ensures r.Some? ==> r.value == Dir(p) + n && Name(r.value) == n && Dir(r.value) == Dir(p)
  {
    if Name(p) == "" || n == "" || n == "." || '/' in n then None
    else
      NameOfDirPlus(Dir(p), n);
      Some(Dir(p) + n)
  }

  /** The final component of a directory prefix followed by a name is that name. */
  lemma NameOfDirPlus(d: string, n: string)
    requires '/' !in n
    requires d == "" || d[|d| - 1] == '/'
    ensures Name(d + n) == n && Dir(d + n) == d
  {
    var q := d + n;
    var r := RFind(q, '/');
    forall j | |d| <= j < |q| ensures q[j] != '/' {
      assert q[j] == n[j - |d|];
    }
    if d != "" {
      assert q[|d| - 1] == '/';
    }
    assert r == |d| - 1;
    assert q[r + 1..] == n;
    assert q[..r + 1] == d;
  }

  /**
   * `PurePath.with_stem(s)` as of Python 3.12: `with_name(s + suffix)`.  For a
   * usable stem it fails only on a path with an empty name; the new path keeps
   * the directory, and pathlib reads back the new stem and the old suffix.
   */
  function WithStem(p: string, s: string): (r: Option<string>)
    ensures s != "" && s != "." && '/' !in s ==> (r.Some? <==> Name(p) != "")
    ensures r.Some? ==> Dir(r.value) == Dir(p) && Name(r.value) == s + Suffix(p)
    ensures r.Some? && s != "" && Suffix(p) != "" ==> Stem(r.value) == s && Suffix(r.value) == Suffix(p)
  {
    var name := s + Suffix(p);
    if s != "" && Suffix(p) != "" then
      StemSuffixRoundTrip(s, Suffix(p));
      WithName(p, name)
    else
      WithName(p, name)
  }

  /**
   * `os.path.join(dir, f)` for two components: an absolute `f` replaces `dir`,
   * otherwise a '/' is inserted unless `dir` is empty or already ends with one.
   */
  function Join(dir: string, f: string): (r: string)
    ensures |f| <= |r| && r[|r| - |f|..] == f
    ensures !(|f| > 0 && f[0] == '/') ==> |dir| <= |r| && r[..|dir|] == dir
  {
    if |f| > 0 && f[0] == '/' then f
    else if dir == "" || dir[|dir| - 1] == '/' then dir + f
    else dir + "/" + f
  }

  /** Joining a directory and a plain file name yields a path whose final component is that name. */
  lemma JoinName(dir: string, f: string)
    requires '/' !in f
    ensures Name(Join(dir, f)) == f
  {
    if dir == "" || dir[|dir| - 1] == '/' {
      NameOfDirPlus(dir, f);
    } else {
      assert (dir + "/")[|dir|] == '/';
      assert dir + "/" + f == (dir + "/") + f;
      NameOfDirPlus(dir + "/", f);
    }
  }
}
