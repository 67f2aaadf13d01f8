/**
 * The parts of a file path the deck code looks at, following pathlib's
 * rules: the final component of a path, its suffix (the part from the
 * last dot, unless that dot starts the name or ends it) and its stem; and
 * ASCII lower-casing.
 */
module FilePaths {
  /** The last index of `c` in `s`, or -1 (str.rfind). */
  function RFind(s: string, c: char): (r: int)
    ensures -1 <= r < |s|
    ensures r >= 0 ==> s[r] == c
    ensures forall j :: r < j < |s| ==> s[j] != c
  {
    if s == [] then -1
    else if s[|s| - 1] == c then |s| - 1
    else RFind(s[..|s| - 1], c)
  }

  /** Path(p).name: what follows the last '/'. */
  function Name(p: string): (r: string)
    ensures '/' !in r
  {
    var i := RFind(p, '/');
    NoCharAfter(p, i, '/');
    p[i + 1..]
  }

  lemma NoCharAfter(p: string, i: int, c: char)
    requires -1 <= i < |p| && forall j :: i < j < |p| ==> p[j] != c
    ensures c !in p[i + 1..]
  {
  }

  /** PurePath.suffix of a name: from the last dot, when that dot is neither first nor last. */
  function Suffix(name: string): (r: string)
    ensures r == [] || (r[0] == '.' && |r| >= 2 && '.' !in r[1..])
  {
    var i := RFind(name, '.');
    if 0 < i < |name| - 1 then
      NoCharAfter(name, i, '.');
      assert name[i..][1..] == name[i + 1..];
      name[i..]
    else []
  }

  /** PurePath.stem of a name: the name without its suffix. */
  function Stem(name: string): (r: string)
    ensures r + Suffix(name) == name
  {
    var i := RFind(name, '.');
    if 0 < i < |name| - 1 then name[..i] else name
  }

  function LowerChar(c: char): char {
    if 'A' <= c <= 'Z' then (c as int + 32) as char else c
  }

  /** str.lower restricted to ASCII letters. */
  function Lower(s: string): (r: string)
    ensures |r| == |s| && forall i :: 0 <= i < |s| ==> r[i] == LowerChar(s[i])
  {
    seq(|s|, i requires 0 <= i < |s| => LowerChar(s[i]))
  }

  /** Lower-casing keeps dots, slashes and digits where they are. */
  lemma LowerKeeps(c: char)
    ensures LowerChar(c) == '.' <==> c == '.'
    ensures LowerChar(c) == '/' <==> c == '/'
    ensures '0' <= c <= '9' ==> LowerChar(c) == c
  {
  }

  lemma LowerSlice(s: string, i: nat, j: nat)
    requires i <= j <= |s|
    ensures Lower(s[i..j]) == Lower(s)[i..j]
  {
  }

  /** A file written as `base + ext`, with no dot in the base, splits back into the two. */
  lemma SplitWritten(base: string, ext: string)
    requires base != [] && '.' !in base
    requires |ext| >= 2 && ext[0] == '.' && '.' !in ext[1..]
    ensures Suffix(base + ext) == ext && Stem(base + ext) == base
  {
    var s := base + ext;
    var i := RFind(s, '.');
    assert s[|base|] == '.';
    if i < |base| {
      assert false;
    }
    assert s[i..] == ext;
    assert s[..i] == base;
  }

  /** A name that is exactly its suffix text, like ".jpg", has no suffix at all. */
  lemma DotOnly(e: string)
    requires |e| >= 2 && e[0] == '.' && '.' !in e[1..]
    ensures Suffix(e) == []
  {
  }

  /** A name with no '/' is its own final component. */
  lemma NameOfPlain(p: string)
    requires '/' !in p
    ensures Name(p) == p
  {
  }

  /**
   * A path whose lower-cased text ends with an extension such as ".jpg"
   * has, lower-cased, exactly that suffix, or none at all when its final
   * component is nothing but the extension.
   */
  lemma SuffixOfEnding(p: string, e: string)
    requires |e| >= 2 && e[0] == '.' && '.' !in e[1..] && '/' !in e
    requires |e| <= |p| && Lower(p)[|p| - |e|..] == e
    ensures Lower(Suffix(Name(p))) == e || Suffix(Name(p)) == []
  {
    NameEnding(p, e);
    SuffixOfName(Name(p), e);
  }

  /** The final component keeps an ending that holds no '/'. */
  lemma NameEnding(p: string, e: string)
    requires '/' !in e
    requires |e| <= |p| && Lower(p)[|p| - |e|..] == e
    ensures |e| <= |Name(p)| && Lower(Name(p))[|Name(p)| - |e|..] == e
  {
    var j := RFind(p, '/');
    TailNoSlash(p, e);
    var c := p[j + 1..];
    assert Name(p) == c;
    var lc := Lower(c);
    var lp := Lower(p);
    LowerSlice(p, j + 1, |p|);
    assert lc == lp[j + 1..];
    assert lc[|c| - |e|..] == lp[|p| - |e|..];
  }

  /** The last '/' of a path comes before an ending that holds none. */
  lemma TailNoSlash(p: string, e: string)
    requires '/' !in e
    requires |e| <= |p| && Lower(p)[|p| - |e|..] == e
    ensures RFind(p, '/') < |p| - |e|
  {
  }

  lemma SuffixOfName(c: string, e: string)
    requires |e| >= 2 && e[0] == '.' && '.' !in e[1..]
    requires |e| <= |c| && Lower(c)[|c| - |e|..] == e
    ensures Lower(Suffix(c)) == e || Suffix(c) == []
  {
    var m := |c| - |e|;
    assert c[m] == '.' by {
      assert Lower(c)[m] == '.';
      LowerKeeps(c[m]);
    }
    forall k | m < k < |c| ensures c[k] != '.' {
      assert Lower(c)[k] == e[k - m] == e[1..][k - m - 1];
      LowerKeeps(c[k]);
    }
    assert RFind(c, '.') == m;
    if 0 < m {
      assert Suffix(c) == c[m..];
      LowerSlice(c, m, |c|);
    }
  }
}
