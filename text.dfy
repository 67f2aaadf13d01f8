/**
 * String helpers with Python's semantics: the whitespace class used by
 * str.strip()/str.split(), str.find, str.split() with no separator,
 * str.join, decimal formatting and parsing of non-negative integers.
 */
module Text {

  /** Python's str.isspace(): every character str.strip() and str.split() remove. */
  predicate IsSpace(c: char) {
    ('\t' <= c <= '\r') || ('\U{1C}' <= c <= '\U{1F}') || c == ' ' || c == '\U{85}'
    || c == '\U{A0}' || c == '\U{1680}' || ('\U{2000}' <= c <= '\U{200A}')
    || c == '\U{2028}' || c == '\U{2029}' || c == '\U{202F}' || c == '\U{205F}'
    || c == '\U{3000}'
  }

  predicate NoSpace(s: string) {
    forall i :: 0 <= i < |s| ==> !IsSpace(s[i])
  }

  /** A string that str.strip() leaves unchanged. */
  predicate IsStripped(s: string) {
    s == [] || (!IsSpace(s[0]) && !IsSpace(s[|s| - 1]))
  }

  /** str.lstrip() */
  function LStrip(s: string): (r: string)
    ensures |r| <= |s|
    ensures r == [] || !IsSpace(r[0])
  {
    if s != [] && IsSpace(s[0]) then LStrip(s[1..]) else s
  }

  /** str.lstrip() only removes a prefix. */
  lemma {:induction false} LStripIsSuffix(s: string)
    ensures LStrip(s) == s[|s| - |LStrip(s)|..]
  {
    if s != [] && IsSpace(s[0]) {
      LStripIsSuffix(s[1..]);
    }
  }

  /** Everything str.lstrip() removes is whitespace. */
  lemma {:induction false} LStripRemovesSpaces(s: string)
    ensures forall i :: 0 <= i < |s| - |LStrip(s)| ==> IsSpace(s[i])
  {
    if s != [] && IsSpace(s[0]) {
      LStripRemovesSpaces(s[1..]);
      assert forall i :: 1 <= i < |s| - |LStrip(s)| ==> s[i] == s[1..][i - 1];
    }
  }

  /** str.rstrip() */
  function RStrip(s: string): (r: string)
    ensures |r| <= |s|
    ensures r == [] || !IsSpace(r[|r| - 1])
  {
    if s != [] && IsSpace(s[|s| - 1]) then RStrip(s[..|s| - 1]) else s
  }

  /** str.rstrip() only removes a suffix. */
  lemma {:induction false} RStripIsPrefix(s: string)
    ensures RStrip(s) == s[..|RStrip(s)|]
  {
    if s != [] && IsSpace(s[|s| - 1]) {
      RStripIsPrefix(s[..|s| - 1]);
    }
  }

  /** Everything str.rstrip() removes is whitespace. */
  lemma {:induction false} RStripRemovesSpaces(s: string)
    ensures forall i :: |RStrip(s)| <= i < |s| ==> IsSpace(s[i])
  {
    if s != [] && IsSpace(s[|s| - 1]) {
      RStripRemovesSpaces(s[..|s| - 1]);
    }
  }

  /** str.strip() */
  function Strip(s: string): (r: string)
    ensures IsStripped(r)
    ensures |r| <= |s|
  {
    RStripIsPrefix(LStrip(s));
    RStrip(LStrip(s))
  }

  /** The characters of s that are not whitespace, in order. */
  function NonWs(s: string): string {
    if s == [] then [] else (if IsSpace(s[0]) then [] else [s[0]]) + NonWs(s[1..])
  }

  lemma {:induction false} NonWsConcat(a: string, b: string)
    ensures NonWs(a + b) == NonWs(a) + NonWs(b)
    decreases |a|
  {
    if a != [] {
      assert (a + b)[1..] == a[1..] + b;
      NonWsConcat(a[1..], b);
    } else {
      assert a + b == b;
    }
  }

  lemma {:induction false} NonWsOfSpaces(s: string)
    requires forall i :: 0 <= i < |s| ==> IsSpace(s[i])
    ensures NonWs(s) == []
    decreases |s|
  {
    if s != [] {
      NonWsOfSpaces(s[1..]);
    }
  }

  lemma {:induction false} NonWsOfNoSpace(s: string)
    requires NoSpace(s)
    ensures NonWs(s) == s
    decreases |s|
  {
    if s != [] {
      NonWsOfNoSpace(s[1..]);
      assert [s[0]] + s[1..] == s;
    }
  }

  lemma SplitThree(s: string, a: nat, b: nat)
    requires a <= b <= |s|
    ensures s == s[..a] + s[a..b] + s[b..]
  {
  }

  lemma SliceAllSpaces(s: string, a: nat, b: nat)
    requires a <= b <= |s|
    requires forall i :: a <= i < b ==> IsSpace(s[i])
    ensures NonWs(s[a..b]) == []
  {
    var g := s[a..b];
    assert forall i :: 0 <= i < |g| ==> g[i] == s[a + i];
    NonWsOfSpaces(g);
  }

  lemma NonWsSkipMiddle(x: string, g: string, y: string)
    requires NonWs(g) == []
    ensures NonWs(x + g + y) == NonWs(x) + NonWs(y)
  {
    NonWsConcat(x + g, y);
    NonWsConcat(x, g);
  }

  /** Dropping a run of whitespace from a string does not change its content. */
  lemma NonWsDropSpaces(s: string, a: nat, b: nat)
    requires a <= b <= |s|
    requires forall i :: a <= i < b ==> IsSpace(s[i])
    ensures NonWs(s) == NonWs(s[..a]) + NonWs(s[b..])
  {
    SplitThree(s, a, b);
    SliceAllSpaces(s, a, b);
    NonWsSkipMiddle(s[..a], s[a..b], s[b..]);
  }

  lemma SplitTwo(s: string, k: nat)
    requires k <= |s|
    ensures s == s[..k] + s[k..]
  {
  }

  /** Splitting a string at any point leaves its non-whitespace content unchanged. */
  lemma NonWsSplitAt(s: string, k: nat)
    requires k <= |s|
    ensures NonWs(s) == NonWs(s[..k]) + NonWs(s[k..])
  {
    SplitTwo(s, k);
    NonWsConcat(s[..k], s[k..]);
  }

  lemma LStripKeepsNonWs(s: string)
    ensures NonWs(LStrip(s)) == NonWs(s)
  {
    LStripRemovesSpaces(s);
    NonWsDropSpaces(s, 0, |s| - |LStrip(s)|);
    EmptyPrefix(s);
  }

  lemma EmptyPrefix(s: string)
    ensures s[..0] == [] && NonWs(s[..0]) == []
  {
  }

  lemma EmptySuffix(s: string)
    ensures s[|s|..] == [] && NonWs(s[|s|..]) == []
  {
  }

  lemma RStripKeepsNonWs(s: string)
    ensures NonWs(RStrip(s)) == NonWs(s)
  {
    RStripRemovesSpaces(s);
    RStripIsPrefix(s);
    NonWsDropSpaces(s, |RStrip(s)|, |s|);
    EmptySuffix(s);
  }

  /** Stripping removes whitespace only. */
  lemma StripKeepsNonWs(s: string)
    ensures NonWs(LStrip(s)) == NonWs(s)
    ensures NonWs(RStrip(s)) == NonWs(s)
    ensures NonWs(Strip(s)) == NonWs(s)
  {
    LStripKeepsNonWs(s);
    RStripKeepsNonWs(s);
    RStripKeepsNonWs(LStrip(s));
  }

  lemma StripOfStripped(s: string)
    requires IsStripped(s)
    ensures Strip(s) == s
  {
  }

  /** A string that begins with non-whitespace is stripped to a non-empty prefix of itself. */
  lemma StripOfNonSpaceStart(s: string)
    requires s != [] && !IsSpace(s[0])
    ensures LStrip(s) == s
    ensures Strip(s) == RStrip(s) && Strip(s) != [] && Strip(s) == s[..|Strip(s)|]
  {
    RStripIsPrefix(s);
    RStripRemovesSpaces(s);
  }

  /** `s` occurs in `t` at index i. */
  predicate OccursAt(t: string, s: string, i: int) {
    0 <= i && i + |s| <= |t| && t[i..i + |s|] == s
  }

  /**
   * str.find(sub, start) for 0 <= start: the least index >= start where
   * `sub` occurs, or -1.
   */
  function Find(t: string, sub: string, start: nat): (r: int)
    ensures r == -1 || (start <= r && OccursAt(t, sub, r))
    ensures forall i :: start <= i && (r == -1 || i < r) ==> !OccursAt(t, sub, i)
    decreases |t| - start
  {
    if start + |sub| > |t| then -1
    else if t[start..start + |sub|] == sub then start
    else Find(t, sub, start + 1)
  }

  /** Index of the first whitespace character of t, or |t|. */
  function WordEnd(t: string): (n: nat)
    ensures n <= |t|
    ensures NoSpace(t[..n])
    ensures n < |t| ==> IsSpace(t[n])
  {
    if t == [] || IsSpace(t[0]) then 0
    else
      var m := WordEnd(t[1..]);
      assert t[..m + 1] == [t[0]] + t[1..][..m];
      m + 1
  }

  predicate IsWord(w: string) {
    w != [] && NoSpace(w)
  }

  /** str.split() with no separator: the maximal runs of non-whitespace characters. */
  function Split(s: string): (r: seq<string>)
    ensures forall k :: 0 <= k < |r| ==> IsWord(r[k])
    decreases |s|
  {
    var t := LStrip(s);
    if t == [] then []
    else
      var n := WordEnd(t);
      [t[..n]] + Split(t[n..])
  }

  /** sep.join(ws) */
  function Join(ws: seq<string>, sep: string): string {
    if ws == [] then []
    else if |ws| == 1 then ws[0]
    else ws[0] + sep + Join(ws[1..], sep)
  }

  lemma {:induction false} WordEndOfWord(w: string, rest: string)
    requires IsWord(w)
    requires rest == [] || IsSpace(rest[0])
    ensures WordEnd(w + rest) == |w|
    decreases |w|
  {
    var s := w + rest;
    if |w| == 1 {
      assert s[1..] == rest;
    } else {
      assert s[1..] == w[1..] + rest;
      WordEndOfWord(w[1..], rest);
    }
  }

  /** A word followed by whitespace (or nothing) splits off as the first word. */
  lemma SplitWordThen(w: string, rest: string)
    requires IsWord(w)
    requires rest == [] || IsSpace(rest[0])
    ensures Split(w + rest) == [w] + Split(rest)
  {
    var s := w + rest;
    assert LStrip(s) == s;
    WordEndOfWord(w, rest);
    assert s[..|w|] == w;
    assert s[|w|..] == rest;
  }

  lemma SplitLeadingSpace(s: string)
    ensures Split(" " + s) == Split(s)
  {
    assert (" " + s)[1..] == s;
    assert LStrip(" " + s) == LStrip(s);
  }

  /** Joining words with single spaces and splitting again gives the words back. */
  lemma {:induction false} SplitJoin(ws: seq<string>)
    requires forall k :: 0 <= k < |ws| ==> IsWord(ws[k])
    ensures Split(Join(ws, " ")) == ws
    decreases |ws|
  {
    if ws == [] {
    } else if |ws| == 1 {
      SplitWordThen(ws[0], []);
      assert ws[0] + [] == ws[0];
    } else {
      var j := Join(ws[1..], " ");
      assert Join(ws, " ") == ws[0] + (" " + j);
      SplitWordThen(ws[0], " " + j);
      SplitLeadingSpace(j);
      SplitJoin(ws[1..]);
      assert [ws[0]] + ws[1..] == ws;
    }
  }

  lemma {:induction false} JoinConcat(a: seq<string>, b: seq<string>, sep: string)
    requires a != [] && b != []
    ensures Join(a + b, sep) == Join(a, sep) + sep + Join(b, sep)
    decreases |a|
  {
    if |a| == 1 {
      assert (a + b)[1..] == b;
    } else {
      assert (a + b)[1..] == a[1..] + b;
      JoinConcat(a[1..], b, sep);
    }
  }

  lemma SplitUnfold(s: string)
    requires LStrip(s) != []
    ensures Split(s) == [LStrip(s)[..WordEnd(LStrip(s))]] + Split(LStrip(s)[WordEnd(LStrip(s))..])
  {
  }

  lemma JoinEmptyCons(w: string, ws: seq<string>)
    ensures Join([w] + ws, "") == w + Join(ws, "")
  {
    if ws == [] {
      assert [w] + ws == [w];
    } else {
      assert ([w] + ws)[1..] == ws;
    }
  }

  /** Splitting drops exactly the whitespace: the words hold every other character of s, in order. */
  lemma {:induction false} SplitKeepsNonWs(s: string)
    ensures NonWs(Join(Split(s), "")) == NonWs(s)
    decreases |s|
  {
    var t := LStrip(s);
    StripKeepsNonWs(s);
    if t != [] {
      var n := WordEnd(t);
      var w := t[..n];
      var ws := Split(t[n..]);
      SplitUnfold(s);
      SplitKeepsNonWs(t[n..]);
      NonWsSplitAt(t, n);
      JoinEmptyCons(w, ws);
      NonWsConcat(w, Join(ws, ""));
    }
  }

  predicate IsDigit(c: char) {
    '0' <= c <= '9'
  }

  function DigitValue(c: char): nat
    requires IsDigit(c)
  {
    (c as int) - ('0' as int)
  }

  function DigitChar(d: nat): (c: char)
    requires d < 10
    ensures IsDigit(c) && DigitValue(c) == d
  {
    (('0' as int) + d) as char
  }

  predicate AllDigits(s: string) {
    forall i :: 0 <= i < |s| ==> IsDigit(s[i])
  }

  /** int(s) for a string of decimal digits. */
  function DecimalValue(s: string): nat
    requires AllDigits(s)
  {
    if s == [] then 0 else 10 * DecimalValue(s[..|s| - 1]) + DigitValue(s[|s| - 1])
  }

  /** str(n) for n >= 0. */
  function NatToString(n: nat): (s: string)
    ensures s != [] && AllDigits(s)
  {
    if n < 10 then [DigitChar(n)] else NatToString(n / 10) + [DigitChar(n % 10)]
  }

  /** f"{n:02d}" for n >= 0. */
  function Pad2(n: nat): (s: string)
    ensures |s| >= 2 && AllDigits(s)
  {
    if n < 10 then "0" + NatToString(n) else NatToString(n)
  }

  lemma {:induction false} NatToStringValue(n: nat)
    ensures DecimalValue(NatToString(n)) == n
  {
    if n >= 10 {
      NatToStringValue(n / 10);
      var s := NatToString(n);
      assert s[..|s| - 1] == NatToString(n / 10);
    }
  }

  lemma DecimalLeadingZero(s: string)
    requires AllDigits(s)
    ensures AllDigits("0" + s) && DecimalValue("0" + s) == DecimalValue(s)
    decreases |s|
  {
    if s != [] {
      assert ("0" + s)[..|"0" + s| - 1] == "0" + s[..|s| - 1];
      DecimalLeadingZero(s[..|s| - 1]);
    }
  }

  /** Parsing a zero-padded index gives the index back. */
  lemma Pad2Value(n: nat)
    ensures DecimalValue(Pad2(n)) == n
  {
    NatToStringValue(n);
    if n < 10 {
      DecimalLeadingZero(NatToString(n));
    }
  }
}
