/**
 * Automatic replies to comments of the form "95년/2월/운세" (birth year,
 * birth month, fortune): the comment parser, and the bookkeeping of
 * comments already answered, kept in a table keyed by comment id.
 */
module CommentReplies {
  import opened Wrappers
  import Text

  // ---------------------------------------------------------------------
  // The comment pattern
  // ---------------------------------------------------------------------

  /** The number of decimal digits starting at position i. */
  function DigitRun(s: string, i: nat): (n: nat)
    requires i <= |s|
    ensures i + n <= |s|
    decreases |s| - i
  {
    if i < |s| && Text.IsDigit(s[i]) then 1 + DigitRun(s, i + 1) else 0
  }

  /** The run is all digits and stops at a non-digit or at the end. */
  lemma {:induction false} DigitRunSpec(s: string, i: nat)
    requires i <= |s|
    ensures var n := DigitRun(s, i);
      (forall k :: i <= k < i + n ==> Text.IsDigit(s[k])) && (i + n < |s| ==> !Text.IsDigit(s[i + n]))
    decreases |s| - i
  {
    if i < |s| && Text.IsDigit(s[i]) {
      DigitRunSpec(s, i + 1);
    }
  }

  /** The position after the whitespace starting at position i (the pattern's \s*). */
  function SkipSpaces(s: string, i: nat): (j: nat)
    requires i <= |s|
    ensures i <= j <= |s|
    decreases |s| - i
  {
    if i < |s| && Text.IsSpace(s[i]) then SkipSpaces(s, i + 1) else i
  }

  /** What is skipped is whitespace, and it stops at a non-space or at the end. */
  lemma {:induction false} SkipSpacesSpec(s: string, i: nat)
    requires i <= |s|
    ensures var j := SkipSpaces(s, i);
      (forall k :: i <= k < j ==> Text.IsSpace(s[k])) && (j < |s| ==> !Text.IsSpace(s[j]))
    decreases |s| - i
  {
    if i < |s| && Text.IsSpace(s[i]) {
      SkipSpacesSpec(s, i + 1);
    }
  }

  /** The digit run starting at i, as a string, is all digits. */
  lemma DigitRunDigits(s: string, i: nat)
    requires i <= |s|
    ensures i + DigitRun(s, i) <= |s| && Text.AllDigits(s[i..i + DigitRun(s, i)])
  {
    var n := DigitRun(s, i);
    DigitRunSpec(s, i);
    var w := s[i..i + n];
    forall k | 0 <= k < |w| ensures Text.IsDigit(w[k]) {
      assert w[k] == s[i + k];
    }
  }

  /** The two numbers of a match, as the digit strings the pattern captured. */
  datatype RawMatch = RawMatch(yearDigits: string, monthDigits: string)

  /** Optional whitespace, then the character c: the position after c, or None. */
  function Lit(s: string, i: nat, c: char): (r: Option<nat>)
    requires i <= |s|
    ensures r.Some? ==> i < r.value <= |s|
  {
    var a := SkipSpaces(s, i);
    if a < |s| && s[a] == c then Some(a + 1) else None
  }

  /** Optional whitespace, then between lo and hi digits: where they start and how many, or None. */
  function Digits(s: string, i: nat, lo: nat, hi: nat): (r: Option<(nat, nat)>)
    requires i <= |s|
    ensures r.Some? ==> var (c, n) := r.value; i <= c && c + n <= |s| && lo <= n <= hi
  {
    var c := SkipSpaces(s, i);
    var n := DigitRun(s, c);
    if lo <= n <= hi then Some((c, n)) else None
  }

  /** The month part: optional whitespace, 1 or 2 digits, 월 and '/'; where the digits start, how many, and the position after. */
  function MonthPart(s: string, b: nat): (r: Option<(nat, nat, nat)>)
    requires b <= |s|
    ensures r.Some? ==> var (c, ml, e) := r.value;
      b <= c && c + ml < e <= |s| && 1 <= ml <= 2 && Text.AllDigits(s[c..c + ml])
  {
    var d := Digits(s, b, 1, 2);
    if d.None? then None
    else
      var (c, ml) := d.value;
      var m := Lit(s, c + ml, '월');
      if m.None? then None
      else
        var e := Lit(s, m.value, '/');
        if e.None? then None
        else
          DigitRunDigits(s, c);
          Some((c, ml, e.value))
  }

  /** The closing word: optional whitespace, then 운세. */
  predicate Tail(s: string, e: nat)
    requires e <= |s|
  {
    var f := SkipSpaces(s, e);
    f + 2 <= |s| && s[f] == '운' && s[f + 1] == '세'
  }

  /**
   * The pattern (2 to 4 digits) 년 / (1 or 2 digits) 월 / 운세, with
   * optional whitespace around each token, matched at position i. Each
   * digit group is followed by a non-digit, so a longer run of digits
   * cannot match by taking fewer of them. The captured groups are digit
   * strings of the pattern's lengths.
   */
  function MatchAt(s: string, i: nat): (r: Option<RawMatch>)
    requires i <= |s|
    ensures r.Some? ==>
      Text.AllDigits(r.value.yearDigits) && 2 <= |r.value.yearDigits| <= 4 &&
      Text.AllDigits(r.value.monthDigits) && 1 <= |r.value.monthDigits| <= 2
  {
    var yl := DigitRun(s, i);
    if !(2 <= yl <= 4) then None
    else
      var a := Lit(s, i + yl, '년');
      if a.None? then None
      else
        DigitRunDigits(s, i);
        AfterYear(s, i, i + yl, a.value)
  }

  /**
   * The rest of the pattern once the year digits s[i..y] and 년 have
   * matched, from position a: / (1 or 2 digits) 월 / 운세.
   */
  function AfterYear(s: string, i: nat, y: nat, a: nat): (r: Option<RawMatch>)
    requires i <= y <= |s| && a <= |s|
    ensures r.Some? ==>
      r.value.yearDigits == s[i..y] && Text.AllDigits(r.value.monthDigits) && 1 <= |r.value.monthDigits| <= 2
  {
    var b := Lit(s, a, '/');
    if b.None? then None
    else
      var m := MonthPart(s, b.value);
      if m.None? then None
      else
        var (c, ml, e) := m.value;
        if !Tail(s, e) then None
        else Some(RawMatch(s[i..y], s[c..c + ml]))
  }

  /** re.search from position i: the leftmost position where the pattern matches, or -1. */
  function FirstMatch(s: string, i: nat): (r: int)
    requires i <= |s|
    ensures r == -1 || (i <= r <= |s| && MatchAt(s, r).Some?)
    ensures forall k :: i <= k <= |s| && (r == -1 || k < r) ==> MatchAt(s, k).None?
    decreases |s| - i
  {
    if MatchAt(s, i).Some? then i
    else if i == |s| then -1
    else FirstMatch(s, i + 1)
  }

  /** Two-digit years: above 30 in the 1900s, 30 or below in the 2000s; 100 and up unchanged. */
  function AdjustYear(y: nat): (r: nat)
    ensures y < 100 && y > 30 ==> r == 1900 + y
    ensures y <= 30 ==> r == 2000 + y
    ensures y >= 100 ==> r == y
  {
    if y < 100 then y + (if y > 30 then 1900 else 2000) else y
  }

  datatype Parsed = Parsed(year: nat, month: nat)

  /**
   * _parse_comment: None for an empty text, when the pattern does not
   * occur, or when the month of the leftmost match is not 1 to 12.
   */
  function ParseComment(text: string): (r: Option<Parsed>)
    ensures r.Some? ==> 1 <= r.value.month <= 12
    ensures r.Some? ==> text != [] && FirstMatch(text, 0) >= 0
  {
    if text == [] then None
    else
      var at := FirstMatch(text, 0);
      if at < 0 then None
      else
        var m := MatchAt(text, at).value;
        var month := Text.DecimalValue(m.monthDigits);
        if !(1 <= month <= 12) then None
        else Some(Parsed(AdjustYear(Text.DecimalValue(m.yearDigits)), month))
  }

  predicate NoDigit(s: string) {
    forall k :: 0 <= k < |s| ==> !Text.IsDigit(s[k])
  }

  lemma DigitRunOf(s: string, i: nat, d: string)
    requires i + |d| <= |s| && s[i..i + |d|] == d && Text.AllDigits(d)
    requires i + |d| < |s| && !Text.IsDigit(s[i + |d|])
    ensures DigitRun(s, i) == |d|
    decreases |d|
  {
    if d != [] {
      assert s[i + 1..i + |d|] == d[1..];
      DigitRunOf(s, i + 1, d[1..]);
    }
  }

  /** In a text without digits before position n, no match starts before n. */
  lemma NoEarlierMatch(s: string, n: nat)
    requires n <= |s| && NoDigit(s[..n])
    ensures forall k :: 0 <= k < n ==> MatchAt(s, k).None?
  {
    forall k | 0 <= k < n ensures MatchAt(s, k).None? {
      assert s[..n][k] == s[k];
    }
  }

  /** The characters s[i..j] are all whitespace. */
  predicate SpacesIn(s: string, i: nat, j: nat)
    requires i <= j <= |s|
  {
    forall k :: i <= k < j ==> Text.IsSpace(s[k])
  }

  /** The characters s[i..j] are all digits. */
  predicate DigitsIn(s: string, i: nat, j: nat)
    requires i <= j <= |s|
  {
    forall k :: i <= k < j ==> Text.IsDigit(s[k])
  }

  lemma {:induction false} SkipSpacesOver(s: string, i: nat, j: nat)
    requires i <= j < |s| && SpacesIn(s, i, j) && !Text.IsSpace(s[j])
    ensures SkipSpaces(s, i) == j
    decreases j - i
  {
    if i < j {
      SkipSpacesOver(s, i + 1, j);
    }
  }

  lemma LitOver(s: string, i: nat, j: nat, c: char)
    requires i <= j < |s| && SpacesIn(s, i, j) && s[j] == c && !Text.IsSpace(c)
    ensures Lit(s, i, c) == Some(j + 1)
  {
    SkipSpacesOver(s, i, j);
  }

  lemma {:induction false} DigitRunOver(s: string, i: nat, j: nat)
    requires i <= j < |s| && DigitsIn(s, i, j) && !Text.IsDigit(s[j])
    ensures DigitRun(s, i) == j - i
    decreases j - i
  {
    if i < j {
      DigitRunOver(s, i + 1, j);
    }
  }

  /**
   * Where the tokens of a match lie: the year digits at n..y, 년 at a, '/'
   * at b, the month digits at c..m, 월 at d, '/' at e and 운세 at f.
   */
  datatype Layout = Layout(n: nat, y: nat, a: nat, b: nat, c: nat, m: nat, d: nat, e: nat, f: nat)

  /** 2 to 4 digits at n..y, whitespace, then 년 at a. */
  predicate YearLaid(s: string, n: nat, y: nat, a: nat) {
    n <= y <= a < |s| && 2 <= y - n <= 4 && DigitsIn(s, n, y) && SpacesIn(s, y, a) && s[a] == '년'
  }

  /** Whitespace from i, then the character c at j. */
  predicate TokenLaid(s: string, i: nat, j: nat, c: char) {
    i <= j < |s| && SpacesIn(s, i, j) && s[j] == c
  }

  /** Whitespace from i, 1 or 2 digits at c..m, whitespace, then 월 at d. */
  predicate MonthLaid(s: string, i: nat, c: nat, m: nat, d: nat) {
    i <= c <= m <= d < |s| && 1 <= m - c <= 2 && SpacesIn(s, i, c) && DigitsIn(s, c, m)
    && SpacesIn(s, m, d) && s[d] == '월'
  }

  /** Whitespace from i, then 운세 at f. */
  predicate TailLaid(s: string, i: nat, f: nat) {
    i <= f && f + 2 <= |s| && SpacesIn(s, i, f) && s[f] == '운' && s[f + 1] == '세'
  }

  /** The pattern's tokens lie at l, with nothing but whitespace between them. */
  predicate LaidOut(s: string, l: Layout) {
    YearLaid(s, l.n, l.y, l.a) && TokenLaid(s, l.a + 1, l.b, '/') && MonthLaid(s, l.b + 1, l.c, l.m, l.d)
    && TokenLaid(s, l.d + 1, l.e, '/') && TailLaid(s, l.e + 1, l.f)
  }

  lemma YearMatches(s: string, n: nat, y: nat, a: nat)
    requires YearLaid(s, n, y, a)
    ensures n + DigitRun(s, n) == y && Lit(s, y, '년') == Some(a + 1)
  {
    DigitRunOver(s, n, y);
    LitOver(s, y, a, '년');
  }

  lemma TailMatches(s: string, i: nat, f: nat)
    requires TailLaid(s, i, f)
    ensures Tail(s, i)
  {
    SkipSpacesOver(s, i, f);
  }

  /** When the tokens lie at l, the pattern matches at l.n and captures the digits at l. */
  lemma MatchLaidOut(s: string, l: Layout)
    requires LaidOut(s, l)
    ensures MatchAt(s, l.n) == Some(RawMatch(s[l.n..l.y], s[l.c..l.m]))
  {
    StepsLaidOut(s, l);
    MatchFromParts(s, l.n, l.y, l.a + 1, l.b + 1, l.c, l.m, l.e + 1, l.f);
  }

  /** When the tokens lie at l, each step of the pattern succeeds where l says. */
  lemma StepsLaidOut(s: string, l: Layout)
    requires LaidOut(s, l)
    ensures l.n <= l.y <= |s| && l.n + DigitRun(s, l.n) == l.y && 2 <= DigitRun(s, l.n) <= 4
    ensures l.a + 1 <= |s| && l.b + 1 <= |s|
    ensures Lit(s, l.y, '년') == Some(l.a + 1) && Lit(s, l.a + 1, '/') == Some(l.b + 1)
    ensures l.c <= l.m && l.e + 1 <= |s| && MonthPart(s, l.b + 1) == Some((l.c, l.m - l.c, l.e + 1))
  {
    YearStepsLaid(s, l);
    MonthStepLaid(s, l);
  }

  lemma YearStepsLaid(s: string, l: Layout)
    requires YearLaid(s, l.n, l.y, l.a) && TokenLaid(s, l.a + 1, l.b, '/')
    ensures l.n <= l.y <= |s| && l.n + DigitRun(s, l.n) == l.y && 2 <= DigitRun(s, l.n) <= 4
    ensures l.a + 1 <= |s| && l.b + 1 <= |s|
    ensures Lit(s, l.y, '년') == Some(l.a + 1) && Lit(s, l.a + 1, '/') == Some(l.b + 1)
  {
    YearMatches(s, l.n, l.y, l.a);
    LitOver(s, l.a + 1, l.b, '/');
  }

  lemma MonthStepLaid(s: string, l: Layout)
    requires MonthLaid(s, l.b + 1, l.c, l.m, l.d) && TokenLaid(s, l.d + 1, l.e, '/')
    ensures l.c <= l.m && l.e + 1 <= |s| && MonthPart(s, l.b + 1) == Some((l.c, l.m - l.c, l.e + 1))
  {
    SkipSpacesOver(s, l.b + 1, l.c);
    DigitRunOver(s, l.c, l.m);
    assert Digits(s, l.b + 1, 1, 2) == Some((l.c, l.m - l.c));
    LitOver(s, l.m, l.d, '월');
    LitOver(s, l.d + 1, l.e, '/');
  }

  /** MatchAt, given the outcome of each of its steps. */
  lemma MatchFromParts(s: string, i: nat, y: nat, a: nat, b: nat, c: nat, m: nat, e: nat, f: nat)
    requires i <= y <= |s| && i + DigitRun(s, i) == y && 2 <= DigitRun(s, i) <= 4
    requires Lit(s, y, '년') == Some(a) && a <= |s| && Lit(s, a, '/') == Some(b) && b <= |s|
    requires c <= m && MonthPart(s, b) == Some((c, m - c, e)) && TailLaid(s, e, f)
    ensures MatchAt(s, i) == Some(RawMatch(s[i..y], s[c..m]))
  {
    TailMatches(s, e, f);
    YearStep(s, i, y, a);
    AfterYearParts(s, i, y, a, b, c, m, e);
  }

  lemma AfterYearParts(s: string, i: nat, y: nat, a: nat, b: nat, c: nat, m: nat, e: nat)
    requires i <= y <= |s| && a <= |s| && Lit(s, a, '/') == Some(b) && b <= |s|
    requires c <= m && MonthPart(s, b) == Some((c, m - c, e)) && e <= |s| && Tail(s, e)
    ensures AfterYear(s, i, y, a) == Some(RawMatch(s[i..y], s[c..m]))
  {
  }

  lemma YearStep(s: string, i: nat, y: nat, a: nat)
    requires i <= y <= |s| && i + DigitRun(s, i) == y && 2 <= DigitRun(s, i) <= 4
    requires Lit(s, y, '년') == Some(a) && a <= |s|
    ensures MatchAt(s, i) == AfterYear(s, i, y, a)
  {
    YearEndIs(s, i, y, a);
  }

  /** The year's end as MatchAt computes it, and as the caller knows it. */
  lemma YearEndIs(s: string, i: nat, y: nat, a: nat)
    requires i <= y <= |s| && i + DigitRun(s, i) == y && a <= |s|
    ensures Lit(s, i + DigitRun(s, i), '년') == Lit(s, y, '년')
    ensures AfterYear(s, i, i + DigitRun(s, i), a) == AfterYear(s, i, y, a)
  {
  }

  /**
   * The tokens lie at l and no match starts before l.n: the comment parses
   * to the adjusted year and the month read at l when the month is 1 to 12,
   * and to None otherwise.
   */
  lemma ParseLaidOut(s: string, l: Layout)
    requires LaidOut(s, l)
    requires forall k :: 0 <= k < l.n ==> MatchAt(s, k).None?
    ensures Text.AllDigits(s[l.n..l.y]) && Text.AllDigits(s[l.c..l.m])
    ensures var r := ParseComment(s);
      var month := Text.DecimalValue(s[l.c..l.m]);
      (1 <= month <= 12 ==> r == Some(Parsed(AdjustYear(Text.DecimalValue(s[l.n..l.y])), month))) &&
      (!(1 <= month <= 12) ==> r == None)
  {
    MatchLaidOut(s, l);
    FirstMatchAt(s, l.n);
  }

  /** With a match at n and none before it, re.search finds n. */
  lemma FirstMatchAt(s: string, n: nat)
    requires n <= |s| && MatchAt(s, n).Some?
    requires forall k :: 0 <= k < n ==> MatchAt(s, k).None?
    ensures FirstMatch(s, 0) == n
  {
    var r := FirstMatch(s, 0);
    assert r != -1 && r <= n;
  }

  /** Every character of w is whitespace. */
  predicate AllSpace(w: string) {
    forall k :: 0 <= k < |w| ==> Text.IsSpace(w[k])
  }

  /** Six whitespace runs, one for each place the pattern allows \s*. */
  predicate Gaps(g: seq<string>) {
    |g| == 6 && forall i :: 0 <= i < 6 ==> AllSpace(g[i])
  }

  /** The comment "<year>년/<month>월/운세" with the whitespace runs of g between its tokens. */
  function Written(yd: string, md: string, g: seq<string>): string
    requires |g| == 6
  {
    yd + g[0] + "년" + g[1] + "/" + g[2] + md + g[3] + "월" + g[4] + "/" + g[5] + "운세"
  }

  /** Where the tokens of the written form lie once it follows p. */
  function WrittenLayout(p: string, yd: string, md: string, g: seq<string>): Layout
    requires |g| == 6
  {
    var n := |p|;
    var y := n + |yd|;
    var a := y + |g[0]|;
    var b := a + 1 + |g[1]|;
    var c := b + 1 + |g[2]|;
    var m := c + |md|;
    var d := m + |g[3]|;
    var e := d + 1 + |g[4]|;
    Layout(n, y, a, b, c, m, d, e, e + 1 + |g[5]|)
  }

  /** The year digits, the first gap and 년 of the written form. */
  lemma WrittenYear(yd: string, md: string, g: seq<string>)
    requires Gaps(g) && Text.AllDigits(yd) && 2 <= |yd| <= 4
    ensures var w := Written(yd, md, g); var l := WrittenLayout([], yd, md, g);
      YearLaid(w, l.n, l.y, l.a) && w[l.n..l.y] == yd
  {
    var w := Written(yd, md, g);
    var l := WrittenLayout([], yd, md, g);
    assert w[l.n..l.y] == yd;
    forall k | l.n <= k < l.y ensures Text.IsDigit(w[k]) {
      assert w[k] == yd[k];
    }
    forall k | l.y <= k < l.a ensures Text.IsSpace(w[k]) {
      assert w[k] == g[0][k - l.y];
    }
  }

  /** The second gap and the first '/' of the written form. */
  lemma WrittenFirstSlash(yd: string, md: string, g: seq<string>)
    requires Gaps(g)
    ensures var w := Written(yd, md, g); var l := WrittenLayout([], yd, md, g);
      TokenLaid(w, l.a + 1, l.b, '/')
  {
    var w := Written(yd, md, g);
    var l := WrittenLayout([], yd, md, g);
    forall k | l.a + 1 <= k < l.b ensures Text.IsSpace(w[k]) {
      assert w[k] == g[1][k - l.a - 1];
    }
  }

  /** The third gap and the month digits of the written form. */
  lemma WrittenMonthDigits(yd: string, md: string, g: seq<string>)
    requires Gaps(g) && Text.AllDigits(md)
    ensures var w := Written(yd, md, g); var l := WrittenLayout([], yd, md, g);
      SpacesIn(w, l.b + 1, l.c) && DigitsIn(w, l.c, l.m) && w[l.c..l.m] == md
  {
    var w := Written(yd, md, g);
    var l := WrittenLayout([], yd, md, g);
    assert w[l.c..l.m] == md;
    forall k | l.b + 1 <= k < l.c ensures Text.IsSpace(w[k]) {
      assert w[k] == g[2][k - l.b - 1];
    }
    forall k | l.c <= k < l.m ensures Text.IsDigit(w[k]) {
      assert w[k] == md[k - l.c];
    }
  }

  /** The fourth gap and 월 of the written form. */
  lemma WrittenMonthSign(yd: string, md: string, g: seq<string>)
    requires Gaps(g)
    ensures var w := Written(yd, md, g); var l := WrittenLayout([], yd, md, g);
      SpacesIn(w, l.m, l.d) && w[l.d] == '월'
  {
    var w := Written(yd, md, g);
    var l := WrittenLayout([], yd, md, g);
    forall k | l.m <= k < l.d ensures Text.IsSpace(w[k]) {
      assert w[k] == g[3][k - l.m];
    }
  }

  /** The fifth gap and the second '/' of the written form. */
  lemma WrittenSecondSlash(yd: string, md: string, g: seq<string>)
    requires Gaps(g)
    ensures var w := Written(yd, md, g); var l := WrittenLayout([], yd, md, g);
      TokenLaid(w, l.d + 1, l.e, '/')
  {
    var w := Written(yd, md, g);
    var l := WrittenLayout([], yd, md, g);
    forall k | l.d + 1 <= k < l.e ensures Text.IsSpace(w[k]) {
      assert w[k] == g[4][k - l.d - 1];
    }
  }

  /** The last gap and 운세 of the written form. */
  lemma WrittenTail(yd: string, md: string, g: seq<string>)
    requires Gaps(g)
    ensures var w := Written(yd, md, g); var l := WrittenLayout([], yd, md, g);
      TailLaid(w, l.e + 1, l.f)
  {
    var w := Written(yd, md, g);
    var l := WrittenLayout([], yd, md, g);
    forall k | l.e + 1 <= k < l.f ensures Text.IsSpace(w[k]) {
      assert w[k] == g[5][k - l.e - 1];
    }
  }

  /** The written form on its own has its tokens where WrittenLayout puts them. */
  lemma WrittenLaidOutAlone(yd: string, md: string, g: seq<string>)
    requires Gaps(g) && Text.AllDigits(yd) && 2 <= |yd| <= 4 && Text.AllDigits(md) && 1 <= |md| <= 2
    ensures var w := Written(yd, md, g); var l := WrittenLayout([], yd, md, g);
      LaidOut(w, l) && w[l.n..l.y] == yd && w[l.c..l.m] == md
  {
    WrittenYear(yd, md, g);
    WrittenFirstSlash(yd, md, g);
    WrittenMonthDigits(yd, md, g);
    WrittenMonthSign(yd, md, g);
    WrittenSecondSlash(yd, md, g);
    WrittenTail(yd, md, g);
  }

  /** t holds s at positions q.. */
  predicate Shifted(t: string, s: string, q: nat) {
    q + |s| <= |t| && forall k :: q <= k < q + |s| ==> t[k] == s[k - q]
  }

  /** s placed between p and rest lies at |p|. */
  lemma Embedded(p: string, s: string, rest: string)
    ensures Shifted(p + s + rest, s, |p|)
  {
    var t := p + s + rest;
    forall k | |p| <= k < |p| + |s| ensures t[k] == s[k - |p|] {
    }
  }

  lemma SpacesShift(t: string, s: string, q: nat, i: nat, j: nat)
    requires Shifted(t, s, q) && i <= j <= |s| && SpacesIn(s, i, j)
    ensures SpacesIn(t, i + q, j + q)
  {
    forall k | i + q <= k < j + q ensures Text.IsSpace(t[k]) {
      assert t[k] == s[k - q];
    }
  }

  lemma DigitsShift(t: string, s: string, q: nat, i: nat, j: nat)
    requires Shifted(t, s, q) && i <= j <= |s| && DigitsIn(s, i, j)
    ensures DigitsIn(t, i + q, j + q)
  {
    forall k | i + q <= k < j + q ensures Text.IsDigit(t[k]) {
      assert t[k] == s[k - q];
    }
  }

  lemma SliceShift(t: string, s: string, q: nat, i: nat, j: nat)
    requires Shifted(t, s, q) && i <= j <= |s|
    ensures t[i + q..j + q] == s[i..j]
  {
    forall k | 0 <= k < j - i ensures t[i + q..j + q][k] == s[i..j][k] {
      assert t[i + q + k] == s[i + k];
    }
  }

  /** The layout shifted right by q. */
  function Shift(l: Layout, q: nat): Layout {
    Layout(l.n + q, l.y + q, l.a + q, l.b + q, l.c + q, l.m + q, l.d + q, l.e + q, l.f + q)
  }

  lemma YearShift(p: string, s: string, rest: string, l: Layout)
    requires YearLaid(s, l.n, l.y, l.a)
    ensures var l2 := Shift(l, |p|); YearLaid(p + s + rest, l2.n, l2.y, l2.a)
  {
    var t := p + s + rest;
    Embedded(p, s, rest);
    DigitsShift(t, s, |p|, l.n, l.y);
    SpacesShift(t, s, |p|, l.y, l.a);
    assert t[l.a + |p|] == s[l.a];
  }

  lemma FirstSlashShift(p: string, s: string, rest: string, l: Layout)
    requires TokenLaid(s, l.a + 1, l.b, '/')
    ensures var l2 := Shift(l, |p|); TokenLaid(p + s + rest, l2.a + 1, l2.b, '/')
  {
    var t := p + s + rest;
    Embedded(p, s, rest);
    SpacesShift(t, s, |p|, l.a + 1, l.b);
    assert t[l.b + |p|] == s[l.b];
  }

  lemma MonthShift(p: string, s: string, rest: string, l: Layout)
    requires MonthLaid(s, l.b + 1, l.c, l.m, l.d)
    ensures var l2 := Shift(l, |p|); MonthLaid(p + s + rest, l2.b + 1, l2.c, l2.m, l2.d)
  {
    var t := p + s + rest;
    Embedded(p, s, rest);
    SpacesShift(t, s, |p|, l.b + 1, l.c);
    DigitsShift(t, s, |p|, l.c, l.m);
    SpacesShift(t, s, |p|, l.m, l.d);
    assert t[l.d + |p|] == s[l.d];
  }

  lemma SecondSlashShift(p: string, s: string, rest: string, l: Layout)
    requires TokenLaid(s, l.d + 1, l.e, '/')
    ensures var l2 := Shift(l, |p|); TokenLaid(p + s + rest, l2.d + 1, l2.e, '/')
  {
    var t := p + s + rest;
    Embedded(p, s, rest);
    SpacesShift(t, s, |p|, l.d + 1, l.e);
    assert t[l.e + |p|] == s[l.e];
  }

  lemma TailShift(p: string, s: string, rest: string, l: Layout)
    requires TailLaid(s, l.e + 1, l.f)
    ensures var l2 := Shift(l, |p|); TailLaid(p + s + rest, l2.e + 1, l2.f)
  {
    var t := p + s + rest;
    Embedded(p, s, rest);
    SpacesShift(t, s, |p|, l.e + 1, l.f);
    assert t[l.f + |p|] == s[l.f] && t[l.f + 1 + |p|] == s[l.f + 1];
  }

  /** Tokens laid out in s are laid out, shifted by |p|, in p + s + rest. */
  lemma ShiftLaidOut(p: string, s: string, rest: string, l: Layout)
    requires LaidOut(s, l)
    ensures LaidOut(p + s + rest, Shift(l, |p|))
  {
    YearShift(p, s, rest, l);
    FirstSlashShift(p, s, rest, l);
    MonthShift(p, s, rest, l);
    SecondSlashShift(p, s, rest, l);
    TailShift(p, s, rest, l);
  }

  /** A slice of s is the slice shifted by |p| of p + s + rest. */
  lemma ShiftSlice(p: string, s: string, rest: string, i: nat, j: nat)
    requires i <= j <= |s|
    ensures |p| + j <= |p + s + rest| && (p + s + rest)[|p| + i..|p| + j] == s[i..j]
  {
    Embedded(p, s, rest);
    SliceShift(p + s + rest, s, |p|, i, j);
  }

  /** The written form after p, followed by anything, has its tokens where WrittenLayout puts them. */
  lemma WrittenLaidOut(p: string, yd: string, md: string, g: seq<string>, rest: string)
    requires Gaps(g) && Text.AllDigits(yd) && 2 <= |yd| <= 4 && Text.AllDigits(md) && 1 <= |md| <= 2
    ensures LaidOut(p + Written(yd, md, g) + rest, WrittenLayout(p, yd, md, g))
  {
    var l0 := WrittenLayout([], yd, md, g);
    WrittenLaidOutAlone(yd, md, g);
    ShiftLaidOut(p, Written(yd, md, g), rest, l0);
    assert Shift(l0, |p|) == WrittenLayout(p, yd, md, g);
  }

  /** There, the pattern's two groups are the year and the month digits. */
  lemma WrittenCaptures(p: string, yd: string, md: string, g: seq<string>, rest: string)
    requires Gaps(g) && Text.AllDigits(yd) && 2 <= |yd| <= 4 && Text.AllDigits(md)
    ensures var s := p + Written(yd, md, g) + rest; var l := WrittenLayout(p, yd, md, g);
      l.y <= |s| && l.m <= |s| && s[l.n..l.y] == yd && s[l.c..l.m] == md
  {
    var l0 := WrittenLayout([], yd, md, g);
    WrittenYear(yd, md, g);
    WrittenMonthDigits(yd, md, g);
    ShiftSlice(p, Written(yd, md, g), rest, l0.n, l0.y);
    ShiftSlice(p, Written(yd, md, g), rest, l0.c, l0.m);
  }

  /**
   * A comment holding "<year>년/<month>월/운세", with any whitespace
   * between the tokens, after a text in which no match starts, parses to
   * the adjusted year and the month when the month is 1 to 12, and to None
   * otherwise, whatever follows.
   */
  lemma ParseWritten(p: string, yd: string, md: string, g: seq<string>, rest: string)
    requires Gaps(g) && Text.AllDigits(yd) && 2 <= |yd| <= 4 && Text.AllDigits(md) && 1 <= |md| <= 2
    requires forall k :: 0 <= k < |p| ==> MatchAt(p + Written(yd, md, g) + rest, k).None?
    ensures var r := ParseComment(p + Written(yd, md, g) + rest);
      var month := Text.DecimalValue(md);
      (1 <= month <= 12 ==> r == Some(Parsed(AdjustYear(Text.DecimalValue(yd)), month))) &&
      (!(1 <= month <= 12) ==> r == None)
  {
    var s := p + Written(yd, md, g) + rest;
    WrittenLaidOut(p, yd, md, g, rest);
    WrittenCaptures(p, yd, md, g, rest);
    ParseLaidOut(s, WrittenLayout(p, yd, md, g));
  }

  /** In particular after a text without digits, where no match can start. */
  lemma ParseWrittenAfterText(p: string, yd: string, md: string, g: seq<string>, rest: string)
    requires NoDigit(p)
    requires Gaps(g) && Text.AllDigits(yd) && 2 <= |yd| <= 4 && Text.AllDigits(md) && 1 <= |md| <= 2
    ensures var r := ParseComment(p + Written(yd, md, g) + rest);
      var month := Text.DecimalValue(md);
      (1 <= month <= 12 ==> r == Some(Parsed(AdjustYear(Text.DecimalValue(yd)), month))) &&
      (!(1 <= month <= 12) ==> r == None)
  {
    var s := p + Written(yd, md, g) + rest;
    assert s[..|p|] == p;
    NoEarlierMatch(s, |p|);
    ParseWritten(p, yd, md, g, rest);
  }

  /** "나는 95 년 / 2월/운세 부탁해요" parses to February 1995. */
  lemma ParseSpacedExample()
    ensures ParseComment("나는 " + Written("95", "2", [" ", " ", " ", "", "", ""]) + " 부탁해요") == Some(Parsed(1995, 2))
  {
    var g := [" ", " ", " ", "", "", ""];
    assert Gaps(g);
    assert Text.DecimalValue("2") == 2 && Text.DecimalValue("95") == 95;
    ParseWrittenAfterText("나는 ", "95", "2", g, " 부탁해요");
  }

  /** Digits at k..j, whitespace, then a character other than 년: no match starts at k. */
  lemma NumberNotYear(s: string, k: nat, j: nat, j2: nat)
    requires k <= j <= j2 < |s| && DigitsIn(s, k, j) && !Text.IsDigit(s[j]) && SpacesIn(s, j, j2)
    requires !Text.IsSpace(s[j2]) && s[j2] != '년'
    ensures MatchAt(s, k).None?
  {
    DigitRunOver(s, k, j);
    SkipSpacesOver(s, j, j2);
  }

  /** "2024 95년/2월/운세": the number in front starts no match, so the comment parses to February 1995. */
  lemma ParseAfterNumberExample()
    ensures ParseComment("2024 " + Written("95", "2", ["", "", "", "", "", ""]) + "") == Some(Parsed(1995, 2))
  {
    var g := ["", "", "", "", "", ""];
    assert Gaps(g);
    assert "2024 " + Written("95", "2", g) + "" == "2024 95년/2월/운세";
    NumberStartsNoMatch();
    assert Text.DecimalValue("2") == 2 && Text.DecimalValue("95") == 95;
    ParseWritten("2024 ", "95", "2", g, "");
  }

  /** No match starts in "2024 " at the front of "2024 95년/2월/운세". */
  lemma NumberStartsNoMatch()
    ensures forall k :: 0 <= k < 5 ==> MatchAt("2024 95년/2월/운세", k).None?
  {
    var s := "2024 95년/2월/운세";
    assert s[4] == ' ' && s[5] == '9';
    forall k | 0 <= k < 4 ensures MatchAt(s, k).None? {
      NumberNotYear(s, k, 4, 5);
    }
    assert MatchAt(s, 4).None?;
  }

  // ---------------------------------------------------------------------
  // The replied-comments table
  // ---------------------------------------------------------------------

  /** A row of replied_comments: the video the comment was on and when the reply was recorded. */
  datatype Entry = Entry(videoId: string, repliedAt: string)

  /** INSERT OR IGNORE keyed on comment_id: a comment already present keeps its row. */
  function Mark(m: map<string, Entry>, id: string, e: Entry): (r: map<string, Entry>)
    ensures r.Keys == m.Keys + {id}
    ensures id in m ==> r == m
    ensures id !in m ==> r[id] == e
    ensures forall k :: k in m ==> k in r && r[k] == m[k]
  {
    if id in m then m else m[id := e]
  }

  /** Marking twice is marking once. */
  lemma MarkIdempotent(m: map<string, Entry>, id: string, e: Entry, e2: Entry)
    ensures Mark(Mark(m, id, e), id, e2) == Mark(m, id, e)
  {
  }

  /** The replied_comments table, kept in memory. */
  class ReplyLog {
    var replied: map<string, Entry>

    /** _init_reply_db on a database without the table. */
    constructor()
      ensures replied == map[]
    {
      replied := map[];
    }

    /** _has_replied: whether a row with this comment id exists. */
    predicate HasReplied(id: string)
      reads this
    {
      id in replied
    }

    /** _mark_replied: adds a row unless the comment id already has one. */
    method MarkReplied(id: string, videoId: string, now: string)
      modifies this
      ensures replied == Mark(old(replied), id, Entry(videoId, now))
      ensures HasReplied(id)
    {
      if id !in replied {
        replied := replied[id := Entry(videoId, now)];
      }
    }
  }

  // ---------------------------------------------------------------------
  // Choosing and answering comments
  // ---------------------------------------------------------------------

  /** A top-level comment as listed: its id may be missing. */
  datatype Comment = Comment(commentId: Option<string>, author: string, text: string)

  const FortuneTypes: seq<string> := ["금전운", "애정운", "건강운"]

  /** A comment chosen for a reply, with its id, its parsed birth date and the fortune kind drawn for it. */
  datatype Candidate = Candidate(comment: Comment, id: string, year: nat, month: nat, fortuneType: string)

  /** A comment is answered when it has a non-empty id not yet replied to and its text parses. */
  predicate IsCandidate(c: Comment, replied: set<string>) {
    c.commentId.Some? && c.commentId.value != [] && c.commentId.value !in replied &&
    ParseComment(c.text).Some?
  }

  /** The comments that become candidates, in listing order. */
  function Candidates(cs: seq<Comment>, replied: set<string>): (r: seq<Comment>)
    ensures |r| <= |cs|
    ensures forall k :: 0 <= k < |r| ==> IsCandidate(r[k], replied)
  {
    if cs == [] then []
    else
      var init := Candidates(cs[..|cs| - 1], replied);
      if IsCandidate(cs[|cs| - 1], replied) then init + [cs[|cs| - 1]] else init
  }

  /** A comment is a candidate exactly when it is listed and passes the filter. */
  lemma {:induction false} CandidatesMembers(cs: seq<Comment>, replied: set<string>, c: Comment)
    ensures c in Candidates(cs, replied) <==> c in cs && IsCandidate(c, replied)
  {
    if cs != [] {
      CandidatesMembers(cs[..|cs| - 1], replied, c);
      assert cs == cs[..|cs| - 1] + [cs[|cs| - 1]];
    }
  }

  function CommentsOf(cands: seq<Candidate>): (r: seq<Comment>)
    ensures |r| == |cands| && forall k :: 0 <= k < |cands| ==> r[k] == cands[k].comment
  {
    seq(|cands|, k requires 0 <= k < |cands| => cands[k].comment)
  }

  /** What the candidate loop records for a comment: its id, the parsed date and a fortune kind. */
  predicate WellMade(c: Candidate) {
    c.comment.commentId == Some(c.id) && c.fortuneType in FortuneTypes &&
    ParseComment(c.comment.text) == Some(Parsed(c.year, c.month))
  }

  /** The table after marking, in order, each chosen comment whose reply was posted. */
  function MarkAll(m: map<string, Entry>, chosen: seq<Candidate>, videoId: string, now: string,
                   posted: Candidate -> bool): map<string, Entry>
  {
    if chosen == [] then m
    else
      var before := MarkAll(m, chosen[..|chosen| - 1], videoId, now, posted);
      var c := chosen[|chosen| - 1];
      if posted(c) then Mark(before, c.id, Entry(videoId, now)) else before
  }

  /** The ids of the chosen comments whose replies were posted. */
  function PostedIds(chosen: seq<Candidate>, posted: Candidate -> bool): set<string> {
    set k | 0 <= k < |chosen| && posted(chosen[k]) :: chosen[k].id
  }

  /**
   * Marking keeps every earlier row and adds rows exactly for the comments
   * whose replies were posted; a comment whose reply failed is not marked.
   */
  lemma {:induction false} MarkAllSpec(m: map<string, Entry>, chosen: seq<Candidate>, videoId: string, now: string,
                                       posted: Candidate -> bool)
    ensures var r := MarkAll(m, chosen, videoId, now, posted);
      r.Keys == m.Keys + PostedIds(chosen, posted) &&
      (forall k :: k in m ==> r[k] == m[k]) &&
      (forall k :: k in r && k !in m ==> r[k] == Entry(videoId, now))
  {
    if chosen != [] {
      var init := chosen[..|chosen| - 1];
      MarkAllSpec(m, init, videoId, now, posted);
      var c := chosen[|chosen| - 1];
      assert forall k :: 0 <= k < |init| ==> init[k] == chosen[k];
      if posted(c) {
        assert PostedIds(chosen, posted) == PostedIds(init, posted) + {c.id};
      } else {
        assert PostedIds(chosen, posted) == PostedIds(init, posted);
      }
    }
  }

  /** What reply_to_comments_for_video ends with. */
  datatype Outcome =
    | NoCandidates
      /** random.sample with a negative size raises ValueError before any reply. */
    | NegativeSample
    | Replied(chosen: seq<Candidate>)

  /** Removes the element at position j. */
  function RemoveAt<T>(s: seq<T>, j: nat): (r: seq<T>)
    requires j < |s|
    ensures |r| == |s| - 1 && multiset(r) + multiset{s[j]} == multiset(s)
  {
    assert s == s[..j] + [s[j]] + s[j + 1..];
    s[..j] + s[j + 1..]
  }

  lemma CommentsOfAppend(a: seq<Candidate>, b: seq<Candidate>)
    ensures CommentsOf(a + b) == CommentsOf(a) + CommentsOf(b)
  {
  }

  lemma CommentsOfRemove(b: seq<Candidate>, j: nat)
    requires j < |b|
    ensures multiset(CommentsOf(RemoveAt(b, j))) + multiset{b[j].comment} == multiset(CommentsOf(b))
  {
    assert b == b[..j] + [b[j]] + b[j + 1..];
    CommentsOfAppend(b[..j], b[j + 1..]);
    CommentsOfAppend(b[..j] + [b[j]], b[j + 1..]);
    CommentsOfAppend(b[..j], [b[j]]);
  }

  /** Moving one element from what is left to what is drawn keeps the draw a sub-multiset of the pool. */
  lemma SampleStep(pool: seq<Candidate>, chosen: seq<Candidate>, rest: seq<Candidate>, j: nat)
    requires j < |rest|
    requires multiset(chosen) + multiset(rest) == multiset(pool)
    requires multiset(CommentsOf(chosen)) + multiset(CommentsOf(rest)) == multiset(CommentsOf(pool))
    ensures var c := chosen + [rest[j]]; var r := RemoveAt(rest, j);
      multiset(c) + multiset(r) == multiset(pool) &&
      multiset(CommentsOf(c)) + multiset(CommentsOf(r)) == multiset(CommentsOf(pool))
  {
    CommentsOfRemove(rest, j);
    CommentsOfAppend(chosen, [rest[j]]);
  }

  /** What is left after a removal is still drawn from the pool. */
  lemma RemoveKeeps(pool: seq<Candidate>, rest: seq<Candidate>, j: nat)
    requires j < |rest|
    requires forall i :: 0 <= i < |rest| ==> rest[i] in pool
    ensures forall i :: 0 <= i < |rest| - 1 ==> RemoveAt(rest, j)[i] in pool
  {
    var r := RemoveAt(rest, j);
    forall i | 0 <= i < |r| ensures r[i] in pool {
      if i < j {
        assert r[i] == rest[i];
      } else {
        assert r[i] == rest[i + 1];
      }
    }
  }

  /** random.sample(pool, k): k elements drawn without replacement, in drawing order. */
  method Sample(pool: seq<Candidate>, k: nat) returns (chosen: seq<Candidate>)
    requires k <= |pool|
    ensures |chosen| == k && multiset(chosen) <= multiset(pool)
    ensures multiset(CommentsOf(chosen)) <= multiset(CommentsOf(pool))
    ensures forall i :: 0 <= i < |chosen| ==> chosen[i] in pool
  {
    chosen := [];
    var rest := pool;
    while |chosen| < k
      invariant |chosen| <= k && |chosen| + |rest| == |pool|
      invariant multiset(chosen) + multiset(rest) == multiset(pool)
      invariant multiset(CommentsOf(chosen)) + multiset(CommentsOf(rest)) == multiset(CommentsOf(pool))
      invariant forall i :: 0 <= i < |chosen| ==> chosen[i] in pool
      invariant forall i :: 0 <= i < |rest| ==> rest[i] in pool
      decreases k - |chosen|
    {
      var j :| 0 <= j < |rest|;
      SampleStep(pool, chosen, rest, j);
      RemoveKeeps(pool, rest, j);
      chosen := chosen + [rest[j]];
      rest := RemoveAt(rest, j);
    }
  }

  lemma CandidatesStep(cs: seq<Comment>, i: nat, replied: set<string>)
    requires i < |cs|
    ensures Candidates(cs[..i + 1], replied) ==
      if IsCandidate(cs[i], replied) then Candidates(cs[..i], replied) + [cs[i]] else Candidates(cs[..i], replied)
  {
    assert cs[..i + 1][..i] == cs[..i];
  }

  /** The candidate loop: each listed comment that passes the filter, with its parse and a drawn fortune kind. */
  method CollectCandidates(comments: seq<Comment>, replied: set<string>) returns (cands: seq<Candidate>)
    ensures CommentsOf(cands) == Candidates(comments, replied)
    ensures forall k :: 0 <= k < |cands| ==> WellMade(cands[k])
  {
    cands := [];
    for i := 0 to |comments|
      invariant CommentsOf(cands) == Candidates(comments[..i], replied)
      invariant forall k :: 0 <= k < |cands| ==> WellMade(cands[k])
    {
      CandidatesStep(comments, i, replied);
      var c := comments[i];
      if IsCandidate(c, replied) {
        var p := ParseComment(c.text).value;
        assert FortuneTypes[0] in FortuneTypes;
        var ft :| ft in FortuneTypes;
        CommentsOfAppend(cands, [Candidate(c, c.commentId.value, p.year, p.month, ft)]);
        cands := cands + [Candidate(c, c.commentId.value, p.year, p.month, ft)];
      }
    }
    assert comments[..|comments|] == comments;
  }

  /** The reply loop: each chosen comment is marked once its reply is posted. */
  method PostReplies(log: ReplyLog, cands: seq<Candidate>, videoId: string, posted: Candidate -> bool, now: string)
    modifies log
    ensures log.replied == MarkAll(old(log.replied), cands, videoId, now, posted)
  {
    for i := 0 to |cands|
      invariant log.replied == MarkAll(old(log.replied), cands[..i], videoId, now, posted)
    {
      assert cands[..i + 1][..i] == cands[..i];
      if posted(cands[i]) {
        log.MarkReplied(cands[i].id, videoId, now);
      }
    }
    assert cands[..|cands|] == cands;
  }

  /**
   * reply_to_comments_for_video on the listed comments: collects the
   * candidates, keeps at most maxReplies of them, posts a reply to each and
   * marks it replied once the post succeeds. `posted` says which posts
   * succeed; `now` is the time recorded with each mark.
   */
  method ReplyToComments(log: ReplyLog, videoId: string, comments: seq<Comment>, maxReplies: int,
                         posted: Candidate -> bool, now: string) returns (outcome: Outcome)
    modifies log
    ensures var cands := Candidates(comments, old(log.replied).Keys);
      (outcome.NoCandidates? <==> cands == []) &&
      (outcome.NegativeSample? <==> cands != [] && maxReplies < 0) &&
      (!outcome.Replied? ==> log.replied == old(log.replied)) &&
      (outcome.Replied? ==>
        var chosen := outcome.chosen;
        (forall k :: 0 <= k < |chosen| ==> WellMade(chosen[k])) &&
        (|cands| <= maxReplies ==> CommentsOf(chosen) == cands) &&
        (|cands| > maxReplies ==> |chosen| == maxReplies && multiset(CommentsOf(chosen)) <= multiset(cands)) &&
        log.replied == MarkAll(old(log.replied), chosen, videoId, now, posted))
  {
    var cands := CollectCandidates(comments, log.replied.Keys);
    if cands == [] {
      return NoCandidates;
    }
    if |cands| > maxReplies {
      if maxReplies < 0 {
        return NegativeSample;
      }
      cands := Sample(cands, maxReplies);
    }
    PostReplies(log, cands, videoId, posted, now);
    return Replied(cands);
  }
}
