/**
 * Small pure helpers of the video generator: Korean number words for the
 * on-screen counters, hex colour parsing, the two easing curves and Python's
 * `int()` on a real number.
 */
module VideoHelpers {
  import opened Text
  import opened Wrappers

  // ---------------------------------------------------------------------
  // _num_to_korean
  // ---------------------------------------------------------------------

  /** Native Korean unit words, index 1..9 (index 0 is unused). */
  const Units: seq<string> := ["", "한", "두", "세", "네", "다섯", "여섯", "일곱", "여덟", "아홉"]
  /** Native Korean tens words, index 1..9 (index 0 is unused). */
  const Tens: seq<string> := ["", "열", "스물", "서른", "마흔", "쉰", "예순", "일흔", "여든", "아흔"]
  /** The table of frequent numbers that are looked up first. */
  function Common(n: int): Option<string> {
    match n
    case 1 => Some("한") case 2 => Some("두") case 3 => Some("세") case 4 => Some("네")
    case 5 => Some("다섯") case 6 => Some("여섯") case 7 => Some("일곱") case 8 => Some("여덟")
    case 9 => Some("아홉") case 14 => Some("열넷") case 22 => Some("스물두") case 78 => Some("일흔여덟")
    case _ => None
  }

  /** The counter word for n: common words, then units, then tens + units, else decimal digits. */
  function NumToKorean(n: int): (r: string)
    ensures r != []
    ensures n <= 0 ==> r == "영"
    ensures n >= 100 ==> AllDigits(r) && DecimalValue(r) == n
  {
    if Common(n).Some? then Common(n).value
    // 1..9 are all in the common table, so only n <= 0 reaches the unit branch
    else if n < 10 then "영"
    else if n < 100 then Tens[n / 10] + (if n % 10 > 0 then Units[n % 10] else "")
    else NatToStringValue(n); NatToString(n)
  }

  /** Which tens word starts with c (0 when none): the tens words have distinct first letters. */
  function TensOfFirst(c: char): (t: nat)
    ensures t < 10 && (t > 0 ==> Tens[t][0] == c)
  {
    if c == '열' then 1 else if c == '스' then 2 else if c == '서' then 3
    else if c == '마' then 4 else if c == '쉰' then 5 else if c == '예' then 6
    else if c == '일' then 7 else if c == '여' then 8 else if c == '아' then 9 else 0
  }

  /** The unit a word names (0 when it is not a unit word). */
  function UnitValue(s: string): (u: nat)
    ensures u < 10 && (u > 0 ==> Units[u] == s)
  {
    if s == "한" then 1 else if s == "두" then 2 else if s == "세" then 3
    else if s == "네" then 4 else if s == "다섯" then 5 else if s == "여섯" then 6
    else if s == "일곱" then 7 else if s == "여덟" then 8 else if s == "아홉" then 9 else 0
  }

  predicate StartsWith(s: string, p: string) {
    |p| <= |s| && s[..|p|] == p
  }

  /** Reads a counter word back as a number. */
  function KoreanValue(s: string): Option<nat> {
    if s == "영" then Some(0)
    else if s != [] && TensOfFirst(s[0]) > 0 && StartsWith(s, Tens[TensOfFirst(s[0])]) then
      var t := TensOfFirst(s[0]);
      var rest := s[|Tens[t]|..];
      if rest == [] then Some(10 * t)
      else if t == 1 && rest == "넷" then Some(14)
      else if UnitValue(rest) > 0 then Some(10 * t + UnitValue(rest))
      else None
    else if UnitValue(s) > 0 then Some(UnitValue(s))
    else if s != [] && AllDigits(s) then Some(DecimalValue(s))
    else None
  }

  /** A unit word is read as its unit and not as the start of a tens word. */
  lemma UnitWordOf(u: nat)
    requires 1 <= u <= 9
    ensures KoreanValue(Units[u]) == Some(u)
  {
    var s := Units[u];
    if u == 7 {
      assert s[1] != Tens[7][1];
    } else if u == 6 || u == 8 {
      assert s[1] != Tens[8][1];
    } else if u == 9 {
      assert s[1] != Tens[9][1];
    } else {
      assert TensOfFirst(s[0]) == 0;
    }
  }

  lemma TensWordOf(t: nat, rest: string)
    requires 1 <= t <= 9
    ensures Tens[t] + rest != [] && TensOfFirst((Tens[t] + rest)[0]) == t
    ensures StartsWith(Tens[t] + rest, Tens[t]) && (Tens[t] + rest)[|Tens[t]|..] == rest
    ensures Tens[t] + rest != "영"
  {
    var s := Tens[t] + rest;
    assert s[..|Tens[t]|] == Tens[t];
    assert s[0] == Tens[t][0];
  }

  /** Distinct non-negative numbers get distinct words: reading the word back gives the number. */
  lemma KoreanRoundTrip(n: nat)
    ensures KoreanValue(NumToKorean(n)) == Some(n)
  {
    var s := NumToKorean(n);
    if n == 0 {
    } else if n < 10 {
      assert s == Units[n];
      UnitWordOf(n);
    } else if n < 100 {
      KoreanRoundTripTwoDigits(n);
    } else {
      assert IsDigit(s[0]);
      assert s != "영" && TensOfFirst(s[0]) == 0 && UnitValue(s) == 0;
    }
  }

  lemma KoreanRoundTripTwoDigits(n: nat)
    requires 10 <= n < 100
    ensures KoreanValue(NumToKorean(n)) == Some(n)
  {
    var s := NumToKorean(n);
    {
      var t, u := n / 10, n % 10;
      if n == 14 {
        assert s == Tens[1] + "넷";
        TensWordOf(1, "넷");
      } else if u == 0 {
        assert s == Tens[t] + "";
        TensWordOf(t, "");
      } else {
        assert s == Tens[t] + Units[u];
        TensWordOf(t, Units[u]);
        assert UnitValue(Units[u]) == u;
      }
    }
  }

  // ---------------------------------------------------------------------
  // _hex_to_rgb
  // ---------------------------------------------------------------------

  datatype Rgb = Rgb(r: int, g: int, b: int)

  /** The colour used when no colour string is given. */
  const DefaultHex: string := "#1a0a2e"

  predicate IsHexDigit(c: char) {
    '0' <= c <= '9' || 'a' <= c <= 'f' || 'A' <= c <= 'F'
  }

  function HexValue(c: char): (v: nat)
    requires IsHexDigit(c)
    ensures v < 16
  {
    if '0' <= c <= '9' then (c as int) - ('0' as int)
    else if 'a' <= c <= 'f' then (c as int) - ('a' as int) + 10
    else (c as int) - ('A' as int) + 10
  }

  function HexChar(v: nat): (c: char)
    requires v < 16
    ensures IsHexDigit(c) && HexValue(c) == v
  {
    if v < 10 then (('0' as int) + v) as char else (('a' as int) + v - 10) as char
  }

  /**
   * Python's `int(x, 16)` for a string of at most two characters: surrounding
   * whitespace is ignored and an optional sign may precede one digit. An
   * underscore or a `0x` prefix needs at least three characters, so neither
   * can occur here.
   */
  function ParseHex2(x: string): (r: Option<int>)
    requires |x| <= 2
    ensures r.Some? ==> -15 <= r.value <= 255
  {
    var y := Strip(x);
    if y == [] then None
    else if y[0] == '+' || y[0] == '-' then
      if |y| == 2 && IsHexDigit(y[1]) then
        var d: int := HexValue(y[1]);
        Some(if y[0] == '-' then -d else d)
      else None
    else if |y| == 1 && IsHexDigit(y[0]) then Some(HexValue(y[0]))
    else if |y| == 2 && IsHexDigit(y[0]) && IsHexDigit(y[1]) then Some(16 * HexValue(y[0]) + HexValue(y[1]))
    else None
  }

  /** Python's `s[a:b]` for 0 <= a <= b. */
  function Slice(s: string, a: nat, b: nat): (r: string)
    requires a <= b
    ensures |r| <= b - a
  {
    if a >= |s| then [] else if b >= |s| then s[a..] else s[a..b]
  }

  /** `s.lstrip(c)`: drops every leading c. */
  function LStripChar(s: string, c: char): (r: string)
    ensures |r| <= |s| && (r == [] || r[0] != c)
  {
    if s != [] && s[0] == c then LStripChar(s[1..], c) else s
  }

  /** The colour of a "#rrggbb" string; None where Python's int() raises. */
  function HexToRgb(hex: string): Option<Rgb> {
    var h := LStripChar(if hex == [] then DefaultHex else hex, '#');
    var r, g, b := ParseHex2(Slice(h, 0, 2)), ParseHex2(Slice(h, 2, 4)), ParseHex2(Slice(h, 4, 6));
    if r.Some? && g.Some? && b.Some? then Some(Rgb(r.value, g.value, b.value)) else None
  }

  function Hex2(v: nat): (s: string)
    requires v < 256
  {
    [HexChar(v / 16), HexChar(v % 16)]
  }

  /** "#rrggbb" in lower-case hex. */
  function FormatHex(c: Rgb): string
    requires 0 <= c.r < 256 && 0 <= c.g < 256 && 0 <= c.b < 256
  {
    "#" + Hex2(c.r) + Hex2(c.g) + Hex2(c.b)
  }

  lemma ParseHex2Of(v: nat)
    requires v < 256
    ensures ParseHex2(Hex2(v)) == Some(v)
  {
    var s := Hex2(v);
    assert !IsSpace(s[0]) && !IsSpace(s[1]);
    StripOfStripped(s);
  }

  /** Parsing a formatted colour gives the colour back. */
  lemma HexRoundTrip(c: Rgb)
    requires 0 <= c.r < 256 && 0 <= c.g < 256 && 0 <= c.b < 256
    ensures HexToRgb(FormatHex(c)) == Some(c)
  {
    var s := FormatHex(c);
    var h := s[1..];
    assert LStripChar(s, '#') == h;
    assert Slice(h, 0, 2) == Hex2(c.r);
    assert Slice(h, 2, 4) == Hex2(c.g);
    assert Slice(h, 4, 6) == Hex2(c.b);
    ParseHex2Of(c.r);
    ParseHex2Of(c.g);
    ParseHex2Of(c.b);
  }

  /** An empty colour string means the default deep purple; a bare "#" cannot be parsed. */
  lemma HexDefault()
    ensures HexToRgb("") == Some(Rgb(26, 10, 46))
  {
    var c := Rgb(26, 10, 46);
    assert Hex2(26) == "1a" && Hex2(10) == "0a" && Hex2(46) == "2e";
    assert FormatHex(c) == DefaultHex;
    HexRoundTrip(c);
  }

  lemma HexBareHash()
    ensures HexToRgb("#") == None
  {
    assert LStripChar("#", '#') == [];
  }

  // ---------------------------------------------------------------------
  // Easing curves and int()
  // ---------------------------------------------------------------------

  /** _ease_in_out: quadratic ease-in for t < 0.5, mirrored ease-out after it. */
  function EaseInOut(t: real): real {
    if t < 0.5 then 2.0 * t * t else 1.0 - (-2.0 * t + 2.0) * (-2.0 * t + 2.0) / 2.0
  }

  lemma EaseInOutEnds()
    ensures EaseInOut(0.0) == 0.0 && EaseInOut(0.5) == 0.5 && EaseInOut(1.0) == 1.0
  {
  }

  /** The curve is point-symmetric around (0.5, 0.5). */
  lemma EaseInOutSymmetric(t: real)
    ensures EaseInOut(1.0 - t) == 1.0 - EaseInOut(t)
  {
    if t < 0.5 {
      assert -2.0 * (1.0 - t) + 2.0 == 2.0 * t;
    } else if t > 0.5 {
      assert -2.0 * t + 2.0 == 2.0 * (1.0 - t);
    }
  }

  lemma SquareMonotone(a: real, b: real)
    requires 0.0 <= a <= b
    ensures a * a <= b * b
  {
    assert a * a <= a * b;
    assert a * b <= b * b;
  }

  /** On [0, 1] the curve rises from 0 to 1 without overshooting. */
  lemma EaseInOutMonotone(a: real, b: real)
    requires 0.0 <= a <= b <= 1.0
    ensures 0.0 <= EaseInOut(a) <= EaseInOut(b) <= 1.0
  {
    if b < 0.5 {
      SquareMonotone(a, b);
      SquareMonotone(b, 0.5);
    } else if a >= 0.5 {
      SquareMonotone(-2.0 * b + 2.0, -2.0 * a + 2.0);
      SquareMonotone(-2.0 * a + 2.0, 1.0);
    } else {
      SquareMonotone(a, 0.5);
      SquareMonotone(-2.0 * b + 2.0, 1.0);
    }
  }

  /** _ease_out_quad: 1 - (1 - p)^2. */
  function EaseOutQuad(p: real): real {
    1.0 - (1.0 - p) * (1.0 - p)
  }

  lemma EaseOutQuadMonotone(a: real, b: real)
    requires 0.0 <= a <= b <= 1.0
    ensures 0.0 <= EaseOutQuad(a) <= EaseOutQuad(b) <= 1.0
    ensures EaseOutQuad(0.0) == 0.0 && EaseOutQuad(1.0) == 1.0
  {
    SquareMonotone(1.0 - b, 1.0 - a);
    SquareMonotone(1.0 - a, 1.0);
  }

  /** Python's int() on a float: truncation toward zero. */
  function Trunc(x: real): (r: int)
    ensures x >= 0.0 ==> r >= 0 && r as real <= x < r as real + 1.0
    ensures x < 0.0 ==> r <= 0 && r as real - 1.0 < x <= r as real
  {
    if x >= 0.0 then x.Floor else -((-x).Floor)
  }
}
