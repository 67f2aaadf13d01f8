/**
 * The two line-wrapping routines of the tarot video generator:
 * `_wrap_by_chars` (a character budget per line, with short orphan lines
 * merged with the next word) and `_wrap_text_to_fit` (a pixel budget,
 * found by binary search over prefix lengths against a width measure).
 */
module Wrap {
  import opened Text

  /** The characters after which both routines prefer to break a line. */
  predicate IsBreakChar(c: char) {
    c in " \t,，.。!?、"
  }

  function Max0(n: int): nat {
    if n < 0 then 0 else n
  }

  function Min(a: int, b: int): int {
    if a < b then a else b
  }

  /** Lines longer than the budget start with a word of one or two characters and a space. */
  predicate OrphanShape(l: string) {
    (|l| >= 2 && l[1] == ' ') || (|l| >= 3 && l[2] == ' ')
  }

  /** Some index in 1..top holds a break character. */
  predicate HasBreak(remain: string, top: int)
    requires top < |remain|
  {
    exists i :: 1 <= i <= top && IsBreakChar(remain[i])
  }

  /**
   * The backwards break search `for i in range(top, 0, -1)`: one past the
   * largest index i in 1..top holding a break character, or `dflt` when
   * there is none.
   */
  function BreakCut(remain: string, top: int, dflt: nat): (c: nat)
    requires top < |remain|
    ensures HasBreak(remain, top) ==>
      2 <= c <= top + 1 && IsBreakChar(remain[c - 1]) && forall i :: c <= i <= top ==> !IsBreakChar(remain[i])
    ensures !HasBreak(remain, top) ==> c == dflt
    decreases top
  {
    if top < 1 then dflt
    else if IsBreakChar(remain[top]) then top + 1
    else
      assert HasBreak(remain, top) ==> HasBreak(remain, top - 1);
      BreakCut(remain, top - 1, dflt)
  }

  method LastBreakCut(remain: string, top: int, dflt: nat) returns (cut: nat)
    requires top < |remain|
    ensures cut == BreakCut(remain, top, dflt)
  {
    cut := dflt;
    var i := top;
    while i >= 1
      invariant i <= top
      invariant BreakCut(remain, top, dflt) == BreakCut(remain, i, dflt)
    {
      if IsBreakChar(remain[i]) {
        cut := i + 1;
        return;
      }
      i := i - 1;
    }
  }

  /** The first index at or after c that does not hold a space, or |s|. */
  function SkipSpacesFrom(s: string, c: nat): (r: nat)
    requires c <= |s|
    ensures c <= r <= |s|
    ensures forall i :: c <= i < r ==> s[i] == ' '
    ensures r < |s| ==> s[r] != ' '
    decreases |s| - c
  {
    if c < |s| && s[c] == ' ' then SkipSpacesFrom(s, c + 1) else c
  }

  /** `while cut < len(remain) and remain[cut] == " ": cut += 1` */
  method SkipSpaces(s: string, c: nat) returns (r: nat)
    requires c <= |s|
    ensures r == SkipSpacesFrom(s, c)
  {
    r := c;
    while r < |s| && s[r] == ' '
      invariant c <= r <= |s|
      invariant SkipSpacesFrom(s, r) == SkipSpacesFrom(s, c)
      decreases |s| - r
    {
      r := r + 1;
    }
  }

  /** The number of whitespace characters str.strip() removes from the front of s. */
  function LeadingWs(s: string): (n: nat)
    ensures n <= |s| && LStrip(s) == s[n..]
  {
    LStripIsSuffix(s);
    |s| - |LStrip(s)|
  }

  /**
   * The cut after an orphan line has taken the next word, as written: the
   * index of the space that ends the word is counted from `cut`, as though
   * remain[cut..] began with that word, and then spaces are skipped.
   */
  function OrphanCutAsWritten(remain: string, cut: nat, ns: nat): (c: nat)
    requires cut + ns + 1 <= |remain|
    ensures cut + ns + 1 <= c <= |remain|
  {
    SkipSpacesFrom(remain, cut + ns + 1)
  }

  /**
   * The same cut counted from where the stripped rest really begins,
   * `cut + LeadingWs(remain[cut..])`.
   */
  function OrphanCut(remain: string, cut: nat, ns: nat): (c: nat)
    requires cut <= |remain|
    requires cut + LeadingWs(remain[cut..]) + ns + 1 <= |remain|
    ensures cut + LeadingWs(remain[cut..]) + ns + 1 <= c <= |remain|
  {
    SkipSpacesFrom(remain, cut + LeadingWs(remain[cut..]) + ns + 1)
  }

  /** With at most one whitespace character after the cut, the two computations agree. */
  lemma OrphanCutsAgree(remain: string, cut: nat, ns: nat)
    requires cut <= |remain|
    requires LeadingWs(remain[cut..]) <= 1
    requires cut + LeadingWs(remain[cut..]) + ns + 1 <= |remain|
    requires LeadingWs(remain[cut..]) == 1 ==> remain[cut + 1 + ns] == ' '
    ensures OrphanCutAsWritten(remain, cut, ns) == OrphanCut(remain, cut, ns)
  {
  }

  lemma StripOfExample()
    ensures Strip("  cd ef") == "cd ef" && LeadingWs("  cd ef") == 2
  {
    assert LStrip("cd ef") == "cd ef";
    assert " cd ef"[1..] == "cd ef";
    assert LStrip(" cd ef") == "cd ef";
    assert "  cd ef"[1..] == " cd ef";
    assert LStrip("  cd ef") == "cd ef";
    assert RStrip("cd ef") == "cd ef";
  }

  /**
   * "ab  cd ef" with two characters per line: the orphan "ab" takes the
   * word "cd" of the stripped rest "cd ef", yet the as-written cut stops at
   * index 5, inside "cd", so the remainder "d ef" repeats its last letter;
   * the corrected cut is 7 and leaves "ef".
   */
  lemma OrphanCutAsWrittenRereads()
    ensures Strip("ab  cd ef"[2..]) == "cd ef" && Find("cd ef", " ", 0) == 2 && "cd ef"[..2] == "cd"
    ensures OrphanCutAsWritten("ab  cd ef", 2, 2) == 5 && "ab  cd ef"[5..] == "d ef"
    ensures OrphanCut("ab  cd ef", 2, 2) == 7 && "ab  cd ef"[7..] == "ef"
  {
    var remain := "ab  cd ef";
    assert remain[2..] == "  cd ef";
    StripOfExample();
    FindOfExample();
    assert remain[4] == 'c' && remain[5] == 'd' && remain[6] == ' ' && remain[7] == 'e';
  }

  lemma FindOfExample()
    ensures Find("cd ef", " ", 0) == 2
  {
    var t := "cd ef";
    assert t[0..1] == ['c'];
    assert t[1..2] == ['d'];
    assert t[2..3] == [' '];
  }

  /** `Strip(head + " " + word)` when head is stripped and the word starts with a non-space. */
  lemma {:induction false} RStripAppend(a: string, b: string)
    requires b != [] && !IsSpace(b[0])
    ensures RStrip(a + b) == a + RStrip(b)
    decreases |b|
  {
    if IsSpace(b[|b| - 1]) {
      assert (a + b)[..|a + b| - 1] == a + b[..|b| - 1];
      RStripAppend(a, b[..|b| - 1]);
    }
  }

  lemma NonWsAroundSpace(head: string, w: string)
    ensures NonWs(head + " " + w) == NonWs(head) + NonWs(w)
  {
    var hs := head + " ";
    NonWsConcat(hs, w);
    NonWsConcat(head, " ");
    NonWsOfSpaces(" ");
    assert NonWs(hs) == NonWs(head);
  }

  lemma OrphanLineShape(head: string, w: string)
    requires head != [] && IsStripped(head)
    requires w != [] && !IsSpace(w[0])
    ensures Strip(head + " " + w) == head + " " + RStrip(w)
    ensures NonWs(Strip(head + " " + w)) == NonWs(head) + NonWs(w)
  {
    var hs := head + " ";
    var s := hs + w;
    assert s[0] == head[0];
    StripOfNonSpaceStart(s);
    RStripAppend(hs, w);
    StripKeepsNonWs(s);
    NonWsAroundSpace(head, w);
  }

  /** A line of one or two characters followed by a space has the orphan shape. */
  lemma OrphanShapeOf(head: string, w: string)
    requires 1 <= |head| <= 2
    ensures OrphanShape(head + " " + w)
  {
    var l := head + " " + w;
    assert l[|head|] == ' ';
  }

  /** An ordinary cut: the line and the new remainder share the remainder's content. */
  lemma CutAccounting(remain: string, cut: nat)
    requires remain != [] && !IsSpace(remain[0])
    requires 1 <= cut <= |remain|
    ensures Strip(remain[..cut]) != [] && |Strip(remain[..cut])| <= cut
    ensures |Strip(remain[cut..])| < |remain|
    ensures NonWs(Strip(remain[..cut])) + NonWs(Strip(remain[cut..])) == NonWs(remain)
  {
    StripOfNonSpaceStart(remain[..cut]);
    StripKeepsNonWs(remain[..cut]);
    StripKeepsNonWs(remain[cut..]);
    NonWsSplitAt(remain, cut);
  }

  /**
   * The corrected orphan cut consumes exactly the merged word: the text
   * before the new cut holds the content of the orphan line and the word,
   * and nothing else.
   */
  lemma SliceOfSlice(s: string, a: nat, b: nat)
    requires a + b <= |s|
    ensures s[a..][b..] == s[a + b..]
  {
  }

  lemma LStripOfTail(remain: string, cut: nat, lead: nat)
    requires cut <= |remain|
    requires lead == LeadingWs(remain[cut..])
    ensures cut + lead <= |remain| && LStrip(remain[cut..]) == remain[cut + lead..]
  {
    SliceOfSlice(remain, cut, lead);
  }

  /** The stripped rest is the slice of `remain` that starts after the leading whitespace. */
  lemma RestIsSlice(remain: string, cut: nat, lead: nat, rest: string)
    requires cut <= |remain|
    requires lead == LeadingWs(remain[cut..])
    requires rest == Strip(remain[cut..])
    ensures cut + lead + |rest| <= |remain|
    ensures rest == remain[cut + lead..cut + lead + |rest|]
  {
    LStripOfTail(remain, cut, lead);
    PrefixSlice(remain[cut + lead..], rest);
    SliceOfSlicePrefix(remain, cut + lead, |rest|);
  }

  lemma PrefixSlice(ls: string, rest: string)
    requires rest == RStrip(ls)
    ensures |rest| <= |ls| && rest == ls[..|rest|]
  {
  }

  lemma SliceOfSlicePrefix(s: string, a: nat, n: nat)
    requires a + n <= |s|
    ensures s[a..][..n] == s[a..a + n]
  {
  }

  lemma OrphanCutConsumesWord(remain: string, cut: nat, ns: nat)
    requires cut < |remain|
    requires var rest := Strip(remain[cut..]); 0 < ns < |rest| && rest[ns] == ' '
    ensures var rest := Strip(remain[cut..]);
      cut + LeadingWs(remain[cut..]) + ns + 1 <= |remain|
      && NonWs(remain[..OrphanCut(remain, cut, ns)]) == NonWs(remain[..cut]) + NonWs(rest[..ns])
  {
    var tail := remain[cut..];
    var lead := LeadingWs(tail);
    var rest := Strip(tail);
    WordAfterLead(remain, cut, lead, rest, ns);
    ConsumedThroughCut(remain, cut, lead, ns);
  }

  lemma WordAfterLead(remain: string, cut: nat, lead: nat, rest: string, ns: nat)
    requires cut <= |remain|
    requires lead == LeadingWs(remain[cut..])
    requires rest == Strip(remain[cut..])
    requires ns < |rest| && rest[ns] == ' '
    ensures cut + lead + ns + 1 <= |remain|
    ensures remain[cut + lead..cut + lead + ns] == rest[..ns] && remain[cut + lead + ns] == ' '
  {
    RestIsSlice(remain, cut, lead, rest);
    WordSlice(remain, cut + lead, rest, ns);
  }

  lemma ConsumedThroughCut(remain: string, cut: nat, lead: nat, ns: nat)
    requires cut <= |remain|
    requires lead == LeadingWs(remain[cut..])
    requires cut + lead + ns + 1 <= |remain| && remain[cut + lead + ns] == ' '
    ensures NonWs(remain[..OrphanCut(remain, cut, ns)]) == NonWs(remain[..cut]) + NonWs(remain[cut + lead..cut + lead + ns])
  {
    LeadIsSpace(remain, cut, lead);
    var newcut := OrphanCut(remain, cut, ns);
    SpacesBeforeCut(remain, cut + lead + ns, newcut);
    ConsumedContent(remain, cut, cut + lead, ns, newcut);
  }

  lemma SpacesBeforeCut(remain: string, c: nat, newcut: nat)
    requires c < |remain| && remain[c] == ' '
    requires newcut == SkipSpacesFrom(remain, c + 1)
    ensures forall i :: c <= i < newcut ==> IsSpace(remain[i])
  {
  }

  lemma WordSlice(remain: string, start: nat, rest: string, ns: nat)
    requires start + |rest| <= |remain| && rest == remain[start..start + |rest|]
    requires ns < |rest|
    ensures rest[..ns] == remain[start..start + ns] && remain[start + ns] == rest[ns]
  {
  }

  lemma LeadIsSpace(remain: string, cut: nat, lead: nat)
    requires cut <= |remain|
    requires lead == LeadingWs(remain[cut..])
    ensures forall i :: cut <= i < cut + lead ==> IsSpace(remain[i])
  {
    var tail := remain[cut..];
    LStripRemovesSpaces(tail);
    forall i | cut <= i < cut + lead
      ensures IsSpace(remain[i])
    {
      assert remain[i] == tail[i - cut];
    }
  }

  lemma ConsumedContent(remain: string, cut: nat, start: nat, ns: nat, newcut: nat)
    requires cut <= start && start + ns < newcut <= |remain|
    requires forall i :: cut <= i < start ==> IsSpace(remain[i])
    requires forall i :: start + ns <= i < newcut ==> IsSpace(remain[i])
    ensures NonWs(remain[..newcut]) == NonWs(remain[..cut]) + NonWs(remain[start..start + ns])
  {
    var pre := remain[..newcut];
    NonWsDropSpaces(pre, start + ns, newcut);
    assert pre[..start + ns] == remain[..start + ns];
    assert pre[newcut..] == [];
    var mid := remain[..start + ns];
    NonWsDropSpaces(mid, cut, start);
    assert mid[..cut] == remain[..cut];
    assert mid[start..] == remain[start..start + ns];
  }

  /** Content bookkeeping for lines: `Join(lines, "")` spells them one after the other. */
  lemma JoinAppend(lines: seq<string>, l: string)
    ensures Join(lines + [l], "") == Join(lines, "") + l
  {
    if lines == [] {
      assert lines + [l] == [l];
    } else {
      JoinConcat(lines, [l], "");
    }
  }

  predicate IsPrefix(a: string, b: string) {
    |a| <= |b| && b[..|a|] == a
  }

  /** A non-empty, stripped line within the budget unless it has the orphan shape. */
  predicate GoodLine(l: string, cpl: int) {
    l != [] && IsStripped(l) && (|l| <= cpl || OrphanShape(l))
  }

  /** Every line is good. */
  predicate GoodLines(lines: seq<string>, cpl: int) {
    forall k :: 0 <= k < |lines| ==> GoodLine(lines[k], cpl)
  }

  lemma GoodLinesAppend(lines: seq<string>, l: string, cpl: int)
    requires GoodLines(lines, cpl) && GoodLine(l, cpl)
    ensures GoodLines(lines + [l], cpl)
  {
    assert forall k :: 0 <= k < |lines| ==> (lines + [l])[k] == lines[k];
  }

  /** A string ending in a non-space character keeps something after str.strip(). */
  lemma StripOfNonSpaceEnd(s: string)
    requires s != [] && !IsSpace(s[|s| - 1])
    ensures Strip(s) != []
  {
    LStripRemovesSpaces(s);
    LStripIsSuffix(s);
    var l := LStrip(s);
    assert l != [] && l[|l| - 1] == s[|s| - 1];
  }

  /** What follows an inner cut of a stripped string survives str.strip(). */
  lemma RestNonEmpty(remain: string, cut: nat)
    requires IsStripped(remain) && cut < |remain|
    ensures Strip(remain[cut..]) != []
  {
    var tail := remain[cut..];
    assert tail[|tail| - 1] == remain[|remain| - 1];
    StripOfNonSpaceEnd(tail);
  }

  /** `rest.find(" ")` returned a positive index: the character there is the space. */
  lemma FoundSpace(rest: string, ns: int)
    requires ns == Find(rest, " ", 0) && ns > 0
    ensures ns < |rest| && rest[ns] == ' '
  {
    assert rest[ns..ns + 1] == " ";
  }

  /**
   * The orphan merge of `_wrap_by_chars`: a line of at most two characters
   * takes the next word of the stripped rest (or the whole rest when it has
   * no space), and the cut moves past it. The merged line has the orphan
   * shape and holds exactly the content of `remain` before the new cut.
   */
  method MergeOrphan(remain: string, cut: nat, line: string) returns (merged: string, newCut: nat)
    requires IsStripped(remain) && 1 <= cut < |remain|
    requires line == Strip(remain[..cut]) && line != [] && |line| <= 2
    ensures cut < newCut <= |remain|
    ensures merged != [] && IsStripped(merged) && OrphanShape(merged)
    ensures NonWs(merged) == NonWs(remain[..newCut])
  {
    var rest := Strip(remain[cut..]);
    var ns := Find(rest, " ", 0);
    RestNonEmpty(remain, cut);
    if ns > 0 {
      FoundSpace(rest, ns);
      OrphanCutFits(remain, cut, rest, ns);
      merged := Strip(line + " " + rest[..ns]);
      newCut := SkipSpaces(remain, cut + LeadingWs(remain[cut..]) + ns + 1);
      MergedWord(remain, cut, line, rest, ns, merged, newCut);
    } else {
      merged := Strip(line + " " + rest);
      newCut := |remain|;
      MergedRest(remain, cut, line, rest, merged);
    }
  }

  lemma OrphanCutFits(remain: string, cut: nat, rest: string, ns: nat)
    requires cut <= |remain| && rest == Strip(remain[cut..]) && ns < |rest| && rest[ns] == ' '
    ensures cut + LeadingWs(remain[cut..]) + ns + 1 <= |remain|
  {
    WordAfterLead(remain, cut, LeadingWs(remain[cut..]), rest, ns);
  }

  /** The orphan line merged with the next word holds the content of `remain` up to the corrected cut. */
  lemma MergedWord(remain: string, cut: nat, line: string, rest: string, ns: nat, m: string, newCut: nat)
    requires cut < |remain| && line == Strip(remain[..cut]) && 1 <= |line| <= 2
    requires rest == Strip(remain[cut..]) && 0 < ns < |rest| && rest[ns] == ' '
    requires cut + LeadingWs(remain[cut..]) + ns + 1 <= |remain|
    requires m == Strip(line + " " + rest[..ns])
    requires newCut == SkipSpacesFrom(remain, cut + LeadingWs(remain[cut..]) + ns + 1)
    ensures m != [] && OrphanShape(m) && newCut <= |remain| && NonWs(m) == NonWs(remain[..newCut])
  {
    var word := rest[..ns];
    assert word[0] == rest[0];
    OrphanLineShape(line, word);
    OrphanShapeOf(line, RStrip(word));
    StripKeepsNonWs(remain[..cut]);
    OrphanCutConsumesWord(remain, cut, ns);
    assert newCut == OrphanCut(remain, cut, ns);
  }

  /** The orphan line merged with a rest that has no space holds all of `remain`. */
  lemma MergedRest(remain: string, cut: nat, line: string, rest: string, m: string)
    requires cut < |remain| && line == Strip(remain[..cut]) && 1 <= |line| <= 2
    requires rest == Strip(remain[cut..]) && rest != []
    requires m == Strip(line + " " + rest)
    ensures m != [] && OrphanShape(m) && NonWs(m) == NonWs(remain[..|remain|])
  {
    OrphanLineShape(line, rest);
    OrphanShapeOf(line, RStrip(rest));
    StripKeepsNonWs(remain[..cut]);
    StripKeepsNonWs(remain[cut..]);
    NonWsSplitAt(remain, cut);
    assert remain[..|remain|] == remain;
  }

  /** One line taken off the front: the content invariant of the wrapping loops is kept. */
  lemma TakeLine(text: string, lines: seq<string>, remain: string, line: string, cut: nat)
    requires cut <= |remain|
    requires NonWs(Join(lines, "")) + NonWs(remain) == NonWs(text)
    requires NonWs(line) == NonWs(remain[..cut])
    ensures NonWs(Join(lines + [line], "")) + NonWs(Strip(remain[cut..])) == NonWs(text)
  {
    JoinAppend(lines, line);
    NonWsConcat(Join(lines, ""), line);
    NonWsSplitAt(remain, cut);
    StripKeepsNonWs(remain[cut..]);
    Regroup(NonWs(Join(lines, "")), NonWs(line), NonWs(remain[cut..]), NonWs(remain), NonWs(text));
  }

  lemma Regroup(j: string, l: string, b: string, r: string, t: string)
    requires j + r == t && r == l + b
    ensures (j + l) + b == t
  {
  }

  /** The last line is the whole remainder. */
  lemma TakeRest(text: string, lines: seq<string>, remain: string)
    requires NonWs(Join(lines, "")) + NonWs(remain) == NonWs(text)
    ensures NonWs(Join(lines + [remain], "")) == NonWs(text)
  {
    JoinAppend(lines, remain);
    NonWsConcat(Join(lines, ""), remain);
  }

  /** An ordinary line: its content is that of `remain` before the cut. */
  lemma PlainLine(remain: string, cut: nat)
    requires remain != [] && !IsSpace(remain[0])
    requires 1 <= cut <= |remain|
    ensures Strip(remain[..cut]) != [] && |Strip(remain[..cut])| <= cut
    ensures NonWs(Strip(remain[..cut])) == NonWs(remain[..cut])
  {
    StripOfNonSpaceStart(remain[..cut]);
    StripKeepsNonWs(remain[..cut]);
  }

  /**
   * `_wrap_by_chars(text, chars_per_line, max_lines)`, with the orphan
   * cut corrected as `OrphanCut` describes.
   */
  method WrapByChars(text: string, cpl: int, maxLines: int) returns (lines: seq<string>)
    ensures text == [] ==> lines == []
    ensures text != [] && cpl <= 0 ==> lines == [text]
    ensures text != [] && cpl > 0 ==>
      |lines| <= Max0(maxLines) && GoodLines(lines, cpl)
      && IsPrefix(NonWs(Join(lines, "")), NonWs(text))
      && (|lines| < maxLines ==> NonWs(Join(lines, "")) == NonWs(text))
  {
    if text == [] || cpl <= 0 {
      return if text != [] then [text] else [];
    }
    lines := [];
    var remain := Strip(text);
    StripKeepsNonWs(text);
    while remain != [] && |lines| < maxLines
      invariant IsStripped(remain)
      invariant |lines| <= Max0(maxLines)
      invariant GoodLines(lines, cpl)
      invariant NonWs(Join(lines, "")) + NonWs(remain) == NonWs(text)
      decreases |remain|
    {
      if |remain| <= cpl {
        TakeRest(text, lines, remain);
        GoodLinesAppend(lines, remain, cpl);
        lines := lines + [remain];
        remain := [];
        break;
      }
      var cut := LastBreakCut(remain, cpl - 1, cpl);
      PlainLine(remain, cut);
      var line := Strip(remain[..cut]);
      if |line| <= 2 && |remain| > cut {
        line, cut := MergeOrphan(remain, cut, line);
      }
      GoodLinesAppend(lines, line, cpl);
      TakeLine(text, lines, remain, line, cut);
      lines := lines + [line];
      remain := Strip(remain[cut..]);
    }
    PrefixOfSum(NonWs(Join(lines, "")), NonWs(remain), NonWs(text));
  }

  lemma PrefixOfSum(a: string, b: string, c: string)
    requires a + b == c
    ensures IsPrefix(a, c)
  {
    assert c[..|a|] == (a + b)[..|a|];
  }

  /**
   * The orphan merge as written: the line takes the next word of the
   * stripped rest, or the whole rest when it has no space, and the cut
   * moves as line 196 computes it. A rest with nothing in it leaves line
   * and cut alone, as the `elif rest` test does.
   */
  function OrphanStepAsWritten(remain: string, cut: nat, line: string): (r: (string, nat))
    requires cut < |remain|
    ensures cut <= r.1 <= |remain|
  {
    var rest := Strip(remain[cut..]);
    var ns := Find(rest, " ", 0);
    if ns > 0 then
      assert ns + 1 <= |rest| <= |remain| - cut;
      (Strip(line + " " + rest[..ns]), OrphanCutAsWritten(remain, cut, ns))
    else if rest != [] then (Strip(line + " " + rest), |remain|)
    else (line, cut)
  }

  /**
   * One pass of the `_wrap_by_chars` loop over a remainder longer than the
   * budget, as written: the line it appends and the cut it moves to.
   */
  function LineStepAsWritten(remain: string, cpl: int): (r: (string, nat))
    requires 0 < cpl < |remain|
    ensures 1 <= r.1 <= |remain|
  {
    var cut := BreakCut(remain, cpl - 1, cpl);
    var line := Strip(remain[..cut]);
    if |line| <= 2 && |remain| > cut then OrphanStepAsWritten(remain, cut, line) else (line, cut)
  }

  /**
   * The lines `_wrap_by_chars` produces from the stripped text `remain`
   * with `budget` lines still allowed, exactly as written, orphan cut
   * included.
   */
  function WrapAsWritten(remain: string, cpl: int, budget: int): (lines: seq<string>)
    requires cpl > 0
    ensures |lines| <= Max0(budget)
    decreases |remain|
  {
    if remain == [] || budget <= 0 then []
    else if |remain| <= cpl then [remain]
    else
      var step := LineStepAsWritten(remain, cpl);
      [step.0] + WrapAsWritten(Strip(remain[step.1..]), cpl, budget - 1)
  }

  /**
   * "ab  cd ef" with two characters per line: as written the letter "d"
   * appears on both lines, so the content the corrected `WrapByChars`
   * keeps is not kept.
   */
  lemma WrapAsWrittenDuplicates()
    ensures WrapAsWritten(Strip("ab  cd ef"), 2, 10) == ["ab cd", "d ef"]
  {
    var remain := "ab  cd ef";
    StrippedExamples();
    FirstStepExample();
    SecondStepExample();
    LastLineExample();
    assert WrapAsWritten(remain, 2, 10) == ["ab cd"] + WrapAsWritten("d ef", 2, 9);
  }

  lemma StrippedExamples()
    ensures Strip("ab  cd ef") == "ab  cd ef" && Strip("ab  cd ef"[5..]) == "d ef"
  {
    var remain := "ab  cd ef";
    assert LStrip(remain) == remain;
    assert RStrip(remain) == remain;
    var r2 := "d ef";
    assert remain[5..] == r2;
    assert LStrip(r2) == r2;
    assert RStrip(r2) == r2;
  }

  lemma LastLineExample()
    ensures WrapAsWritten("d ef", 2, 9) == ["d ef"]
  {
    var r2 := "d ef";
    SecondStepExample();
    assert r2[4..] == [];
    assert Strip(r2[4..]) == [];
    assert WrapAsWritten(r2, 2, 9) == ["d ef"] + WrapAsWritten([], 2, 8);
  }

  /**
   * The two as-written lines hold seven non-space characters, the text
   * only six: the corrected `WrapByChars` keeps the text's content, the
   * wrap as written does not.
   */
  lemma WrapAsWrittenGainsContent()
    ensures |NonWs(Join(WrapAsWritten(Strip("ab  cd ef"), 2, 10), ""))| == 7
    ensures |NonWs("ab  cd ef")| == 6
  {
    WrapAsWrittenDuplicates();
    JoinedExample();
    TextContentExample();
  }

  lemma JoinedExample()
    ensures |NonWs(Join(["ab cd", "d ef"], ""))| == 7
  {
    JoinAppend(["ab cd"], "d ef");
    assert Join(["ab cd"], "") == "ab cd";
    WordsExample();
    SpacedExample("ab", "cd");
    SpacedExample("d", "ef");
    NonWsConcat("ab cd", "d ef");
  }

  lemma TextContentExample()
    ensures |NonWs("ab  cd ef")| == 6
  {
    WordsExample();
    SpacedExample("cd", "ef");
    SpacedExample("", "cd ef");
    SpacedExample("ab", " cd ef");
  }

  lemma WordsExample()
    ensures NonWs("ab") == "ab" && NonWs("cd") == "cd" && NonWs("d") == "d" && NonWs("ef") == "ef"
  {
  }

  lemma SpacedExample(a: string, b: string)
    ensures NonWs(a + " " + b) == NonWs(a) + NonWs(b)
  {
    NonWsAroundSpace(a, b);
  }

  lemma FirstStepExample()
    ensures LineStepAsWritten("ab  cd ef", 2) == ("ab cd", 5)
  {
    var remain := "ab  cd ef";
    OrphanCutAsWrittenRereads();
    assert BreakCut(remain, 1, 2) == 2;
    assert remain[..2] == "ab";
    assert Strip("ab") == "ab";
    assert Strip("ab" + " " + "cd") == "ab cd";
  }

  lemma SecondStepExample()
    ensures LineStepAsWritten("d ef", 2) == ("d ef", 4)
  {
    var r2 := "d ef";
    assert r2[1] == ' ';
    assert BreakCut(r2, 1, 2) == 2;
    assert r2[..2] == "d ";
    assert Strip("d ") == "d" by {
      assert "d "[..1] == "d";
    }
    assert r2[2..] == "ef";
    assert Strip("ef") == "ef";
    assert Find("ef", " ", 0) == -1 by {
      assert "ef"[0..1] == "e";
      assert "ef"[1..2] == "f";
    }
    assert Strip("d" + " " + "ef") == "d ef";
  }

  /** A width measure that never decreases as a prefix grows. */
  ghost predicate IsMonotone(width: string -> int) {
    forall s: string, i, j :: 0 <= i <= j <= |s| ==> width(s[..i]) <= width(s[..j])
  }

  predicate FitsPrefix(remain: string, width: string -> int, maxW: int, k: nat)
    requires k <= |remain|
  {
    width(remain[..k]) <= maxW
  }

  /**
   * The binary search of `_wrap_text_to_fit` over prefix lengths in
   * [1, min(len(remain), 50)]. It always returns a length in that range
   * which fits or is 1; for a monotone measure it returns the largest
   * fitting length, or 1 when none fits.
   */
  method LongestFittingPrefix(remain: string, width: string -> int, maxW: int) returns (best: nat)
    requires remain != []
    ensures 1 <= best <= Min(|remain|, 50)
    ensures best == 1 || FitsPrefix(remain, width, maxW, best)
    ensures IsMonotone(width) ==>
      (forall k :: best < k <= Min(|remain|, 50) ==> !FitsPrefix(remain, width, maxW, k))
      && (best > 1 || !FitsPrefix(remain, width, maxW, 1) || FitsPrefix(remain, width, maxW, best))
  {
    var hi := Min(|remain|, 50);
    var low, high := 1, hi;
    best := 1;
    while low <= high
      invariant 1 <= low <= hi + 1 && 0 <= high <= hi && low <= high + 1
      invariant 1 <= best <= hi
      invariant (low == 1 && best == 1) || (best == low - 1 && FitsPrefix(remain, width, maxW, best))
      invariant IsMonotone(width) ==> forall k :: high < k <= hi ==> !FitsPrefix(remain, width, maxW, k)
      decreases high - low
    {
      var mid := (low + high) / 2;
      if width(remain[..mid]) <= maxW {
        best := mid;
        low := mid + 1;
      } else {
        if IsMonotone(width) {
          forall k | mid <= k <= hi
            ensures !FitsPrefix(remain, width, maxW, k)
          {
            assert width(remain[..mid]) <= width(remain[..k]);
          }
        }
        high := mid - 1;
      }
    }
  }

  /**
   * Lines of `_wrap_text_to_fit` stay within the budget except for the
   * character a break search at index `best` may add, and lines of at
   * most two characters from a prefix that does not fit at all.
   */
  predicate FitLines(lines: seq<string>, width: string -> int, maxW: int) {
    forall k :: 0 <= k < |lines| ==> |lines[k]| <= 2 || width(lines[k][..|lines[k]| - 1]) <= maxW
  }

  /** Every line is non-empty and stripped. */
  predicate StrippedLines(lines: seq<string>) {
    forall k :: 0 <= k < |lines| ==> lines[k] != [] && IsStripped(lines[k])
  }

  /** The first `upto` lines have at most n characters. */
  predicate ShortLines(lines: seq<string>, n: nat, upto: nat)
    requires upto <= |lines|
  {
    forall k :: 0 <= k < upto ==> |lines[k]| <= n
  }

  lemma StrippedAppend(lines: seq<string>, l: string, n: nat, bounded: bool)
    requires StrippedLines(lines) && ShortLines(lines, n, |lines|)
    requires l != [] && IsStripped(l)
    requires bounded ==> |l| <= n
    ensures StrippedLines(lines + [l])
    ensures ShortLines(lines + [l], n, |lines|)
    ensures bounded ==> ShortLines(lines + [l], n, |lines| + 1)
  {
    assert forall k :: 0 <= k < |lines| ==> (lines + [l])[k] == lines[k];
  }

  lemma FitLinesAppend(lines: seq<string>, l: string, width: string -> int, maxW: int)
    requires FitLines(lines, width, maxW)
    requires |l| <= 2 || width(l[..|l| - 1]) <= maxW
    ensures FitLines(lines + [l], width, maxW)
  {
    assert forall k :: 0 <= k < |lines| ==> (lines + [l])[k] == lines[k];
  }

  lemma FitLineOfCut(remain: string, width: string -> int, maxW: int, best: nat, cut: nat)
    requires IsMonotone(width)
    requires remain != [] && !IsSpace(remain[0])
    requires 1 <= best <= |remain| && 1 <= cut <= |remain| && cut <= best + 1
    requires best == 1 || FitsPrefix(remain, width, maxW, best)
    requires best > 1 || !FitsPrefix(remain, width, maxW, 1) || FitsPrefix(remain, width, maxW, best)
    ensures var l := Strip(remain[..cut]); |l| <= 2 || width(l[..|l| - 1]) <= maxW
  {
    var l := Strip(remain[..cut]);
    StripOfNonSpaceStart(remain[..cut]);
    if |l| > 2 {
      assert l == remain[..|l|];
      assert l[..|l| - 1] == remain[..|l| - 1];
      assert width(remain[..|l| - 1]) <= width(remain[..best]);
    }
  }

  /** A remainder that fits whole is a line that fits without its last character. */
  lemma WholeFits(remain: string, width: string -> int, maxW: int)
    requires IsMonotone(width) && remain != [] && width(remain) <= maxW
    ensures width(remain[..|remain| - 1]) <= maxW
  {
    assert remain[..|remain|] == remain;
    assert width(remain[..|remain| - 1]) <= width(remain[..|remain|]);
  }

  /** The break search of `_wrap_text_to_fit` moves the cut at most one past `best`. */
  lemma FitCutBounds(remain: string, best: nat, cut: nat)
    requires 1 <= best <= |remain|
    requires cut == BreakCut(remain, Min(best, |remain| - 1), best) || (cut == best && BreakCut(remain, Min(best, |remain| - 1), best) <= 0)
    ensures 1 <= cut <= |remain| && cut <= best + 1
  {
  }

  /** `_wrap_text_to_fit(draw, text, font, max_width_px, max_lines)` with the text measure `width`. */
  method WrapTextToFit(text: string, width: string -> int, maxW: int, maxLines: int) returns (lines: seq<string>)
    ensures text == [] ==> lines == []
    ensures text != [] && maxW <= 0 ==> lines == [text]
    ensures text != [] && maxW > 0 ==>
      |lines| <= Max0(maxLines) && StrippedLines(lines) && ShortLines(lines, 51, Max0(|lines| - 1))
      && IsPrefix(NonWs(Join(lines, "")), NonWs(text))
      && (|lines| < maxLines ==> NonWs(Join(lines, "")) == NonWs(text))
      && (IsMonotone(width) ==> FitLines(lines, width, maxW))
  {
    if text == [] || maxW <= 0 {
      return if text != [] then [text] else [];
    }
    lines := [];
    var remain := Strip(text);
    StripKeepsNonWs(text);
    while remain != [] && |lines| < maxLines
      invariant IsStripped(remain)
      invariant |lines| <= Max0(maxLines)
      invariant StrippedLines(lines) && ShortLines(lines, 51, |lines|)
      invariant NonWs(Join(lines, "")) + NonWs(remain) == NonWs(text)
      invariant IsMonotone(width) ==> FitLines(lines, width, maxW)
      decreases |remain|
    {
      if width(remain) <= maxW {
        TakeRest(text, lines, remain);
        StrippedAppend(lines, remain, 51, false);
        if IsMonotone(width) {
          WholeFits(remain, width, maxW);
          FitLinesAppend(lines, remain, width, maxW);
        }
        lines := lines + [remain];
        remain := [];
        break;
      }
      var best := LongestFittingPrefix(remain, width, maxW);
      var cut := LastBreakCut(remain, Min(best, |remain| - 1), best);
      if cut <= 0 {
        cut := best;
      }
      FitCutBounds(remain, best, cut);
      PlainLine(remain, cut);
      var line := Strip(remain[..cut]);
      StrippedAppend(lines, line, 51, true);
      if IsMonotone(width) {
        FitLineOfCut(remain, width, maxW, best, cut);
        FitLinesAppend(lines, line, width, maxW);
      }
      TakeLine(text, lines, remain, line, cut);
      lines := lines + [line];
      remain := Strip(remain[cut..]);
    }
    PrefixOfSum(NonWs(Join(lines, "")), NonWs(remain), NonWs(text));
  }
}
