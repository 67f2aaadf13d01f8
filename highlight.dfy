/**
 * `_split_line_with_highlights` of the tarot video generator: one line of the
 * empathy screen is cut into alternating plain and highlighted segments, a
 * character being highlighted when it lies inside an occurrence of a keyword
 * of at least two characters.
 */
module Highlight {
  import opened Text

  datatype Segment = Segment(text: string, highlighted: bool)

  /** The half-open character range [start, end). */
  datatype Span = Span(start: nat, end: nat)

  predicate Covers(m: Span, p: int) {
    m.start <= p < m.end
  }

  predicate InSpans(spans: seq<Span>, p: int) {
    exists k :: 0 <= k < |spans| && Covers(spans[k], p)
  }

  /** Keywords shorter than two characters are never searched for. */
  predicate Searched(kw: string) {
    |kw| >= 2
  }

  /** `m` is an occurrence in `line` of one of the searched keywords. */
  predicate IsMatch(line: string, keywords: seq<string>, m: Span) {
    exists j :: 0 <= j < |keywords| && Searched(keywords[j])
      && OccursAt(line, keywords[j], m.start) && m.end == m.start + |keywords[j]|
  }

  /** Character p of `line` lies inside an occurrence of a searched keyword. */
  predicate Covered(line: string, keywords: seq<string>, p: int) {
    exists j, i :: 0 <= j < |keywords| && Searched(keywords[j])
      && OccursAt(line, keywords[j], i) && i <= p < i + |keywords[j]|
  }

  /** The text of the segments, in order. */
  function Concat(segs: seq<Segment>): string {
    if segs == [] then [] else Concat(segs[..|segs| - 1]) + segs[|segs| - 1].text
  }

  /** The highlight flag of every character the segments carry. */
  function Flags(segs: seq<Segment>): seq<bool> {
    if segs == [] then []
    else Flags(segs[..|segs| - 1]) + seq(|segs[|segs| - 1].text|, _ => segs[|segs| - 1].highlighted)
  }

  lemma {:induction false} FlagsLength(segs: seq<Segment>)
    ensures |Flags(segs)| == |Concat(segs)|
  {
    if segs != [] {
      FlagsLength(segs[..|segs| - 1]);
    }
  }

  lemma AppendSegment(segs: seq<Segment>, s: Segment)
    ensures Concat(segs + [s]) == Concat(segs) + s.text
    ensures Flags(segs + [s]) == Flags(segs) + seq(|s.text|, _ => s.highlighted)
  {
    assert (segs + [s])[..|segs|] == segs;
  }

  predicate NonEmptySegments(segs: seq<Segment>) {
    forall k :: 0 <= k < |segs| ==> segs[k].text != []
  }

  /** Plain and highlighted segments take turns. */
  predicate Alternating(segs: seq<Segment>) {
    forall k :: 0 <= k < |segs| - 1 ==> segs[k].highlighted != segs[k + 1].highlighted
  }

  /**
   * The keyword scan: for every searched keyword, every index where it
   * occurs, found by repeated str.find from one past the previous hit.
   */
  method CollectMatches(line: string, keywords: seq<string>) returns (matches: seq<Span>)
    ensures forall k :: 0 <= k < |matches| ==> IsMatch(line, keywords, matches[k])
    ensures forall j, i :: (0 <= j < |keywords| && Searched(keywords[j]) && OccursAt(line, keywords[j], i)
      ==> Span(i, i + |keywords[j]|) in matches)
  {
    matches := [];
    var j := 0;
    while j < |keywords|
      invariant 0 <= j <= |keywords|
      invariant forall k :: 0 <= k < |matches| ==> IsMatch(line, keywords, matches[k])
      invariant forall j', i :: (0 <= j' < j && Searched(keywords[j']) && OccursAt(line, keywords[j'], i)
        ==> Span(i, i + |keywords[j']|) in matches)
    {
      var kw := keywords[j];
      if Searched(kw) {
        var start := 0;
        while true
          invariant 0 <= start <= |line|
          invariant forall k :: 0 <= k < |matches| ==> IsMatch(line, keywords, matches[k])
          invariant forall j', i :: (0 <= j' < j && Searched(keywords[j']) && OccursAt(line, keywords[j'], i)
            ==> Span(i, i + |keywords[j']|) in matches)
          invariant forall i :: 0 <= i < start && OccursAt(line, kw, i) ==> Span(i, i + |kw|) in matches
          decreases |line| - start
        {
          var idx := Find(line, kw, start);
          if idx < 0 {
            break;
          }
          matches := matches + [Span(idx, idx + |kw|)];
          start := idx + 1;
        }
      }
      j := j + 1;
    }
  }

  /** The sort key (start, -(end - start)): by start, longer spans first. */
  predicate SpanLe(a: Span, b: Span) {
    a.start < b.start || (a.start == b.start && a.end - a.start >= b.end - b.start)
  }

  predicate SortedSpans(s: seq<Span>) {
    forall a, b :: 0 <= a < b < |s| ==> SpanLe(s[a], s[b])
  }

  lemma ConsSorted(x: Span, t: seq<Span>)
    requires SortedSpans(t)
    requires forall k :: 0 <= k < |t| ==> SpanLe(x, t[k])
    ensures SortedSpans([x] + t)
  {
    var r := [x] + t;
    forall a, b | 0 <= a < b < |r|
      ensures SpanLe(r[a], r[b])
    {
      if a > 0 {
        assert r[a] == t[a - 1] && r[b] == t[b - 1];
      }
    }
  }

  function InsertSpan(m: Span, s: seq<Span>): (r: seq<Span>)
    requires SortedSpans(s)
    ensures SortedSpans(r)
    ensures multiset(r) == multiset(s) + multiset{m}
  {
    if s == [] then [m]
    else if SpanLe(m, s[0]) then
      ConsSorted(m, s);
      [m] + s
    else
      assert s == [s[0]] + s[1..];
      var t := InsertSpan(m, s[1..]);
      assert forall k :: 0 <= k < |t| ==> SpanLe(s[0], t[k]) by {
        forall k | 0 <= k < |t|
          ensures SpanLe(s[0], t[k])
        {
          assert t[k] in multiset(t);
          if t[k] != m {
            assert t[k] in multiset(s[1..]);
            var q :| 0 <= q < |s[1..]| && s[1..][q] == t[k];
            assert s[q + 1] == t[k];
          }
        }
      }
      ConsSorted(s[0], t);
      [s[0]] + t
  }

  /**
   * list.sort with the key above. Two spans with equal keys are equal, so
   * the sorted list is unique and any sorting algorithm yields it.
   */
  function SortSpans(s: seq<Span>): (r: seq<Span>)
    ensures SortedSpans(r)
    ensures multiset(r) == multiset(s)
  {
    if s == [] then []
    else
      assert s == [s[0]] + s[1..];
      InsertSpan(s[0], SortSpans(s[1..]))
  }

  /** Pairwise disjoint, non-empty, and with a gap of at least one character between neighbours. */
  predicate Separated(m: seq<Span>) {
    (forall k :: 0 <= k < |m| ==> m[k].start < m[k].end)
    && (forall a, b :: 0 <= a < b < |m| ==> m[a].end < m[b].start)
  }

  lemma InSpansAppend(spans: seq<Span>, m: Span, p: int)
    ensures InSpans(spans + [m], p) <==> InSpans(spans, p) || Covers(m, p)
  {
    var t := spans + [m];
    if InSpans(spans, p) {
      var k :| 0 <= k < |spans| && Covers(spans[k], p);
      assert Covers(t[k], p);
    }
    if Covers(m, p) {
      assert Covers(t[|spans|], p);
    }
    if InSpans(t, p) {
      var k :| 0 <= k < |t| && Covers(t[k], p);
      if k < |spans| {
        assert Covers(spans[k], p);
      }
    }
  }

  /** Widening the last span by an overlapping or touching one covers exactly the union of both. */
  lemma InSpansWidenLast(spans: seq<Span>, m: Span, p: int)
    requires spans != []
    requires spans[|spans| - 1].start <= m.start <= spans[|spans| - 1].end
    ensures var last := spans[|spans| - 1];
      var w := spans[..|spans| - 1] + [Span(last.start, if last.end < m.end then m.end else last.end)];
      InSpans(w, p) <==> InSpans(spans, p) || Covers(m, p)
  {
    var init := spans[..|spans| - 1];
    var last := spans[|spans| - 1];
    var wide := Span(last.start, if last.end < m.end then m.end else last.end);
    InSpansAppend(init, wide, p);
    InSpansAppend(init, last, p);
    assert init + [last] == spans;
  }

  /** What the merge loop keeps after the first idx sorted spans. */
  ghost predicate MergeInv(sorted: seq<Span>, idx: nat, merged: seq<Span>)
    requires idx <= |sorted|
  {
    Separated(merged)
    && (forall p :: InSpans(merged, p) <==> InSpans(sorted[..idx], p))
    && ((merged == []) == (idx == 0))
    && (idx > 0 ==> merged[|merged| - 1].start <= sorted[idx - 1].start)
    && (forall k :: 0 <= k < |merged| ==> exists a :: 0 <= a < idx && sorted[a].end == merged[k].end)
  }

  lemma SortedPrefixCover(sorted: seq<Span>, idx: nat, p: int)
    requires idx < |sorted|
    ensures InSpans(sorted[..idx + 1], p) <==> InSpans(sorted[..idx], p) || Covers(sorted[idx], p)
  {
    assert sorted[..idx + 1] == sorted[..idx] + [sorted[idx]];
    InSpansAppend(sorted[..idx], sorted[idx], p);
  }

  /** Sorted span idx starts at or before the end of the last merged span: widen it. */
  lemma MergeWiden(sorted: seq<Span>, idx: nat, merged: seq<Span>, w: seq<Span>)
    requires SortedSpans(sorted) && idx < |sorted| && sorted[idx].start < sorted[idx].end
    requires MergeInv(sorted, idx, merged)
    requires merged != [] && sorted[idx].start <= merged[|merged| - 1].end
    requires var last := merged[|merged| - 1]; var m := sorted[idx];
      w == merged[..|merged| - 1] + [Span(last.start, if last.end < m.end then m.end else last.end)]
    ensures MergeInv(sorted, idx + 1, w)
  {
    var m := sorted[idx];
    var last := merged[|merged| - 1];
    assert SpanLe(sorted[idx - 1], m);
    forall p
      ensures InSpans(w, p) <==> InSpans(sorted[..idx + 1], p)
    {
      InSpansWidenLast(merged, m, p);
      SortedPrefixCover(sorted, idx, p);
    }
    WidenKeepsEnds(sorted, idx, merged, w);
  }

  lemma WidenKeepsEnds(sorted: seq<Span>, idx: nat, merged: seq<Span>, w: seq<Span>)
    requires idx < |sorted| && merged != []
    requires forall k :: 0 <= k < |merged| ==> exists a :: 0 <= a < idx && sorted[a].end == merged[k].end
    requires var last := merged[|merged| - 1]; var m := sorted[idx];
      w == merged[..|merged| - 1] + [Span(last.start, if last.end < m.end then m.end else last.end)]
    ensures forall k :: 0 <= k < |w| ==> exists a :: 0 <= a < idx + 1 && sorted[a].end == w[k].end
  {
    forall k | 0 <= k < |w|
      ensures exists a :: 0 <= a < idx + 1 && sorted[a].end == w[k].end
    {
      if k < |merged| - 1 {
        assert w[k] == merged[k];
        var a :| 0 <= a < idx && sorted[a].end == merged[k].end;
        assert sorted[a].end == w[k].end;
      } else {
        var a :| 0 <= a < idx && sorted[a].end == merged[k].end;
        if merged[k].end < sorted[idx].end {
          assert sorted[idx].end == w[k].end;
        } else {
          assert sorted[a].end == w[k].end;
        }
      }
    }
  }

  /** Sorted span idx starts after the end of the last merged span: append it. */
  lemma MergeAppend(sorted: seq<Span>, idx: nat, merged: seq<Span>)
    requires SortedSpans(sorted) && idx < |sorted| && sorted[idx].start < sorted[idx].end
    requires MergeInv(sorted, idx, merged)
    requires merged == [] || merged[|merged| - 1].end < sorted[idx].start
    ensures MergeInv(sorted, idx + 1, merged + [sorted[idx]])
  {
    var m := sorted[idx];
    var t := merged + [m];
    forall p
      ensures InSpans(t, p) <==> InSpans(sorted[..idx + 1], p)
    {
      InSpansAppend(merged, m, p);
      SortedPrefixCover(sorted, idx, p);
    }
    AppendKeepsSeparated(merged, m);
    forall k | 0 <= k < |t|
      ensures exists a :: 0 <= a < idx + 1 && sorted[a].end == t[k].end
    {
      if k < |merged| {
        assert t[k] == merged[k];
        var a :| 0 <= a < idx && sorted[a].end == merged[k].end;
        assert sorted[a].end == t[k].end;
      } else {
        assert sorted[idx].end == t[k].end;
      }
    }
  }

  lemma AppendKeepsSeparated(merged: seq<Span>, m: Span)
    requires Separated(merged) && m.start < m.end
    requires merged == [] || merged[|merged| - 1].end < m.start
    ensures Separated(merged + [m])
  {
    var t := merged + [m];
    assert forall k :: 0 <= k < |merged| ==> t[k] == merged[k];
    forall a | 0 <= a < |merged|
      ensures merged[a].end < m.start
    {
      if a < |merged| - 1 {
        assert merged[a].end < merged[|merged| - 1].start;
      }
    }
  }

  /**
   * The merge loop: a span that starts at or before the end of the last
   * merged span widens it, any other span starts a new merged span.
   */
  method MergeSpans(sorted: seq<Span>) returns (merged: seq<Span>)
    requires SortedSpans(sorted)
    requires forall k :: 0 <= k < |sorted| ==> sorted[k].start < sorted[k].end
    ensures Separated(merged)
    ensures forall p :: InSpans(merged, p) <==> InSpans(sorted, p)
    ensures sorted != [] ==> merged != []
    ensures forall k :: 0 <= k < |merged| ==> exists a :: 0 <= a < |sorted| && sorted[a].end == merged[k].end
  {
    merged := [];
    for idx := 0 to |sorted|
      invariant MergeInv(sorted, idx, merged)
    {
      var m := sorted[idx];
      if merged != [] && m.start <= merged[|merged| - 1].end {
        var last := merged[|merged| - 1];
        var w := merged[..|merged| - 1] + [Span(last.start, if last.end < m.end then m.end else last.end)];
        MergeWiden(sorted, idx, merged, w);
        merged := w;
      } else {
        MergeAppend(sorted, idx, merged);
        merged := merged + [m];
      }
    }
    assert sorted[..|sorted|] == sorted;
  }

  /** A character between two neighbouring merged spans (or before the first, or after the last) is not covered. */
  lemma GapNotCovered(merged: seq<Span>, k: nat, p: int)
    requires Separated(merged)
    requires k <= |merged|
    requires k > 0 ==> merged[k - 1].end <= p
    requires k < |merged| ==> p < merged[k].start
    ensures !InSpans(merged, p)
  {
    if InSpans(merged, p) {
      var q :| 0 <= q < |merged| && Covers(merged[q], p);
    }
  }

  /** Appending the segment line[pos..hi] with a flag that agrees with the cover on that range keeps the loop's facts. */
  lemma ExtendSegments(line: string, merged: seq<Span>, segs: seq<Segment>, pos: nat, hi: nat, flag: bool)
    requires pos < hi <= |line|
    requires Concat(segs) == line[..pos] && |Flags(segs)| == pos
    requires forall p :: 0 <= p < pos ==> (Flags(segs)[p] <==> InSpans(merged, p))
    requires forall p :: pos <= p < hi ==> (InSpans(merged, p) <==> flag)
    ensures var t := segs + [Segment(line[pos..hi], flag)];
      Concat(t) == line[..hi] && |Flags(t)| == hi
      && forall p :: 0 <= p < hi ==> (Flags(t)[p] <==> InSpans(merged, p))
  {
    AppendSegment(segs, Segment(line[pos..hi], flag));
    assert line[..hi] == line[..pos] + line[pos..hi];
  }

  /**
   * The segment loop: the plain gap before each merged span, the span itself
   * highlighted, and finally the plain tail.
   */
  method BuildSegments(line: string, merged: seq<Span>) returns (segments: seq<Segment>)
    requires Separated(merged)
    requires forall k :: 0 <= k < |merged| ==> merged[k].end <= |line|
    ensures Concat(segments) == line
    ensures |Flags(segments)| == |line|
    ensures forall p :: 0 <= p < |line| ==> (Flags(segments)[p] <==> InSpans(merged, p))
    ensures NonEmptySegments(segments) && Alternating(segments)
    ensures merged != [] ==> segments != []
  {
    segments := [];
    var pos := 0;
    for k := 0 to |merged|
      invariant pos <= |line|
      invariant k == 0 ==> pos == 0 && segments == []
      invariant k > 0 ==> pos == merged[k - 1].end && segments != [] && segments[|segments| - 1].highlighted
      invariant Concat(segments) == line[..pos]
      invariant |Flags(segments)| == pos
      invariant forall p :: 0 <= p < pos ==> (Flags(segments)[p] <==> InSpans(merged, p))
      invariant NonEmptySegments(segments) && Alternating(segments)
    {
      var s := merged[k].start;
      var e := merged[k].end;
      if k > 0 {
        NeighboursApart(merged, k);
      }
      if pos < s {
        var seg := line[pos..s];
        if seg != [] {
          GapRange(merged, k, pos, s);
          AddSegment(line, merged, segments, pos, s, false, segments + [Segment(seg, false)]);
          segments := segments + [Segment(seg, false)];
          pos := s;
        }
      }
      SpanRange(merged, k);
      AddSegment(line, merged, segments, s, e, true, segments + [Segment(line[s..e], true)]);
      segments := segments + [Segment(line[s..e], true)];
      pos := e;
    }
    if pos < |line| {
      var seg := line[pos..];
      if seg != [] {
        GapRange(merged, |merged|, pos, |line|);
        assert seg == line[pos..|line|];
        AddSegment(line, merged, segments, pos, |line|, false, segments + [Segment(seg, false)]);
        segments := segments + [Segment(seg, false)];
        pos := |line|;
      }
    }
    assert line[..|line|] == line;
  }

  /** One more segment line[lo..hi] with the given flag: the facts the segment loop keeps. */
  lemma AddSegment(line: string, merged: seq<Span>, segs: seq<Segment>, lo: nat, hi: nat, flag: bool, t: seq<Segment>)
    requires lo < hi <= |line|
    requires Concat(segs) == line[..lo] && |Flags(segs)| == lo
    requires forall p :: 0 <= p < lo ==> (Flags(segs)[p] <==> InSpans(merged, p))
    requires forall p :: lo <= p < hi ==> (InSpans(merged, p) <==> flag)
    requires NonEmptySegments(segs) && Alternating(segs)
    requires segs != [] ==> segs[|segs| - 1].highlighted != flag
    requires t == segs + [Segment(line[lo..hi], flag)]
    ensures Concat(t) == line[..hi] && |Flags(t)| == hi
    ensures forall p :: 0 <= p < hi ==> (Flags(t)[p] <==> InSpans(merged, p))
    ensures NonEmptySegments(t) && Alternating(t)
    ensures t != [] && t[|t| - 1].highlighted == flag
  {
    ExtendSegments(line, merged, segs, lo, hi, flag);
    SegmentsAppend(segs, Segment(line[lo..hi], flag));
  }

  lemma NeighboursApart(merged: seq<Span>, k: nat)
    requires Separated(merged) && 0 < k < |merged|
    ensures merged[k - 1].end < merged[k].start
  {
  }

  /** The characters between merged span k - 1 and merged span k are not covered. */
  lemma GapRange(merged: seq<Span>, k: nat, lo: int, hi: int)
    requires Separated(merged)
    requires k <= |merged|
    requires k > 0 ==> merged[k - 1].end <= lo
    requires k < |merged| ==> hi <= merged[k].start
    ensures forall p :: lo <= p < hi ==> (InSpans(merged, p) <==> false)
  {
    forall p | lo <= p < hi
      ensures !InSpans(merged, p)
    {
      GapNotCovered(merged, k, p);
    }
  }

  /** The characters of merged span k are covered. */
  lemma SpanRange(merged: seq<Span>, k: nat)
    requires k < |merged|
    ensures forall p :: merged[k].start <= p < merged[k].end ==> (InSpans(merged, p) <==> true)
  {
    forall p | merged[k].start <= p < merged[k].end
      ensures InSpans(merged, p)
    {
      assert Covers(merged[k], p);
    }
  }

  /** Appending a non-empty segment whose flag differs from the last one keeps the segments well formed. */
  lemma SegmentsAppend(segs: seq<Segment>, seg: Segment)
    requires NonEmptySegments(segs) && Alternating(segs)
    requires seg.text != []
    requires segs != [] ==> segs[|segs| - 1].highlighted != seg.highlighted
    ensures NonEmptySegments(segs + [seg]) && Alternating(segs + [seg])
  {
    var t := segs + [seg];
    assert forall k :: 0 <= k < |segs| ==> t[k] == segs[k];
  }

  lemma MatchIsCovered(line: string, keywords: seq<string>, m: Span, p: int)
    requires IsMatch(line, keywords, m) && Covers(m, p)
    ensures Covered(line, keywords, p)
  {
    var j :| 0 <= j < |keywords| && Searched(keywords[j])
      && OccursAt(line, keywords[j], m.start) && m.end == m.start + |keywords[j]|;
  }

  lemma MatchesCoverExactly(line: string, keywords: seq<string>, matches: seq<Span>, p: int)
    requires forall k :: 0 <= k < |matches| ==> IsMatch(line, keywords, matches[k])
    requires forall j, i :: (0 <= j < |keywords| && Searched(keywords[j]) && OccursAt(line, keywords[j], i)
      ==> Span(i, i + |keywords[j]|) in matches)
    ensures InSpans(matches, p) <==> Covered(line, keywords, p)
  {
    MatchesSound(line, keywords, matches, p);
    MatchesComplete(line, keywords, matches, p);
  }

  lemma MatchesSound(line: string, keywords: seq<string>, matches: seq<Span>, p: int)
    requires forall k :: 0 <= k < |matches| ==> IsMatch(line, keywords, matches[k])
    ensures InSpans(matches, p) ==> Covered(line, keywords, p)
  {
    if InSpans(matches, p) {
      var k :| 0 <= k < |matches| && Covers(matches[k], p);
      MatchIsCovered(line, keywords, matches[k], p);
    }
  }

  lemma MatchesComplete(line: string, keywords: seq<string>, matches: seq<Span>, p: int)
    requires forall j, i :: (0 <= j < |keywords| && Searched(keywords[j]) && OccursAt(line, keywords[j], i)
      ==> Span(i, i + |keywords[j]|) in matches)
    ensures Covered(line, keywords, p) ==> InSpans(matches, p)
  {
    if Covered(line, keywords, p) {
      var j, i :| 0 <= j < |keywords| && Searched(keywords[j])
        && OccursAt(line, keywords[j], i) && i <= p < i + |keywords[j]|;
      SpanInSpans(matches, Span(i, i + |keywords[j]|), p);
    }
  }

  lemma SpanInSpans(matches: seq<Span>, m: Span, p: int)
    requires m in matches && Covers(m, p)
    ensures InSpans(matches, p)
  {
    var k :| 0 <= k < |matches| && matches[k] == m;
  }

  lemma SameElementsSameCover(a: seq<Span>, b: seq<Span>, p: int)
    requires multiset(a) == multiset(b)
    ensures InSpans(a, p) <==> InSpans(b, p)
  {
    if InSpans(a, p) {
      var k :| 0 <= k < |a| && Covers(a[k], p);
      assert a[k] in multiset(b);
      var k' :| 0 <= k' < |b| && b[k'] == a[k];
    }
    if InSpans(b, p) {
      var k :| 0 <= k < |b| && Covers(b[k], p);
      assert b[k] in multiset(a);
      var k' :| 0 <= k' < |a| && a[k'] == b[k];
    }
  }

  /** Every sorted span is a non-empty range inside the line. */
  lemma SortedWithin(line: string, keywords: seq<string>, matches: seq<Span>, sorted: seq<Span>)
    requires forall k :: 0 <= k < |matches| ==> IsMatch(line, keywords, matches[k])
    requires multiset(sorted) == multiset(matches)
    ensures forall k :: 0 <= k < |sorted| ==> sorted[k].start < sorted[k].end <= |line|
  {
    forall k | 0 <= k < |sorted|
      ensures sorted[k].start < sorted[k].end <= |line|
    {
      assert sorted[k] in multiset(matches);
      var k' :| 0 <= k' < |matches| && matches[k'] == sorted[k];
      assert IsMatch(line, keywords, matches[k']);
    }
  }

  /** Merged spans end where some sorted span ends, so inside the line. */
  lemma MergedWithin(line: string, sorted: seq<Span>, merged: seq<Span>)
    requires forall k :: 0 <= k < |sorted| ==> sorted[k].end <= |line|
    requires forall k :: 0 <= k < |merged| ==> exists a :: 0 <= a < |sorted| && sorted[a].end == merged[k].end
    ensures forall k :: 0 <= k < |merged| ==> merged[k].end <= |line|
  {
    forall k | 0 <= k < |merged|
      ensures merged[k].end <= |line|
    {
      var a :| 0 <= a < |sorted| && sorted[a].end == merged[k].end;
    }
  }

  /** The flags the segments carry are the keyword cover of the line. */
  lemma FlagsAreCover(line: string, keywords: seq<string>, matches: seq<Span>, sorted: seq<Span>,
                      merged: seq<Span>, segments: seq<Segment>)
    requires forall k :: 0 <= k < |matches| ==> IsMatch(line, keywords, matches[k])
    requires forall j, i :: (0 <= j < |keywords| && Searched(keywords[j]) && OccursAt(line, keywords[j], i)
      ==> Span(i, i + |keywords[j]|) in matches)
    requires multiset(sorted) == multiset(matches)
    requires forall p :: InSpans(merged, p) <==> InSpans(sorted, p)
    requires |Flags(segments)| == |line|
    requires forall p :: 0 <= p < |line| ==> (Flags(segments)[p] <==> InSpans(merged, p))
    ensures forall p :: 0 <= p < |line| ==> (Flags(segments)[p] <==> Covered(line, keywords, p))
  {
    forall p | 0 <= p < |line|
      ensures Flags(segments)[p] <==> Covered(line, keywords, p)
    {
      MatchesCoverExactly(line, keywords, matches, p);
      SameElementsSameCover(sorted, matches, p);
    }
  }

  /**
   * `_split_line_with_highlights`: [] for an empty line; otherwise the
   * segments spell the line, none is empty, plain and highlighted segments
   * alternate, and a character is highlighted exactly when it lies inside
   * an occurrence of a keyword of length >= 2.
   */
  method SplitLineWithHighlights(line: string, keywords: seq<string>) returns (segments: seq<Segment>)
    ensures line == [] <==> segments == []
    ensures Concat(segments) == line
    ensures NonEmptySegments(segments) && Alternating(segments)
    ensures |Flags(segments)| == |line|
    ensures forall p :: 0 <= p < |line| ==> (Flags(segments)[p] <==> Covered(line, keywords, p))
  {
    if line == [] {
      return [];
    }
    var matches := CollectMatches(line, keywords);
    if matches == [] {
      segments := [Segment(line, false)];
      AppendSegment([], Segment(line, false));
      forall p | 0 <= p < |line|
        ensures !Covered(line, keywords, p)
      {
        MatchesCoverExactly(line, keywords, matches, p);
      }
      return;
    }
    var sorted := SortSpans(matches);
    SortedWithin(line, keywords, matches, sorted);
    var merged := MergeSpans(sorted);
    assert forall k :: 0 <= k < |sorted| ==> sorted[k].end <= |line|;
    MergedWithin(line, sorted, merged);
    segments := BuildSegments(line, merged);
    FlagsAreCover(line, keywords, matches, sorted, merged, segments);
    if segments == [] {
      segments := [Segment(line, false)];
    }
  }
}
