/**
 * Thumbnails: the title split into one or two lines, where each line is
 * drawn from the bottom of the picture, and which video frames become
 * thumbnails.
 */
module Thumbnails {
  import Text

  // ---------------------------------------------------------------------
  // Lines of the title
  // ---------------------------------------------------------------------

  /** A title longer than this many characters is split into two lines. */
  const MaxSingleLine := 25

  /**
   * The lines of add_text_overlay: the title itself when short, otherwise
   * its first half of words and the rest, each joined by single spaces.
   */
  function Lines(text: string): (r: seq<string>)
    ensures |r| == 1 || |r| == 2
  {
    if |text| > MaxSingleLine then
      var words := Text.Split(text);
      var mid := |words| / 2;
      [Text.Join(words[..mid], " "), Text.Join(words[mid..], " ")]
    else [text]
  }

  /** A title of at most 25 characters is one line, unchanged. */
  lemma ShortTitle(text: string)
    requires |text| <= MaxSingleLine
    ensures Lines(text) == [text]
  {
  }

  /**
   * A longer title becomes two lines: the first holds floor(n/2) of its n
   * words, the second the rest, and together they are the title's words
   * in order.
   */
  lemma LongTitle(text: string)
    requires |text| > MaxSingleLine
    ensures var r := Lines(text); var words := Text.Split(text);
      |r| == 2 && Text.Split(r[0]) == words[..|words| / 2] && Text.Split(r[1]) == words[|words| / 2..] &&
      Text.Split(r[0]) + Text.Split(r[1]) == words
  {
    HalvesRejoin(Text.Split(text));
  }

  /** Each half of a list of words, joined by spaces, splits back into that half. */
  lemma HalvesRejoin(words: seq<string>)
    requires forall k :: 0 <= k < |words| ==> Text.IsWord(words[k])
    ensures var mid := |words| / 2;
      Text.Split(Text.Join(words[..mid], " ")) == words[..mid] &&
      Text.Split(Text.Join(words[mid..], " ")) == words[mid..] &&
      words[..mid] + words[mid..] == words
  {
    var mid := |words| / 2;
    Text.SplitJoin(words[..mid]);
    Text.SplitJoin(words[mid..]);
  }

  /** A long title without spaces leaves the first line empty and puts the whole word on the second. */
  lemma LongSingleWord(text: string)
    requires |text| > MaxSingleLine && Text.NoSpace(text)
    ensures Lines(text) == ["", text]
  {
    Text.SplitWordThen(text, []);
    assert text + [] == text;
    assert Text.Split(text) == [text];
  }

  // ---------------------------------------------------------------------
  // Drawing the lines
  // ---------------------------------------------------------------------

  /** A text bounding box (left, top, right, bottom), as the font measures it. */
  datatype Box = Box(left: int, top: int, right: int, bottom: int)

  /** What add_text_overlay draws for one line: the background rectangle, the shadow and the text positions. */
  datatype Drawn = Drawn(line: string, x: int, y: int, rect: Box, shadowX: int, shadowY: int)

  const Padding := 20
  const ShadowOffset := 3
  const LineGap := 10
  const BottomMargin := 200

  /** The drawing of one line whose top is at y, centred in a picture `width` wide. */
  function DrawLine(line: string, width: int, y: int, measure: string -> Box): (d: Drawn)
    ensures var b := measure(line); var w := b.right - b.left; var h := b.bottom - b.top;
      d.line == line && d.y == y && 2 * d.x <= width - w < 2 * d.x + 2 &&
      d.rect == Box(d.x - Padding, y - Padding, d.x + w + Padding, y + h + Padding) &&
      d.shadowX == d.x + ShadowOffset && d.shadowY == y + ShadowOffset
  {
    var b := measure(line);
    var w := b.right - b.left;
    var h := b.bottom - b.top;
    var x := (width - w) / 2;
    Drawn(line, x, y, Box(x - Padding, y - Padding, x + w + Padding, y + h + Padding), x + ShadowOffset, y + ShadowOffset)
  }

  /** The height the font measures for a line. */
  function LineHeight(line: string, measure: string -> Box): int {
    measure(line).bottom - measure(line).top
  }

  /** The lines drawn from the top position y down, each below the previous one by its height and the gap. */
  function Layout(lines: seq<string>, width: int, y: int, measure: string -> Box): (r: seq<Drawn>)
    ensures |r| == |lines|
  {
    if lines == [] then []
    else [DrawLine(lines[0], width, y, measure)] + Layout(lines[1..], width, y + LineHeight(lines[0], measure) + LineGap, measure)
  }

  /**
   * The first line's top is at y; each next line's top is the previous
   * top plus the previous line's height plus 10; each drawing is of its
   * own line.
   */
  lemma {:induction false} LayoutSpec(lines: seq<string>, width: int, y: int, measure: string -> Box)
    ensures var r := Layout(lines, width, y, measure);
      (lines != [] ==> r[0].y == y) &&
      (forall k :: 0 <= k < |r| ==> r[k] == DrawLine(lines[k], width, r[k].y, measure)) &&
      (forall k :: 0 <= k < |r| - 1 ==> r[k + 1].y == r[k].y + LineHeight(lines[k], measure) + LineGap)
    decreases |lines|
  {
    if lines != [] {
      var y1 := y + LineHeight(lines[0], measure) + LineGap;
      LayoutSpec(lines[1..], width, y1, measure);
      var r := Layout(lines, width, y, measure);
      var tl := Layout(lines[1..], width, y1, measure);
      assert r[1..] == tl;
      forall k | 0 <= k < |r| - 1 ensures r[k + 1].y == r[k].y + LineHeight(lines[k], measure) + LineGap {
        if k > 0 {
          assert r[k] == tl[k - 1] && r[k + 1] == tl[k] && lines[k] == lines[1..][k - 1];
        }
      }
    }
  }

  /** add_text_overlay's drawing loop on a picture of the given size. */
  method AddTextOverlay(width: int, height: int, text: string, measure: string -> Box) returns (drawn: seq<Drawn>)
    ensures drawn == Layout(Lines(text), width, height - BottomMargin, measure)
  {
    var lines := Lines(text);
    var yStart := height - BottomMargin;
    drawn := [];
    for i := 0 to |lines|
      invariant drawn + Layout(lines[i..], width, yStart, measure) == Layout(lines, width, height - BottomMargin, measure)
    {
      assert lines[i..][1..] == lines[i + 1..];
      var d := DrawLine(lines[i], width, yStart, measure);
      drawn := drawn + [d];
      yStart := yStart + LineHeight(lines[i], measure) + LineGap;
    }
  }

  // ---------------------------------------------------------------------
  // Sampling frames
  // ---------------------------------------------------------------------

  /** The thumbnail positions as tenths of the video: 10%, 50% and 90%. */
  const Tenths: seq<int> := [1, 5, 9]

  /** int(total * p / 10): truncation toward zero. */
  function FrameAt(total: int, tenths: int): (r: int)
    ensures total >= 0 && tenths >= 0 ==> 0 <= 10 * r <= total * tenths < 10 * r + 10
  {
    var p := total * tenths;
    if p >= 0 then p / 10 else -((-p) / 10)
  }

  /** The file the i-th sampled frame is saved to (i from 0). */
  function ThumbPath(dir: string, i: nat): string {
    dir + "/thumb_" + Text.NatToString(i + 1) + ".jpg"
  }

  /** The positions among the first n whose frames were read, in order. */
  function ReadPositions(total: int, readOk: int -> bool, n: nat): (r: seq<nat>)
    requires n <= |Tenths|
    ensures |r| <= n
    ensures forall k :: 0 <= k < |r| ==> r[k] < n && readOk(FrameAt(total, Tenths[r[k]]))
    ensures forall k, m :: 0 <= k < m < |r| ==> r[k] < r[m]
  {
    if n == 0 then []
    else
      var before := ReadPositions(total, readOk, n - 1);
      if readOk(FrameAt(total, Tenths[n - 1])) then before + [n - 1] else before
  }

  /** Every position whose frame was read is one of the saved positions. */
  lemma {:induction false} ReadPositionsComplete(total: int, readOk: int -> bool, n: nat, i: nat)
    requires n <= |Tenths| && i < n && readOk(FrameAt(total, Tenths[i]))
    ensures i in ReadPositions(total, readOk, n)
  {
    if i < n - 1 {
      ReadPositionsComplete(total, readOk, n - 1, i);
    }
  }

  function Paths(dir: string, positions: seq<nat>): (r: seq<string>)
    ensures |r| == |positions| && forall k :: 0 <= k < |r| ==> r[k] == ThumbPath(dir, positions[k])
  {
    seq(|positions|, k requires 0 <= k < |positions| => ThumbPath(dir, positions[k]))
  }

  /**
   * generate_thumbnails: reads the frames at 10%, 50% and 90% of the frame
   * count, skips those that fail to read, and saves the others as
   * thumb_1 .. thumb_3 by position. `readOk` says which frame reads
   * succeed.
   */
  method GenerateThumbnails(totalFrames: int, readOk: int -> bool, dir: string) returns (thumbnails: seq<string>)
    ensures thumbnails == Paths(dir, ReadPositions(totalFrames, readOk, |Tenths|))
  {
    thumbnails := [];
    for i := 0 to |Tenths|
      invariant thumbnails == Paths(dir, ReadPositions(totalFrames, readOk, i))
    {
      var frameNum := FrameAt(totalFrames, Tenths[i]);
      if readOk(frameNum) {
        thumbnails := thumbnails + [ThumbPath(dir, i)];
      }
    }
  }

  /**
   * At most three thumbnails, named by position in increasing order, one
   * for exactly each frame that was read.
   */
  lemma ThumbnailsSpec(totalFrames: int, readOk: int -> bool, dir: string)
    ensures var ps := ReadPositions(totalFrames, readOk, |Tenths|);
      |Paths(dir, ps)| <= 3 &&
      (forall k, m :: 0 <= k < m < |ps| ==> ps[k] < ps[m]) &&
      (forall i :: 0 <= i < 3 ==> (i in ps <==> readOk(FrameAt(totalFrames, Tenths[i]))))
  {
    var ps := ReadPositions(totalFrames, readOk, |Tenths|);
    forall i | 0 <= i < 3 && readOk(FrameAt(totalFrames, Tenths[i])) ensures i in ps {
      ReadPositionsComplete(totalFrames, readOk, |Tenths|, i);
    }
  }
}
