/**
 * Card grid geometry of the 1080x1920 portrait video. The same cell-size
 * formula appears in every grid-drawing frame function: the grid uses 82% of
 * the frame, cells are separated by a 28-pixel gap, and the block of cells is
 * centred. Three cards form one row whose height is cut to 70%.
 */
module Grid {
  import opened Config

  const Gap: int := 28
  /** int(1080 * 0.82) and int(1920 * 0.82). */
  const GridW: int := (VideoWidth * 82) / 100
  const GridH: int := (VideoHeight * 82) / 100

  datatype Layout = Layout(cols: nat, rows: nat, cw: int, ch: int, gap: int, ox: int, oy: int)

  /** (cols, rows) of the frame functions: 3 cards in a row, otherwise the 3x2 grid. */
  function FrameShape(n: int): (nat, nat) {
    if n == 3 then (3, 1) else (3, 2)
  }

  /** (cols, rows) of the numbered and plain layouts: 3 in a row, 6 in 3x2, anything else 3x3. */
  function LayoutShape(n: int): (nat, nat) {
    if n == 3 then (3, 1) else if n == NumCards then (3, 2) else (3, 3)
  }

  function CellW(cols: nat): int
    requires cols > 0
  {
    (GridW - (cols - 1) * Gap) / cols
  }

  /** The cell height; `shrink` applies int(ch * 0.7). */
  function CellH(rows: nat, shrink: bool): int
    requires rows > 0
  {
    var ch := (GridH - (rows - 1) * Gap) / rows;
    if shrink then (ch * 7) / 10 else ch
  }

  /** Centres a cols x rows block of cw x ch cells. */
  function Centred(cols: nat, rows: nat, cw: int, ch: int, gap: int): Layout {
    var totalW := cols * cw + (cols - 1) * gap;
    var totalH := rows * ch + (rows - 1) * gap;
    Layout(cols, rows, cw, ch, gap, (VideoWidth - totalW) / 2, (VideoHeight - totalH) / 2)
  }

  /** The grid of the flip, fly and shuffle frames and of the facedown grid. */
  function FrameLayout(n: int): Layout {
    var (cols, rows) := FrameShape(n);
    Centred(cols, rows, CellW(cols), CellH(rows, n == 3), Gap)
  }

  /** The grid of the numbered selection screens (facedown with numbers, faceup with numbers). */
  function NumberedLayout(n: int): Layout {
    var (cols, rows) := LayoutShape(n);
    Centred(cols, rows, CellW(cols), CellH(rows, n == 3), Gap)
  }

  /** The grid of the plain layout when no card size is passed: no 70% cut for 3 cards. */
  function PlainLayout(n: int): Layout {
    var (cols, rows) := LayoutShape(n);
    Centred(cols, rows, CellW(cols), CellH(rows, false), Gap)
  }

  /** The one-row layout of the three-card viral screen: 60-pixel margins, a 40-pixel gap, height 1.4 x width. */
  function ViralRowLayout(): Layout {
    var cw := (VideoWidth - 120 - 2 * 40) / 3;
    var ch := (cw * 14) / 10;
    Layout(3, 1, cw, ch, 40, (VideoWidth - (3 * cw + 2 * 40)) / 2, (VideoHeight * 35) / 100)
  }

  function CellX(l: Layout, i: nat): int
    requires l.cols > 0
  {
    l.ox + (i % l.cols) * (l.cw + l.gap)
  }

  function CellY(l: Layout, i: nat): int
    requires l.cols > 0
  {
    l.oy + (i / l.cols) * (l.ch + l.gap)
  }

  predicate InFrame(l: Layout, i: nat)
    requires l.cols > 0
  {
    0 <= CellX(l, i) && CellX(l, i) + l.cw <= VideoWidth && 0 <= CellY(l, i) && CellY(l, i) + l.ch <= VideoHeight
  }

  /** Two cells overlap in neither axis-parallel direction: their x-ranges or their y-ranges are apart. */
  predicate Apart(l: Layout, i: nat, j: nat)
    requires l.cols > 0
  {
    CellX(l, i) + l.cw <= CellX(l, j) || CellX(l, j) + l.cw <= CellX(l, i) ||
    CellY(l, i) + l.ch <= CellY(l, j) || CellY(l, j) + l.ch <= CellY(l, i)
  }

  /** The concrete grids: every cell is 276 wide; heights 773 (6 cards), 1101 (3 cards), 506 (3x3). */
  lemma LayoutValues()
    ensures FrameLayout(6) == Layout(3, 2, 276, 773, 28, 98, 173)
    ensures FrameLayout(3) == Layout(3, 1, 276, 1101, 28, 98, 409)
    ensures NumberedLayout(6) == FrameLayout(6) && NumberedLayout(3) == FrameLayout(3)
    ensures NumberedLayout(9) == Layout(3, 3, 276, 506, 28, 98, 173)
    ensures PlainLayout(3) == Layout(3, 1, 276, 1574, 28, 98, 173)
    ensures ViralRowLayout() == Layout(3, 1, 293, 410, 40, 60, 672)
  {
  }

  lemma MulLe(a: int, b: int, c: int)
    requires a <= b && c >= 0
    ensures a * c <= b * c
  {
  }

  /** A block whose bounding box lies in the frame. */
  predicate BlockInFrame(l: Layout) {
    0 <= l.ox && l.ox + l.cols * l.cw + (l.cols - 1) * l.gap <= VideoWidth &&
    0 <= l.oy && l.oy + l.rows * l.ch + (l.rows - 1) * l.gap <= VideoHeight
  }

  /** Along one axis: cell k of `count` cells starting at o stays within [0, limit]. */
  lemma AxisInRange(o: int, k: nat, size: int, gap: int, count: nat, limit: int)
    requires 1 <= count <= 3 && k < count && size >= 0 && gap >= 0
    requires 0 <= o && o + count * size + (count - 1) * gap <= limit
    ensures 0 <= o + k * (size + gap) && o + k * (size + gap) + size <= limit
  {
    if k == 1 {
      assert k * (size + gap) == size + gap;
    } else if k == 2 {
      assert k * (size + gap) == 2 * size + 2 * gap;
    }
  }

  /** A cell of a three-column block that lies in the frame is itself in the frame. */
  lemma CellInFrame(l: Layout, i: nat)
    requires l.cols == 3 && 1 <= l.rows <= 3 && l.cw >= 0 && l.ch >= 0 && l.gap >= 0
    requires BlockInFrame(l)
    requires i < 3 * l.rows
    ensures InFrame(l, i)
  {
    AxisInRange(l.ox, i % 3, l.cw, l.gap, 3, VideoWidth);
    AxisInRange(l.oy, i / 3, l.ch, l.gap, l.rows, VideoHeight);
  }

  /** Distinct cells of a grid with a non-negative gap never overlap. */
  lemma CellsApart(l: Layout, i: nat, j: nat)
    requires l.cols > 0 && l.cw >= 0 && l.ch >= 0 && l.gap >= 0
    requires i != j
    ensures Apart(l, i, j)
  {
    var ci, ri, cj, rj := i % l.cols, i / l.cols, j % l.cols, j / l.cols;
    if ci < cj {
      MulLe(ci + 1, cj, l.cw + l.gap);
    } else if cj < ci {
      MulLe(cj + 1, ci, l.cw + l.gap);
    } else {
      assert i == ri * l.cols + ci && j == rj * l.cols + cj;
      if ri < rj {
        MulLe(ri + 1, rj, l.ch + l.gap);
      } else {
        MulLe(rj + 1, ri, l.ch + l.gap);
      }
    }
  }

  /** The flip, fly and shuffle grids hold their 3 or 6 cards inside the frame and without overlap. */
  lemma FrameGridSound(n: int, i: nat, j: nat)
    requires n == 3 || n == 6
    requires i < n && j < n
    ensures InFrame(FrameLayout(n), i)
    ensures i != j ==> Apart(FrameLayout(n), i, j)
  {
    LayoutValues();
    CellInFrame(FrameLayout(n), i);
    if i != j { CellsApart(FrameLayout(n), i, j); }
  }

  /** Every cell of the numbered and the plain grids (3x1, 3x2 or 3x3) is inside the frame and apart from the others. */
  lemma NumberedGridSound(n: int, i: nat, j: nat)
    requires i < 3 * NumberedLayout(n).rows && j < 3 * NumberedLayout(n).rows
    ensures InFrame(NumberedLayout(n), i) && InFrame(PlainLayout(n), i)
    ensures i != j ==> Apart(NumberedLayout(n), i, j) && Apart(PlainLayout(n), i, j)
  {
    LayoutValues();
    CellInFrame(NumberedLayout(n), i);
    CellInFrame(PlainLayout(n), i);
    if i != j {
      CellsApart(NumberedLayout(n), i, j);
      CellsApart(PlainLayout(n), i, j);
    }
  }

  /** The three cards of the viral row are inside the frame and apart. */
  lemma ViralRowSound(i: nat, j: nat)
    requires i < 3 && j < 3
    ensures InFrame(ViralRowLayout(), i)
    ensures i != j ==> Apart(ViralRowLayout(), i, j)
  {
    LayoutValues();
    CellInFrame(ViralRowLayout(), i);
    if i != j { CellsApart(ViralRowLayout(), i, j); }
  }

  /** The number badge: a circle of the given size, centred horizontally, `margin` below the card top. */
  function BadgeX(l: Layout, i: nat, size: int): int
    requires l.cols > 0
  {
    CellX(l, i) + (l.cw - size) / 2
  }

  /** The badges (80 pixels with an 18 margin, or 76 with 20) sit inside their card. */
  lemma BadgeInsideCard(n: int, i: nat, size: int, margin: int)
    requires (size, margin) == (80, 18) || (size, margin) == (76, 20)
    ensures var l := NumberedLayout(n);
      CellX(l, i) <= BadgeX(l, i, size) && BadgeX(l, i, size) + size <= CellX(l, i) + l.cw &&
      margin + size <= l.ch
  {
    LayoutValues();
  }

  /** Where the gather animation stacks the cards: the frame centre. */
  function Centre(l: Layout): (int, int) {
    (VideoWidth / 2 - l.cw / 2, VideoHeight / 2 - l.ch / 2)
  }
}
