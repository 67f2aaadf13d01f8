/**
 * Per-frame animation rules of the tarot video: how many frames a section
 * gets, the progress each frame is drawn at, the flip schedules, the
 * segment transition, the fly-in/fly-out timing, the shuffle dispatch and
 * the background-music fitting. Times are exact reals; every int() of the
 * program is `Trunc` and every `//` is Dafny's `/` on a positive divisor.
 */
module Timeline {
  import opened Wrappers
  import opened Config
  import opened VideoHelpers

  // ---------------------------------------------------------------------
  // Frame counts and per-frame progress
  // ---------------------------------------------------------------------

  /** max(1, int(FPS * seconds)): the number of frames a section renders. */
  function FrameCount(seconds: real): (n: nat)
    ensures n >= 1
    ensures 30.0 * seconds >= 1.0 ==> n as real <= 30.0 * seconds < n as real + 1.0
    ensures 30.0 * seconds < 1.0 ==> n == 1
  {
    var f := Trunc(VideoFps as real * seconds);
    if f < 1 then 1 else f
  }

  /** The counts of the configured sections; 0.99 s gives 29 frames, not 30: truncation, not rounding. */
  lemma SectionFrameCounts()
    ensures FrameCount(1.0) == 30 && FrameCount(3.0) == 90 && FrameCount(3.5) == 105
    ensures FrameCount(1.5) == 45 && FrameCount(1.2) == 36 && FrameCount(1.8) == 54
    ensures FrameCount(4.0) == 120 && FrameCount(0.5) == 15 && FrameCount(0.4) == 12
    ensures FrameCount(0.99) == 29
  {
  }

  /** The progress of frame i of n: i / (n - 1), or 1.0 for a single frame. */
  function Progress(i: nat, n: nat): real {
    if n > 1 then i as real / (n - 1) as real else 1.0
  }

  /** Progress starts at 0, ends at 1 and strictly increases in between. */
  lemma ProgressEnds(i: nat, j: nat, n: nat)
    requires i < j < n
    ensures Progress(0, n) == 0.0 && Progress(n - 1, n) == 1.0
    ensures 0.0 <= Progress(i, n) < Progress(j, n) <= 1.0
  {
    var d := (n - 1) as real;
    assert i as real < j as real <= d;
    assert i as real / d < j as real / d;
  }

  /** The single frame of a one-frame section is drawn at progress 1. */
  lemma ProgressSingle()
    ensures Progress(0, 1) == 1.0
  {
  }

  /** The frame loop of an animated section: the progress of every frame, in order. */
  method SampleProgress(n: nat) returns (ps: seq<real>)
    ensures |ps| == n
    ensures forall i :: 0 <= i < n ==> ps[i] == Progress(i, n)
    ensures n >= 1 ==> ps[n - 1] == 1.0
    ensures n >= 2 ==> ps[0] == 0.0
    ensures forall i, j :: 0 <= i < j < n ==> ps[i] < ps[j]
  {
    ps := [];
    var i := 0;
    while i < n
      invariant 0 <= i <= n && |ps| == i
      invariant forall k :: 0 <= k < i ==> ps[k] == Progress(k, n)
      invariant forall a, b :: 0 <= a < b < i ==> ps[a] < ps[b]
    {
      if i > 0 { ProgressEnds(i - 1, i, n); }
      ps := ps + [Progress(i, n)];
      i := i + 1;
    }
    if n >= 2 { ProgressEnds(0, n - 1, n); }
  }

  /** The "use these cards" caption blinks every int(30 * 0.5) = 15 frames. */
  function ShowCaption(i: nat): bool {
    (i / Trunc(VideoFps as real * 0.5)) % 2 == 0
  }

  /** The comment prompt of the closing screen blinks every max(1, int(30 * 0.4)) = 12 frames. */
  function CommentHighlight(fi: nat): bool {
    (fi / FrameCount(0.4)) % 2 == 0
  }

  /** The caption alternates: shown for 15 frames, hidden for the next 15. */
  lemma CaptionBlink(i: nat)
    ensures ShowCaption(i) != ShowCaption(i + 15) && ShowCaption(i) == ShowCaption(i + 30)
    ensures ShowCaption(0)
  {
    var b := Trunc(VideoFps as real * 0.5);
    assert b == 15;
    assert (i + 15) / 15 == i / 15 + 1;
  }

  /** The comment prompt alternates: highlighted for 12 frames, plain for the next 12. */
  lemma CommentBlink(i: nat)
    ensures CommentHighlight(i) != CommentHighlight(i + 12) && CommentHighlight(i) == CommentHighlight(i + 24)
    ensures CommentHighlight(0)
  {
    assert FrameCount(0.4) == 12;
    assert (i + 12) / 12 == i / 12 + 1;
  }

  // ---------------------------------------------------------------------
  // Card flips
  // ---------------------------------------------------------------------

  /** One card of a flip frame: skipped, or drawn squeezed to `width` at `x`. */
  datatype CardDraw = Skipped | Drawn(front: bool, width: int, x: int)

  function Clamp01(x: real): (r: real)
    ensures 0.0 <= r <= 1.0
    ensures 0.0 <= x <= 1.0 ==> r == x
  {
    if x < 0.0 then 0.0 else if x > 1.0 then 1.0 else x
  }

  /** Draws a card of width cw at cardX squeezed by `scale`, unless the scale is below `skip`. */
  function Squeeze(front: bool, scale: real, skip: real, cw: int, cardX: int): CardDraw {
    if scale < skip then Skipped
    else
      var nw := Max(2, Trunc(cw as real * scale));
      Drawn(front, nw, cardX + (cw - nw) / 2)
  }

  function Max(a: int, b: int): int {
    if a >= b then a else b
  }

  /** A squeezed card is at least 2 wide, never wider than the card, and centred on it. */
  lemma SqueezeBounds(front: bool, scale: real, skip: real, cw: int, cardX: int)
    requires cw >= 2 && 0.0 < skip && scale <= 1.0
    ensures var d := Squeeze(front, scale, skip, cw, cardX);
      d.Drawn? ==> d.front == front && 2 <= d.width <= cw && cardX <= d.x && d.x + d.width <= cardX + cw
  {
    if scale >= skip {
      var v := cw as real * scale;
      assert v <= cw as real * 1.0;
      assert Trunc(v) as real <= v;
    }
  }

  /** At full scale a card is drawn whole; below it a card at least 3 wide is drawn narrower. */
  lemma SqueezeFull(front: bool, scale: real, skip: real, cw: int, cardX: int)
    requires cw >= 3 && 0.0 < skip <= scale <= 1.0
    ensures scale == 1.0 <==> Squeeze(front, scale, skip, cw, cardX) == Drawn(front, cw, cardX)
  {
    var v := cw as real * scale;
    if scale == 1.0 {
      assert v == cw as real;
      assert Trunc(v) == cw;
    } else {
      assert v < cw as real * 1.0;
      assert Trunc(v) < cw;
    }
  }

  /** Card i's own progress in the staggered flip: each card starts 0.08 later and flips over 0.55. */
  function StaggerP(progress: real, i: nat): real {
    Clamp01((progress - 0.08 * i as real) / 0.55)
  }

  /** Card i of the staggered back-to-front flip. */
  function StaggeredFlip(progress: real, i: nat, cw: int, cardX: int): CardDraw {
    var p := StaggerP(progress, i);
    if p < 0.5 then Squeeze(false, 1.0 - 2.0 * p, 0.05, cw, cardX)
    else Squeeze(true, 2.0 * (p - 0.5), 0.05, cw, cardX)
  }

  /** At progress 0 every card is a full-width back. */
  lemma StaggeredFlipStart(i: nat, cw: int, cardX: int)
    requires cw >= 3
    ensures StaggeredFlip(0.0, i, cw, cardX) == Drawn(false, cw, cardX)
  {
    assert StaggerP(0.0, i) == 0.0;
    SqueezeFull(false, 1.0, 0.05, cw, cardX);
  }

  /** At progress 1 the six cards are full-width fronts; a seventh card would not be. */
  lemma StaggeredFlipEnd(i: nat, cw: int, cardX: int)
    requires cw >= 3
    ensures StaggeredFlip(1.0, i, cw, cardX) == Drawn(true, cw, cardX) <==> i <= 5
  {
    var q := (1.0 - 0.08 * i as real) / 0.55;
    if i <= 5 {
      assert q >= 1.0;
      assert StaggerP(1.0, i) == 1.0;
      SqueezeFull(true, 1.0, 0.05, cw, cardX);
    } else {
      assert q <= 0.52 / 0.55;
      var p := StaggerP(1.0, i);
      if p >= 0.5 {
        var s := 2.0 * (p - 0.5);
        assert s < 1.0;
        if s >= 0.05 {
          SqueezeFull(true, s, 0.05, cw, cardX);
        }
      }
    }
  }

  /** A later card is never further into its flip than an earlier one, and every card only moves forward. */
  lemma StaggerOrder(progress: real, progress': real, i: nat, j: nat)
    requires i <= j && progress <= progress'
    ensures StaggerP(progress, j) <= StaggerP(progress, i)
    ensures StaggerP(progress, i) <= StaggerP(progress', i)
  {
  }

  /** A drawn staggered card keeps within its cell. */
  lemma StaggeredFlipInCell(progress: real, i: nat, cw: int, cardX: int)
    requires cw >= 2
    ensures var d := StaggeredFlip(progress, i, cw, cardX);
      d.Drawn? ==> 2 <= d.width <= cw && cardX <= d.x && d.x + d.width <= cardX + cw
  {
    var p := StaggerP(progress, i);
    if p < 0.5 {
      SqueezeBounds(false, 1.0 - 2.0 * p, 0.05, cw, cardX);
    } else {
      SqueezeBounds(true, 2.0 * (p - 0.5), 0.05, cw, cardX);
    }
  }

  /** Every card of the front-to-back flip: all together, on the eased progress. */
  function FrontToBackFlip(progress: real, cw: int, cardX: int): CardDraw {
    var p := EaseInOut(progress);
    if p < 0.5 then Squeeze(true, 1.0 - 2.0 * p, 0.05, cw, cardX)
    else Squeeze(false, 2.0 * (p - 0.5), 0.05, cw, cardX)
  }

  /** The front-to-back flip starts on full fronts, passes through an invisible edge and ends on full backs. */
  lemma FrontToBackEnds(cw: int, cardX: int)
    requires cw >= 3
    ensures FrontToBackFlip(0.0, cw, cardX) == Drawn(true, cw, cardX)
    ensures FrontToBackFlip(0.5, cw, cardX) == Skipped
    ensures FrontToBackFlip(1.0, cw, cardX) == Drawn(false, cw, cardX)
  {
    EaseInOutEnds();
    SqueezeFull(true, 1.0, 0.05, cw, cardX);
    SqueezeFull(false, 1.0, 0.05, cw, cardX);
  }

  // ---------------------------------------------------------------------
  // Segment transition (cards 1-3 turn into cards 4-6)
  // ---------------------------------------------------------------------

  const TransCardW: int := 225
  const TransCardX: int := 90

  datatype Face = OutFront | Back | InFront

  function TransFace(p: real): Face {
    if p < 0.45 then OutFront else if p > 0.55 then InFront else Back
  }

  function TransScale(p: real): real {
    match TransFace(p)
    case OutFront => 1.0 - p / 0.45
    case InFront => (p - 0.55) / 0.45
    case Back => 1.0
  }

  datatype TransCard = Hidden | Shown(face: Face, width: int, x: int, badge: int)

  /** Card i of a transition frame; the badge shows the outgoing number until the incoming fronts appear. */
  function TransitionCard(progress: real, i: nat, offOut: int, offIn: int): TransCard {
    var p := EaseInOut(progress);
    var scale := TransScale(p);
    if scale < 0.02 then Hidden
    else
      var nw := Max(2, Trunc(TransCardW as real * scale));
      var badge := if TransFace(p) == InFront then offIn + i + 1 else offOut + i + 1;
      Shown(TransFace(p), nw, TransCardX + (TransCardW - nw) / 2, badge)
  }

  datatype TextDraw = TextDraw(alpha: real, offset: int)

  /** The outgoing captions slide 450 pixels left while fading out over the first 40% of the eased progress. */
  function OutText(progress: real): Option<TextDraw> {
    var p := EaseInOut(progress);
    if p < 0.5 then
      var alpha := if p < 0.4 then 1.0 - p / 0.4 else 0.0;
      var offset := if p < 0.4 then Trunc(-450.0 * (p / 0.4)) else -450;
      if alpha > 0.02 then Some(TextDraw(alpha, offset)) else None
    else None
  }

  /** The incoming captions slide in from 450 pixels right, fully opaque from 70% of the eased progress. */
  function InText(progress: real): Option<TextDraw> {
    var p := EaseInOut(progress);
    if p > 0.5 then
      var inT := (p - 0.5) / 0.5;
      var alpha := if inT / 0.4 < 1.0 then inT / 0.4 else 1.0;
      var offset := if inT < 1.0 then Trunc(450.0 * (1.0 - inT)) else 0;
      if alpha > 0.02 then Some(TextDraw(alpha, offset)) else None
    else None
  }

  /** The first transition frame shows cards 1-3 and their captions unchanged. */
  lemma TransitionStart(i: nat)
    ensures TransitionCard(0.0, i, 0, 3) == Shown(OutFront, TransCardW, TransCardX, i + 1)
    ensures OutText(0.0) == Some(TextDraw(1.0, 0)) && InText(0.0) == None
  {
    EaseInOutEnds();
  }

  /** The last transition frame shows cards 4-6 and their captions in place. */
  lemma TransitionEnd(i: nat)
    ensures TransitionCard(1.0, i, 0, 3) == Shown(InFront, TransCardW, TransCardX, i + 4)
    ensures InText(1.0) == Some(TextDraw(1.0, 0)) && OutText(1.0) == None
  {
    EaseInOutEnds();
    assert TransScale(1.0) == 1.0;
  }

  /** The two caption sets are never drawn in the same frame. */
  lemma CaptionsExclusive(progress: real)
    ensures !(OutText(progress).Some? && InText(progress).Some?)
  {
  }

  /** Caption offsets stay within the 450-pixel slide and alphas within (0.02, 1]. */
  lemma CaptionBounds(progress: real)
    requires 0.0 <= progress <= 1.0
    ensures OutText(progress).Some? ==>
      (-450 <= OutText(progress).value.offset <= 0 && 0.02 < OutText(progress).value.alpha <= 1.0)
    ensures InText(progress).Some? ==>
      (0 <= InText(progress).value.offset <= 450 && 0.02 < InText(progress).value.alpha <= 1.0)
  {
    EaseInOutMonotone(0.0, progress);
    EaseInOutMonotone(progress, 1.0);
    var p := EaseInOut(progress);
    if p < 0.4 {
      assert -450.0 <= -450.0 * (p / 0.4) <= 0.0;
    }
    if p > 0.5 {
      var inT := (p - 0.5) / 0.5;
      assert 0.0 < inT <= 1.0;
      assert 0.0 <= 450.0 * (1.0 - inT) <= 450.0;
    }
  }

  /** A badge always shows one of the two numbers of its row: outgoing until the incoming fronts appear. */
  lemma TransitionBadge(progress: real, i: nat, offOut: int, offIn: int)
    ensures var c := TransitionCard(progress, i, offOut, offIn);
      c.Shown? ==> (c.badge == offIn + i + 1 <==> c.face == InFront) || offIn == offOut
    ensures var c := TransitionCard(progress, i, offOut, offIn);
      c.Shown? && c.face != InFront ==> c.badge == offOut + i + 1
  {
  }

  /** A colour channel faded from the background bg towards fg lies between the two. */
  function FadeChannel(fg: int, bg: int, alpha: real): int {
    Trunc(fg as real * alpha + bg as real * (1.0 - alpha))
  }

  lemma FadeChannelBounds(fg: int, bg: int, alpha: real)
    requires 0 <= fg && 0 <= bg && 0.0 <= alpha <= 1.0
    ensures fg <= bg ==> fg <= FadeChannel(fg, bg, alpha) <= bg
    ensures bg <= fg ==> bg <= FadeChannel(fg, bg, alpha) <= fg
    ensures FadeChannel(fg, bg, 1.0) == fg && FadeChannel(fg, bg, 0.0) == bg
  {
    var v := fg as real * alpha + bg as real * (1.0 - alpha);
    assert v == bg as real + (fg - bg) as real * alpha;
    TruncBetween(v, bg, fg, alpha);
  }

  // ---------------------------------------------------------------------
  // The three card rows of the reading screens
  // ---------------------------------------------------------------------

  /** The top of row i: margin + i * section + (section - card) // 2. */
  function RowY(margin: int, section: int, cardH: int, i: nat): int {
    margin + i * section + (section - cardH) / 2
  }

  /** With 120-pixel margins the section is 560 high and the card int((560 - 6) * 225 / 280) = 445. */
  function TransCardH(): int {
    Trunc(((VideoHeight - 240) / 3 - 6) as real * 225.0 / 280.0)
  }

  /** With 100-pixel margins the section is 573 high and the card int(567 * 225 / 280 * 1.15) = 523. */
  function MeaningCardH(): int {
    Trunc(((VideoHeight - 200) / 3 - 6) as real * 225.0 / 280.0 * 1.15)
  }

  /** The three rows of both reading screens lie inside the frame, one under the other. */
  lemma RowsInFrame(i: nat)
    requires i < 2
    ensures TransCardH() == 445 && MeaningCardH() == 523
    ensures 0 <= RowY(120, 560, 445, 0) && RowY(120, 560, 445, i) + 445 <= RowY(120, 560, 445, i + 1)
    ensures RowY(120, 560, 445, 2) + 445 <= VideoHeight
    ensures 0 <= RowY(100, 573, 523, 0) && RowY(100, 573, 523, i) + 523 <= RowY(100, 573, 523, i + 1)
    ensures RowY(100, 573, 523, 2) + 523 <= VideoHeight
  {
  }

  /** The card meaning shown on screen: at most 18 characters, then an ellipsis. */
  function ShortMeaning(s: string): (r: string)
    ensures |s| <= 18 ==> r == s
    ensures |s| > 18 ==> |r| == 19 && r[..18] == s[..18] && r[18] == '…'
  {
    if |s| > 18 then s[..18] + "…" else s
  }

  // ---------------------------------------------------------------------
  // Fly to centre / fly to grid
  // ---------------------------------------------------------------------

  /**
   * Where card i is at time t when the cards fly one after another from
   * `from` to `to`: card i starts at i * step and flies for step seconds on
   * the ease-out curve.
   */
  function FlyPos(t: real, i: nat, step: real, from: (int, int), to: (int, int)): (int, int)
    requires step > 0.0
  {
    var start := i as real * step;
    if t <= start then from
    else if t >= start + step then to
    else
      var prog := FlyProgress(t, start, step);
      (Lerp(from.0, to.0, prog), Lerp(from.1, to.1, prog))
  }

  /** The eased share of the flight done at time t: ease_out_quad(min(1, (t - start) / step)). */
  function FlyProgress(t: real, start: real, step: real): real
    requires step > 0.0
  {
    var q := (t - start) / step;
    EaseOutQuad(if q < 1.0 then q else 1.0)
  }

  lemma FlyProgressRange(t: real, start: real, step: real)
    requires step > 0.0 && t >= start
    ensures 0.0 <= FlyProgress(t, start, step) <= 1.0
  {
    var q := (t - start) / step;
    var c := if q < 1.0 then q else 1.0;
    EaseOutQuadMonotone(0.0, c);
    EaseOutQuadMonotone(c, 1.0);
  }

  /** int(a + (b - a) * prog). */
  function Lerp(a: int, b: int, prog: real): int {
    Trunc(a as real + (b - a) as real * prog)
  }

  lemma LerpBetween(a: int, b: int, prog: real)
    requires 0 <= a && 0 <= b && 0.0 <= prog <= 1.0
    ensures a <= b ==> a <= Lerp(a, b, prog) <= b
    ensures b <= a ==> b <= Lerp(a, b, prog) <= a
  {
    TruncBetween(a as real + (b - a) as real * prog, a, b, prog);
  }

  /** 0 <= w * p <= w for a non-negative w and 0 <= p <= 1. */
  lemma ScaleWithin(w: real, p: real)
    requires w >= 0.0 && 0.0 <= p <= 1.0
    ensures 0.0 <= w * p <= w
  {
    if p < 1.0 && w > 0.0 { MulLess(p, 1.0, w); }
  }

  /** Truncating a point of the segment from a to b stays inside it. */
  lemma TruncBetween(v: real, a: int, b: int, p: real)
    requires 0 <= a && 0 <= b && 0.0 <= p <= 1.0
    requires v == a as real + (b - a) as real * p
    ensures a <= b ==> a <= Trunc(v) <= b
    ensures b <= a ==> b <= Trunc(v) <= a
  {
    var w := (b - a) as real;
    var m := w * p;
    if a <= b {
      ScaleWithin(w, p);
      TruncWithin(v, a, b);
    } else {
      ScaleWithin(-w, p);
      assert -w * p == -m;
      TruncWithin(v, b, a);
    }
  }

  /** Truncation keeps a non-negative value between two integers that bound it. */
  lemma TruncWithin(v: real, lo: int, hi: int)
    requires 0 <= lo && lo as real <= v <= hi as real
    ensures lo <= Trunc(v) <= hi
  {
    var r := Trunc(v);
    assert r as real <= v < r as real + 1.0;
  }

  /** A flying card is always between its start and its destination, coordinate by coordinate. */
  lemma FlyBetween(t: real, i: nat, step: real, from: (int, int), to: (int, int))
    requires step > 0.0
    requires 0 <= from.0 && 0 <= from.1 && 0 <= to.0 && 0 <= to.1
    ensures var p := FlyPos(t, i, step, from, to);
      (from.0 <= to.0 ==> from.0 <= p.0 <= to.0) && (to.0 <= from.0 ==> to.0 <= p.0 <= from.0) &&
      (from.1 <= to.1 ==> from.1 <= p.1 <= to.1) && (to.1 <= from.1 ==> to.1 <= p.1 <= from.1)
  {
    var start := i as real * step;
    if start < t < start + step {
      var prog := FlyProgress(t, start, step);
      FlyProgressRange(t, start, step);
      LerpBetween(from.0, to.0, prog);
      LerpBetween(from.1, to.1, prog);
    }
  }

  /** In the first frame every card is at its start; once its flight is over it is at its destination. */
  lemma FlyEnds(t: real, i: nat, step: real, from: (int, int), to: (int, int))
    requires step > 0.0
    ensures FlyPos(0.0, i, step, from, to) == from
    ensures t >= (i + 1) as real * step ==> FlyPos(t, i, step, from, to) == to
  {
  }

  /** All six cards reach the centre by the last gather frame and their grid cells by the last arrange frame. */
  lemma FlightsComplete(i: nat, from: (int, int), to: (int, int))
    requires i < 6
    ensures FlyPos((FrameCount(1.0) - 1) as real / 30.0, i, 0.12, from, to) == to
    ensures FlyPos((FrameCount(1.2) - 1) as real / 30.0, i, 0.14, from, to) == to
  {
    SectionFrameCounts();
    FlyEnds(29.0 / 30.0, i, 0.12, from, to);
    FlyEnds(35.0 / 30.0, i, 0.14, from, to);
  }

  // ---------------------------------------------------------------------
  // Shuffle
  // ---------------------------------------------------------------------

  datatype ShuffleBranch = ChaosOrbit | ScatterSwirl | BounceMix | Spiral

  /** The branch of the shuffle frame a card_movement selects: every other movement falls to the last one. */
  function BranchOf(movement: string): ShuffleBranch {
    if movement == "chaos_orbit" then ChaosOrbit
    else if movement == "scatter_swirl" then ScatterSwirl
    else if movement == "bounce_mix" then BounceMix
    else Spiral
  }

  lemma SpiralChaosFallsThrough()
    ensures BranchOf("spiral_chaos") == Spiral
  {
  }

  /** clamp_x / clamp_y: max(0, min(limit - size, v)). */
  function ClampCoord(v: int, size: int, limit: int): (r: int)
    requires 0 <= size <= limit
    ensures 0 <= r <= limit - size
    ensures 0 <= v <= limit - size ==> r == v
  {
    if v > limit - size then limit - size else if v < 0 then 0 else v
  }

  /**
   * The place of a shuffling card: the centred card moved by a trajectory
   * offset (dx, dy) and clamped into the frame.
   */
  function ShufflePos(dx: int, dy: int, cw: int, ch: int): (int, int)
    requires 0 <= cw <= VideoWidth && 0 <= ch <= VideoHeight
  {
    (ClampCoord(VideoWidth / 2 - cw / 2 + dx, cw, VideoWidth), ClampCoord(VideoHeight / 2 - ch / 2 + dy, ch, VideoHeight))
  }

  /** Whatever the trajectory, a shuffling card stays wholly inside the frame. */
  lemma ShuffleInFrame(dx: int, dy: int, cw: int, ch: int)
    requires 0 <= cw <= VideoWidth && 0 <= ch <= VideoHeight
    ensures var p := ShufflePos(dx, dy, cw, ch);
      0 <= p.0 && p.0 + cw <= VideoWidth && 0 <= p.1 && p.1 + ch <= VideoHeight
  {
  }

  // ---------------------------------------------------------------------
  // Background music
  // ---------------------------------------------------------------------

  /**
   * The audio used: a slice of the track, or its tail followed by `repeats`
   * whole copies, cut to `need`. Silent stands for the division by a zero
   * track length, whose exception leaves the video without music.
   */
  datatype Audio = Slice(start: real, end: real) | Looped(start: real, repeats: int, need: real) | FromStart(end: real)
    | Silent

  /** Fits a track of `dur` seconds, started at `offset`, to a video of `need` seconds. */
  function FitMusic(offset: real, need: real, dur: real): Audio {
    var start := if offset >= dur then 0.0 else offset;
    var end := start + need;
    if end <= dur then Slice(start, end)
    else if start < dur then
      if dur == 0.0 then Silent else
      var remaining := dur - start;
      Looped(start, Trunc((need - remaining) / dur) + 1, need)
    else FromStart(need)
  }

  lemma MulLess(a: real, b: real, c: real)
    requires a < b && c > 0.0
    ensures a * c < b * c
  {
  }

  lemma FloorBound(x: real, d: real)
    requires x > 0.0 && d > 0.0
    ensures Trunc(x / d) >= 0
    ensures Trunc(x / d) as real * d <= x < (Trunc(x / d) + 1) as real * d
  {
    FloorBelow(x, d);
    FloorAbove(x, d);
  }

  lemma FloorBelow(x: real, d: real)
    requires x > 0.0 && d > 0.0
    ensures Trunc(x / d) as real * d <= x
  {
    var q := x / d;
    var f := Trunc(q);
    assert q * d == x;
    if f as real < q { MulLess(f as real, q, d); }
  }

  lemma FloorAbove(x: real, d: real)
    requires x > 0.0 && d > 0.0
    ensures x < (Trunc(x / d) + 1) as real * d
  {
    var q := x / d;
    var g := (Trunc(q) + 1) as real;
    assert q * d == x;
    assert q < g;
    MulLess(q, g, d);
  }

  /**
   * For a track of positive length: an offset past its end restarts at 0; a
   * slice that fits is taken directly; otherwise the tail plus n whole
   * repeats is just long enough (remaining + n * dur > need, one repeat
   * fewer would not be) and is cut to exactly `need`.
   */
  lemma MusicFits(offset: real, need: real, dur: real)
    requires dur > 0.0 && offset >= 0.0 && need > 0.0
    ensures var a := FitMusic(offset, need, dur); !a.FromStart? && !a.Silent?
    ensures var a := FitMusic(offset, need, dur);
      a.Slice? ==> 0.0 <= a.start && a.end <= dur && a.end - a.start == need && (offset < dur ==> a.start == offset)
    ensures var a := FitMusic(offset, need, dur);
      a.Looped? ==>
        (0.0 <= a.start < dur && a.need == need && a.repeats >= 1 &&
         (dur - a.start) + a.repeats as real * dur > need && (dur - a.start) + (a.repeats - 1) as real * dur <= need)
    ensures offset >= dur ==> FitMusic(offset, need, dur).start == 0.0
  {
    var start := if offset >= dur then 0.0 else offset;
    if start + need > dur {
      FloorBound(need - (dur - start), dur);
    }
  }
}
