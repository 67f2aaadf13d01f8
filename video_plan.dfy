/**
 * The plan of one tarot video: how many cards it uses, which cards and in
 * which orders they appear, which meaning goes with which card, the clips
 * the video is concatenated from and how the background music is fitted to
 * the concatenated length. Every random choice (the sample of the card pool,
 * the two orders) is an input; every drawn frame is abstracted to its clip's
 * section and length.
 */
module VideoPlan {
  import opened Wrappers
  import opened Text
  import opened Config
  import opened Timeline
  import TarotMeanings

  /** range(n) as a list. */
  function Range(n: nat): (r: seq<nat>)
    ensures |r| == n && forall i :: 0 <= i < n ==> r[i] == i
  {
    seq(n, i => i)
  }

  /** No value occurs twice. */
  predicate Distinct<T(==)>(s: seq<T>) {
    forall i, j :: 0 <= i < j < |s| ==> s[i] != s[j]
  }

  /** The multiset {0, 1, ..., n-1}. */
  function Positions(n: nat): multiset<nat> {
    if n == 0 then multiset{} else Positions(n - 1) + multiset{(n - 1) as nat}
  }

  /** `order` is what random.sample(range(n), n) can return: some ordering of 0..n-1. */
  predicate IsPermutation(order: seq<nat>, n: nat) {
    |order| == n && (forall i :: 0 <= i < n ==> order[i] < n) && multiset(order) == Positions(n)
  }

  /** [s[order[i]] for i in range(len(order))]. */
  function Pick<T>(s: seq<T>, order: seq<nat>): (r: seq<T>)
    requires forall i :: 0 <= i < |order| ==> order[i] < |s|
    ensures |r| == |order|
  {
    seq(|order|, i requires 0 <= i < |order| => s[order[i]])
  }

  // ---------------------------------------------------------------------
  // Card count and card choice
  // ---------------------------------------------------------------------

  /** The empathy mode is on exactly when the chosen title is not blank. */
  predicate IsEmpathy(override: string) {
    Strip(override) != []
  }

  /** 3 cards in the empathy mode, NUM_CARDS otherwise. */
  function CardCount(override: string): (k: nat)
    ensures k == 3 <==> IsEmpathy(override)
    ensures !IsEmpathy(override) ==> k == NumCards
  {
    if IsEmpathy(override) then 3 else NumCards
  }

  /** The pool the cards are sampled from: the theme's pool, or the 22 major cards when it is too small. */
  function EffectivePool(pool: seq<nat>, k: nat): (r: seq<nat>)
    ensures |pool| >= k ==> r == pool
    ensures |pool| < k ==> r == Range(22)
  {
    if |pool| < k then Range(22) else pool
  }
  /**
   * A pool from the catalogue always holds enough cards for the spread, so
   * the range(22) fallback never replaces it, and every card drawn is a real card.
   */
  lemma CataloguePoolKept(fortuneType: string, useMinor: bool, override: string)
    ensures var p := TarotMeanings.GetCardPool(fortuneType, useMinor);
      EffectivePool(p, CardCount(override)) == p &&
      forall i :: 0 <= i < |p| ==> p[i] < 78
  {
    TarotMeanings.PoolShape(fortuneType, useMinor);
  }


  /** The random choices one run makes, as inputs. */
  predicate ValidChoices(override: string, pool: seq<nat>, sample: seq<nat>,
                         displayOrder: seq<nat>, shuffledOrder: seq<nat>, meanings: seq<string>)
  {
    var k := CardCount(override);
    |sample| == k && Distinct(sample) && (forall i :: 0 <= i < k ==> sample[i] < |EffectivePool(pool, k)|) &&
    IsPermutation(displayOrder, k) && IsPermutation(shuffledOrder, k) && |meanings| == k
  }

  /** The card is chosen card j and the meaning is the meaning of card j, for some j. */
  predicate Belongs(cards: seq<nat>, meanings: seq<string>, card: nat, meaning: string) {
    exists j :: 0 <= j < |cards| && j < |meanings| && card == cards[j] && meaning == meanings[j]
  }

  // ---------------------------------------------------------------------
  // Clips
  // ---------------------------------------------------------------------

  datatype Section = HookScreen | EmpathyScreen | CardsFace | Gather | Shuffle | ArrangeMove
    | Facedown | Faceup | FlipHold | Segment1 | Transition | Segment2 | Closing

  /** An animated clip of `frames` frames at 30 fps, or one still frame held for `seconds`. */
  datatype Clip = Anim(section: Section, frames: nat) | Hold(section: Section, seconds: real)

  function ClipSeconds(c: Clip): real {
    match c
    case Anim(_, n) => n as real / VideoFps as real
    case Hold(_, s) => s
  }

  /** The length of the concatenated video. */
  function TotalSeconds(clips: seq<Clip>): real {
    if clips == [] then 0.0 else TotalSeconds(clips[..|clips| - 1]) + ClipSeconds(clips[|clips| - 1])
  }

  function Sections(clips: seq<Clip>): (r: seq<Section>)
  {
    if clips == [] then [] else Sections(clips[..|clips| - 1]) + [clips[|clips| - 1].section]
  }

  lemma TotalAppend(clips: seq<Clip>, c: Clip)
    ensures TotalSeconds(clips + [c]) == TotalSeconds(clips) + ClipSeconds(c)
  {
    assert (clips + [c])[..|clips|] == clips;
  }

  // ---------------------------------------------------------------------
  // The plan
  // ---------------------------------------------------------------------

  datatype Video = Video(
    count: nat, empathy: bool,
    cards: seq<nat>, at10s: seq<nat>, afterShuffle: seq<nat>,
    seg1: seq<nat>, seg1Meanings: seq<string>, seg2: seq<nat>, seg2Meanings: seq<string>,
    clips: seq<Clip>, t: real, audio: Option<Audio>)

  /** The six-card plan lasts 27.7 s and the empathy plan 22 s; `t` omits the closing and counts 3.5 s for the 4 s face clip. */
  predicate Timed(v: Video) {
    if v.empathy then TotalSeconds(v.clips) == 22.0 && v.t == 18.0
    else TotalSeconds(v.clips) == 27.7 && v.t == 23.2
  }

  /**
   * Plans a video. `sample` are the positions random.sample picks in the
   * pool, `displayOrder` and `shuffledOrder` the two random orderings of the
   * cards, `meanings` the interpretation of each chosen card, and `music` the
   * length of the background track when one is present and loads.
   */
  method PlanVideo(override: string, pool: seq<nat>, sample: seq<nat>, displayOrder: seq<nat>,
                   shuffledOrder: seq<nat>, meanings: seq<string>, music: Option<real>, offset: real)
    returns (v: Video)
    requires ValidChoices(override, pool, sample, displayOrder, shuffledOrder, meanings)
    ensures v.empathy == IsEmpathy(override) && v.count == CardCount(override)
    ensures Dealt(v, EffectivePool(pool, v.count), meanings)
    ensures Shaped(v.clips, v.empathy) && Timed(v)
    ensures music.None? ==> v.audio.None?
    ensures music.Some? ==> v.audio == Some(FitMusic(offset, TotalSeconds(v.clips), music.value))
  {
    var k := CardCount(override);
    var empathy := IsEmpathy(override);
    var p := EffectivePool(pool, k);
    var d := DealCards(k, p, sample, displayOrder, shuffledOrder, meanings);
    var clips, t := PlanClips(empathy);
    var audio: Option<Audio> := None;
    if music.Some? {
      audio := Some(FitMusic(offset, TotalSeconds(clips), music.value));
    }
    v := d.(empathy := empathy, clips := clips, t := t, audio := audio);
  }

  /**
   * The cards of a plan: `count` cards out of the pool (distinct when the
   * pool is), both screen orders list exactly those cards, the first reading
   * shows the first min(3, count) cards after the shuffle and the second
   * reading, with more than three cards, cards 3..5; each shown card comes
   * with its own meaning.
   */
  predicate Dealt(v: Video, pool: seq<nat>, meanings: seq<string>) {
    |v.cards| == v.count && (forall c :: c in v.cards ==> c in pool) &&
    (Distinct(pool) ==> Distinct(v.cards)) &&
    |v.at10s| == v.count && |v.afterShuffle| == v.count &&
    multiset(v.at10s) == multiset(v.cards) && multiset(v.afterShuffle) == multiset(v.cards) &&
    v.seg1 == v.afterShuffle[..if v.count < 3 then v.count else 3] &&
    (v.count > 3 ==> v.count >= 6 && v.seg2 == v.afterShuffle[3..6]) && (v.count <= 3 ==> v.seg2 == []) &&
    |v.seg1Meanings| == |v.seg1| && |v.seg2Meanings| == |v.seg2| &&
    (forall i :: 0 <= i < |v.seg1| ==> Belongs(v.cards, meanings, v.seg1[i], v.seg1Meanings[i])) &&
    (forall i :: 0 <= i < |v.seg2| ==> Belongs(v.cards, meanings, v.seg2[i], v.seg2Meanings[i]))
  }

  /** Samples the cards and puts them in the display order and the shuffled order. */
  method DealCards(k: nat, p: seq<nat>, sample: seq<nat>, displayOrder: seq<nat>,
                   shuffledOrder: seq<nat>, meanings: seq<string>) returns (v: Video)
    requires k == 3 || k == 6
    requires |sample| == k && Distinct(sample) && forall i :: 0 <= i < k ==> sample[i] < |p|
    requires IsPermutation(displayOrder, k) && IsPermutation(shuffledOrder, k) && |meanings| == k
    ensures v.count == k && Dealt(v, p, meanings)
  {
    var cards := Pick(p, sample);
    var at10s := Pick(cards, displayOrder);
    var after := Pick(cards, shuffledOrder);
    PickPermutation(cards, displayOrder);
    PickPermutation(cards, shuffledOrder);
    assert forall c :: c in cards ==> c in p;
    var n1 := if k < 3 then k else 3;
    var seg1 := after[..n1];
    var seg1Meanings := Pick(meanings, shuffledOrder[..n1]);
    SegmentMeanings(cards, shuffledOrder, meanings, 0, n1, after, seg1, seg1Meanings);
    var seg2: seq<nat> := [];
    var seg2Meanings: seq<string> := [];
    if k > 3 {
      seg2 := after[3..6];
      seg2Meanings := Pick(meanings, shuffledOrder[3..6]);
      SegmentMeanings(cards, shuffledOrder, meanings, 3, 6, after, seg2, seg2Meanings);
    }
    v := Video(k, false, cards, at10s, after, seg1, seg1Meanings, seg2, seg2Meanings, [], 0.0, None);
  }

  /**
   * The clips of the video in order: it opens with the hook or the empathy
   * screen, closes with the closing screen, shows the face-up cards only
   * outside the empathy mode and the second reading only with six cards.
   */
  predicate Shaped(clips: seq<Clip>, empathy: bool) {
    var s := Sections(clips);
    |s| >= 2 && s[0] == (if empathy then EmpathyScreen else HookScreen) && s[|s| - 1] == Closing &&
    (CardsFace in s <==> !empathy) && (Transition in s <==> !empathy) && (Segment2 in s <==> !empathy)
  }

  /** Appends a clip, keeping track of the running length. */
  method Append(clips: seq<Clip>, c: Clip) returns (r: seq<Clip>)
    ensures r == clips + [c] && TotalSeconds(r) == TotalSeconds(clips) + ClipSeconds(c)
    ensures Sections(r) == Sections(clips) + [c.section]
  {
    r := clips + [c];
    TotalAppend(clips, c);
    assert r[..|clips|] == clips;
  }

  /** The clip list of the video and the running time `t` after the loop. */
  method PlanClips(empathy: bool) returns (clips: seq<Clip>, t: real)
    ensures Shaped(clips, empathy)
    ensures empathy ==> TotalSeconds(clips) == 22.0 && t == 18.0
    ensures !empathy ==> TotalSeconds(clips) == 27.7 && t == 23.2
  {
    var k := if empathy then 3 else NumCards;
    clips, t := Opening(empathy, [], 0.0);
    ghost var a := Sections(clips);
    clips, t := Gathering(clips, t);
    ghost var ab := Sections(clips);
    clips, t := Revealing(k, clips, t);
    ghost var abc := Sections(clips);
    clips, t := Reading(k, clips, t);
    clips := CloseVideo(clips);
    ShapeOf(Sections(clips), a, ab[|a|..], abc[|ab|..], Sections(clips)[|abc|..], empathy);
  }

  /** 1-2. The hook or empathy screen; outside the empathy mode, the cards face up, then turned face down. */
  method Opening(empathy: bool, clips: seq<Clip>, t: real) returns (clips': seq<Clip>, t': real)
    ensures Sections(clips') == Sections(clips) + if empathy then [EmpathyScreen] else [HookScreen, CardsFace]
    ensures TotalSeconds(clips') == TotalSeconds(clips) + (if empathy then 3.5 else 5.0)
    ensures t' == t + if empathy then 3.5 else 4.5
  {
    SectionFrameCounts();
    SectionTimeValues();
    if empathy {
      clips' := Append(clips, Anim(EmpathyScreen, FrameCount(3.5)));
      t' := t + 3.5;
    } else {
      clips' := Append(clips, Anim(HookScreen, FrameCount(SectionTime("hook", 0.0))));
      t' := t + SectionTime("hook", 0.0);
      var faceDur := SectionTime("cards_face", 0.0);
      var flipSec := if faceDur - 3.0 > 1.0 then faceDur - 3.0 else 1.0;
      clips' := Append(clips', Anim(CardsFace, FrameCount(3.0) + FrameCount(flipSec)));
      t' := t' + faceDur;
    }
  }

  /** 3. The cards gather in the centre, are shuffled and spread into the grid. */
  method Gathering(clips: seq<Clip>, t: real) returns (clips': seq<Clip>, t': real)
    ensures Sections(clips') == Sections(clips) + [Gather, Shuffle, ArrangeMove]
    ensures TotalSeconds(clips') == TotalSeconds(clips) + 3.7 && t' == t + 3.7
  {
    SectionFrameCounts();
    SectionTimeValues();
    var gatherDur := SectionTime("gather_to_center", 1.5);
    clips' := Append(clips, Anim(Gather, FrameCount(gatherDur)));
    t' := t + gatherDur;
    clips' := Append(clips', Anim(Shuffle, FrameCount(SectionTime("shuffle", 0.0))));
    t' := t' + SectionTime("shuffle", 0.0);
    var moveDur := SectionTime("arrange_move", 1.6);
    clips' := Append(clips', Anim(ArrangeMove, FrameCount(moveDur)));
    t' := t' + moveDur;
  }

  /** 4. The numbered backs, the staggered flip and the hold of the open cards. */
  method Revealing(k: nat, clips: seq<Clip>, t: real) returns (clips': seq<Clip>, t': real)
    ensures Sections(clips') == Sections(clips) + [Facedown, Faceup, FlipHold]
    ensures TotalSeconds(clips') == TotalSeconds(clips) + 6.8 && t' == t + 6.8
  {
    SectionFrameCounts();
    SectionTimeValues();
    var facedownSec := if k == 3 then 3.0 else SectionTime("arrange_facedown", 0.0);
    clips' := Append(clips, Hold(Facedown, facedownSec));
    t' := t + facedownSec;
    clips' := Append(clips', Anim(Faceup, FrameCount(SectionTime("arrange_faceup", 0.0))));
    t' := t' + SectionTime("arrange_faceup", 0.0);
    var holdDur := SectionTime("flip_hold", 2.0);
    clips' := Append(clips', Hold(FlipHold, holdDur));
    t' := t' + holdDur;
  }

  /** 5. The first reading; with six cards the transition and the second reading. */
  method Reading(k: nat, clips: seq<Clip>, t: real) returns (clips': seq<Clip>, t': real)
    ensures Sections(clips') == Sections(clips) + if k > 3 then [Segment1, Transition, Segment2] else [Segment1]
    ensures TotalSeconds(clips') == TotalSeconds(clips) + (if k == 3 then 4.0 else if k > 3 then 8.2 else 3.5)
    ensures t' == t + (if k == 3 then 4.0 else if k > 3 then 8.2 else 3.5)
  {
    SectionFrameCounts();
    SectionTimeValues();
    var seg1Dur := if k == 3 then 4.0 else SectionTime("cards_1_3", 0.0);
    clips' := Append(clips, Hold(Segment1, seg1Dur));
    t' := t + seg1Dur;
    if k > 3 {
      var transDur := SectionTime("segment_transition", 1.5);
      clips' := Append(clips', Anim(Transition, FrameCount(transDur)));
      t' := t' + transDur;
      clips' := Append(clips', Hold(Segment2, SectionTime("cards_4_6", 0.0)));
      t' := t' + SectionTime("cards_4_6", 0.0);
    }
  }

  /** 6. The closing screen; `t` is not advanced for it. */
  method CloseVideo(clips: seq<Clip>) returns (clips': seq<Clip>)
    ensures Sections(clips') == Sections(clips) + [Closing] && TotalSeconds(clips') == TotalSeconds(clips) + 4.0
  {
    SectionFrameCounts();
    SectionTimeValues();
    clips' := Append(clips, Anim(Closing, FrameCount(SectionTime("closing", 5.0))));
  }

  /** The section lists the four phases produce, in either mode, have the shape Shaped names. */
  lemma ShapeOf(s: seq<Section>, a: seq<Section>, b: seq<Section>, c: seq<Section>, d: seq<Section>, empathy: bool)
    requires s == a + b + c + d
    requires a == if empathy then [EmpathyScreen] else [HookScreen, CardsFace]
    requires b == [Gather, Shuffle, ArrangeMove] && c == [Facedown, Faceup, FlipHold]
    requires d == if empathy then [Segment1, Closing] else [Segment1, Transition, Segment2, Closing]
    ensures |s| >= 2 && s[0] == (if empathy then EmpathyScreen else HookScreen) && s[|s| - 1] == Closing
    ensures CardsFace in s <==> !empathy
    ensures Transition in s <==> !empathy
    ensures Segment2 in s <==> !empathy
  {
    assert s[0] == a[0] && s[|s| - 1] == d[|d| - 1];
    if !empathy {
      assert CardsFace == a[1] && Transition == d[1] && Segment2 == d[2];
    }
  }

  /** Each card of a reading segment is shown with the meaning of the same card. */
  lemma SegmentMeanings(cards: seq<nat>, order: seq<nat>, meanings: seq<string>, lo: nat, hi: nat,
                        after: seq<nat>, seg: seq<nat>, segMeanings: seq<string>)
    requires IsPermutation(order, |cards|) && |meanings| == |cards| && lo <= hi <= |cards|
    requires after == Pick(cards, order) && seg == after[lo..hi] && segMeanings == Pick(meanings, order[lo..hi])
    ensures |segMeanings| == |seg|
    ensures forall i :: 0 <= i < |seg| ==> Belongs(cards, meanings, seg[i], segMeanings[i])
  {
    forall i | 0 <= i < |seg|
      ensures Belongs(cards, meanings, seg[i], segMeanings[i])
    {
      var j := order[lo + i];
      assert order[lo..hi][i] == j;
      assert after[lo + i] == cards[j];
      assert seg[i] == cards[j] && segMeanings[i] == meanings[j];
    }
  }

  // ---------------------------------------------------------------------
  // Reordering by a permutation keeps the cards
  // ---------------------------------------------------------------------

  lemma {:induction false} PositionsBelow(n: nat, x: nat)
    requires x in Positions(n)
    ensures x < n
  {
    if n > 0 && x != n - 1 {
      PositionsBelow(n - 1, x);
    }
  }

  /** Taking n - 1 out of {0, ..., n-1} leaves {0, ..., n-2}. */
  lemma DropLast(mr: multiset<nat>, mo: multiset<nat>, n: nat)
    requires n > 0 && mo == Positions(n) && mr + multiset{(n - 1) as nat} == mo
    ensures mr == Positions(n - 1)
  {
    var x: nat := n - 1;
    var p := Positions(n - 1);
    assert mo == p + multiset{x};
    forall y
      ensures mr[y] == p[y]
    {
      assert (mr + multiset{x})[y] == (p + multiset{x})[y];
    }
  }

  /** A list with the multiset of 0..m-1 holds only values below m. */
  lemma BoundedByPositions(s: seq<nat>, m: nat)
    requires multiset(s) == Positions(m)
    ensures forall i :: 0 <= i < |s| ==> s[i] < m
  {
    forall i | 0 <= i < |s|
      ensures s[i] < m
    {
      assert s[i] in multiset(s);
      PositionsBelow(m, s[i]);
    }
  }

  /** The last position occurs in a non-empty permutation. */
  lemma LastOccurs(order: seq<nat>, n: nat) returns (j: nat)
    requires IsPermutation(order, n) && n > 0
    ensures j < n && order[j] == n - 1
  {
    assert n - 1 in multiset(order);
    j :| 0 <= j < n && order[j] == n - 1;
  }

  /** Listing s in the order of a permutation of its positions lists the same multiset. */
  lemma {:induction false} PickPermutation<T>(s: seq<T>, order: seq<nat>)
    requires IsPermutation(order, |s|)
    ensures multiset(Pick(s, order)) == multiset(s)
  {
    var n := |s|;
    if n > 0 {
      var j := LastOccurs(order, n);
      var rest := RemoveAt(order, j);
      RemovedMultiset(order, j, rest);
      DropLast(multiset(rest), multiset(order), n);
      BoundedByPositions(rest, n - 1);
      var s' := s[..n - 1];
      PickPermutation(s', rest);
      var a := Pick(s, order);
      var b := Pick(s', rest);
      PickRemoved(s, order, j, s', rest, a, b);
      RemovedMultiset(a, j, b);
      assert s == s' + [s[n - 1]];
    }
  }

  /** b is a with position j left out. */
  ghost predicate RemovedAt<T>(a: seq<T>, j: nat, b: seq<T>) {
    j < |a| && |b| == |a| - 1 && (forall i :: 0 <= i < j ==> b[i] == a[i]) &&
    (forall i :: j <= i < |b| ==> b[i] == a[i + 1])
  }

  /** a with position j left out. */
  lemma RemoveAt<T>(a: seq<T>, j: nat) returns (b: seq<T>)
    requires j < |a|
    ensures RemovedAt(a, j, b)
  {
    b := a[..j] + a[j + 1..];
  }

  /** Leaving out position j removes one occurrence of its value. */
  lemma RemovedMultiset<T>(a: seq<T>, j: nat, b: seq<T>)
    requires RemovedAt(a, j, b)
    ensures multiset(b) + multiset{a[j]} == multiset(a)
  {
    var c := a[..j] + a[j + 1..];
    forall i | 0 <= i < |b|
      ensures b[i] == c[i]
    {
      if i < j {
        assert c[i] == a[..j][i];
      } else {
        assert c[i] == a[j + 1..][i - j];
      }
    }
    assert b == c;
    assert a == a[..j] + [a[j]] + a[j + 1..];
  }

  /** Listing s' = s[..n-1] by `order` without its n - 1 lists s by `order` without position j. */
  lemma PickRemoved<T>(s: seq<T>, order: seq<nat>, j: nat, s': seq<T>, rest: seq<nat>, a: seq<T>, b: seq<T>)
    requires IsPermutation(order, |s|) && j < |s| && order[j] == |s| - 1
    requires s' == s[..|s| - 1] && RemovedAt(order, j, rest) && IsPermutation(rest, |s| - 1)
    requires a == Pick(s, order) && b == Pick(s', rest)
    ensures RemovedAt(a, j, b) && a[j] == s[|s| - 1]
  {
    forall i | 0 <= i < j
      ensures b[i] == a[i]
    {
      assert b[i] == s'[rest[i]] == s[order[i]];
    }
    forall i | j <= i < |b|
      ensures b[i] == a[i + 1]
    {
      assert b[i] == s'[rest[i]] == s[order[i + 1]];
    }
  }
}
