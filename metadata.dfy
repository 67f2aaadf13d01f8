/**
 * Video metadata: the three titles, the description text and the hashtag
 * list. The language-model client is a parameter: whether there is one and
 * what it answered.
 */
module Metadata {
  import opened Wrappers
  import Text

  // ---------------------------------------------------------------------
  // Dates and model answers
  // ---------------------------------------------------------------------

  /** The current date, which the program reads from the clock. */
  datatype Today = Today(year: nat, month: nat, day: nat)

  /** strftime("%m월 %d일"). */
  function DateText(t: Today): (r: string)
    ensures |r| >= 6 && r[|r| - 1] == '일'
  {
    Text.Pad2(t.month) + "월 " + Text.Pad2(t.day) + "일"
  }

  /** The date argument, or today's date when it is None. */
  function DateOr(date: Option<string>, t: Today): string {
    if date.Some? then date.value else DateText(t)
  }

  /**
   * What a call to the language model gave: no client or no key, an
   * exception, or a JSON answer whose field of interest may be missing.
   */
  datatype Completion<T> = NoClient | Failed | Answered(field: Option<T>)

  // ---------------------------------------------------------------------
  // Titles
  // ---------------------------------------------------------------------

  /** Where the fortune type starts in fallback title i (each title starts with an emoji and a space, then the date). */
  function TypeOffset(date: string, i: nat): nat {
    2 + |date| + (if i == 0 then 5 else 1)
  }

  /** The three titles used without a model answer. */
  function FallbackTitles(date: string, fortuneType: string): (r: seq<string>)
    ensures |r| == 3
    ensures forall i :: 0 <= i < 3 ==>
      Text.OccursAt(r[i], date, 2) && Text.OccursAt(r[i], fortuneType, TypeOffset(date, i))
  {
    var t0 := "🔮 " + date + " 오늘의 " + fortuneType + " | 일시정지하고 확인하세요!";
    var t1 := "💫 " + date + " " + fortuneType + " | 당신의 운세는?";
    var t2 := "✨ " + date + " " + fortuneType + " | 퍼즐 맞추고 확인!";
    Placed("🔮 ", date, " 오늘의 ", fortuneType, " | 일시정지하고 확인하세요!");
    Placed("💫 ", date, " ", fortuneType, " | 당신의 운세는?");
    Placed("✨ ", date, " ", fortuneType, " | 퍼즐 맞추고 확인!");
    [t0, t1, t2]
  }

  /** In p + a + q + b + tail, a starts at |p| and b at |p| + |a| + |q|. */
  lemma Placed(p: string, a: string, q: string, b: string, tail: string)
    ensures Text.OccursAt(p + a + q + b + tail, a, |p|)
    ensures Text.OccursAt(p + a + q + b + tail, b, |p| + |a| + |q|)
  {
    var t := p + a + q + b + tail;
    assert t[|p|..|p| + |a|] == a;
    assert t[|p| + |a| + |q|..|p| + |a| + |q| + |b|] == b;
  }

  /**
   * generate_titles: the model's "titles" field when it answered with one;
   * the fallback titles when there is no client, the call failed or the
   * field is missing.
   */
  function GenerateTitles(fortuneType: string, date: Option<string>, t: Today,
                          reply: Completion<seq<string>>): (r: seq<string>)
    ensures reply.Answered? && reply.field.Some? ==> r == reply.field.value
    ensures !(reply.Answered? && reply.field.Some?) ==> r == FallbackTitles(DateOr(date, t), fortuneType)
  {
    if reply.Answered? && reply.field.Some? then reply.field.value
    else FallbackTitles(DateOr(date, t), fortuneType)
  }

  /** generate_fortune_text: the model's "fortune" field, a fixed line if it is missing, another without a client or on failure. */
  function FortuneText(fortuneType: string, reply: Completion<string>): (r: string)
    ensures reply.Answered? && reply.field.Some? ==> r == reply.field.value
    ensures !reply.Answered? ==> r == fortuneType + ": 행운이 함께해요!"
    ensures reply.Answered? && reply.field.None? ==> r == fortuneType + ": 좋은 일이 생길 거예요!"
  {
    match reply
    case Answered(Some(text)) => text
    case Answered(None) => fortuneType + ": 좋은 일이 생길 거예요!"
    case _ => fortuneType + ": 행운이 함께해요!"
  }

  // ---------------------------------------------------------------------
  // Description
  // ---------------------------------------------------------------------

  const DefaultKeywords: seq<string> := ["행운", "성공", "기회", "만남", "돈"]

  /** The keywords the description lists: the first five of the given ones, or the five defaults. */
  function ShownKeywords(keywords: Option<seq<string>>): (r: seq<string>)
    ensures keywords.None? ==> r == DefaultKeywords
    ensures keywords.Some? ==>
      |r| == (if |keywords.value| < 5 then |keywords.value| else 5) && r == keywords.value[..|r|]
  {
    if keywords.None? then DefaultKeywords
    else if |keywords.value| < 5 then keywords.value
    else keywords.value[..5]
  }

  /** The keyword line: the shown keywords joined by ", ". */
  function KeywordLine(keywords: Option<seq<string>>): string {
    Text.Join(ShownKeywords(keywords), ", ")
  }

  /** The description up to and including the keyword heading. */
  function DescriptionHead(date: string, fortuneType: string): string {
    "🔮 " + date + " 오늘의 " + fortuneType + "를 확인하세요!\n\n" +
    "👆 일시정지해서 당신의 운세를 확인하세요!\n놓치셨다면? 다시 돌려보세요! 😊\n\n" +
    "💬 자세한 운세가 궁금하시다면?\n댓글에 \"년생 + 월 + 운세\" 입력해주세요!\n" +
    "예) 95년생 2월 운세 \n→ 맞춤 운세를 댓글로 알려드립니다!\n\n" +
    "📌 오늘의 행운 키워드\n"
  }

  /** The description after the keyword line; the tag block names the fortune type. */
  function DescriptionTail(fortuneType: string): string {
    "\n\n━━━━━━━━━━━━━━━━━━━━━━━━━\n\n" +
    "👍 이 영상이 도움이 되셨다면? \n   → 좋아요 버튼을 눌러주세요!\n\n" +
    "🔔 매일 오전 6시 새로운 운세!\n   → 구독하고 알림 설정하세요!\n\n" +
    "💬 당신의 경험을 공유해주세요!\n   → 댓글로 소통해요!\n\n" +
    "📢 공유하기\n   → 친구에게도 행운을 나눠주세요!\n\n" +
    "━━━━━━━━━━━━━━━━━━━━━━━━━\n\n" +
    "🏷️ 태그\n#오늘의운세 #타로 #신년운세 #2026운세 #Shorts\n" +
    "#운세 #사주 #별자리 #" + fortuneType + " #행운\n" +
    "#점 #fortune #tarot #horoscope\n\n" +
    "📺 더 많은 운세 콘텐츠\n→ 매일 새로운 운세를 만나보세요!\n→ 커뮤니티에서 실시간 소통!\n\n" +
    "⚠️ 본 콘텐츠는 재미와 힐링을 위한 것으로,\n   중요한 결정은 신중히 하시기 바랍니다.\n\n" +
    "───────────────────────────\n🔮 운세 Shorts 자동 생성기\n"
  }

  /** generate_description. */
  function GenerateDescription(fortuneType: string, date: Option<string>, t: Today,
                               keywords: Option<seq<string>>): string
  {
    DescriptionHead(DateOr(date, t), fortuneType) + KeywordLine(keywords) + DescriptionTail(fortuneType)
  }

  /**
   * The keyword line sits right after the heading: with no keywords it is
   * the five defaults, otherwise the first five given (fewer when fewer are
   * given), separated by ", " (ShownKeywords states which).
   */
  lemma DescriptionKeywords(fortuneType: string, date: Option<string>, t: Today, keywords: Option<seq<string>>)
    ensures Text.OccursAt(GenerateDescription(fortuneType, date, t, keywords), KeywordLine(keywords),
                          |DescriptionHead(DateOr(date, t), fortuneType)|)
  {
    Between(DescriptionHead(DateOr(date, t), fortuneType), KeywordLine(keywords), DescriptionTail(fortuneType));
  }

  lemma Between(h: string, k: string, tl: string)
    ensures Text.OccursAt(h + k + tl, k, |h|)
  {
    assert (h + k + tl)[|h|..|h| + |k|] == k;
  }

  /** The default keyword line, written out. */
  lemma DefaultKeywordLine()
    ensures KeywordLine(None) == "행운, 성공, 기회, 만남, 돈"
  {
    var ks := DefaultKeywords;
    assert ks[1..][1..][1..][1..] == ["돈"];
  }

  // ---------------------------------------------------------------------
  // Hashtags
  // ---------------------------------------------------------------------

  const BaseTags: seq<string> := ["#오늘의운세", "#Shorts", "#운세", "#타로", "#점"]

  const GeneralTags: seq<string> :=
    ["#사주", "#별자리", "#점성술", "#신년", "#새해운세", "#tarot", "#horoscope", "#zodiac", "#astrology"]

  /** type_tags.get(fortune_type, []). */
  function TypeTags(fortuneType: string): (r: seq<string>)
    ensures fortuneType !in {"금전운", "애정운", "건강운", "총운"} ==> r == []
  {
    if fortuneType == "금전운" then ["#금전운", "#재물운", "#로또", "#대박", "#돈", "#재테크"]
    else if fortuneType == "애정운" then ["#애정운", "#연애운", "#사랑", "#인연", "#솔로탈출", "#커플"]
    else if fortuneType == "건강운" then ["#건강운", "#건강", "#힐링", "#웰빙", "#활력", "#에너지"]
    else if fortuneType == "총운" then ["#신년운세", "#2026운세", "#행운", "#fortune", "#lucky"]
    else []
  }

  /** The month and year tags of today's date, and "#오늘". */
  function DateTags(t: Today): seq<string> {
    ["#" + Text.NatToString(t.month) + "월운세", "#" + Text.NatToString(t.year) + "운세", "#오늘"]
  }

  function AllTags(fortuneType: string, t: Today): seq<string> {
    BaseTags + TypeTags(fortuneType) + DateTags(t) + GeneralTags
  }

  predicate Distinct<T(==)>(s: seq<T>) {
    forall i, j :: 0 <= i < j < |s| ==> s[i] != s[j]
  }

  /** list(dict.fromkeys(s)): the elements of s without repeats, each where it first occurs. */
  function Dedup(s: seq<string>): (r: seq<string>)
    ensures Distinct(r)
    ensures forall x :: x in r <==> x in s
    ensures |r| <= |s|
  {
    if s == [] then []
    else
      var d := Dedup(s[..|s| - 1]);
      var x := s[|s| - 1];
      assert forall y :: y in s <==> y in s[..|s| - 1] || y == x by {
        assert s == s[..|s| - 1] + [x];
      }
      if x in d then d else d + [x]
  }

  /** s[:count] in Python, where a negative count drops that many from the end. */
  function PyTake<T>(s: seq<T>, count: int): (r: seq<T>)
    ensures |r| <= |s| && r == s[..|r|]
    ensures 0 <= count ==> |r| == (if count < |s| then count else |s|)
    ensures count < 0 ==> |r| == (if |s| + count > 0 then |s| + count else 0)
  {
    if 0 <= count then (if count < |s| then s[..count] else s)
    else if |s| + count > 0 then s[..|s| + count] else []
  }

  /** generate_hashtags for today's date. */
  function GenerateHashtags(fortuneType: string, count: int, t: Today): seq<string> {
    PyTake(Dedup(AllTags(fortuneType, t)), count)
  }

  /** The elements of s at positions where they do not occur earlier: an independent account of first-occurrence order. */
  function FirstOccurrences(s: seq<string>): seq<string> {
    if s == [] then []
    else
      var init := s[..|s| - 1];
      FirstOccurrences(init) + (if s[|s| - 1] in init then [] else [s[|s| - 1]])
  }

  /** dict.fromkeys keeps exactly the first occurrence of each element, in order. */
  lemma {:induction false} DedupIsFirstOccurrences(s: seq<string>)
    ensures Dedup(s) == FirstOccurrences(s)
  {
    if s != [] {
      DedupIsFirstOccurrences(s[..|s| - 1]);
    }
  }

  /** Deduplicating a longer list starts with the deduplication of its prefix. */
  lemma {:induction false} DedupPrefix(a: seq<string>, b: seq<string>)
    ensures |Dedup(a)| <= |Dedup(a + b)| && Dedup(a + b)[..|Dedup(a)|] == Dedup(a)
    decreases |b|
  {
    if b == [] {
      assert a + b == a;
    } else {
      var b0 := b[..|b| - 1];
      DedupPrefix(a, b0);
      assert (a + b)[..|a + b| - 1] == a + b0;
    }
  }

  /** A list without repeats is its own deduplication. */
  lemma {:induction false} DedupDistinct(s: seq<string>)
    requires Distinct(s)
    ensures Dedup(s) == s
  {
    if s != [] {
      var init := s[..|s| - 1];
      DedupDistinct(init);
      assert s[|s| - 1] !in init by {
        forall i | 0 <= i < |init| ensures init[i] != s[|s| - 1] {
          assert init[i] == s[i];
        }
      }
      assert init + [s[|s| - 1]] == s;
    }
  }

  lemma BaseTagsDistinct()
    ensures Distinct(BaseTags) && |BaseTags| == 5
  {
  }

  /** A prefix of a list without repeats has no repeats and only elements of the list. */
  lemma TakeOfDistinct(d: seq<string>, count: int)
    requires Distinct(d)
    ensures var r := PyTake(d, count); Distinct(r) && (forall x :: x in r ==> x in d)
  {
    var r := PyTake(d, count);
    forall x | x in r ensures x in d {
      var k :| 0 <= k < |r| && r[k] == x;
      assert d[k] == x;
    }
  }

  /** Taking count elements of a list that starts with `base` keeps the first min(count, |base|) of base. */
  lemma TakeLeading(d: seq<string>, base: seq<string>, count: int)
    requires |base| <= |d| && d[..|base|] == base && 0 <= count
    ensures var n := if count < |base| then count else |base|;
      |PyTake(d, count)| >= n && PyTake(d, count)[..n] == base[..n]
  {
    var n := if count < |base| then count else |base|;
    var r := PyTake(d, count);
    assert r[..n] == d[..n];
    assert d[..n] == d[..|base|][..n];
  }

  /** Deduplicating and slicing a list that starts with distinct tags. */
  lemma TakeDedupSpec(base: seq<string>, rest: seq<string>, count: int)
    requires Distinct(base)
    ensures var r := PyTake(Dedup(base + rest), count);
      Distinct(r) && (forall x :: x in r ==> x in base + rest) &&
      (0 <= count ==> |r| <= count) &&
      (count >= |base + rest| ==> forall x :: x in base + rest ==> x in r) &&
      (0 <= count ==> var n := if count < |base| then count else |base|; |r| >= n && r[..n] == base[..n])
  {
    var d := Dedup(base + rest);
    TakeOfDistinct(d, count);
    if count >= |base + rest| {
      assert PyTake(d, count) == d;
    }
    if 0 <= count {
      DedupDistinct(base);
      DedupPrefix(base, rest);
      TakeLeading(d, base, count);
    }
  }

  /**
   * The hashtags have no repeats, come from the base, type, date and
   * general tags, and with count >= 0 number at most count; every tag of
   * those lists is present when count is large enough; and the first
   * min(count, 5) are the base tags.
   */
  lemma HashtagsSpec(fortuneType: string, count: int, t: Today)
    ensures var r := GenerateHashtags(fortuneType, count, t);
      var all := AllTags(fortuneType, t);
      Distinct(r) && (forall x :: x in r ==> x in all) &&
      (0 <= count ==> |r| <= count) &&
      (count >= |all| ==> forall x :: x in all ==> x in r) &&
      (0 <= count ==> var n := if count < 5 then count else 5; |r| >= n && r[..n] == BaseTags[..n])
  {
    var rest := TypeTags(fortuneType) + DateTags(t) + GeneralTags;
    assert BaseTags + rest == AllTags(fortuneType, t);
    BaseTagsDistinct();
    TakeDedupSpec(BaseTags, rest, count);
  }

  /** A fortune type without its own tags adds nothing between the base and date tags. */
  lemma UnknownTypeHashtags(fortuneType: string, count: int, t: Today)
    requires fortuneType !in {"금전운", "애정운", "건강운", "총운"}
    ensures GenerateHashtags(fortuneType, count, t) == PyTake(Dedup(BaseTags + DateTags(t) + GeneralTags), count)
  {
    assert AllTags(fortuneType, t) == BaseTags + DateTags(t) + GeneralTags;
  }
}
