/**
 * The card catalogue: the name and short meaning of each of the 78
 * Rider-Waite cards (0-21 the major arcana, then Wands, Cups, Swords and
 * Pentacles, 14 each) and the pool of cards each fortune type draws from.
 */
module TarotMeanings {
  datatype CardInfo = CardInfo(name: string, meaning: string)

  /** What a lookup of an unknown index returns. */
  const Unknown: CardInfo := CardInfo("?", "?")

  /** The entries in index order; entry i describes card i. */
  const CardTable: seq<CardInfo> := [
    // Major Arcana
    CardInfo("더 풀", "새로운 시작, 자유로운 선택"),
    CardInfo("매지션", "의지력, 창조적 에너지"),
    CardInfo("여사제", "직관, 내면의 지혜"),
    CardInfo("여황제", "풍요, 사랑, 풍성함"),
    CardInfo("황제", "안정, 권위, 구조"),
    CardInfo("교황", "전통, 지혜, 가르침"),
    CardInfo("연인", "사랑, 선택, 조화"),
    CardInfo("전차", "결단, 승리, 의지"),
    CardInfo("힘", "용기, 인내, 내적 힘"),
    CardInfo("은둔자", "성찰, 지혜, 고독"),
    CardInfo("운명의 수레바퀴", "순환, 변화, 기회"),
    CardInfo("정의", "공정함, 균형, 진실"),
    CardInfo("매달린 사람", "포기, 새로운 시각"),
    CardInfo("죽음", "변화, 종말과 새로운 시작"),
    CardInfo("절제", "조화, 인내, 균형"),
    CardInfo("악마", "유혹, 집착, 해방"),
    CardInfo("탑", "파괴, 깨달음, 급격한 변화"),
    CardInfo("별", "희망, 영감, 치유"),
    CardInfo("달", "직관, 불안, 잠재의식"),
    CardInfo("태양", "행복, 성공, 낙관"),
    CardInfo("심판", "부활, 깨달음, 새로운 단계"),
    CardInfo("월드", "완성, 성취, 통합"),
    // Wands
    CardInfo("완드 에이스", "새로운 도전, 영감"),
    CardInfo("완드 2", "계획, 결정 고민"),
    CardInfo("완드 3", "확장, 협력, 미래"),
    CardInfo("완드 4", "축하, 안정, 휴식"),
    CardInfo("완드 5", "경쟁, 갈등, 도전"),
    CardInfo("완드 6", "승리, 인정, 자신감"),
    CardInfo("완드 7", "방어, 인내, 극복"),
    CardInfo("완드 8", "신속함, 움직임, 변화"),
    CardInfo("완드 9", "근본적인 두려움"),
    CardInfo("완드 10", "부담, 책임, 완수"),
    CardInfo("완드 페이지", "탐구, 호기심, 소식"),
    CardInfo("완드 나이트", "에너지, 모험, 변화"),
    CardInfo("완드 퀸", "리더십, 독립, 자신감"),
    CardInfo("완드 킹", "비전, 기업가 정신"),
    // Cups
    CardInfo("컵 에이스", "새로운 사랑, 감정의 시작"),
    CardInfo("컵 2", "파트너십, 조화"),
    CardInfo("컵 3", "축하, 우정, 기쁨"),
    CardInfo("컵 4", "성찰, 불만, 선택"),
    CardInfo("컵 5", "상실, 슬픔, 극복"),
    CardInfo("컵 6", "추억, 과거, 순수함"),
    CardInfo("컵 7", "선택, 환상, 꿈"),
    CardInfo("컵 8", "이동, 변화, 새로운 길"),
    CardInfo("컵 9", "만족, 풍요, 행복"),
    CardInfo("컵 10", "가족, 조화, 완성"),
    CardInfo("컵 페이지", "창의성, 직관, 소식"),
    CardInfo("컵 나이트", "로맨스, 초대, 감정"),
    CardInfo("컵 퀸", "공감, 치유, 감성"),
    CardInfo("컵 킹", "감정적 균형, 지도력"),
    // Swords
    CardInfo("소드 에이스", "깨달음, 진실, 돌파"),
    CardInfo("소드 2", "결정 불가, 교착"),
    CardInfo("소드 3", "슬픔, 상처, 회복"),
    CardInfo("소드 4", "휴식, 회복, 침묵"),
    CardInfo("소드 5", "갈등, 승리와 패배"),
    CardInfo("소드 6", "이동, 변화, 극복"),
    CardInfo("소드 7", "전략, 회피, 교활함"),
    CardInfo("소드 8", "제한, 포위, 인내"),
    CardInfo("소드 9", "불안, 두려움, 고민"),
    CardInfo("소드 10", "종말, 새로운 시작"),
    CardInfo("소드 페이지", "새로운 아이디어, 호기심"),
    CardInfo("소드 나이트", "행동, 돌진, 변화"),
    CardInfo("소드 퀸", "독립, 명확함, 판단"),
    CardInfo("소드 킹", "권위, 진실, 결단"),
    // Pentacles
    CardInfo("펜타클 에이스", "재물의 시작, 기회"),
    CardInfo("펜타클 2", "균형, 협상, 선택"),
    CardInfo("펜타클 3", "협력, 숙련, 성장"),
    CardInfo("펜타클 4", "안정, 저장, 보안"),
    CardInfo("펜타클 5", "금전적 어려움, 공유"),
    CardInfo("펜타클 6", "나눔, 협력, 지원"),
    CardInfo("펜타클 7", "인내, 투자, 장기"),
    CardInfo("펜타클 8", "숙련, 노동, 성과"),
    CardInfo("펜타클 9", "풍요, 안정, 성취"),
    CardInfo("펜타클 10", "부, 유산, 완성"),
    CardInfo("펜타클 페이지", "학습, 연구, 잠재력"),
    CardInfo("펜타클 나이트", "근면, 신뢰, 진전"),
    CardInfo("펜타클 퀸", "풍요, 안정, 돌봄"),
    CardInfo("펜타클 킹", "부, 리더십, 안정")]

  /** The dictionary keyed by card index. */
  const Cards: map<int, CardInfo> := map i | 0 <= i < |CardTable| :: CardTable[i]

  /** The entry of the card, or "?" / "?" for an index outside the table. */
  function GetCardInfo(index: int): (r: CardInfo)
    ensures 0 <= index < |CardTable| ==> r == CardTable[index]
    ensures !(0 <= index < |CardTable|) ==> r == Unknown
  {
    if index in Cards then Cards[index] else Unknown
  }

  /** The table holds exactly the indices 0..77. */
  lemma CardKeys(index: int)
    ensures |CardTable| == 78
    ensures index in Cards <==> 0 <= index < 78
  {
  }

  // ---------------------------------------------------------------------
  // Card pools
  // ---------------------------------------------------------------------

  /** list(range(lo, hi)). */
  function Span(lo: nat, hi: nat): (r: seq<nat>)
    requires lo <= hi
    ensures |r| == hi - lo && forall i :: 0 <= i < |r| ==> r[i] == lo + i
  {
    seq(hi - lo, i => lo + i)
  }

  const Major: seq<nat> := Span(0, 22)
  const Wands: seq<nat> := Span(22, 36)
  const Cups: seq<nat> := Span(36, 50)
  const Swords: seq<nat> := Span(50, 64)
  const Pentacles: seq<nat> := Span(64, 78)

  /** The 14-card pools of the minor-arcana mode. */
  const MinorPools: map<string, seq<nat>> := map[
    "건강운" := Wands, "애정운" := Cups, "금전운" := Pentacles, "의사결정" := Swords]

  /** The pools of the other modes. */
  const Pools: map<string, seq<nat>> := map[
    "총운" := Major, "애정운" := Cups, "금전운" := Pentacles, "건강운" := Wands,
    "morning" := Major, "lunch" := Major, "evening" := Major,
    "방향과 태도" := Major, "활력과 점검" := Major, "새로운 시작과 몰입" := Major,
    "직장운" := Major, "학업운" := Major, "인간관계운" := Major, "재회·이별운" := Major,
    "재회 및 미련" := Major, "썸 & 짝사랑" := Major, "관계의 비밀" := Major, "운세 및 기회" := Major]

  /** The cards a fortune type draws from; unknown types fall back to Wands (minor) or the major arcana. */
  function GetCardPool(fortuneType: string, useMinor: bool): seq<nat> {
    if useMinor then
      (if fortuneType in MinorPools then MinorPools[fortuneType] else Wands)
    else
      (if fortuneType in Pools then Pools[fortuneType] else Major)
  }

  /** A pool is a run of consecutive indices. */
  predicate IsSpan(p: seq<nat>, lo: nat, n: nat) {
    |p| == n && forall i :: 0 <= i < n ==> p[i] == lo + i
  }

  /** Every value either pool map holds is one suit or the major arcana. */
  lemma PoolValues(fortuneType: string)
    ensures fortuneType in MinorPools ==>
      MinorPools[fortuneType] in {Wands, Cups, Swords, Pentacles}
    ensures fortuneType in Pools ==>
      Pools[fortuneType] in {Major, Cups, Pentacles, Wands}
  {
  }

  /**
   * Whatever the fortune type, the pool is the major arcana (22 cards) or one
   * whole minor suit (14 cards): consecutive, distinct indices of real cards,
   * and never fewer than the six cards a spread needs.
   */
  lemma PoolShape(fortuneType: string, useMinor: bool)
    ensures var p := GetCardPool(fortuneType, useMinor);
      |p| >= 6 && (|p| == 14 || |p| == 22) && p[0] + |p| <= 78 &&
      IsSpan(p, p[0], |p|) &&
      (forall i :: 0 <= i < |p| ==> p[i] < 78) &&
      (forall i, j :: 0 <= i < j < |p| ==> p[i] != p[j])
  {
    PoolValues(fortuneType);
    var p := GetCardPool(fortuneType, useMinor);
    assert p in {Major, Wands, Cups, Swords, Pentacles};
  }

  /** In minor mode each fortune type draws from its own suit, and unknown types from Wands. */
  lemma MinorPoolChoice(fortuneType: string)
    ensures GetCardPool("건강운", true) == Wands
    ensures GetCardPool("애정운", true) == Cups
    ensures GetCardPool("금전운", true) == Pentacles
    ensures GetCardPool("의사결정", true) == Swords
    ensures fortuneType !in {"건강운", "애정운", "금전운", "의사결정"} ==>
      GetCardPool(fortuneType, true) == Wands
  {
  }

  /**
   * Outside minor mode, love, money and health draw from Cups, Pentacles and
   * Wands; every other type, listed or not, draws from the major arcana.
   */
  lemma MajorPoolChoice(fortuneType: string)
    ensures GetCardPool("애정운", false) == Cups
    ensures GetCardPool("금전운", false) == Pentacles
    ensures GetCardPool("건강운", false) == Wands
    ensures fortuneType !in {"애정운", "금전운", "건강운"} ==>
      GetCardPool(fortuneType, false) == Major
  {
  }
}
