/**
 * The phrase database of the themed tarot videos, over in-memory tables:
 * themes and their phrases (seeded, then kept in step with the seed
 * texts), the phrases already used for viral titles, and the hook titles
 * shown on a video's first screen, each marked when used and all cleared
 * once every one has been used. Timestamps are parameters; ORDER BY
 * RANDOM() is a nondeterministic choice.
 */
module ThemePhrasesDb {
  import opened Wrappers
  import Text

  const ThemeDbNames: seq<string> := ["재회 및 미련", "썸 & 짝사랑", "관계의 비밀", "운세 및 기회", "테스트"]

  /** The themes whose phrases serve as viral titles: all but the test theme. */
  const ViralThemeNames: seq<string> := ["재회 및 미련", "썸 & 짝사랑", "관계의 비밀", "운세 및 기회"]

  /** A seed theme: its name and its phrases, in order. */
  datatype SeedTheme = SeedTheme(name: string, texts: seq<string>)

  const HookTitles: seq<string> := [
    "지금 고른 이 카드가 당신의 하루를 바꿉니다",
    "오늘 중요한 일정이 있다면 이 카드부터",
    "한 장의 카드가 오늘 결정을 도와줍니다",
    "오늘 시작 전에 꼭 이 카드를 고르세요",
    "오늘 당신의 선택을 비추는 카드",
    "지금 고른 번호가 오늘의 흐름입니다",
    "오늘 실수하지 않으려면 이 카드",
    "오늘 움직이기 전, 이 카드부터",
    "당신의 하루를 미리 보여주는 카드",
    "오늘 중요한 대화가 있다면 이 선택",
    "지금 고른 카드가 경고를 줍니다",
    "오늘 놓치지 말아야 할 흐름",
    "오늘 운의 방향을 정하는 한 장",
    "오늘의 중심 에너지를 확인하세요",
    "이 카드를 고르면 오늘이 보입니다",
    "오늘 중요한 판단이 있다면 선택하세요",
    "당신의 오늘을 미리 알려주는 카드",
    "오늘 후회하지 않으려면 이 번호",
    "지금 선택이 오늘을 좌우합니다",
    "오늘 하루, 이 카드가 열쇠입니다"]

  const Seed: seq<SeedTheme> := [
    SeedTheme("재회 및 미련", [
      "\"자니?\" 밤 11시 이후 온 카톡, 진심일까?",
      "헤어진 지 3개월, 내 프로필 염탐하는 에너지가 있을까?",
      "차단당했는데... 풀릴 가능성은?",
      "나를 잊었을까? 전 애인의 솔직한 현재 일상",
      "우리가 다시 만날 운명인지 알려주는 카드",
      "환승 이별한 그 사람, 지금 행복할까?",
      "먼저 연락하면 답장 올 가능성이 있는 시기",
      "다른 사람이 생겼을까? 그 사람 주변 이성 운세",
      "그 사람이 후회하며 울고 있는 밤의 리딩",
      "우리 이별의 진짜 원인, 나만 몰랐던 진실",
      "술 마시고 전화할까 고민 중인 그의 속마음",
      "\"미안해\"라고 말하고 싶은데... 그의 자존심 상태",
      "조만간 그 사람에게 연락 올 가능성은?",
      "재결합하면 또 헤어질까? 미래 결과 리딩",
      "그 사람이 내 인스타 스토리를 안 보는 이유",
      "나랑 헤어지고 나서 그 사람이 겪는 불운",
      "조만간 마주칠 가능성이 있는 흐름",
      "전 애인이 아직 보관 중인 내 물건의 의미",
      "나를 대신할 사람을 찾고 있을까?",
      "앞으로 우리는 다시 남남일까 연인일까?"]),
    SeedTheme("썸 & 짝사랑", [
      "그 사람 눈에 비친 나의 진짜 첫인상 3가지",
      "썸일까 어장일까? 헷갈리는 행동의 마침표",
      "조만간 고백의 에너지가 있을 사람의 키워드",
      "짝사랑 끝내고 싶다면? 지금 당장 해야 할 행동",
      "조만간 선톡 올 가능성은?",
      "그 사람이 나를 보고 '귀엽다'고 생각한 순간",
      "우리 사이에 방해꾼이 있을까? 주변 인물 운세",
      "지금 톡 보내면 어떤 반응의 에너지인가?",
      "그 사람이 나에게 느끼는 권태로움의 정체",
      "고백 타이밍이 좋을 수 있는 흐름",
      "썸남이 나에게 숨기고 있는 치명적인 비밀",
      "나를 이성으로 볼까, 그냥 편한 친구로 볼까?",
      "그 사람과 연인이 됐을 때의 스킨십 궁합",
      "내 카톡 보고 그 사람이 지은 표정 리딩",
      "짝사랑 상대가 좋아하는 '스타일' 분석 카드",
      "데이트 신청 타이밍과 반응 가능성",
      "그 사람이 나를 차단할까 고민 중일까?",
      "나 말고 다른 썸녀가 있는지 확인하는 법",
      "조만간 우리 관계가 급진전될 사건",
      "그 사람이 먼저 번호 물어보게 만드는 팁"]),
    SeedTheme("관계의 비밀", [
      "나 말고 다른 사람도 있을까? (양다리 의심)",
      "절대 말 못 할 비밀... 그가 숨기는 과거",
      "우린 전생에 어떤 인연이었을까?",
      "조금 위험한 질문, 그 사람의 밤의 속마음",
      "지금 그 사람이 당신에게 가장 하고 싶은 욕구",
      "나를 이용하는 걸까, 사랑하는 걸까?",
      "그 사람이 나 몰래 내 친구에게 연락했을까?",
      "우리 관계가 여기까지인 진짜 이유 (소름 주의)",
      "그 사람의 핸드폰 사진첩에 내 사진이 있을까?",
      "나랑 있을 때 딴생각 하는 그 사람의 머릿속",
      "나에게 정떨어졌다고 느낀 결정적 순간",
      "집착일까 사랑일까? 상대의 소유욕 테스트",
      "그 사람에게 의심스러운 에너지가 있을까?",
      "그 사람이 나를 보고 느꼈던 가장 야한 생각",
      "우리 관계가 깊어지지 않는 영적인 이유",
      "나만 모르는 그 사람의 이성 관계 복잡도",
      "그 사람이 나에게 기대하는 경제적 이득",
      "이별을 결심한 그 사람의 현재 진행 상황",
      "나를 만나고 나서 그 사람의 운이 좋아졌을까?",
      "우리가 끝내야 할까, 버텨야 할까? 참고할 점"]),
    SeedTheme("운세 및 기회", [
      "조만간 일어날 수 있는 기분 좋은 변화",
      "조만간 들어올 돈복 에너지 확인",
      "나를 시기하는 사람 vs 도와줄 사람 구별법",
      "당신을 짝사랑하고 있는 의외의 인물",
      "이번 달, 당신에게 찾아올 운명적인 귀인의 특징",
      "지금 하는 일, 계속해도 될까? 직업운 리딩",
      "갈등이 풀리는 흐름이 있을까?",
      "이직·합격 에너지 흐름 리딩",
      "갑자기 연락 끊긴 친구의 진심",
      "오늘 밤 꿈에 나올 사람이 전하는 메시지",
      "당신의 매력이 가장 폭발하는 요일",
      "조만간 문서운(계약)이 들어올 가능성",
      "나를 질투하는 사람의 이니셜(자음) 힌트",
      "다음 주에 만날 새로운 인연의 키워드",
      "지금 고민 중인 그 문제, 어떤 방향으로 흐르는지",
      "돈복 에너지가 높은 시기의 참고점",
      "조상님이 전하는 이번 달 조심해야 할 것",
      "오늘 하루, 당신을 행복하게 해줄 컬러",
      "잃어버린 물건(또는 기회)을 찾을 수 있을까?",
      "2026년 상반기 대박 운세 키워드"]),
    SeedTheme("테스트", [
      "오늘의 변화 에너지",
      "오늘 연락 가능성",
      "오늘 피해야 할 사람"])]

  datatype Theme = Theme(id: nat, name: string)
  datatype Phrase = Phrase(id: nat, themeId: nat, text: string)
  datatype HookTitle = HookTitle(id: nat, text: string, usedAt: Option<string>)

  /**
   * The four tables, each kept in id order, and the next AUTOINCREMENT id of
   * each table that has one. phrase_used_for_viral maps a phrase id to the
   * time it was used.
   */
  datatype Tables = Tables(
    themes: seq<Theme>,
    phrases: seq<Phrase>,
    viralUsed: map<int, string>,
    hooks: seq<HookTitle>,
    nextThemeId: nat,
    nextPhraseId: nat,
    nextHookId: nat)

  /** A database file that has just been created: empty tables, ids starting at 1. */
  const Fresh: Tables := Tables([], [], map[], [], 1, 1, 1)

  // ---------------------------------------------------------------------
  // Primary keys
  // ---------------------------------------------------------------------

  predicate ThemeIdsOk(ts: seq<Theme>, next: nat) {
    (forall i :: 0 <= i < |ts| ==> 1 <= ts[i].id < next) &&
    (forall i, j :: 0 <= i < j < |ts| ==> ts[i].id < ts[j].id)
  }

  predicate PhraseIdsOk(ps: seq<Phrase>, next: nat) {
    (forall i :: 0 <= i < |ps| ==> 1 <= ps[i].id < next) &&
    (forall i, j :: 0 <= i < j < |ps| ==> ps[i].id < ps[j].id)
  }

  predicate HookIdsOk(hs: seq<HookTitle>, next: nat) {
    (forall i :: 0 <= i < |hs| ==> 1 <= hs[i].id < next) &&
    (forall i, j :: 0 <= i < j < |hs| ==> hs[i].id < hs[j].id)
  }

  /** Every phrase names a theme id that has been handed out. */
  predicate PhraseRefsOk(ps: seq<Phrase>, nextTheme: nat) {
    forall i :: 0 <= i < |ps| ==> ps[i].themeId < nextTheme
  }

  /**
   * Every table holds its rows in increasing id order, below the next id
   * to hand out, and every phrase refers to a theme id already handed out.
   */
  predicate WellFormed(t: Tables) {
    1 <= t.nextThemeId && 1 <= t.nextPhraseId && 1 <= t.nextHookId &&
    ThemeIdsOk(t.themes, t.nextThemeId) && PhraseIdsOk(t.phrases, t.nextPhraseId) && HookIdsOk(t.hooks, t.nextHookId) &&
    PhraseRefsOk(t.phrases, t.nextThemeId)
  }

  // ---------------------------------------------------------------------
  // init_db: themes and phrases
  // ---------------------------------------------------------------------

  /** SELECT id FROM theme WHERE name = ?: the id of the first theme with that name. */
  function FindTheme(ts: seq<Theme>, name: string): (r: Option<nat>)
    ensures r.None? <==> forall i :: 0 <= i < |ts| ==> ts[i].name != name
    ensures r.Some? ==> exists i :: 0 <= i < |ts| && ts[i].name == name && ts[i].id == r.value
  {
    if ts == [] then None
    else if ts[0].name == name then Some(ts[0].id)
    else
      var r := FindTheme(ts[1..], name);
      assert r.Some? ==> exists i :: 0 <= i < |ts| && ts[i].name == name && ts[i].id == r.value by {
        if r.Some? {
          var i :| 0 <= i < |ts[1..]| && ts[1..][i].name == name && ts[1..][i].id == r.value;
          assert ts[i + 1] == ts[1..][i];
        }
      }
      assert r.None? ==> forall i :: 0 <= i < |ts| ==> ts[i].name != name by {
        if r.None? {
          forall i | 0 <= i < |ts| ensures ts[i].name != name {
            if i > 0 {
              assert ts[i] == ts[1..][i - 1];
            }
          }
        }
      }
      r
  }

  /** The rows inserted for the phrases of a new theme: consecutive ids from `first`. */
  function NewPhrases(first: nat, tid: nat, texts: seq<string>): (r: seq<Phrase>)
    ensures |r| == |texts| && forall k :: 0 <= k < |texts| ==> r[k] == Phrase(first + k, tid, texts[k])
  {
    seq(|texts|, k requires 0 <= k < |texts| => Phrase(first + k, tid, texts[k]))
  }

  /** INSERT INTO theme, then one INSERT INTO phrase per seed text, in order. */
  function InsertSeedTheme(t: Tables, s: SeedTheme): Tables {
    t.(themes := t.themes + [Theme(t.nextThemeId, s.name)],
       phrases := t.phrases + NewPhrases(t.nextPhraseId, t.nextThemeId, s.texts),
       nextThemeId := t.nextThemeId + 1,
       nextPhraseId := t.nextPhraseId + |s.texts|)
  }

  /** SELECT ... FROM phrase WHERE theme_id = ? ORDER BY id. */
  function ThemeRows(ps: seq<Phrase>, tid: nat): (r: seq<Phrase>)
    ensures |r| <= |ps|
  {
    if ps == [] then []
    else ThemeRows(ps[..|ps| - 1], tid) + (if ps[|ps| - 1].themeId == tid then [ps[|ps| - 1]] else [])
  }

  /** The position of row j among the rows of theme tid: the number of its rows before j. */
  function Rank(ps: seq<Phrase>, j: nat, tid: nat): nat
    requires j <= |ps|
  {
    |ThemeRows(ps[..j], tid)|
  }

  /** Row j after the sync: the k-th phrase of the theme takes the k-th seed text, when there is one. */
  function SyncedRow(ps: seq<Phrase>, tid: nat, texts: seq<string>, j: nat): Phrase
    requires j < |ps|
  {
    if ps[j].themeId == tid && Rank(ps, j, tid) < |texts| then ps[j].(text := texts[Rank(ps, j, tid)]) else ps[j]
  }

  /** The phrase table after the sync of theme tid with its seed texts. */
  function SyncedPhrases(ps: seq<Phrase>, tid: nat, texts: seq<string>): (r: seq<Phrase>)
    ensures |r| == |ps| && forall j :: 0 <= j < |ps| ==> r[j] == SyncedRow(ps, tid, texts, j)
  {
    seq(|ps|, j requires 0 <= j < |ps| => SyncedRow(ps, tid, texts, j))
  }

  /** One seed theme when the theme table was not empty: insert it when its name is new, sync it otherwise. */
  function SeedStep(t: Tables, s: SeedTheme): Tables {
    match FindTheme(t.themes, s.name)
    case None => InsertSeedTheme(t, s)
    case Some(tid) => t.(phrases := SyncedPhrases(t.phrases, tid, s.texts))
  }

  function InsertAll(t: Tables, seed: seq<SeedTheme>): Tables
    decreases |seed|
  {
    if seed == [] then t else InsertAll(InsertSeedTheme(t, seed[0]), seed[1..])
  }

  function SeedEach(t: Tables, seed: seq<SeedTheme>): Tables
    decreases |seed|
  {
    if seed == [] then t else SeedEach(SeedStep(t, seed[0]), seed[1..])
  }

  /** The theme part of init_db: seed an empty theme table, otherwise add or sync theme by theme. */
  function SeedThemes(t: Tables, seed: seq<SeedTheme>): Tables {
    if |t.themes| == 0 then InsertAll(t, seed) else SeedEach(t, seed)
  }

  // ---------------------------------------------------------------------
  // init_db: hook titles
  // ---------------------------------------------------------------------

  predicate HasHook(hs: seq<HookTitle>, text: string) {
    exists i :: 0 <= i < |hs| && hs[i].text == text
  }

  /** INSERT INTO hook_titles (text, used_at) VALUES (?, NULL). */
  function AppendHook(t: Tables, text: string): Tables {
    t.(hooks := t.hooks + [HookTitle(t.nextHookId, text, None)], nextHookId := t.nextHookId + 1)
  }

  function InsertHooks(t: Tables, titles: seq<string>): Tables
    decreases |titles|
  {
    if titles == [] then t else InsertHooks(AppendHook(t, titles[0]), titles[1..])
  }

  function AddMissingHooks(t: Tables, titles: seq<string>): Tables
    decreases |titles|
  {
    if titles == [] then t
    else if HasHook(t.hooks, titles[0]) then AddMissingHooks(t, titles[1..])
    else AddMissingHooks(AppendHook(t, titles[0]), titles[1..])
  }

  /** The hook part of init_db: seed an empty table, otherwise insert just the titles whose text is absent. */
  function SeedHooks(t: Tables, titles: seq<string>): Tables {
    if |t.hooks| == 0 then InsertHooks(t, titles) else AddMissingHooks(t, titles)
  }

  /** init_db over given seed data: the themes seeded or synced, then the hook titles seeded. */
  function InitWith(t: Tables, seed: seq<SeedTheme>, titles: seq<string>): Tables {
    SeedHooks(SeedThemes(t, seed), titles)
  }

  /** What init_db leaves. */
  function InitTables(t: Tables): Tables {
    InitWith(t, Seed, HookTitles)
  }

  // ---------------------------------------------------------------------
  // Properties of the hook seeding
  // ---------------------------------------------------------------------

  /** Tables that agree on everything but the hook titles. */
  predicate SameButHooks(a: Tables, b: Tables) {
    a.themes == b.themes && a.phrases == b.phrases && a.viralUsed == b.viralUsed &&
    a.nextThemeId == b.nextThemeId && a.nextPhraseId == b.nextPhraseId
  }

  /**
   * Both seeding paths keep every existing row and the other tables, and
   * append rows that are unused, carry seed titles and added increasing ids.
   */
  predicate HooksExtended(t: Tables, r: Tables, titles: seq<string>) {
    SameButHooks(t, r) && t.nextHookId <= r.nextHookId &&
    |t.hooks| <= |r.hooks| && r.hooks[..|t.hooks|] == t.hooks &&
    (forall i :: |t.hooks| <= i < |r.hooks| ==>
      r.hooks[i].usedAt.None? && r.hooks[i].text in titles && t.nextHookId <= r.hooks[i].id < r.nextHookId) &&
    (forall i, j :: |t.hooks| <= i < j < |r.hooks| ==> r.hooks[i].id < r.hooks[j].id)
  }

  lemma ExtendedTrans(t: Tables, u: Tables, r: Tables, titles: seq<string>, x: string)
    requires HooksExtended(t, u, [x]) && HooksExtended(u, r, titles)
    ensures HooksExtended(t, r, [x] + titles)
  {
    assert r.hooks[..|t.hooks|] == u.hooks[..|t.hooks|];
    forall i | |t.hooks| <= i < |r.hooks|
      ensures r.hooks[i].usedAt.None? && r.hooks[i].text in [x] + titles && t.nextHookId <= r.hooks[i].id < r.nextHookId
    {
      if i < |u.hooks| {
        assert r.hooks[i] == u.hooks[i];
      }
    }
    forall i, j | |t.hooks| <= i < j < |r.hooks| ensures r.hooks[i].id < r.hooks[j].id {
      if j < |u.hooks| {
        assert r.hooks[i] == u.hooks[i] && r.hooks[j] == u.hooks[j];
      } else if i < |u.hooks| {
        assert r.hooks[i] == u.hooks[i];
      }
    }
  }

  lemma AppendExtends(t: Tables, x: string)
    ensures HooksExtended(t, AppendHook(t, x), [x])
  {
    assert AppendHook(t, x).hooks[..|t.hooks|] == t.hooks;
  }

  lemma NoChangeExtends(t: Tables, titles: seq<string>)
    ensures HooksExtended(t, t, titles)
  {
    assert t.hooks[..|t.hooks|] == t.hooks;
  }

  /** Inserting every title appends unused rows with added ids. */
  lemma {:induction false} InsertHooksSpec(t: Tables, titles: seq<string>)
    ensures HooksExtended(t, InsertHooks(t, titles), titles)
    decreases |titles|
  {
    if titles == [] {
      NoChangeExtends(t, titles);
    } else {
      var u := AppendHook(t, titles[0]);
      InsertHooksSpec(u, titles[1..]);
      AppendExtends(t, titles[0]);
      ExtendedTrans(t, u, InsertHooks(u, titles[1..]), titles[1..], titles[0]);
      assert [titles[0]] + titles[1..] == titles;
    }
  }

  /** Inserting every title appends one row per title, in order. */
  lemma {:induction false} InsertHooksTexts(t: Tables, titles: seq<string>)
    ensures |InsertHooks(t, titles).hooks| == |t.hooks| + |titles|
    ensures InsertHooks(t, titles).hooks[..|t.hooks|] == t.hooks
    ensures forall k :: 0 <= k < |titles| ==> InsertHooks(t, titles).hooks[|t.hooks| + k].text == titles[k]
    decreases |titles|
  {
    if titles != [] {
      var u := AppendHook(t, titles[0]);
      var r := InsertHooks(u, titles[1..]);
      InsertHooksTexts(u, titles[1..]);
      assert r.hooks[..|t.hooks|] == u.hooks[..|u.hooks|][..|t.hooks|];
      forall k | 0 <= k < |titles| ensures r.hooks[|t.hooks| + k].text == titles[k] {
        if k == 0 {
          assert r.hooks[|t.hooks|] == u.hooks[|t.hooks|];
        } else {
          assert r.hooks[|u.hooks| + (k - 1)].text == titles[1..][k - 1];
        }
      }
    }
  }

  /** A text present in a table stays present in any table extending it. */
  lemma HasHookPrefix(a: seq<HookTitle>, b: seq<HookTitle>, x: string)
    requires |a| <= |b| && b[..|a|] == a
    ensures HasHook(a, x) ==> HasHook(b, x)
  {
    if HasHook(a, x) {
      var k :| 0 <= k < |a| && a[k].text == x;
      assert b[k] == a[k];
    }
  }

  /**
   * Adding the missing titles appends rows only for titles whose text was
   * absent, and afterwards every title is present.
   */
  lemma {:induction false} AddMissingSpec(t: Tables, titles: seq<string>)
    ensures HooksExtended(t, AddMissingHooks(t, titles), titles)
    ensures forall k :: 0 <= k < |titles| ==> HasHook(AddMissingHooks(t, titles).hooks, titles[k])
    ensures forall i :: |t.hooks| <= i < |AddMissingHooks(t, titles).hooks| ==>
      !HasHook(t.hooks, AddMissingHooks(t, titles).hooks[i].text)
    decreases |titles|
  {
    if titles == [] {
      NoChangeExtends(t, titles);
    } else {
      var x := titles[0];
      var u := if HasHook(t.hooks, x) then t else AppendHook(t, x);
      var r := AddMissingHooks(u, titles[1..]);
      assert r == AddMissingHooks(t, titles);
      AddMissingSpec(u, titles[1..]);
      if HasHook(t.hooks, x) {
        NoChangeExtends(t, [x]);
      } else {
        AppendExtends(t, x);
      }
      ExtendedTrans(t, u, r, titles[1..], x);
      assert [x] + titles[1..] == titles;
      assert HasHook(u.hooks, x) by {
        if !HasHook(t.hooks, x) {
          assert u.hooks[|t.hooks|].text == x;
        }
      }
      HasHookPrefix(u.hooks, r.hooks, x);
      forall k | 0 <= k < |titles| ensures HasHook(r.hooks, titles[k]) {
        if k > 0 {
          assert titles[k] == titles[1..][k - 1];
        }
      }
      forall i | |t.hooks| <= i < |r.hooks| ensures !HasHook(t.hooks, r.hooks[i].text) {
        if i < |u.hooks| {
          assert r.hooks[i] == u.hooks[i];
        } else {
          HasHookPrefix(t.hooks, u.hooks, r.hooks[i].text);
        }
      }
    }
  }

  /** When every title is already present, adding the missing ones changes nothing. */
  lemma {:induction false} AddMissingNone(t: Tables, titles: seq<string>)
    requires forall k :: 0 <= k < |titles| ==> HasHook(t.hooks, titles[k])
    ensures AddMissingHooks(t, titles) == t
    decreases |titles|
  {
    if titles != [] {
      assert HasHook(t.hooks, titles[0]);
      AddMissingNone(t, titles[1..]);
    }
  }

  /**
   * Hook seeding: an empty table receives every title, in order, unused;
   * otherwise only titles whose text is absent are added. Either way the
   * old rows stay and every title is present afterwards.
   */
  lemma SeedHooksSpec(t: Tables, titles: seq<string>)
    ensures HooksExtended(t, SeedHooks(t, titles), titles)
    ensures forall k :: 0 <= k < |titles| ==> HasHook(SeedHooks(t, titles).hooks, titles[k])
    ensures |t.hooks| == 0 ==>
      |SeedHooks(t, titles).hooks| == |titles| &&
      forall k :: 0 <= k < |titles| ==> SeedHooks(t, titles).hooks[k].text == titles[k]
    ensures |t.hooks| > 0 ==> forall i :: |t.hooks| <= i < |SeedHooks(t, titles).hooks| ==>
      !HasHook(t.hooks, SeedHooks(t, titles).hooks[i].text)
  {
    var r := SeedHooks(t, titles);
    if |t.hooks| == 0 {
      InsertHooksSpec(t, titles);
      InsertHooksTexts(t, titles);
      forall k | 0 <= k < |titles| ensures HasHook(r.hooks, titles[k]) {
        assert r.hooks[|t.hooks| + k].text == titles[k];
      }
    } else {
      AddMissingSpec(t, titles);
    }
  }

  /** Seeding the hook titles twice is seeding them once: a repeated init adds no duplicate title. */
  lemma SeedHooksIdempotent(t: Tables, titles: seq<string>)
    ensures SeedHooks(SeedHooks(t, titles), titles) == SeedHooks(t, titles)
  {
    var r := SeedHooks(t, titles);
    SeedHooksSpec(t, titles);
    if titles != [] {
      assert HasHook(r.hooks, titles[0]);
      AddMissingNone(r, titles);
    } else if |r.hooks| == 0 {
    } else {
      AddMissingNone(r, titles);
    }
  }

  /** The seeded hook table keeps its keys. */
  lemma ExtendedWellFormed(t: Tables, r: Tables, titles: seq<string>)
    requires WellFormed(t) && HooksExtended(t, r, titles)
    ensures WellFormed(r)
  {
    forall i | 0 <= i < |r.hooks| ensures 1 <= r.hooks[i].id < r.nextHookId {
      if i < |t.hooks| {
        assert r.hooks[i] == t.hooks[i];
      }
    }
    forall i, j | 0 <= i < j < |r.hooks| ensures r.hooks[i].id < r.hooks[j].id {
      if j < |t.hooks| {
        assert r.hooks[i] == t.hooks[i] && r.hooks[j] == t.hooks[j];
      } else if i < |t.hooks| {
        assert r.hooks[i] == t.hooks[i];
      }
    }
  }

  // ---------------------------------------------------------------------
  // Properties of the theme seeding and the phrase sync
  // ---------------------------------------------------------------------

  lemma {:induction false} ThemeRowsAppend(a: seq<Phrase>, b: seq<Phrase>, tid: nat)
    ensures ThemeRows(a + b, tid) == ThemeRows(a, tid) + ThemeRows(b, tid)
    decreases |b|
  {
    if b != [] {
      var c := a + b;
      assert c[..|c| - 1] == a + b[..|b| - 1];
      ThemeRowsAppend(a, b[..|b| - 1], tid);
    } else {
      assert a + b == a;
    }
  }

  /** A phrase of theme tid sits among the theme's rows at its rank. */
  lemma RankRow(ps: seq<Phrase>, j: nat, tid: nat)
    requires j < |ps| && ps[j].themeId == tid
    ensures Rank(ps, j, tid) < |ThemeRows(ps, tid)| && ThemeRows(ps, tid)[Rank(ps, j, tid)] == ps[j]
  {
    assert ps[..j + 1][..j] == ps[..j];
    assert ThemeRows(ps[..j + 1], tid) == ThemeRows(ps[..j], tid) + [ps[j]];
    assert ps == ps[..j + 1] + ps[j + 1..];
    ThemeRowsAppend(ps[..j + 1], ps[j + 1..], tid);
  }

  /** Every row of theme tid is the phrase of that rank. */
  lemma {:induction false} RowOfRank(ps: seq<Phrase>, tid: nat, k: nat)
    requires k < |ThemeRows(ps, tid)|
    ensures exists j :: 0 <= j < |ps| && ps[j].themeId == tid && Rank(ps, j, tid) == k && ThemeRows(ps, tid)[k] == ps[j]
  {
    var n := |ps|;
    var init := ps[..n - 1];
    if k < |ThemeRows(init, tid)| {
      RowOfRank(init, tid, k);
      var j :| 0 <= j < |init| && init[j].themeId == tid && Rank(init, j, tid) == k && ThemeRows(init, tid)[k] == init[j];
      assert init[..j] == ps[..j];
      assert Rank(ps, j, tid) == k;
    } else {
      assert init == ps[..n - 1];
      assert ps[n - 1].themeId == tid && ThemeRows(ps, tid)[k] == ps[n - 1];
      assert Rank(ps, n - 1, tid) == k;
    }
  }

  /** The rows of a theme, each taking the seed text of its position when there is one. */
  function SyncRows(rows: seq<Phrase>, texts: seq<string>): (r: seq<Phrase>)
    ensures |r| == |rows|
  {
    seq(|rows|, k requires 0 <= k < |rows| => if k < |texts| then rows[k].(text := texts[k]) else rows[k])
  }

  lemma SyncedPrefix(ps: seq<Phrase>, tid: nat, texts: seq<string>)
    requires ps != []
    ensures SyncedPhrases(ps, tid, texts)[..|ps| - 1] == SyncedPhrases(ps[..|ps| - 1], tid, texts)
  {
    var init := ps[..|ps| - 1];
    forall j | 0 <= j < |init| ensures SyncedRow(ps, tid, texts, j) == SyncedRow(init, tid, texts, j) {
      assert init[..j] == ps[..j];
    }
  }

  /**
   * The phrase sync, seen through the theme's rows in id order: the i-th
   * stored phrase takes the i-th seed text when both exist; seed texts
   * beyond the stored count are not inserted, stored phrases beyond the
   * seed count keep their text.
   */
  lemma {:induction false} SyncedThemeRows(ps: seq<Phrase>, tid: nat, texts: seq<string>)
    ensures ThemeRows(SyncedPhrases(ps, tid, texts), tid) == SyncRows(ThemeRows(ps, tid), texts)
  {
    if ps != [] {
      var n := |ps|;
      var init := ps[..n - 1];
      var s := SyncedPhrases(ps, tid, texts);
      SyncedPrefix(ps, tid, texts);
      SyncedThemeRows(init, tid, texts);
      var a := ThemeRows(init, tid);
      assert ThemeRows(s, tid) == SyncRows(a, texts) + (if s[n - 1].themeId == tid then [s[n - 1]] else []);
      assert Rank(ps, n - 1, tid) == |a|;
      if ps[n - 1].themeId == tid {
        assert ThemeRows(ps, tid) == a + [ps[n - 1]];
        assert SyncRows(a + [ps[n - 1]], texts) == SyncRows(a, texts) + [s[n - 1]];
      } else {
        assert ThemeRows(ps, tid) == a;
      }
    }
  }

  /** The sync changes only the texts of theme tid's rows: ids and theme ids stay, other themes' rows stay. */
  lemma SyncedKeeps(ps: seq<Phrase>, tid: nat, texts: seq<string>)
    ensures forall j :: 0 <= j < |ps| ==>
      SyncedPhrases(ps, tid, texts)[j].id == ps[j].id &&
      SyncedPhrases(ps, tid, texts)[j].themeId == ps[j].themeId &&
      (ps[j].themeId != tid ==> SyncedPhrases(ps, tid, texts)[j] == ps[j])
  {
  }

  /** UPDATE phrase SET text = ? WHERE id = ? */
  function SetText(ps: seq<Phrase>, id: nat, text: string): (r: seq<Phrase>)
    ensures |r| == |ps|
  {
    seq(|ps|, j requires 0 <= j < |ps| => if ps[j].id == id then ps[j].(text := text) else ps[j])
  }

  /** With no seed texts the sync changes nothing. */
  lemma SyncedNone(ps: seq<Phrase>, tid: nat)
    ensures SyncedPhrases(ps, tid, []) == ps
  {
  }

  /**
   * One turn of the sync loop: for seed text i, the row of rank i is
   * updated when it exists and its text differs, and that is the sync of
   * the first i + 1 texts.
   */
  lemma SyncStep(ps: seq<Phrase>, tid: nat, texts: seq<string>, i: nat, next: nat)
    requires i < |texts| && PhraseIdsOk(ps, next)
    ensures var cur := SyncedPhrases(ps, tid, texts[..i]);
      var rows := ThemeRows(ps, tid);
      SyncedPhrases(ps, tid, texts[..i + 1]) ==
        if i < |rows| && rows[i].text != texts[i] then SetText(cur, rows[i].id, texts[i]) else cur
  {
    var cur := SyncedPhrases(ps, tid, texts[..i]);
    var nxt := SyncedPhrases(ps, tid, texts[..i + 1]);
    var rows := ThemeRows(ps, tid);
    forall j | 0 <= j < |ps| && !(ps[j].themeId == tid && Rank(ps, j, tid) == i) ensures nxt[j] == cur[j] {
      if ps[j].themeId == tid && Rank(ps, j, tid) < i {
        assert texts[..i + 1][Rank(ps, j, tid)] == texts[..i][Rank(ps, j, tid)];
      }
    }
    if i < |rows| {
      RowOfRank(ps, tid, i);
      var js :| 0 <= js < |ps| && ps[js].themeId == tid && Rank(ps, js, tid) == i && rows[i] == ps[js];
      assert cur[js] == ps[js];
      assert nxt[js] == ps[js].(text := texts[i]);
      forall j | 0 <= j < |ps| && j != js ensures ps[j].id != ps[js].id && !(ps[j].themeId == tid && Rank(ps, j, tid) == i) {
        if ps[j].themeId == tid && Rank(ps, j, tid) == i {
          RankRow(ps, j, tid);
        }
      }
      if rows[i].text != texts[i] {
        assert nxt == SetText(cur, rows[i].id, texts[i]);
      } else {
        assert nxt == cur;
      }
    } else {
      forall j | 0 <= j < |ps| && ps[j].themeId == tid ensures Rank(ps, j, tid) != i {
        RankRow(ps, j, tid);
      }
      assert nxt == cur;
    }
  }

  /** Inserting a seed theme and its phrases keeps the keys. */
  lemma InsertSeedWellFormed(t: Tables, s: SeedTheme)
    requires WellFormed(t)
    ensures WellFormed(InsertSeedTheme(t, s))
  {
    var r := InsertSeedTheme(t, s);
    var n := |t.phrases|;
    forall i, j | 0 <= i < j < |r.phrases| ensures r.phrases[i].id < r.phrases[j].id {
      if j < n {
        assert r.phrases[i] == t.phrases[i] && r.phrases[j] == t.phrases[j];
      } else if i < n {
        assert r.phrases[i] == t.phrases[i];
      }
    }
    forall i | 0 <= i < |r.phrases| ensures 1 <= r.phrases[i].id < r.nextPhraseId && r.phrases[i].themeId < r.nextThemeId {
      if i < n {
        assert r.phrases[i] == t.phrases[i];
      }
    }
  }

  /** One seed step keeps the keys. */
  lemma SeedStepWellFormed(t: Tables, s: SeedTheme)
    requires WellFormed(t)
    ensures WellFormed(SeedStep(t, s))
  {
    match FindTheme(t.themes, s.name)
    case None => InsertSeedWellFormed(t, s);
    case Some(tid) => SyncedKeeps(t.phrases, tid, s.texts);
  }

  lemma {:induction false} InsertAllWellFormed(t: Tables, seed: seq<SeedTheme>)
    requires WellFormed(t)
    ensures WellFormed(InsertAll(t, seed))
    decreases |seed|
  {
    if seed != [] {
      InsertSeedWellFormed(t, seed[0]);
      InsertAllWellFormed(InsertSeedTheme(t, seed[0]), seed[1..]);
    }
  }

  lemma {:induction false} SeedEachWellFormed(t: Tables, seed: seq<SeedTheme>)
    requires WellFormed(t)
    ensures WellFormed(SeedEach(t, seed))
    decreases |seed|
  {
    if seed != [] {
      SeedStepWellFormed(t, seed[0]);
      SeedEachWellFormed(SeedStep(t, seed[0]), seed[1..]);
    }
  }

  /** init_db keeps every table's keys. */
  lemma InitWellFormed(t: Tables, seed: seq<SeedTheme>, titles: seq<string>)
    requires WellFormed(t)
    ensures WellFormed(InitWith(t, seed, titles))
  {
    var u := SeedThemes(t, seed);
    if |t.themes| == 0 {
      InsertAllWellFormed(t, seed);
    } else {
      SeedEachWellFormed(t, seed);
    }
    SeedHooksSpec(u, titles);
    ExtendedWellFormed(u, SeedHooks(u, titles), titles);
  }

  predicate HasTheme(ts: seq<Theme>, name: string) {
    exists i :: 0 <= i < |ts| && ts[i].name == name
  }

  /** Theme seeding keeps the old themes in front and leaves no hook or viral row changed. */
  predicate ThemesExtended(t: Tables, r: Tables) {
    |t.themes| <= |r.themes| && r.themes[..|t.themes|] == t.themes &&
    r.viralUsed == t.viralUsed && r.hooks == t.hooks && r.nextHookId == t.nextHookId
  }

  lemma ThemesExtendedTrans(t: Tables, u: Tables, r: Tables)
    requires ThemesExtended(t, u) && ThemesExtended(u, r)
    ensures ThemesExtended(t, r)
  {
    assert r.themes[..|t.themes|] == u.themes[..|u.themes|][..|t.themes|];
  }

  lemma ThemePresentLater(t: Tables, r: Tables, name: string)
    requires ThemesExtended(t, r) && HasTheme(t.themes, name)
    ensures HasTheme(r.themes, name)
  {
    var i :| 0 <= i < |t.themes| && t.themes[i].name == name;
    assert r.themes[i] == t.themes[i];
  }

  /** After one seed step the seed theme's name is present. */
  lemma SeedStepNames(t: Tables, s: SeedTheme)
    ensures ThemesExtended(t, SeedStep(t, s)) && HasTheme(SeedStep(t, s).themes, s.name)
  {
    var r := SeedStep(t, s);
    match FindTheme(t.themes, s.name)
    case None =>
      assert r.themes[..|t.themes|] == t.themes;
      assert r.themes[|t.themes|].name == s.name;
    case Some(tid) =>
      assert r.themes[..|t.themes|] == t.themes;
  }

  lemma {:induction false} SeedEachNames(t: Tables, seed: seq<SeedTheme>)
    ensures ThemesExtended(t, SeedEach(t, seed))
    ensures forall k :: 0 <= k < |seed| ==> HasTheme(SeedEach(t, seed).themes, seed[k].name)
    decreases |seed|
  {
    var r := SeedEach(t, seed);
    if seed == [] {
      assert t.themes[..|t.themes|] == t.themes;
    } else {
      var u := SeedStep(t, seed[0]);
      SeedStepNames(t, seed[0]);
      SeedEachNames(u, seed[1..]);
      ThemesExtendedTrans(t, u, r);
      ThemePresentLater(u, r, seed[0].name);
      forall k | 1 <= k < |seed| ensures HasTheme(r.themes, seed[k].name) {
        assert seed[k] == seed[1..][k - 1];
      }
    }
  }

  lemma {:induction false} InsertAllNames(t: Tables, seed: seq<SeedTheme>)
    ensures ThemesExtended(t, InsertAll(t, seed))
    ensures forall k :: 0 <= k < |seed| ==> HasTheme(InsertAll(t, seed).themes, seed[k].name)
    decreases |seed|
  {
    var r := InsertAll(t, seed);
    if seed == [] {
      assert t.themes[..|t.themes|] == t.themes;
    } else {
      var u := InsertSeedTheme(t, seed[0]);
      assert u.themes[..|t.themes|] == t.themes;
      assert u.themes[|t.themes|].name == seed[0].name;
      InsertAllNames(u, seed[1..]);
      ThemesExtendedTrans(t, u, r);
      ThemePresentLater(u, r, seed[0].name);
      forall k | 1 <= k < |seed| ensures HasTheme(r.themes, seed[k].name) {
        assert seed[k] == seed[1..][k - 1];
      }
    }
  }

  /** After init_db every seed theme is in the theme table, and no theme was dropped. */
  lemma InitHasSeedThemes(t: Tables, seed: seq<SeedTheme>, titles: seq<string>)
    ensures var r := InitWith(t, seed, titles);
      |t.themes| <= |r.themes| && r.themes[..|t.themes|] == t.themes &&
      forall k :: 0 <= k < |seed| ==> HasTheme(r.themes, seed[k].name)
  {
    var u := SeedThemes(t, seed);
    if |t.themes| == 0 {
      InsertAllNames(t, seed);
    } else {
      SeedEachNames(t, seed);
    }
    SeedHooksSpec(u, titles);
  }

  /** After init_db the hook table holds every seed title, so with any title it is never empty. */
  lemma InitHasHooks(t: Tables, seed: seq<SeedTheme>, titles: seq<string>)
    ensures forall k :: 0 <= k < |titles| ==> HasHook(InitWith(t, seed, titles).hooks, titles[k])
  {
    SeedHooksSpec(SeedThemes(t, seed), titles);
  }

  // ---------------------------------------------------------------------
  // Reads and updates after init_db
  // ---------------------------------------------------------------------

  function Texts(rows: seq<Phrase>): (r: seq<string>)
    ensures |r| == |rows| && forall k :: 0 <= k < |rows| ==> r[k] == rows[k].text
  {
    seq(|rows|, k requires 0 <= k < |rows| => rows[k].text)
  }

  /** get_phrases on given tables: the texts of the named theme's phrases in id order, or [] for an unknown name. */
  function PhrasesOf(t: Tables, name: string): seq<string> {
    match FindTheme(t.themes, name)
    case None => []
    case Some(tid) => Texts(ThemeRows(t.phrases, tid))
  }

  function ThemeNames(ts: seq<Theme>): (r: seq<string>)
    ensures |r| == |ts| && forall i :: 0 <= i < |ts| ==> r[i] == ts[i].name
  {
    seq(|ts|, i requires 0 <= i < |ts| => ts[i].name)
  }

  /** The JOIN of a phrase with its theme: the name of the theme carrying that id. */
  function ThemeNameOf(ts: seq<Theme>, id: nat): (r: Option<string>)
    ensures r.None? <==> forall i :: 0 <= i < |ts| ==> ts[i].id != id
    ensures r.Some? ==> exists i :: 0 <= i < |ts| && ts[i].id == id && ts[i].name == r.value
  {
    if ts == [] then None
    else if ts[0].id == id then Some(ts[0].name)
    else
      var r := ThemeNameOf(ts[1..], id);
      assert r.Some? ==> exists i :: 0 <= i < |ts| && ts[i].id == id && ts[i].name == r.value by {
        if r.Some? {
          var i :| 0 <= i < |ts[1..]| && ts[1..][i].id == id && ts[1..][i].name == r.value;
          assert ts[i + 1] == ts[1..][i];
        }
      }
      assert r.None? ==> forall i :: 0 <= i < |ts| ==> ts[i].id != id by {
        if r.None? {
          forall i | 0 <= i < |ts| ensures ts[i].id != id {
            if i > 0 {
              assert ts[i] == ts[1..][i - 1];
            }
          }
        }
      }
      r
  }

  /** A phrase the viral query may return: of one of the four viral themes, and not yet recorded as used. */
  predicate IsViral(t: Tables, p: Phrase) {
    match ThemeNameOf(t.themes, p.themeId)
    case None => false
    case Some(n) => n in ViralThemeNames && p.id !in t.viralUsed
  }

  /** One row of the viral query: (theme_name, phrase_text, phrase_id). */
  datatype ViralPick = ViralPick(themeName: string, text: string, phraseId: int)

  function PickOf(t: Tables, p: Phrase): ViralPick
    requires IsViral(t, p)
  {
    ViralPick(ThemeNameOf(t.themes, p.themeId).value, p.text, p.id)
  }

  /** A viral pick is never a phrase of the test theme, nor one already used. */
  lemma ViralPickOk(t: Tables, p: Phrase)
    requires IsViral(t, p)
    ensures PickOf(t, p).themeName in ViralThemeNames && PickOf(t, p).themeName != "테스트"
    ensures PickOf(t, p).phraseId !in t.viralUsed
  {
  }

  /** INSERT OR REPLACE INTO phrase_used_for_viral (phrase_id, used_at). */
  function MarkViral(t: Tables, id: int, now: string): Tables {
    t.(viralUsed := t.viralUsed[id := now])
  }

  /**
   * Recording a phrase as used takes exactly that phrase out of the viral
   * candidates; recording it again only replaces its time.
   */
  lemma MarkViralSpec(t: Tables, id: int, a: string, b: string)
    ensures forall p :: IsViral(MarkViral(t, id, a), p) <==> IsViral(t, p) && p.id != id
    ensures MarkViral(MarkViral(t, id, a), id, b) == MarkViral(t, id, b)
    ensures WellFormed(t) ==> WellFormed(MarkViral(t, id, a))
  {
  }

  /** Two hook tables with the same ids and texts, position by position. */
  predicate SameHookRows(a: seq<HookTitle>, b: seq<HookTitle>) {
    |a| == |b| && forall i :: 0 <= i < |a| ==> a[i].id == b[i].id && a[i].text == b[i].text
  }

  lemma SameHookRowsWellFormed(t: Tables, hs: seq<HookTitle>)
    requires WellFormed(t) && SameHookRows(t.hooks, hs)
    ensures WellFormed(t.(hooks := hs))
  {
  }

  /** UPDATE hook_titles SET used_at = NULL */
  function ClearUsed(hs: seq<HookTitle>): (r: seq<HookTitle>)
    ensures |r| == |hs|
  {
    seq(|hs|, i requires 0 <= i < |hs| => hs[i].(usedAt := None))
  }

  /** UPDATE hook_titles SET used_at = ? WHERE id = ? */
  function SetUsed(hs: seq<HookTitle>, id: int, now: string): (r: seq<HookTitle>)
    ensures |r| == |hs|
  {
    seq(|hs|, i requires 0 <= i < |hs| => if hs[i].id == id then hs[i].(usedAt := Some(now)) else hs[i])
  }

  /** The ids the hook query may return. */
  function UnusedIds(hs: seq<HookTitle>): set<int> {
    set i | 0 <= i < |hs| && hs[i].usedAt.None? :: hs[i].id as int
  }

  function HookIds(hs: seq<HookTitle>): set<int> {
    set i | 0 <= i < |hs| :: hs[i].id as int
  }

  /** Marking a title used takes exactly its id out of the unused ones, and marking it again changes only its time. */
  lemma SetUsedSpec(hs: seq<HookTitle>, id: int, a: string, b: string)
    ensures UnusedIds(SetUsed(hs, id, a)) == UnusedIds(hs) - {id}
    ensures SetUsed(SetUsed(hs, id, a), id, b) == SetUsed(hs, id, b)
    ensures SameHookRows(hs, SetUsed(hs, id, a))
  {
    var r := SetUsed(hs, id, a);
    forall x | x in UnusedIds(hs) - {id} ensures x in UnusedIds(r) {
      var i :| 0 <= i < |hs| && hs[i].usedAt.None? && hs[i].id as int == x;
      assert r[i] == hs[i];
    }
    forall x | x in UnusedIds(r) ensures x in UnusedIds(hs) - {id} {
      var i :| 0 <= i < |r| && r[i].usedAt.None? && r[i].id as int == x;
      assert r[i] == hs[i];
    }
  }

  /** Clearing makes every title unused again, keeping ids and texts. */
  lemma ClearUsedSpec(hs: seq<HookTitle>)
    ensures UnusedIds(ClearUsed(hs)) == HookIds(hs)
    ensures SameHookRows(hs, ClearUsed(hs))
  {
    var r := ClearUsed(hs);
    forall x | x in HookIds(hs) ensures x in UnusedIds(r) {
      var i :| 0 <= i < |hs| && hs[i].id as int == x;
      assert r[i].usedAt.None? && r[i].id == hs[i].id;
    }
  }

  /** The title returned when the hook table is empty. */
  const FallbackHook: string := if |HookTitles| > 0 then HookTitles[0] else "오늘의 운세"

  // ---------------------------------------------------------------------
  // What get_phrases returns after init_db
  // ---------------------------------------------------------------------

  /** A stored phrase list after the sync: the k-th entry takes the k-th seed text when there is one. */
  function SyncTexts(stored: seq<string>, texts: seq<string>): (r: seq<string>)
    ensures |r| == |stored|
  {
    seq(|stored|, k requires 0 <= k < |stored| => if k < |texts| then texts[k] else stored[k])
  }

  predicate DistinctNames(seed: seq<SeedTheme>) {
    forall i, j :: 0 <= i < j < |seed| ==> seed[i].name != seed[j].name
  }

  lemma {:induction false} ThemeRowsNone(ps: seq<Phrase>, tid: nat)
    requires forall i :: 0 <= i < |ps| ==> ps[i].themeId != tid
    ensures ThemeRows(ps, tid) == []
  {
    if ps != [] {
      ThemeRowsNone(ps[..|ps| - 1], tid);
    }
  }

  lemma {:induction false} ThemeRowsAll(ps: seq<Phrase>, tid: nat)
    requires forall i :: 0 <= i < |ps| ==> ps[i].themeId == tid
    ensures ThemeRows(ps, tid) == ps
  {
    if ps != [] {
      ThemeRowsAll(ps[..|ps| - 1], tid);
    }
  }

  /** Two phrase tables with the same theme ids and the same rows of theme tid select the same rows for it. */
  lemma {:induction false} ThemeRowsAgree(a: seq<Phrase>, b: seq<Phrase>, tid: nat)
    requires |a| == |b|
    requires forall j :: 0 <= j < |a| ==> a[j].themeId == b[j].themeId && (a[j].themeId == tid ==> a[j] == b[j])
    ensures ThemeRows(a, tid) == ThemeRows(b, tid)
  {
    if a != [] {
      ThemeRowsAgree(a[..|a| - 1], b[..|b| - 1], tid);
    }
  }

  lemma {:induction false} FindAppendOther(ts: seq<Theme>, x: Theme, n: string)
    requires x.name != n
    ensures FindTheme(ts + [x], n) == FindTheme(ts, n)
  {
    if ts != [] {
      assert (ts + [x])[1..] == ts[1..] + [x];
      FindAppendOther(ts[1..], x, n);
    }
  }

  lemma {:induction false} FindAppendNew(ts: seq<Theme>, x: Theme)
    requires FindTheme(ts, x.name) == None
    ensures FindTheme(ts + [x], x.name) == Some(x.id)
  {
    if ts != [] {
      assert (ts + [x])[1..] == ts[1..] + [x];
      FindAppendNew(ts[1..], x);
    }
  }

  /** FindTheme returns the id of a stored theme, hence one already handed out. */
  lemma FindBelowNext(t: Tables, n: string)
    requires WellFormed(t) && FindTheme(t.themes, n).Some?
    ensures FindTheme(t.themes, n).value < t.nextThemeId
  {
  }

  /** Distinct names found in a table with distinct ids have distinct ids. */
  lemma FindDistinct(t: Tables, m: string, n: string)
    requires WellFormed(t) && m != n && FindTheme(t.themes, m).Some? && FindTheme(t.themes, n).Some?
    ensures FindTheme(t.themes, m).value != FindTheme(t.themes, n).value
  {
    var i :| 0 <= i < |t.themes| && t.themes[i].name == m && t.themes[i].id == FindTheme(t.themes, m).value;
    var j :| 0 <= j < |t.themes| && t.themes[j].name == n && t.themes[j].id == FindTheme(t.themes, n).value;
    assert i != j;
  }

  /** The sync of an existing seed theme, as its phrase list: the stored list with its first texts replaced by the seed's. */
  lemma SyncStepPhrases(t: Tables, s: SeedTheme)
    requires FindTheme(t.themes, s.name).Some?
    ensures FindTheme(SeedStep(t, s).themes, s.name) == FindTheme(t.themes, s.name)
    ensures PhrasesOf(SeedStep(t, s), s.name) == SyncTexts(PhrasesOf(t, s.name), s.texts)
  {
    var tid := FindTheme(t.themes, s.name).value;
    var rows := ThemeRows(t.phrases, tid);
    SyncedThemeRows(t.phrases, tid, s.texts);
    assert Texts(SyncRows(rows, s.texts)) == SyncTexts(Texts(rows), s.texts);
  }

  /** A seed theme whose name is new gets exactly its seed texts, in order. */
  lemma NewThemePhrases(t: Tables, s: SeedTheme)
    requires WellFormed(t) && FindTheme(t.themes, s.name).None?
    ensures FindTheme(SeedStep(t, s).themes, s.name) == Some(t.nextThemeId)
    ensures PhrasesOf(SeedStep(t, s), s.name) == s.texts
  {
    var r := InsertSeedTheme(t, s);
    var added := NewPhrases(t.nextPhraseId, t.nextThemeId, s.texts);
    FindAppendNew(t.themes, Theme(t.nextThemeId, s.name));
    ThemeRowsAppend(t.phrases, added, t.nextThemeId);
    ThemeRowsNone(t.phrases, t.nextThemeId);
    ThemeRowsAll(added, t.nextThemeId);
    assert ThemeRows(r.phrases, t.nextThemeId) == added;
    assert Texts(added) == s.texts;
  }

  /** A seed step for one name leaves what every other name finds and lists unchanged. */
  lemma StepFrame(t: Tables, s: SeedTheme, n: string)
    requires WellFormed(t) && n != s.name
    ensures FindTheme(SeedStep(t, s).themes, n) == FindTheme(t.themes, n)
    ensures PhrasesOf(SeedStep(t, s), n) == PhrasesOf(t, n)
  {
    var r := SeedStep(t, s);
    match FindTheme(t.themes, s.name)
    case None =>
      FindAppendOther(t.themes, Theme(t.nextThemeId, s.name), n);
      if FindTheme(t.themes, n).Some? {
        var tid := FindTheme(t.themes, n).value;
        FindBelowNext(t, n);
        var added := NewPhrases(t.nextPhraseId, t.nextThemeId, s.texts);
        ThemeRowsAppend(t.phrases, added, tid);
        ThemeRowsNone(added, tid);
        assert ThemeRows(r.phrases, tid) == ThemeRows(t.phrases, tid);
      }
    case Some(sid) =>
      if FindTheme(t.themes, n).Some? {
        var tid := FindTheme(t.themes, n).value;
        FindDistinct(t, s.name, n);
        SyncedKeeps(t.phrases, sid, s.texts);
        ThemeRowsAgree(r.phrases, t.phrases, tid);
      }
  }

  lemma {:induction false} SeedEachFrame(t: Tables, seed: seq<SeedTheme>, n: string)
    requires WellFormed(t) && forall i :: 0 <= i < |seed| ==> seed[i].name != n
    ensures FindTheme(SeedEach(t, seed).themes, n) == FindTheme(t.themes, n)
    ensures PhrasesOf(SeedEach(t, seed), n) == PhrasesOf(t, n)
    decreases |seed|
  {
    if seed != [] {
      StepFrame(t, seed[0], n);
      SeedStepWellFormed(t, seed[0]);
      SeedEachFrame(SeedStep(t, seed[0]), seed[1..], n);
    }
  }

  /** What one seed theme leaves for get_phrases: its texts when new, the synced stored list otherwise. */
  function SeededPhrases(t: Tables, s: SeedTheme): seq<string> {
    if FindTheme(t.themes, s.name).None? then s.texts else SyncTexts(PhrasesOf(t, s.name), s.texts)
  }

  lemma StepPhrases(t: Tables, s: SeedTheme)
    requires WellFormed(t)
    ensures FindTheme(SeedStep(t, s).themes, s.name).Some?
    ensures PhrasesOf(SeedStep(t, s), s.name) == SeededPhrases(t, s)
  {
    if FindTheme(t.themes, s.name).None? {
      NewThemePhrases(t, s);
    } else {
      SyncStepPhrases(t, s);
    }
  }

  /** Seeding theme by theme, with distinct seed names: each seed theme ends up as SeededPhrases says. */
  lemma {:induction false} SeedEachPhrases(t: Tables, seed: seq<SeedTheme>, k: nat)
    requires WellFormed(t) && DistinctNames(seed) && k < |seed|
    ensures PhrasesOf(SeedEach(t, seed), seed[k].name) == SeededPhrases(t, seed[k])
    decreases |seed|
  {
    var u := SeedStep(t, seed[0]);
    var rest := seed[1..];
    SeedStepWellFormed(t, seed[0]);
    if k == 0 {
      StepPhrases(t, seed[0]);
      SeedEachFrame(u, rest, seed[0].name);
    } else {
      SeedEachPhrases(u, rest, k - 1);
      assert rest[k - 1] == seed[k];
      StepFrame(t, seed[0], seed[k].name);
    }
  }

  /** On a table where no seed name is stored, inserting them all is the step-by-step seeding. */
  lemma {:induction false} InsertAllIsSeedEach(t: Tables, seed: seq<SeedTheme>)
    requires DistinctNames(seed)
    requires forall k :: 0 <= k < |seed| ==> FindTheme(t.themes, seed[k].name).None?
    ensures InsertAll(t, seed) == SeedEach(t, seed)
    decreases |seed|
  {
    if seed != [] {
      var u := InsertSeedTheme(t, seed[0]);
      forall k | 0 <= k < |seed[1..]| ensures FindTheme(u.themes, seed[1..][k].name).None? {
        FindAppendOther(t.themes, Theme(t.nextThemeId, seed[0].name), seed[k + 1].name);
      }
      InsertAllIsSeedEach(u, seed[1..]);
    }
  }

  /**
   * get_phrases after init_db, for a seed theme: exactly its seed texts
   * when the theme was not stored before (in particular on a new database
   * file), otherwise the stored list with its first texts overwritten by
   * the seed's, extra seed texts left out and extra stored phrases kept.
   */
  lemma InitPhrases(t: Tables, seed: seq<SeedTheme>, titles: seq<string>, k: nat)
    requires WellFormed(t) && DistinctNames(seed) && k < |seed|
    ensures PhrasesOf(InitWith(t, seed, titles), seed[k].name) == SeededPhrases(t, seed[k])
  {
    var u := SeedThemes(t, seed);
    if |t.themes| == 0 {
      InsertAllIsSeedEach(t, seed);
    }
    SeedEachPhrases(t, seed, k);
    SeedHooksSpec(u, titles);
  }

  /** The seed themes are the five theme names, in order, so their names are distinct. */
  lemma SeedNames()
    ensures |Seed| == |ThemeDbNames|
    ensures forall k :: 0 <= k < |Seed| ==> Seed[k].name == ThemeDbNames[k]
    ensures DistinctNames(Seed)
  {
  }

  /** On a new database file, get_phrases of a seed theme returns exactly its seed texts. */
  lemma FreshPhrases(k: nat)
    requires k < |Seed|
    ensures PhrasesOf(InitTables(Fresh), Seed[k].name) == Seed[k].texts
  {
    SeedNames();
    InitPhrases(Fresh, Seed, HookTitles, k);
  }

  // ---------------------------------------------------------------------
  // The database file
  // ---------------------------------------------------------------------

  /**
   * The database file and the module-level functions that open it. Every
   * public operation first runs init_db, except the two early returns of
   * mark_hook_title_used and add_hook_title.
   */
  class PhraseStore {
    var themes: seq<Theme>
    var phrases: seq<Phrase>
    var viralUsed: map<int, string>
    var hooks: seq<HookTitle>
    var nextThemeId: nat
    var nextPhraseId: nat
    var nextHookId: nat
    /** The seed themes and hook titles the module ships with. */
    const seed: seq<SeedTheme>
    const titles: seq<string>

    function Snapshot(): Tables
      reads this
    {
      Tables(themes, phrases, viralUsed, hooks, nextThemeId, nextPhraseId, nextHookId)
    }

    predicate Valid()
      reads this
    {
      WellFormed(Snapshot())
    }

    /** A database file that does not exist yet. */
    constructor ()
      ensures Snapshot() == Fresh && Valid()
      ensures seed == Seed && titles == HookTitles
    {
      seed, titles := Seed, HookTitles;
      themes, phrases, viralUsed, hooks := [], [], map[], [];
      nextThemeId, nextPhraseId, nextHookId := 1, 1, 1;
    }

    /** INSERT INTO theme, then one INSERT INTO phrase per text. */
    method InsertTheme(s: SeedTheme)
      modifies this
      ensures Snapshot() == InsertSeedTheme(old(Snapshot()), s)
    {
      var tid := nextThemeId;
      themes := themes + [Theme(tid, s.name)];
      nextThemeId := nextThemeId + 1;
      var k := 0;
      while k < |s.texts|
        invariant 0 <= k <= |s.texts|
        invariant Snapshot() == old(Snapshot()).(themes := old(themes) + [Theme(tid, s.name)],
          phrases := old(phrases) + NewPhrases(old(nextPhraseId), tid, s.texts[..k]),
          nextThemeId := tid + 1, nextPhraseId := old(nextPhraseId) + k)
      {
        assert NewPhrases(old(nextPhraseId), tid, s.texts[..k + 1]) ==
          NewPhrases(old(nextPhraseId), tid, s.texts[..k]) + [Phrase(nextPhraseId, tid, s.texts[k])];
        phrases := phrases + [Phrase(nextPhraseId, tid, s.texts[k])];
        nextPhraseId := nextPhraseId + 1;
        k := k + 1;
      }
      assert s.texts[..k] == s.texts;
    }

    /** The sync of one existing theme: the k-th stored phrase, in id order, takes the k-th seed text when it differs. */
    method SyncTheme(tid: nat, texts: seq<string>)
      requires Valid()
      modifies this
      ensures Snapshot() == old(Snapshot()).(phrases := SyncedPhrases(old(phrases), tid, texts))
    {
      var rows := ThemeRows(phrases, tid);
      SyncedNone(phrases, tid);
      assert texts[..0] == [];
      var i := 0;
      while i < |texts|
        invariant 0 <= i <= |texts|
        invariant Snapshot() == old(Snapshot()).(phrases := SyncedPhrases(old(phrases), tid, texts[..i]))
      {
        SyncStep(old(phrases), tid, texts, i, old(nextPhraseId));
        if i < |rows| && rows[i].text != texts[i] {
          phrases := SetText(phrases, rows[i].id, texts[i]);
        }
        i := i + 1;
      }
      assert texts[..i] == texts;
    }

    /** The theme part of init_db. */
    method SeedThemeTables(ss: seq<SeedTheme>)
      requires Valid()
      modifies this
      ensures Snapshot() == SeedThemes(old(Snapshot()), ss) && Valid()
    {
      if |themes| == 0 {
        InsertThemes(ss);
      } else {
        SeedEachTheme(ss);
      }
    }

    /** An empty theme table: insert every seed theme with its phrases. */
    method InsertThemes(ss: seq<SeedTheme>)
      requires Valid()
      modifies this
      ensures Snapshot() == InsertAll(old(Snapshot()), ss) && Valid()
    {
      var i := 0;
      while i < |ss|
        invariant 0 <= i <= |ss|
        invariant InsertAll(Snapshot(), ss[i..]) == InsertAll(old(Snapshot()), ss)
      {
        assert ss[i..][0] == ss[i] && ss[i..][1..] == ss[i + 1..];
        InsertTheme(ss[i]);
        i := i + 1;
      }
      InsertAllWellFormed(old(Snapshot()), ss);
    }

    /** A non-empty theme table: insert each seed theme whose name is new, sync the others. */
    method SeedEachTheme(ss: seq<SeedTheme>)
      requires Valid()
      modifies this
      ensures Snapshot() == SeedEach(old(Snapshot()), ss) && Valid()
    {
      var i := 0;
      while i < |ss|
        invariant 0 <= i <= |ss|
        invariant SeedEach(Snapshot(), ss[i..]) == SeedEach(old(Snapshot()), ss)
        invariant Valid()
      {
        assert ss[i..][0] == ss[i] && ss[i..][1..] == ss[i + 1..];
        SeedStepWellFormed(Snapshot(), ss[i]);
        match FindTheme(themes, ss[i].name) {
          case None =>
            InsertTheme(ss[i]);
          case Some(tid) =>
            SyncTheme(tid, ss[i].texts);
        }
        i := i + 1;
      }
    }

    /** INSERT INTO hook_titles (text, used_at) VALUES (?, NULL). */
    method AppendHookRow(text: string)
      modifies this
      ensures Snapshot() == AppendHook(old(Snapshot()), text)
    {
      hooks := hooks + [HookTitle(nextHookId, text, None)];
      nextHookId := nextHookId + 1;
    }

    /** The hook part of init_db. */
    method SeedHookTitles(ts: seq<string>)
      modifies this
      ensures Snapshot() == SeedHooks(old(Snapshot()), ts)
    {
      if |hooks| == 0 {
        var i := 0;
        while i < |ts|
          invariant 0 <= i <= |ts|
          invariant InsertHooks(Snapshot(), ts[i..]) == InsertHooks(old(Snapshot()), ts)
        {
          assert ts[i..][0] == ts[i] && ts[i..][1..] == ts[i + 1..];
          AppendHookRow(ts[i]);
          i := i + 1;
        }
      } else {
        var i := 0;
        while i < |ts|
          invariant 0 <= i <= |ts|
          invariant AddMissingHooks(Snapshot(), ts[i..]) == AddMissingHooks(old(Snapshot()), ts)
        {
          assert ts[i..][0] == ts[i] && ts[i..][1..] == ts[i + 1..];
          if !HasHook(hooks, ts[i]) {
            AppendHookRow(ts[i]);
          }
          i := i + 1;
        }
      }
    }

    /** init_db: create the tables when missing, then seed themes, phrases and hook titles. */
    method InitDb()
      requires Valid()
      modifies this
      ensures Snapshot() == InitWith(old(Snapshot()), seed, titles) && Valid()
    {
      SeedThemeTables(seed);
      SeedHookTitles(titles);
      InitWellFormed(old(Snapshot()), seed, titles);
    }

    /** get_phrases */
    method GetPhrases(themeName: string) returns (r: seq<string>)
      requires Valid()
      modifies this
      ensures Snapshot() == InitWith(old(Snapshot()), seed, titles) && Valid()
      ensures r == PhrasesOf(Snapshot(), themeName)
    {
      InitDb();
      match FindTheme(themes, themeName)
      case None =>
        r := [];
      case Some(tid) =>
        r := Texts(ThemeRows(phrases, tid));
    }

    /** get_random_phrase: one of the theme's phrases, or "" when it has none. */
    method GetRandomPhrase(themeName: string) returns (r: string)
      requires Valid()
      modifies this
      ensures Snapshot() == InitWith(old(Snapshot()), seed, titles) && Valid()
      ensures PhrasesOf(Snapshot(), themeName) == [] ==> r == ""
      ensures PhrasesOf(Snapshot(), themeName) != [] ==> r in PhrasesOf(Snapshot(), themeName)
    {
      var ps := GetPhrases(themeName);
      if ps == [] {
        r := "";
      } else {
        assert ps[0] in ps;
        r :| r in ps;
      }
    }

    /** list_theme_names: the theme names in id order, every seed theme among them. */
    method ListThemeNames() returns (names: seq<string>)
      requires Valid()
      modifies this
      ensures Snapshot() == InitWith(old(Snapshot()), seed, titles) && Valid()
      ensures names == ThemeNames(themes)
      ensures forall k :: 0 <= k < |seed| ==> seed[k].name in names
    {
      InitDb();
      names := ThemeNames(themes);
      InitHasSeedThemes(old(Snapshot()), seed, titles);
      forall k | 0 <= k < |seed| ensures seed[k].name in names {
        assert HasTheme(themes, seed[k].name);
      }
    }

    /** get_random_unused_viral_phrase: an unused phrase of a viral theme, or None once all are used. */
    method GetRandomUnusedViralPhrase() returns (r: Option<ViralPick>)
      requires Valid()
      modifies this
      ensures Snapshot() == InitWith(old(Snapshot()), seed, titles) && Valid()
      ensures r.None? <==> forall i :: 0 <= i < |phrases| ==> !IsViral(Snapshot(), phrases[i])
      ensures r.Some? ==> exists i :: 0 <= i < |phrases| && IsViral(Snapshot(), phrases[i]) && r.value == PickOf(Snapshot(), phrases[i])
      ensures r.Some? ==> r.value.themeName in ViralThemeNames && r.value.themeName != "테스트" && r.value.phraseId !in viralUsed
    {
      InitDb();
      if exists i :: 0 <= i < |phrases| && IsViral(Snapshot(), phrases[i]) {
        var i :| 0 <= i < |phrases| && IsViral(Snapshot(), phrases[i]);
        ViralPickOk(Snapshot(), phrases[i]);
        r := Some(PickOf(Snapshot(), phrases[i]));
      } else {
        r := None;
      }
    }

    /** mark_viral_phrase_used */
    method MarkViralPhraseUsed(phraseId: int, now: string)
      requires Valid()
      modifies this
      ensures Snapshot() == MarkViral(InitWith(old(Snapshot()), seed, titles), phraseId, now) && Valid()
    {
      InitDb();
      MarkViralSpec(Snapshot(), phraseId, now, now);
      viralUsed := viralUsed[phraseId := now];
    }

    /**
     * get_random_unused_hook_title: an unused title; when every one is
     * used, all are cleared and any title is returned; on an empty table,
     * the first seed title with id 0.
     */
    method GetRandomUnusedHookTitle() returns (text: string, id: int)
      requires Valid()
      modifies this
      ensures var t := InitWith(old(Snapshot()), seed, titles);
        if exists i :: 0 <= i < |t.hooks| && t.hooks[i].usedAt.None? then
          Snapshot() == t &&
          exists i :: 0 <= i < |t.hooks| && t.hooks[i].usedAt.None? && text == t.hooks[i].text && id == t.hooks[i].id
        else
          Snapshot() == t.(hooks := ClearUsed(t.hooks)) &&
          (t.hooks != [] ==> exists i :: 0 <= i < |t.hooks| && text == t.hooks[i].text && id == t.hooks[i].id) &&
          (t.hooks == [] ==> text == FallbackHook && id == 0)
      ensures Valid()
    {
      InitDb();
      if exists i :: 0 <= i < |hooks| && hooks[i].usedAt.None? {
        var i :| 0 <= i < |hooks| && hooks[i].usedAt.None?;
        text, id := hooks[i].text, hooks[i].id;
      } else {
        ClearUsedSpec(hooks);
        SameHookRowsWellFormed(Snapshot(), ClearUsed(hooks));
        hooks := ClearUsed(hooks);
        if |hooks| > 0 {
          var i :| 0 <= i < |hooks|;
          text, id := hooks[i].text, hooks[i].id;
        } else {
          text, id := FallbackHook, 0;
        }
      }
    }

    /** mark_hook_title_used: ids of 0 or less are ignored without opening the database. */
    method MarkHookTitleUsed(hookId: int, now: string)
      requires Valid()
      modifies this
      ensures hookId <= 0 ==> Snapshot() == old(Snapshot())
      ensures hookId > 0 ==> var t := InitWith(old(Snapshot()), seed, titles);
        Snapshot() == t.(hooks := SetUsed(t.hooks, hookId, now))
      ensures Valid()
    {
      if hookId <= 0 {
        return;
      }
      InitDb();
      SetUsedSpec(hooks, hookId, now, now);
      SameHookRowsWellFormed(Snapshot(), SetUsed(hooks, hookId, now));
      hooks := SetUsed(hooks, hookId, now);
    }

    /** add_hook_title: a blank text is ignored; otherwise the stripped text is added, unused. */
    method AddHookTitle(text: string)
      requires Valid()
      modifies this
      ensures Text.Strip(text) == [] ==> Snapshot() == old(Snapshot())
      ensures Text.Strip(text) != [] ==> Snapshot() == AppendHook(InitWith(old(Snapshot()), seed, titles), Text.Strip(text))
      ensures Valid()
    {
      var s := Text.Strip(text);
      if s == [] {
        return;
      }
      InitDb();
      AppendHookRow(s);
    }
  }
}
