/**
 * The hook phrases printed on tarot thumbnails: a fixed list used in
 * turn, the position kept in a small index file between runs; and the
 * two-line morning hook, taken from a generated reply when it passes the
 * acceptance rules, otherwise one of the default phrases.
 */
module ThumbnailPhrases {
  import opened Wrappers
  import Text
  import FilePaths

  /** The "curious message" phrases; the list holds 21 of them. */
  const PhrasesCurious: seq<string> := [
      "당신의 운명을 바꿀 카드 한 장 골라보세요. 후회 없을 거예요!",
      "오늘 카드가 당신에게 전하는 한 마디, 지금 확인하세요.",
      "한 장의 카드가 알려주는 오늘의 메시지.",
      "카드 한 장이 당신에게 말을 걸어요.",
      "오늘의 카드가 전하는 메시지, 놓치지 마세요.",
      "한 장의 카드가 알려주는 오늘의 길.",
      "카드가 고른 오늘만의 메시지.",
      "오늘 타로가 당신에게 전하는 한 마디.",
      "한 장으로 열어보는 오늘의 메시지.",
      "카드가 말하는 오늘의 운세, 확인해 보세요.",
      "오늘의 카드가 당신에게 건네는 이야기.",
      "한 장의 카드가 알려주는 오늘의 조언.",
      "타로가 고른 오늘의 메시지를 받아가세요.",
      "카드 한 장이 전하는 오늘의 인사이트.",
      "오늘 타로 메시지, 지금 확인하세요.",
      "한 장으로 오늘의 메시지를 열어보세요.",
      "카드가 당신에게 전하는 오늘의 한 마디.",
      "오늘의 카드 메시지, 놓치지 마세요.",
      "한 장의 카드가 알려주는 오늘의 이야기.",
      "타로가 전하는 오늘의 메시지를 확인하세요.",
      "카드 한 장이 말하는 오늘의 운세."]

  /** The strong call-to-action phrases. */
  const PhrasesCta: seq<string> := [
      "지금 바로, 오늘의 타로 한 장 받아가세요.",
      "30초만에 오늘 운세 확인해 보세요.",
      "지금 확인하세요. 오늘의 타로 한 장.",
      "오늘의 타로, 지금 바로 받아가세요.",
      "30초만에 오늘의 운세를 열어보세요.",
      "지금 바로 확인하세요. 오늘의 카드.",
      "한 장 받아가세요. 오늘의 타로 메시지.",
      "지금 확인! 오늘의 타로 한 장.",
      "30초 만에 오늘 운세 받아가세요.",
      "오늘의 타로 한 장, 지금 확인하세요.",
      "지금 바로 오늘의 카드를 받아가세요.",
      "30초만에 오늘의 메시지를 확인하세요.",
      "한 장으로 오늘 운세, 지금 확인!",
      "지금 받아가세요. 오늘의 타로 메시지.",
      "오늘의 타로, 30초만에 확인하세요.",
      "지금 확인하세요. 오늘의 운세 한 장.",
      "30초 만에 오늘의 타로 받아가세요.",
      "오늘의 카드, 지금 바로 확인!",
      "한 장 받아가세요. 지금 바로.",
      "오늘의 타로 한 장, 30초만에 확인."]

  const AllPhrases: seq<string> := PhrasesCurious + PhrasesCta

  const TotalPhrases: nat := |AllPhrases|

  /** The rotation has period 41: 21 curious phrases and 20 calls to action. */
  lemma PhraseCounts()
    ensures |PhrasesCurious| == 21 && |PhrasesCta| == 20 && TotalPhrases == 41
  {
  }

  /**
   * What reading thumbnail_phrase_index.json gives: no file, a file whose
   * JSON or "index" value cannot be read as an integer, or the integer
   * stored under "index" (0 when the key is absent).
   */
  datatype IndexFile = Missing | Unreadable | Index(value: int)

  /** The position used by the next call: 0 without a readable file, else the stored index modulo the count. */
  function StartIndex(f: IndexFile): (i: nat)
    ensures i < 41
  {
    PhraseCounts();
    match f
    case Index(v) => v % TotalPhrases
    case _ => 0
  }

  /** The file written after a call that used position i. */
  function NextFile(f: IndexFile): IndexFile {
    PhraseCounts();
    Index((StartIndex(f) + 1) % TotalPhrases)
  }

  /** The state after n calls. */
  function Iterate(f: IndexFile, n: nat): IndexFile
    decreases n
  {
    if n == 0 then f else Iterate(NextFile(f), n - 1)
  }

  /** Successive calls walk the list in order from the start position, wrapping after the last phrase. */
  lemma {:induction false} IterateIndex(f: IndexFile, n: nat)
    ensures StartIndex(Iterate(f, n)) == (StartIndex(f) + n) % 41
    decreases n
  {
    PhraseCounts();
    if n > 0 {
      var g := NextFile(f);
      IterateIndex(g, n - 1);
      var s := StartIndex(f);
      if s + 1 < 41 {
        assert StartIndex(g) == s + 1;
      } else {
        assert StartIndex(g) == 0;
        assert (s + n) % 41 == (n - 1 + 41) % 41 == (n - 1) % 41;
      }
    }
  }

  /**
   * The rotation has period exactly 41: the position of the next call
   * comes back after 41 calls and not before; from a missing or unreadable
   * file, call j uses position j mod 41.
   */
  lemma Period(f: IndexFile, n: nat)
    ensures StartIndex(Iterate(f, n)) == StartIndex(f) <==> n % 41 == 0
    ensures f.Missing? || f.Unreadable? ==> StartIndex(Iterate(f, n)) == n % 41
  {
    IterateIndex(f, n);
    ShiftBack(StartIndex(f), n);
  }

  /** Moving s < 41 forward by n comes back to s exactly when n is a multiple of 41. */
  lemma ShiftBack(s: nat, n: nat)
    requires s < 41
    ensures (s + n) % 41 == s <==> n % 41 == 0
  {
    var q := n / 41;
    var r := n % 41;
    assert n == 41 * q + r;
    if s + r < 41 {
      assert (s + n) % 41 == s + r;
    } else {
      assert (s + n) % 41 == s + r - 41;
    }
  }

  /** The index file between runs. */
  class PhraseRotation {
    var file: IndexFile

    constructor (f: IndexFile)
      ensures file == f
    {
      file := f;
    }

    /** get_next_tarot_thumbnail_phrase: the phrase at the stored position, and the next position stored. */
    method GetNext() returns (phrase: string)
      modifies this
      ensures phrase == AllPhrases[StartIndex(old(file))]
      ensures file == NextFile(old(file))
    {
      PhraseCounts();
      var idx := 0;
      match file {
        case Index(v) => idx := v % TotalPhrases;
        case _ => idx := 0;
      }
      phrase := AllPhrases[idx];
      file := Index((idx + 1) % TotalPhrases);
    }
  }

  // ---------------------------------------------------------------------
  // The morning hook
  // ---------------------------------------------------------------------

  /** The phrases used when no generated hook is accepted. */
  const MorningDefaults: seq<string> := [
      "오늘 중요한 일정이 있나요?\n이 카드 먼저 보고 가세요",
      "오늘 실수하고 싶지 않다면\n지금 확인하세요",
      "오늘 결정을 앞두고 있나요?\n선택 전에 꼭 보세요",
      "오늘 큰 일이 있나요?\n먼저 확인하고 움직이세요",
      "오늘 놓치고 싶지 않다면\n지금 이 카드를 보세요"]

  predicate Contains(s: string, sub: string) {
    exists i :: 0 <= i <= |s| && Text.OccursAt(s, sub, i)
  }

  /** A key that is missing, empty or still the "your_..." placeholder; the generator is then not called. */
  predicate NoUsableKey(key: string) {
    key == [] || Contains(FilePaths.Lower(key), "your_")
  }

  predicate IsQuote(c: char) {
    c == '"' || c == '\''
  }

  function LStripQuotes(s: string): (r: string)
    ensures r == [] || !IsQuote(r[0])
  {
    if s != [] && IsQuote(s[0]) then LStripQuotes(s[1..]) else s
  }

  function RStripQuotes(s: string): (r: string)
    ensures r == [] || !IsQuote(r[|r| - 1])
  {
    if s != [] && IsQuote(s[|s| - 1]) then RStripQuotes(s[..|s| - 1]) else s
  }

  /** The cleaned reply: stripped, then stripped of quote characters, then stripped again. */
  function CleanReply(content: string): string {
    Text.Strip(RStripQuotes(LStripQuotes(Text.Strip(content))))
  }

  /** A one-line hook of more than 14 characters gets a line break after its 14th character. */
  function BreakAt14(text: string): (r: string)
    ensures |text| > 14 ==> |r| == |text| + 1 && r[14] == '\n' && r[..14] + r[15..] == text
    ensures |text| <= 14 ==> r == text
  {
    if |text| > 14 then
      var r := text[..14] + "\n" + text[14..];
      assert r[..14] == text[..14] && r[15..] == text[14..];
      r
    else text
  }

  /**
   * The hook taken from the generator's reply, or None when a default
   * phrase is to be used: no usable key, a failed call (reply None), or a
   * cleaned text shorter than 5 characters.
   */
  function AcceptedHook(key: string, reply: Option<string>): Option<string> {
    if NoUsableKey(key) then None
    else match reply
      case None => None
      case Some(content) =>
        var text := CleanReply(content);
        if text != [] && |text| >= 5 && '\n' in text then Some(text)
        else if text != [] && |text| >= 5 then Some(BreakAt14(text))
        else None
  }

  /**
   * An accepted hook is the cleaned reply itself when that has a line
   * break or at most 14 characters, and otherwise that reply with one line
   * break inserted after the 14th character; it has at least 5 characters
   * in every case, and nothing is accepted without a usable key and a reply.
   */
  lemma AcceptedHookSpec(key: string, reply: Option<string>)
    ensures AcceptedHook(key, reply).Some? <==>
      !NoUsableKey(key) && reply.Some? && |CleanReply(reply.value)| >= 5
    ensures AcceptedHook(key, reply).Some? ==>
      var text := CleanReply(reply.value);
      var r := AcceptedHook(key, reply).value;
      |r| >= 5 &&
      ('\n' in text || |text| <= 14 ==> r == text) &&
      ('\n' !in text && |text| > 14 ==> r[14] == '\n' && r[..14] + r[15..] == text)
  {
  }

  /** get_morning_tarot_hook_phrase: the accepted hook, otherwise any default phrase. */
  method GetMorningHook(key: string, reply: Option<string>) returns (r: string)
    ensures AcceptedHook(key, reply).Some? ==> r == AcceptedHook(key, reply).value
    ensures AcceptedHook(key, reply).None? ==> r in MorningDefaults
  {
    match AcceptedHook(key, reply) {
      case Some(h) =>
        r := h;
      case None =>
        assert MorningDefaults[0] in MorningDefaults;
        r :| r in MorningDefaults;
    }
  }
}
