/**
 * Project configuration: the video format, the per-section durations of the
 * tarot video, the Korean font fallback chain and the random asset pickers.
 * The file system is an input: a listing of directory entries and the
 * predicates "exists" and "loads as a font".
 */
module Config {
  import opened Wrappers

  const VideoWidth: int := 1080
  const VideoHeight: int := 1920
  const VideoFps: int := 30
  const NumCards: int := 6

  /** Seconds per section of the tarot video. */
  const SectionTimes: map<string, real> := map[
    "hook" := 1.0, "cards_face" := 3.5, "gather_to_center" := 1.0, "shuffle" := 1.5,
    "arrange_move" := 1.2, "arrange_facedown" := 3.0, "arrange_faceup" := 1.8, "flip_hold" := 2.0,
    "cards_1_3" := 3.5, "cards_4_6" := 3.5, "segment_transition" := 1.2, "closing" := 4.0]

  /** `times.get(key, dflt)`. */
  function SectionTime(key: string, dflt: real): (r: real)
    ensures key in SectionTimes ==> r == SectionTimes[key]
    ensures key !in SectionTimes ==> r == dflt
  {
    if key in SectionTimes then SectionTimes[key] else dflt
  }

  /** The configured length of each section the tarot video uses. */
  lemma SectionTimeValues()
    ensures "hook" in SectionTimes && SectionTimes["hook"] == 1.0
    ensures "cards_face" in SectionTimes && SectionTimes["cards_face"] == 3.5
    ensures "gather_to_center" in SectionTimes && SectionTimes["gather_to_center"] == 1.0
    ensures "shuffle" in SectionTimes && SectionTimes["shuffle"] == 1.5
    ensures "arrange_move" in SectionTimes && SectionTimes["arrange_move"] == 1.2
    ensures "arrange_facedown" in SectionTimes && SectionTimes["arrange_facedown"] == 3.0
    ensures "arrange_faceup" in SectionTimes && SectionTimes["arrange_faceup"] == 1.8
    ensures "flip_hold" in SectionTimes && SectionTimes["flip_hold"] == 2.0
    ensures "cards_1_3" in SectionTimes && SectionTimes["cards_1_3"] == 3.5
    ensures "cards_4_6" in SectionTimes && SectionTimes["cards_4_6"] == 3.5
    ensures "segment_transition" in SectionTimes && SectionTimes["segment_transition"] == 1.2
    ensures "closing" in SectionTimes && SectionTimes["closing"] == 4.0
  {
  }

  /** Every configured section lasts a positive time. */
  lemma SectionTimesPositive(key: string)
    requires key in SectionTimes
    ensures SectionTimes[key] > 0.0
  {
  }

  // ---------------------------------------------------------------------
  // get_korean_font
  // ---------------------------------------------------------------------

  /**
   * The fallback font paths in order. The last two live under the Windows
   * font directory, which the environment decides; they are parameters.
   */
  function FontFallbacks(fontsDir: string, winFonts: string): seq<string> {
    [fontsDir + "/GmarketSansBold.otf", fontsDir + "/GmarketSansTTFBold.ttf",
     fontsDir + "/Pretendard-ExtraBold.otf", fontsDir + "/NanumSquareRoundBold.ttf",
     fontsDir + "/NanumSquareRoundR.ttf", fontsDir + "/NanumGothicBold.ttf",
     fontsDir + "/NanumGothic.ttf", winFonts + "/malgun.ttf", winFonts + "/gulim.ttc"]
  }

  /** A candidate is used when it is non-empty, exists and loads as a font. */
  predicate Usable(path: string, exists_: string -> bool, loads: string -> bool) {
    path != [] && exists_(path) && loads(path)
  }

  /**
   * The font that is loaded: the explicit path when it is usable, else the
   * first usable fallback; None stands for the FileNotFoundError.
   */
  method GetKoreanFont(fontPath: string, fallbacks: seq<string>, exists_: string -> bool, loads: string -> bool)
    returns (r: Option<string>)
    ensures Usable(fontPath, exists_, loads) ==> r == Some(fontPath)
    ensures !Usable(fontPath, exists_, loads) ==>
      (r.None? <==> forall k :: 0 <= k < |fallbacks| ==> !Usable(fallbacks[k], exists_, loads))
    ensures !Usable(fontPath, exists_, loads) && r.Some? ==>
      exists k :: 0 <= k < |fallbacks| && r.value == fallbacks[k] && Usable(fallbacks[k], exists_, loads) &&
        forall j :: 0 <= j < k ==> !Usable(fallbacks[j], exists_, loads)
  {
    if fontPath != [] && exists_(fontPath) {
      if loads(fontPath) {
        return Some(fontPath);
      }
    }
    var k := 0;
    while k < |fallbacks|
      invariant 0 <= k <= |fallbacks|
      invariant forall j :: 0 <= j < k ==> !Usable(fallbacks[j], exists_, loads)
    {
      var path := fallbacks[k];
      if path != [] && exists_(path) {
        if loads(path) {
          return Some(path);
        }
      }
      k := k + 1;
    }
    return None;
  }

  // ---------------------------------------------------------------------
  // get_random_font_path / get_random_background_path / get_random_music_path
  // ---------------------------------------------------------------------

  /** A directory entry: its name and whether it is a regular file. */
  datatype Entry = Entry(name: string, isFile: bool)

  predicate EndsWith(s: string, suffix: string) {
    |suffix| <= |s| && s[|s| - |suffix|..] == suffix
  }

  /** The file names one glob `*<ext>` yields, restricted to regular files. */
  function Matching(entries: seq<Entry>, ext: string): (r: seq<string>)
    ensures forall x :: x in r <==> exists e :: e in entries && e.isFile && EndsWith(e.name, ext) && e.name == x
  {
    if entries == [] then []
    else
      var rest := Matching(entries[1..], ext);
      assert forall e :: e in entries[1..] ==> e in entries;
      assert forall e :: e in entries ==> e == entries[0] || e in entries[1..];
      if entries[0].isFile && EndsWith(entries[0].name, ext) then [entries[0].name] + rest else rest
  }

  /** The globs of all extensions concatenated in the order given. */
  function Candidates(entries: seq<Entry>, exts: seq<string>): (r: seq<string>)
    ensures forall x :: x in r <==>
      exists e, k :: e in entries && 0 <= k < |exts| && e.isFile && EndsWith(e.name, exts[k]) && e.name == x
  {
    if exts == [] then []
    else
      var rest := Candidates(entries, exts[1..]);
      assert forall k :: 1 <= k < |exts| ==> exts[k] == exts[1..][k - 1];
      Matching(entries, exts[0]) + rest
  }

  const FontExts: seq<string> := [".ttf", ".otf"]
  const ImageExts: seq<string> := [".png", ".jpg", ".jpeg"]
  const MusicExts: seq<string> := [".mp3", ".wav", ".m4a"]

  /** A random file with one of the extensions, or None when there is none. */
  method PickRandomFile(entries: seq<Entry>, exts: seq<string>) returns (r: Option<string>)
    ensures r.None? <==> Candidates(entries, exts) == []
    ensures r.Some? ==> r.value in Candidates(entries, exts)
  {
    var cands := Candidates(entries, exts);
    if cands == [] {
      return None;
    }
    assert cands[0] in cands;
    var c :| c in cands;
    return Some(c);
  }
}
