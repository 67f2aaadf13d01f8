/**
 * The deck download script: the file each Rider-Waite card is saved as,
 * the renumbering of a zip deck's images to 00..77, the choice of the next
 * deck to fetch, the decks it reports as available, and the tint of the
 * generated card back. Network fetches and file writes are parameters
 * saying which of them succeed.
 */
module DeckDownload {
  import opened Wrappers
  import opened Text
  import opened FilePaths
  import opened Config
  import TarotDeck
  import TarotMeanings

  const ArchiveBase: string := "https://archive.org/download/rider-waite-tarot"
  const MajorPrefix: string := "major_arcana_"

  const MajorNames: seq<string> := [
    "major_arcana_fool", "major_arcana_magician", "major_arcana_priestess",
    "major_arcana_empress", "major_arcana_emperor", "major_arcana_hierophant",
    "major_arcana_lovers", "major_arcana_chariot", "major_arcana_strength",
    "major_arcana_hermit", "major_arcana_fortune", "major_arcana_justice",
    "major_arcana_hanged", "major_arcana_death", "major_arcana_temperance",
    "major_arcana_devil", "major_arcana_tower", "major_arcana_star",
    "major_arcana_moon", "major_arcana_sun", "major_arcana_judgement",
    "major_arcana_world"]

  const Suits: seq<string> := ["wands", "cups", "swords", "pentacles"]
  const Ranks: seq<string> := [
    "ace", "2", "3", "4", "5", "6", "7", "8", "9", "10", "page", "knight", "queen", "king"]

  datatype Source = Archive | Zip(url: string)
  datatype DeckInfo = DeckInfo(id: string, name: string, source: Source)

  const Decks: seq<DeckInfo> := [
    DeckInfo("deck_01", "라이더 웨이트", Archive),
    DeckInfo("deck_02", "Etteilla I (1789)", Zip("https://benebellwen.com/wp-content/uploads/2025/08/etteilla-i.zip")),
    DeckInfo("deck_03", "Etteilla II (1850)", Zip("https://benebellwen.com/wp-content/uploads/2025/08/etteilla-ii.zip")),
    DeckInfo("deck_04", "Etteilla Grimaud (1890)", Zip("https://benebellwen.com/wp-content/uploads/2025/08/etteilla-i-grimaud-1890.zip")),
    DeckInfo("deck_05", "Etteilla III (1865)", Zip("https://benebellwen.com/wp-content/uploads/2025/08/etteilla-iii-jeu-de-1870.zip"))]

  // ---------------------------------------------------------------------
  // Rider-Waite naming
  // ---------------------------------------------------------------------

  /** The index of rank r of suit s: the minor cards follow the 22 major ones, 14 per suit. */
  function MinorIndex(suit: nat, rank: nat): nat {
    22 + 14 * suit + rank
  }

  /**
   * The minor indices fill 22..77 exactly once: every pair lands there,
   * different pairs land apart, and every index there is reached.
   */
  lemma MinorIndexBijection(suit: nat, rank: nat, suit2: nat, rank2: nat, idx: nat)
    ensures suit < 4 && rank < 14 ==> 22 <= MinorIndex(suit, rank) < 78
    ensures suit < 4 && rank < 14 && suit2 < 4 && rank2 < 14 && MinorIndex(suit, rank) == MinorIndex(suit2, rank2) ==>
      suit == suit2 && rank == rank2
    ensures 22 <= idx < 78 ==>
      (idx - 22) / 14 < 4 && MinorIndex((idx - 22) / 14, (idx - 22) % 14) == idx
  {
  }

  /** The suits are numbered in the order of the meanings table: Wands, Cups, Swords, Pentacles. */
  lemma SuitOrderMatchesTable(suit: nat, rank: nat)
    requires suit < 4 && rank < 14
    ensures [TarotMeanings.Wands, TarotMeanings.Cups, TarotMeanings.Swords, TarotMeanings.Pentacles][suit][rank] ==
      MinorIndex(suit, rank)
  {
  }

  lemma DivMod14(suit: nat, rank: nat)
    requires rank < 14
    ensures (14 * suit + rank) / 14 == suit && (14 * suit + rank) % 14 == rank
  {
  }

  /** The archive and saved names of a major card, in terms of its archive name. */
  lemma MajorNaming(i: nat, name: string)
    requires i < 22 && name == MajorNames[i]
    ensures ArchiveUrl(i) == ArchiveBase + "/" + name + ".png"
    ensures SavedName(i) == Pad2(i) + "_" + name[|MajorPrefix|..] + ".png"
  {
  }

  /** The archive and saved names of a minor card, in terms of its suit and rank. */
  lemma MinorNaming(suit: nat, rank: nat, idx: nat)
    requires suit < 4 && rank < 14 && idx == 22 + 14 * suit + rank
    ensures idx < 78
    ensures ArchiveUrl(idx) == ArchiveBase + "/" + ("minor_arcana_" + Suits[suit] + "_" + Ranks[rank]) + ".png"
    ensures SavedName(idx) == Pad2(idx) + "_" + (Suits[suit] + "_" + Ranks[rank]) + ".png"
  {
    DivMod14(suit, rank);
  }

  /** The archive name of card idx (without ".png"). */
  function ArchiveName(idx: nat): string
    requires idx < 78
  {
    if idx < 22 then MajorNames[idx]
    else "minor_arcana_" + Suits[(idx - 22) / 14] + "_" + Ranks[(idx - 22) % 14]
  }

  function ArchiveUrl(idx: nat): string
    requires idx < 78
  {
    ArchiveBase + "/" + ArchiveName(idx) + ".png"
  }

  /** What follows the index in the saved file's stem: the major name without its prefix, or suit_rank. */
  function CardLabel(idx: nat): string
    requires idx < 78
  {
    if idx < 22 then MajorNames[idx][|MajorPrefix|..]
    else Suits[(idx - 22) / 14] + "_" + Ranks[(idx - 22) % 14]
  }

  /** The file card idx is saved as: f"{idx:02d}_{label}.png". */
  function SavedName(idx: nat): string
    requires idx < 78
  {
    Pad2(idx) + "_" + CardLabel(idx) + ".png"
  }

  /** Every major archive name starts with the prefix the saved name drops. */
  lemma MajorNamesPrefixed(i: nat)
    requires i < 22
    ensures |MajorPrefix| < |MajorNames[i]| && MajorNames[i][..|MajorPrefix|] == MajorPrefix
  {
  }

  /** The saved file's stem starts with the card's zero-padded index, so the deck reader orders it at idx. */
  lemma SavedNameKey(idx: nat)
    requires idx < 78
    ensures TarotDeck.KeyOf(Pad2(idx) + "_" + CardLabel(idx)) == idx
  {
    var rest := "_" + CardLabel(idx);
    assert rest[0] == '_';
    TarotDeck.KeyOfPadded(idx, rest);
    assert Pad2(idx) + "_" + CardLabel(idx) == Pad2(idx) + rest;
  }

  /** The files saved so far when the first n cards have been tried: the fetched ones, in index order. */
  function Saved(fetched: string -> bool, n: nat): (r: seq<string>)
    requires n <= 78
    ensures |r| <= n
  {
    if n == 0 then []
    else Saved(fetched, n - 1) + (if fetched(ArchiveUrl(n - 1)) then [SavedName(n - 1)] else [])
  }

  lemma SavedStep(fetched: string -> bool, n: nat)
    requires n < 78
    ensures Saved(fetched, n + 1) == Saved(fetched, n) + (if fetched(ArchiveUrl(n)) then [SavedName(n)] else [])
  {
  }

  /** download_rider_waite: the loop over the major cards, then the loops over suits and ranks. */
  method DownloadRiderWaite(fetched: string -> bool) returns (total: nat, saved: seq<string>)
    ensures saved == Saved(fetched, 78)
    ensures total == |saved| && total <= 78
  {
    total, saved := DownloadMajors(fetched);
    var idx := 22;
    var s := 0;
    while s < |Suits|
      invariant 0 <= s <= 4 && idx == 22 + 14 * s
      invariant saved == Saved(fetched, idx) && total == |saved|
    {
      idx, total, saved := DownloadSuit(fetched, s, idx, total, saved);
      s := s + 1;
    }
  }

  /** The first loop of download_rider_waite: major card i is saved as f"{i:02d}_{short name}.png". */
  method DownloadMajors(fetched: string -> bool) returns (total: nat, saved: seq<string>)
    ensures saved == Saved(fetched, 22) && total == |saved|
  {
    total := 0;
    saved := [];
    var i := 0;
    while i < |MajorNames|
      invariant 0 <= i <= 22
      invariant saved == Saved(fetched, i) && total == |saved|
    {
      var name := MajorNames[i];
      var url := ArchiveBase + "/" + name + ".png";
      var out := Pad2(i) + "_" + name[|MajorPrefix|..] + ".png";
      MajorNaming(i, name);
      SavedStep(fetched, i);
      if fetched(url) {
        saved := saved + [out];
        total := total + 1;
      }
      i := i + 1;
    }
  }

  /** One pass of the rank loop: the 14 cards of a suit, continuing the running index. */
  method DownloadSuit(fetched: string -> bool, s: nat, idx0: nat, total0: nat, saved0: seq<string>)
    returns (idx: nat, total: nat, saved: seq<string>)
    requires s < 4 && idx0 == 22 + 14 * s
    requires saved0 == Saved(fetched, idx0) && total0 == |saved0|
    ensures idx == idx0 + 14 && saved == Saved(fetched, idx) && total == |saved|
  {
    idx, total, saved := idx0, total0, saved0;
    var r := 0;
    while r < |Ranks|
      invariant 0 <= r <= 14 && idx == 22 + 14 * s + r
      invariant saved == Saved(fetched, idx) && total == |saved|
    {
      var name := "minor_arcana_" + Suits[s] + "_" + Ranks[r];
      var url := ArchiveBase + "/" + name + ".png";
      var suitRank := Suits[s] + "_" + Ranks[r];
      var out := Pad2(idx) + "_" + suitRank + ".png";
      MinorNaming(s, r, idx);
      SavedStep(fetched, idx);
      if fetched(url) {
        saved := saved + [out];
        total := total + 1;
      }
      idx := idx + 1;
      r := r + 1;
    }
  }

  /** When every fetch succeeds, card idx is saved as SavedName(idx), for all 78 cards. */
  lemma {:induction false} SavedAll(fetched: string -> bool, n: nat)
    requires n <= 78
    requires forall i :: 0 <= i < 78 ==> fetched(ArchiveUrl(i))
    ensures |Saved(fetched, n)| == n
    ensures forall i :: 0 <= i < n ==> Saved(fetched, n)[i] == SavedName(i)
  {
    if n > 0 {
      SavedAll(fetched, n - 1);
      var prev := Saved(fetched, n - 1);
      assert fetched(ArchiveUrl(n - 1));
      var cur := prev + [SavedName(n - 1)];
      assert Saved(fetched, n) == cur;
      forall i | 0 <= i < n ensures cur[i] == SavedName(i) {
        if i < n - 1 {
          assert cur[i] == prev[i];
        }
      }
    }
  }

  /** No card's label holds a dot, so ".png" is the whole suffix of its saved name. */
  lemma LabelNoDot(idx: nat)
    requires idx < 78
    ensures '.' !in CardLabel(idx)
  {
    if idx < 22 {
      MajorLabelNoDot(idx);
    } else {
      var s, r := (idx - 22) / 14, (idx - 22) % 14;
      assert forall i :: 0 <= i < |Suits| ==> '.' !in Suits[i];
      assert forall i :: 0 <= i < |Ranks| ==> '.' !in Ranks[i];
      assert '.' !in Suits[s] && '.' !in Ranks[r];
    }
  }

  lemma MajorLabelNoDot(idx: nat)
    requires idx < 22
    ensures '.' !in MajorNames[idx][|MajorPrefix|..]
  {
    assert forall i :: 0 <= i < |MajorNames| ==> '.' !in MajorNames[i];
    var m := MajorNames[idx];
    assert forall k :: |MajorPrefix| <= k < |m| ==> m[k] != '.';
  }

  /** A saved Rider-Waite card is a card file of the deck reader, ordered at its index. */
  lemma SavedNameIsCard(idx: nat)
    requires idx < 78
    ensures TarotDeck.IsCardFile(Entry(SavedName(idx), true))
    ensures TarotDeck.Key(Entry(SavedName(idx), true)) == idx
  {
    var p := Pad2(idx);
    var base := p + "_" + CardLabel(idx);
    LabelNoDot(idx);
    assert '.' !in p;
    assert '.' !in base;
    assert ".png"[1..] == "png";
    SplitWritten(base, ".png");
    assert SavedName(idx) == base + ".png";
    assert Lower(".png") == ".png";
    assert Lower(base)[0] == base[0] == p[0];
    SavedNameKey(idx);
  }

  /**
   * When every fetch succeeds, the deck reader finds Rider-Waite card i, for
   * each i below 78, as the file saved for it, and no card beyond.
   */
  lemma RiderWaiteReadBack(fetched: string -> bool, cardIndex: int)
    requires forall i :: 0 <= i < 78 ==> fetched(ArchiveUrl(i))
    ensures TarotDeck.GetCardPath(Some(TarotDeck.FilesOf(Saved(fetched, 78)) + [Entry("back.png", true)]), cardIndex) ==
      if 0 <= cardIndex < 78 then Some(SavedName(cardIndex)) else None
  {
    var saved := Saved(fetched, 78);
    SavedAll(fetched, 78);
    SavedAreCards(saved);
    TarotDeck.BackIsNotCard();
    TarotDeck.NumberedFolderLookup(saved, [Entry("back.png", true)], cardIndex);
  }

  /** A list of the saved names of cards 0 .. n-1, in order, is a numbered deck. */
  lemma SavedAreCards(saved: seq<string>)
    requires |saved| <= 78 && forall i :: 0 <= i < |saved| ==> saved[i] == SavedName(i)
    ensures forall i :: 0 <= i < |saved| ==>
      TarotDeck.IsCardFile(Entry(saved[i], true)) && TarotDeck.Key(Entry(saved[i], true)) == i
  {
    forall i | 0 <= i < |saved|
      ensures TarotDeck.IsCardFile(Entry(saved[i], true)) && TarotDeck.Key(Entry(saved[i], true)) == i
    {
      SavedNameIsCard(i);
    }
  }

  // ---------------------------------------------------------------------
  // get_next_deck_to_download / get_available_decks / back tint
  // ---------------------------------------------------------------------

  /** A deck folder that needs nothing more: 78 card images and a back. */
  predicate Finished(folders: map<string, seq<Entry>>, d: DeckInfo) {
    d.id in folders && |TarotDeck.DeckImages(folders[d.id])| >= 78 && TarotDeck.HasBack(folders[d.id])
  }

  /**
   * get_next_deck_to_download, over the folders that exist under the tarot
   * directory: the first deck whose folder is missing, short of images or
   * without a back.
   */
  method GetNextDeckToDownload(folders: map<string, seq<Entry>>) returns (r: Option<DeckInfo>)
    ensures r.None? <==> forall i :: 0 <= i < |Decks| ==> Finished(folders, Decks[i])
    ensures r.Some? ==> exists i :: 0 <= i < |Decks| && Decks[i] == r.value && FirstUnfinished(folders, i)
  {
    var k := 0;
    while k < |Decks|
      invariant 0 <= k <= |Decks|
      invariant forall j :: 0 <= j < k ==> Finished(folders, Decks[j])
    {
      var d := Decks[k];
      if d.id !in folders {
        assert FirstUnfinished(folders, k);
        return Some(d);
      }
      var cards := TarotDeck.DeckImages(folders[d.id]);
      if |cards| < 78 {
        assert FirstUnfinished(folders, k);
        return Some(d);
      }
      if !TarotDeck.HasBack(folders[d.id]) {
        assert FirstUnfinished(folders, k);
        return Some(d);
      }
      k := k + 1;
    }
    return None;
  }

  /** Deck i is the first, in list order, that is not finished. */
  predicate FirstUnfinished(folders: map<string, seq<Entry>>, i: int) {
    0 <= i < |Decks| && !Finished(folders, Decks[i]) &&
    forall j :: 0 <= j < i ==> Finished(folders, Decks[j])
  }

  /** The script's own test of a deck: the folder exists and has 78 card images; the back is not checked. */
  predicate Offered(folders: map<string, seq<Entry>>, d: DeckInfo) {
    d.id in folders && |TarotDeck.DeckImages(folders[d.id])| >= 78
  }

  /** The ids of the offered decks among the first n, in list order. */
  function OfferedIds(folders: map<string, seq<Entry>>, n: nat): (r: seq<string>)
    requires n <= |Decks|
    ensures |r| <= n
  {
    if n == 0 then []
    else OfferedIds(folders, n - 1) + (if Offered(folders, Decks[n - 1]) then [Decks[n - 1].id] else [])
  }

  /** get_available_decks of the download script. */
  method GetAvailableDeckIds(folders: map<string, seq<Entry>>) returns (available: seq<string>)
    ensures available == OfferedIds(folders, |Decks|)
  {
    available := [];
    var k := 0;
    while k < |Decks|
      invariant 0 <= k <= |Decks|
      invariant available == OfferedIds(folders, k)
    {
      var d := Decks[k];
      if d.id in folders {
        var cards := TarotDeck.DeckImages(folders[d.id]);
        if |cards| >= 78 {
          available := available + [d.id];
        }
      }
      k := k + 1;
    }
  }

  lemma {:induction false} OfferedIdsMembers(folders: map<string, seq<Entry>>, n: nat, x: string)
    requires n <= |Decks|
    ensures x in OfferedIds(folders, n) <==> exists i :: 0 <= i < n && Offered(folders, Decks[i]) && Decks[i].id == x
  {
    if n > 0 {
      OfferedIdsMembers(folders, n - 1, x);
    }
  }

  /**
   * Every finished deck is offered; but a folder with 78 images and no back
   * is offered here, although the deck reader refuses the same folder.
   */
  lemma OfferedIgnoresBack(folders: map<string, seq<Entry>>, d: DeckInfo)
    ensures Finished(folders, d) ==> Offered(folders, d)
    ensures Offered(folders, d) && !TarotDeck.HasBack(folders[d.id]) ==>
      !TarotDeck.Usable(TarotDeck.Folder(d.id, true, folders[d.id]))
  {
  }

  /** pick_random_deck of the download script: any offered deck, or None. */
  method PickRandomDeckId(folders: map<string, seq<Entry>>) returns (r: Option<string>)
    ensures r.None? <==> forall i :: 0 <= i < |Decks| ==> !Offered(folders, Decks[i])
    ensures r.Some? ==> exists i :: 0 <= i < |Decks| && Offered(folders, Decks[i]) && Decks[i].id == r.value
  {
    var decks := GetAvailableDeckIds(folders);
    if decks == [] {
      forall i | 0 <= i < |Decks| ensures !Offered(folders, Decks[i]) {
        OfferedIdsMembers(folders, |Decks|, Decks[i].id);
      }
      return None;
    }
    assert decks[0] in decks;
    var choice :| choice in decks;
    OfferedIdsMembers(folders, |Decks|, choice);
    return Some(choice);
  }

  /** DECKS.index(deck): the first position holding it. */
  function IndexOf(d: DeckInfo): (i: nat)
    requires d in Decks
    ensures i < |Decks| && Decks[i] == d
  {
    if Decks[0] == d then 0
    else if Decks[1] == d then 1
    else if Decks[2] == d then 2
    else if Decks[3] == d then 3
    else 4
  }

  /** The colour of a generated back: red 30 + hue capped at 255, green 40, blue 80. */
  function BackColor(hue: int): (int, int, int) {
    (if 30 + hue < 255 then 30 + hue else 255, 40, 80)
  }

  /** The hue main passes for a deck: 15 per position in the deck list. */
  function BackHue(d: DeckInfo): int
    requires d in Decks
  {
    IndexOf(d) * 15
  }

  /** For the five listed decks the cap never applies, and each deck's back has its own red. */
  lemma BackColors(d: DeckInfo, e: DeckInfo)
    requires d in Decks && e in Decks
    ensures BackColor(BackHue(d)).0 == 30 + 15 * IndexOf(d) <= 90
    ensures d != e ==> BackColor(BackHue(d)) != BackColor(BackHue(e))
  {
  }
}
