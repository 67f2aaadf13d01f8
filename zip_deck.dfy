/**
 * The zip branch of the deck download script: the image members of an
 * archive, sorted by name, are saved as 00 .. 77, each with its own
 * extension lower-cased. Which members can be read and written is a
 * parameter.
 */
module ZipDeck {
  import opened Wrappers
  import opened Text
  import opened FilePaths
  import opened Config
  import TarotDeck

  /** The most images a zip deck keeps. */
  const MaxCards: nat := 78

  function Capped(n: nat): nat {
    if n < MaxCards then n else MaxCards
  }

  /** The member name, lower-cased, ends with .jpg, .jpeg or .png. */
  predicate IsImageName(n: string) {
    EndsWith(Lower(n), ".jpg") || EndsWith(Lower(n), ".jpeg") || EndsWith(Lower(n), ".png")
  }

  /** The image members of the archive, in archive order. */
  function ImageNames(names: seq<string>): (r: seq<string>)
    ensures |r| <= |names|
    ensures forall n :: n in r <==> n in names && IsImageName(n)
  {
    TarotDeck.Filter(IsImageName, names)
  }

  // ---------------------------------------------------------------------
  // img_files.sort()
  // ---------------------------------------------------------------------

  /** Python's order on str: code point by code point, a proper prefix first. */
  predicate LexLe(a: string, b: string)
    decreases |a|
  {
    a == [] || (b != [] && (a[0] < b[0] || (a[0] == b[0] && LexLe(a[1..], b[1..]))))
  }

  /** Any two names are comparable. */
  lemma {:induction false} LexTotal(a: string, b: string)
    ensures LexLe(a, b) || LexLe(b, a)
    decreases |a|
  {
    if a != [] && b != [] && a[0] == b[0] {
      LexTotal(a[1..], b[1..]);
    }
  }

  /** Names that are ordered both ways are equal. */
  lemma {:induction false} LexAntisymmetric(a: string, b: string)
    requires LexLe(a, b) && LexLe(b, a)
    ensures a == b
    decreases |a|
  {
    if a != [] {
      LexAntisymmetric(a[1..], b[1..]);
      assert a == [a[0]] + a[1..] && b == [b[0]] + b[1..];
    }
  }

  lemma {:induction false} LexTransitive(a: string, b: string, c: string)
    requires LexLe(a, b) && LexLe(b, c)
    ensures LexLe(a, c)
    decreases |a|
  {
    if a != [] && a[0] == b[0] && b[0] == c[0] {
      LexTransitive(a[1..], b[1..], c[1..]);
    }
  }

  predicate NamesSorted(s: seq<string>) {
    forall i, j :: 0 <= i < j < |s| ==> LexLe(s[i], s[j])
  }

  /** Every element of s is at least b. */
  predicate AllAbove(b: string, s: seq<string>) {
    forall i :: 0 <= i < |s| ==> LexLe(b, s[i])
  }

  function InsertName(x: string, s: seq<string>): (r: seq<string>)
    ensures |r| == |s| + 1
  {
    if s == [] then [x]
    else if LexLe(x, s[0]) then [x] + s
    else [s[0]] + InsertName(x, s[1..])
  }

  /** list.sort() on names: an insertion sort. */
  function SortNames(s: seq<string>): (r: seq<string>)
    ensures |r| == |s|
  {
    if s == [] then []
    else InsertName(s[|s| - 1], SortNames(s[..|s| - 1]))
  }

  lemma {:induction false} InsertNameMultiset(x: string, s: seq<string>)
    ensures multiset(InsertName(x, s)) == multiset(s) + multiset{x}
  {
    if s != [] && !LexLe(x, s[0]) {
      InsertNameMultiset(x, s[1..]);
      assert s == [s[0]] + s[1..];
    }
  }

  /** Inserting an element at least b into elements at least b keeps them at least b. */
  lemma InsertNameAbove(b: string, x: string, s: seq<string>)
    requires LexLe(b, x) && AllAbove(b, s)
    ensures AllAbove(b, InsertName(x, s))
  {
    var r := InsertName(x, s);
    InsertNameMultiset(x, s);
    forall i | 0 <= i < |r| ensures LexLe(b, r[i]) {
      assert r[i] in multiset(s) + multiset{x};
      if r[i] != x {
        var k :| 0 <= k < |s| && s[k] == r[i];
      }
    }
  }

  lemma ConsSorted(a: string, s: seq<string>)
    requires NamesSorted(s) && AllAbove(a, s)
    ensures NamesSorted([a] + s)
  {
    var r := [a] + s;
    forall i, j | 0 <= i < j < |r| ensures LexLe(r[i], r[j]) {
      if i > 0 {
        assert r[i] == s[i - 1] && r[j] == s[j - 1];
      } else {
        assert r[j] == s[j - 1];
      }
    }
  }

  lemma {:induction false} InsertNameSorted(x: string, s: seq<string>)
    requires NamesSorted(s)
    ensures NamesSorted(InsertName(x, s))
  {
    if s == [] {
    } else if LexLe(x, s[0]) {
      forall i | 0 <= i < |s| ensures LexLe(x, s[i]) {
        if i > 0 {
          LexTransitive(x, s[0], s[i]);
        }
      }
      ConsSorted(x, s);
    } else {
      var t := s[1..];
      assert NamesSorted(t) by {
        forall i, j | 0 <= i < j < |t| ensures LexLe(t[i], t[j]) {
          assert t[i] == s[i + 1] && t[j] == s[j + 1];
        }
      }
      InsertNameSorted(x, t);
      LexTotal(x, s[0]);
      assert AllAbove(s[0], t) by {
        forall i | 0 <= i < |t| ensures LexLe(s[0], t[i]) {
          assert t[i] == s[i + 1];
        }
      }
      InsertNameAbove(s[0], x, t);
      ConsSorted(s[0], InsertName(x, t));
    }
  }

  /** The sorted names are the same names, in Python's string order. */
  lemma {:induction false} SortNamesSpec(s: seq<string>)
    ensures multiset(SortNames(s)) == multiset(s)
    ensures NamesSorted(SortNames(s))
  {
    if s != [] {
      var init := s[..|s| - 1];
      SortNamesSpec(init);
      InsertNameMultiset(s[|s| - 1], SortNames(init));
      InsertNameSorted(s[|s| - 1], SortNames(init));
      assert s == init + [s[|s| - 1]];
    }
  }

  lemma {:induction false} LexReflexive(a: string)
    ensures LexLe(a, a)
    decreases |a|
  {
    if a != [] {
      LexReflexive(a[1..]);
    }
  }

  lemma SortedTail(s: seq<string>)
    requires s != [] && NamesSorted(s)
    ensures NamesSorted(s[1..])
  {
    var t := s[1..];
    forall i, j | 0 <= i < j < |t| ensures LexLe(t[i], t[j]) {
      assert t[i] == s[i + 1] && t[j] == s[j + 1];
    }
  }

  /** The first of a sorted list is at most each of its elements. */
  lemma HeadIsLeast(s: seq<string>, x: string)
    requires NamesSorted(s) && x in multiset(s)
    ensures LexLe(s[0], x)
  {
    var i :| 0 <= i < |s| && s[i] == x;
    if i == 0 {
      LexReflexive(x);
    }
  }

  /** Two sorted orderings of the same names are the same list, so the sort is fully determined. */
  lemma {:induction false} SortedUnique(s: seq<string>, t: seq<string>)
    requires NamesSorted(s) && NamesSorted(t) && multiset(s) == multiset(t)
    ensures s == t
    decreases |s|
  {
    if s != [] {
      assert |t| == |multiset(t)| == |multiset(s)| == |s|;
      HeadIsLeast(t, s[0]);
      HeadIsLeast(s, t[0]);
      LexAntisymmetric(s[0], t[0]);
      SameTails(s, t);
      SortedTail(s);
      SortedTail(t);
      SortedUnique(s[1..], t[1..]);
      assert s == [s[0]] + s[1..] && t == [t[0]] + t[1..];
    }
  }

  /** SortNames is the sort: any sorted arrangement of the same names is what it returns. */
  lemma SortNamesIsTheSort(s: seq<string>, t: seq<string>)
    requires NamesSorted(t) && multiset(t) == multiset(s)
    ensures SortNames(s) == t
  {
    SortNamesSpec(s);
    SortedUnique(SortNames(s), t);
  }

  lemma SameTails(s: seq<string>, t: seq<string>)
    requires s != [] && t != [] && s[0] == t[0] && multiset(s) == multiset(t)
    ensures multiset(s[1..]) == multiset(t[1..])
  {
    assert s == [s[0]] + s[1..] && t == [t[0]] + t[1..];
    assert multiset(s[1..]) == multiset(s) - multiset{s[0]};
    assert multiset(t[1..]) == multiset(t) - multiset{t[0]};
  }

  // ---------------------------------------------------------------------
  // Saving
  // ---------------------------------------------------------------------

  /** Path(name).suffix.lower() or ".jpg". */
  function ExtOf(name: string): string {
    var x := Lower(Suffix(Name(name)));
    if x == [] then ".jpg" else x
  }

  /**
   * An image member is saved with an image extension: the one its name ends
   * with, or ".jpg" when its final component is nothing but the extension.
   */
  lemma ExtOfImage(name: string)
    requires IsImageName(name)
    ensures ExtOf(name) in {".jpg", ".jpeg", ".png"}
    ensures EndsWith(Lower(name), ExtOf(name)) || ExtOf(name) == ".jpg"
  {
    var l := Lower(name);
    if EndsWith(l, ".jpg") {
      ExtFromEnding(name, ".jpg");
    } else if EndsWith(l, ".jpeg") {
      ExtFromEnding(name, ".jpeg");
    } else {
      ExtFromEnding(name, ".png");
    }
  }

  /** ExtOfImage for a name ending in one given image extension. */
  lemma ExtFromEnding(name: string, e: string)
    requires e in {".jpg", ".jpeg", ".png"} && EndsWith(Lower(name), e)
    ensures ExtOf(name) == e || ExtOf(name) == ".jpg"
  {
    ImageExt(e);
    assert '/' !in e;
    SuffixOfEnding(name, e);
  }

  /** An image written out: its position among the sorted images and the member it was read from. */
  datatype SavedImage = SavedImage(index: nat, member: string)

  /** The name the image is saved under: f"{i:02d}{ext}". */
  function FileName(f: SavedImage): string {
    Pad2(f.index) + ExtOf(f.member)
  }

  function FileNames(saved: seq<SavedImage>): (r: seq<string>)
    ensures |r| == |saved| && forall k :: 0 <= k < |saved| ==> r[k] == FileName(saved[k])
  {
    seq(|saved|, k requires 0 <= k < |saved| => FileName(saved[k]))
  }

  /** The images saved when the first n sorted images have been tried: the written ones, in order. */
  function ZipSaved(imgs: seq<string>, written: string -> bool, n: nat): (r: seq<SavedImage>)
    requires n <= |imgs|
    ensures |r| <= n
  {
    if n == 0 then []
    else ZipSaved(imgs, written, n - 1) + (if written(imgs[n - 1]) then [SavedImage(n - 1, imgs[n - 1])] else [])
  }

  lemma ZipSavedStep(imgs: seq<string>, written: string -> bool, n: nat)
    requires n < |imgs|
    ensures ZipSaved(imgs, written, n + 1) ==
      ZipSaved(imgs, written, n) + (if written(imgs[n]) then [SavedImage(n, imgs[n])] else [])
  {
  }

  /**
   * download_zip_deck: None stands for an archive that could not be fetched.
   * Otherwise the image members are sorted and the first 78 of them are
   * saved in turn; `written` says which of them are read and written.
   */
  method DownloadZipDeck(archive: Option<seq<string>>, written: string -> bool)
    returns (total: nat, saved: seq<SavedImage>)
    ensures archive.None? ==> total == 0 && saved == []
    ensures archive.Some? ==>
      saved == ZipSaved(SortNames(ImageNames(archive.value)), written, Capped(|ImageNames(archive.value)|))
    ensures total == |saved| <= MaxCards
  {
    if archive.None? {
      return 0, [];
    }
    var imgFiles := SortNames(ImageNames(archive.value));
    var n := Capped(|imgFiles|);
    total, saved := 0, [];
    for i := 0 to n
      invariant saved == ZipSaved(imgFiles, written, i)
      invariant total == |saved| <= i
    {
      var name := imgFiles[i];
      ZipSavedStep(imgFiles, written, i);
      if written(name) {
        saved := saved + [SavedImage(i, name)];
        total := total + 1;
      }
    }
  }

  /** The images saved when all of the first n are written: image i at index i. */
  function AllSaved(imgs: seq<string>, n: nat): (r: seq<SavedImage>)
    requires n <= |imgs|
    ensures |r| == n && forall i :: 0 <= i < n ==> r[i] == SavedImage(i, imgs[i])
  {
    seq(n, i requires 0 <= i < n => SavedImage(i, imgs[i]))
  }

  /** When every image tried is written, image i is saved at index i, and nothing is skipped. */
  lemma {:induction false} ZipAllWritten(imgs: seq<string>, written: string -> bool, n: nat)
    requires n <= |imgs|
    requires forall i :: 0 <= i < n ==> written(imgs[i])
    ensures ZipSaved(imgs, written, n) == AllSaved(imgs, n)
  {
    if n > 0 {
      ZipAllWritten(imgs, written, n - 1);
      assert written(imgs[n - 1]);
      ZipSavedStep(imgs, written, n - 1);
      assert AllSaved(imgs, n) == AllSaved(imgs, n - 1) + [SavedImage(n - 1, imgs[n - 1])];
    }
  }

  /** A saved image is a card file of the deck reader, ordered at its index. */
  lemma ZipSavedIsCard(i: nat, name: string)
    requires IsImageName(name)
    ensures TarotDeck.IsCardFile(Entry(FileName(SavedImage(i, name)), true))
    ensures TarotDeck.Key(Entry(FileName(SavedImage(i, name)), true)) == i
  {
    var ext := ExtOf(name);
    var p := Pad2(i);
    ExtOfImage(name);
    PaddedNoDot(i);
    ImageExt(ext);
    SplitWritten(p, ext);
    assert Lower(p)[0] == p[0];
    TarotDeck.KeyOfPadded(i, []);
    assert p + [] == p;
  }

  lemma PaddedNoDot(i: nat)
    ensures '.' !in Pad2(i)
  {
  }

  /** The three image extensions are already lower-case and hold a single dot, in front. */
  lemma ImageExt(ext: string)
    requires ext in {".jpg", ".jpeg", ".png"}
    ensures Lower(ext) == ext && |ext| >= 2 && ext[0] == '.' && '.' !in ext[1..]
  {
    if ext == ".jpg" {
      assert ext[1..] == "jpg";
    } else if ext == ".jpeg" {
      assert ext[1..] == "jpeg";
    } else {
      assert ext[1..] == "png";
    }
  }

  /** The sorted image names are all images. */
  lemma SortedImages(names: seq<string>)
    ensures forall i :: 0 <= i < |SortNames(ImageNames(names))| ==> IsImageName(SortNames(ImageNames(names))[i])
  {
    var imgs := ImageNames(names);
    var sorted := SortNames(imgs);
    SortNamesSpec(imgs);
    forall i | 0 <= i < |sorted| ensures IsImageName(sorted[i]) {
      assert sorted[i] in multiset(imgs);
    }
  }

  /** The card the deck reader finds at cardIndex in the folder a zip download leaves, with its back. */
  function GetZipCard(names: seq<string>, written: string -> bool, cardIndex: int): Option<string> {
    var imgs := SortNames(ImageNames(names));
    var saved := ZipSaved(imgs, written, Capped(|imgs|));
    TarotDeck.GetCardPath(Some(TarotDeck.FilesOf(FileNames(saved)) + [Entry("back.png", true)]), cardIndex)
  }

  /**
   * A zip deck whose images were all written, with its back added, reads
   * back in order: card i is the i-th image by name, saved under its index
   * with its own extension, and there is no card past the last image kept.
   */
  lemma ZipDeckReadBack(names: seq<string>, written: string -> bool, cardIndex: int)
    requires forall i :: 0 <= i < Capped(|ImageNames(names)|) ==> written(SortNames(ImageNames(names))[i])
    ensures GetZipCard(names, written, cardIndex) ==
      if 0 <= cardIndex < Capped(|ImageNames(names)|)
      then Some(Pad2(cardIndex) + ExtOf(SortNames(ImageNames(names))[cardIndex]))
      else None
  {
    var imgs := SortNames(ImageNames(names));
    var n := Capped(|imgs|);
    ZipAllWritten(imgs, written, n);
    var files := FileNames(AllSaved(imgs, n));
    SortedImages(names);
    forall i | 0 <= i < |files|
      ensures TarotDeck.IsCardFile(Entry(files[i], true)) && TarotDeck.Key(Entry(files[i], true)) == i
    {
      ZipSavedIsCard(i, imgs[i]);
    }
    TarotDeck.BackIsNotCard();
    TarotDeck.NumberedFolderLookup(files, [Entry("back.png", true)], cardIndex);
  }
}
