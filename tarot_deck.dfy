/**
 * Deck folders: the order in which a deck's card images are numbered (by
 * the first run of digits in each file's stem), the lookup of card i, and
 * the choice of a complete deck.
 */
module TarotDeck {
  import opened Wrappers
  import opened Text
  import opened FilePaths
  import opened Config

  // ---------------------------------------------------------------------
  // sort_key
  // ---------------------------------------------------------------------

  /** The run of digits a string starts with. */
  function LeadingDigits(s: string): (r: string)
    ensures AllDigits(r) && |r| <= |s| && r == s[..|r|]
    ensures |r| < |s| ==> !IsDigit(s[|r|])
  {
    if s != [] && IsDigit(s[0]) then [s[0]] + LeadingDigits(s[1..]) else []
  }

  /** The first maximal run of digits in a string, or "" when it has none. */
  function FirstDigitRun(s: string): (r: string)
    ensures AllDigits(r)
  {
    if s == [] then []
    else if IsDigit(s[0]) then LeadingDigits(s)
    else FirstDigitRun(s[1..])
  }

  /** The number a card file is ordered by: its first digit run as an integer, or 999. */
  function KeyOf(stem: string): nat {
    var num := FirstDigitRun(stem);
    if num == [] then 999 else DecimalValue(num)
  }

  /** sort_key: the digits are collected one character at a time, stopping at the first non-digit after them. */
  method SortKey(stem: string) returns (key: nat)
    ensures key == KeyOf(stem)
  {
    var num := "";
    var i := 0;
    while i < |stem|
      invariant 0 <= i <= |stem|
      invariant AllDigits(num)
      invariant num == [] ==> FirstDigitRun(stem) == FirstDigitRun(stem[i..])
      invariant num != [] ==> FirstDigitRun(stem) == num + LeadingDigits(stem[i..])
    {
      var c := stem[i];
      RunStep(stem, i);
      if IsDigit(c) {
        num := num + [c];
      } else if num != [] {
        break;
      }
      i := i + 1;
    }
    RunEnd(stem, i);
    assert FirstDigitRun(stem) == num;
    key := if num == [] then 999 else DecimalValue(num);
  }

  /** How the runs of s[i..] unfold by one character. */
  lemma RunStep(s: string, i: nat)
    requires i < |s|
    ensures IsDigit(s[i]) ==>
      (FirstDigitRun(s[i..]) == LeadingDigits(s[i..]) &&
       LeadingDigits(s[i..]) == [s[i]] + LeadingDigits(s[i + 1..]))
    ensures !IsDigit(s[i]) ==>
      (FirstDigitRun(s[i..]) == FirstDigitRun(s[i + 1..]) && LeadingDigits(s[i..]) == [])
  {
    assert s[i..][1..] == s[i + 1..];
  }

  lemma RunEnd(s: string, i: nat)
    requires i <= |s|
    ensures i == |s| ==> FirstDigitRun(s[i..]) == [] && LeadingDigits(s[i..]) == []
  {
  }

  lemma {:induction false} LeadingDigitsOf(ds: string, rest: string)
    requires AllDigits(ds)
    requires rest == [] || !IsDigit(rest[0])
    ensures LeadingDigits(ds + rest) == ds
  {
    if ds != [] {
      assert (ds + rest)[1..] == ds[1..] + rest;
      LeadingDigitsOf(ds[1..], rest);
    }
  }

  /**
   * A stem that starts with a zero-padded index followed by a non-digit (or
   * nothing), as "07" or "23_wands_2", is ordered by that index.
   */
  lemma KeyOfPadded(i: nat, rest: string)
    requires rest == [] || !IsDigit(rest[0])
    ensures KeyOf(Pad2(i) + rest) == i
  {
    var ds := Pad2(i);
    LeadingDigitsOf(ds, rest);
    Pad2Value(i);
  }

  /** A stem with no digit at all, such as "back", is ordered last, at 999. */
  lemma {:induction false} KeyOfNoDigits(s: string)
    requires forall i :: 0 <= i < |s| ==> !IsDigit(s[i])
    ensures KeyOf(s) == 999
  {
    if s != [] {
      NoDigitRun(s);
    }
  }

  lemma {:induction false} NoDigitRun(s: string)
    requires forall i :: 0 <= i < |s| ==> !IsDigit(s[i])
    ensures FirstDigitRun(s) == []
  {
    if s != [] {
      NoDigitRun(s[1..]);
    }
  }

  // ---------------------------------------------------------------------
  // get_card_path
  // ---------------------------------------------------------------------

  function Key(e: Entry): nat {
    KeyOf(Stem(e.name))
  }

  /** A regular file with an image suffix (any case) whose stem is not "back" (any case). */
  predicate IsCardFile(e: Entry) {
    e.isFile && Lower(Suffix(e.name)) in {".png", ".jpg", ".jpeg"} && Lower(Stem(e.name)) != "back"
  }

  /** The elements of s that satisfy p, in order. */
  function Filter<T(!new)>(p: T -> bool, s: seq<T>): (r: seq<T>)
    ensures |r| <= |s|
    ensures forall x :: x in r <==> x in s && p(x)
  {
    if s == [] then []
    else
      var rest := Filter(p, s[1..]);
      assert forall x :: x in s <==> x == s[0] || x in s[1..];
      if p(s[0]) then [s[0]] + rest else rest
  }

  /** The card files of a folder listing, in listing order. */
  function CardFiles(files: seq<Entry>): (r: seq<Entry>)
    ensures |r| <= |files|
    ensures forall e :: e in r <==> e in files && IsCardFile(e)
  {
    Filter(IsCardFile, files)
  }

  /** An entry paired with its sort key, computed once as list.sort(key=...) does. */
  datatype Keyed = Keyed(key: nat, entry: Entry)

  function Decorate(s: seq<Entry>): (r: seq<Keyed>)
    ensures |r| == |s| && forall i :: 0 <= i < |s| ==> r[i] == Keyed(Key(s[i]), s[i])
  {
    seq(|s|, i requires 0 <= i < |s| => Keyed(Key(s[i]), s[i]))
  }

  function Undecorate(s: seq<Keyed>): (r: seq<Entry>)
    ensures |r| == |s| && forall i :: 0 <= i < |s| ==> r[i] == s[i].entry
  {
    seq(|s|, i requires 0 <= i < |s| => s[i].entry)
  }

  predicate Sorted(s: seq<Keyed>) {
    forall i, j :: 0 <= i < j < |s| ==> s[i].key <= s[j].key
  }

  predicate Strictly(s: seq<Keyed>) {
    forall i, j :: 0 <= i < j < |s| ==> s[i].key < s[j].key
  }

  /** Puts x after every element whose key is not greater, so equal keys keep their order. */
  function Insert(x: Keyed, s: seq<Keyed>): (r: seq<Keyed>)
    ensures |r| == |s| + 1
  {
    if s == [] then [x]
    else if x.key < s[0].key then [x] + s
    else [s[0]] + Insert(x, s[1..])
  }

  lemma {:induction false} InsertMultiset(x: Keyed, s: seq<Keyed>)
    ensures multiset(Insert(x, s)) == multiset(s) + multiset{x}
  {
    if s != [] && x.key >= s[0].key {
      InsertMultiset(x, s[1..]);
      assert s == [s[0]] + s[1..];
    }
  }

  /** Every key of s is at least k (above k when strict). */
  predicate Bounded(s: seq<Keyed>, k: int, strict: bool) {
    forall i :: 0 <= i < |s| ==> (if strict then s[i].key > k else s[i].key >= k)
  }

  lemma {:induction false} InsertBounded(x: Keyed, s: seq<Keyed>, k: int, strict: bool)
    requires Bounded(s, k, strict)
    requires if strict then x.key > k else x.key >= k
    ensures Bounded(Insert(x, s), k, strict)
  {
    if s != [] && x.key >= s[0].key {
      InsertBounded(x, s[1..], k, strict);
    }
  }

  lemma ConsOrdered(a: Keyed, b: seq<Keyed>, strict: bool)
    requires if strict then Strictly(b) else Sorted(b)
    requires Bounded(b, a.key, strict)
    ensures if strict then Strictly([a] + b) else Sorted([a] + b)
  {
    var c := [a] + b;
    assert forall i :: 1 <= i < |c| ==> c[i] == b[i - 1];
  }

  /** Insertion keeps a sorted list sorted. */
  lemma {:induction false} InsertSorted(x: Keyed, s: seq<Keyed>)
    requires Sorted(s)
    ensures Sorted(Insert(x, s))
  {
    if s != [] {
      if x.key < s[0].key {
        assert Bounded(s, x.key, false);
        ConsOrdered(x, s, false);
      } else {
        assert Bounded(s[1..], s[0].key, false);
        InsertSorted(x, s[1..]);
        InsertBounded(x, s[1..], s[0].key, false);
        ConsOrdered(s[0], Insert(x, s[1..]), false);
      }
    }
  }

  /** Insertion keeps a strictly sorted list strict when the key is new. */
  lemma {:induction false} InsertStrict(x: Keyed, s: seq<Keyed>)
    requires Strictly(s) && forall i :: 0 <= i < |s| ==> s[i].key != x.key
    ensures Strictly(Insert(x, s))
  {
    if s != [] {
      if x.key < s[0].key {
        assert Bounded(s, x.key, true);
        ConsOrdered(x, s, true);
      } else {
        assert x.key > s[0].key;
        assert Bounded(s[1..], s[0].key, true);
        InsertStrict(x, s[1..]);
        InsertBounded(x, s[1..], s[0].key, true);
        ConsOrdered(s[0], Insert(x, s[1..]), true);
      }
    }
  }

  /** Insertion sort by key; stable. */
  function Sort(s: seq<Keyed>): (r: seq<Keyed>)
    ensures |r| == |s|
  {
    if s == [] then [] else Insert(s[|s| - 1], Sort(s[..|s| - 1]))
  }

  /** The sorted list is a permutation of the input in non-decreasing key order. */
  lemma {:induction false} SortSpec(s: seq<Keyed>)
    ensures multiset(Sort(s)) == multiset(s) && Sorted(Sort(s))
  {
    if s != [] {
      var init := s[..|s| - 1];
      SortSpec(init);
      InsertMultiset(s[|s| - 1], Sort(init));
      InsertSorted(s[|s| - 1], Sort(init));
      assert s == init + [s[|s| - 1]];
    }
  }

  /** Each element carries its own entry's key. */
  predicate WellKeyed(s: seq<Keyed>) {
    forall i :: 0 <= i < |s| ==> s[i].key == Key(s[i].entry)
  }

  /** list.sort(key=sort_key) on the card files. */
  function SortByKey(s: seq<Entry>): (r: seq<Entry>)
    ensures |r| == |s|
  {
    Undecorate(Sort(Decorate(s)))
  }

  /** Sorting moves elements but keeps each one's key. */
  lemma SortWellKeyed(d: seq<Keyed>)
    requires WellKeyed(d)
    ensures WellKeyed(Sort(d))
  {
    var t := Sort(d);
    SortSpec(d);
    forall i | 0 <= i < |t| ensures t[i].key == Key(t[i].entry) {
      assert t[i] in multiset(d);
      var k :| 0 <= k < |d| && d[k] == t[i];
    }
  }

  lemma UndecorateCons(x: Keyed, s: seq<Keyed>)
    ensures Undecorate([x] + s) == [x.entry] + Undecorate(s)
  {
  }

  lemma {:induction false} InsertEntries(x: Keyed, s: seq<Keyed>)
    ensures multiset(Undecorate(Insert(x, s))) == multiset(Undecorate(s)) + multiset{x.entry}
  {
    if s != [] {
      UndecorateCons(s[0], s[1..]);
      assert s == [s[0]] + s[1..];
      if x.key < s[0].key {
        UndecorateCons(x, s);
      } else {
        InsertEntries(x, s[1..]);
        UndecorateCons(s[0], Insert(x, s[1..]));
      }
    }
  }

  lemma {:induction false} SortEntries(s: seq<Keyed>)
    ensures multiset(Undecorate(Sort(s))) == multiset(Undecorate(s))
  {
    if s != [] {
      var init := s[..|s| - 1];
      SortEntries(init);
      InsertEntries(s[|s| - 1], Sort(init));
      assert Undecorate(s) == Undecorate(init) + [s[|s| - 1].entry];
    }
  }

  /** The sorted files are the same files, in non-decreasing key order. */
  lemma SortByKeySpec(s: seq<Entry>)
    ensures multiset(SortByKey(s)) == multiset(s)
    ensures forall i, j :: 0 <= i < j < |s| ==> Key(SortByKey(s)[i]) <= Key(SortByKey(s)[j])
  {
    var d := Decorate(s);
    SortWellKeyed(d);
    SortEntries(d);
    SortSpec(d);
    assert Undecorate(d) == s;
  }

  /** The image at position cardIndex after sorting, or None when the folder is missing or the index is out of range. */
  function GetCardPath(deck: Option<seq<Entry>>, cardIndex: int): (r: Option<string>)
    ensures r.None? <==> deck.None? || !(0 <= cardIndex < |CardFiles(deck.value)|)
  {
    if deck.None? then None
    else
      var cards := SortByKey(CardFiles(deck.value));
      if 0 <= cardIndex < |cards| then Some(cards[cardIndex].name) else None
  }

  /** Whatever GetCardPath returns is the name of one of the folder's card files. */
  lemma CardPathIsCardFile(files: seq<Entry>, cardIndex: int)
    ensures GetCardPath(Some(files), cardIndex).Some? ==>
      exists e :: e in files && IsCardFile(e) && e.name == GetCardPath(Some(files), cardIndex).value
  {
    var cards := CardFiles(files);
    var sorted := SortByKey(cards);
    if 0 <= cardIndex < |sorted| {
      SortByKeySpec(cards);
      assert sorted[cardIndex] in multiset(cards);
    }
  }

  /** The card files of a folder carry the keys 0 .. n-1, each once. */
  predicate Numbered(cards: seq<Entry>) {
    (forall i :: 0 <= i < |cards| ==> Key(cards[i]) < |cards|) &&
    (forall i, j :: 0 <= i < j < |cards| ==> Key(cards[i]) != Key(cards[j]))
  }

  /**
   * In a deck whose card files are numbered 0 .. n-1, each number once,
   * card i is the file numbered i, whatever order the folder lists them in.
   */
  lemma NumberedDeckLookup(files: seq<Entry>, cardIndex: int)
    requires Numbered(CardFiles(files))
    ensures var r := GetCardPath(Some(files), cardIndex);
      (0 <= cardIndex < |CardFiles(files)| ==>
        exists e :: e in files && IsCardFile(e) && Key(e) == cardIndex && r == Some(e.name)) &&
      (!(0 <= cardIndex < |CardFiles(files)|) ==> r == None)
  {
    var cards := CardFiles(files);
    if 0 <= cardIndex < |cards| {
      var d := Decorate(cards);
      var t := Sort(d);
      assert SortByKey(cards) == Undecorate(t);
      var e := t[cardIndex].entry;
      assert GetCardPath(Some(files), cardIndex) == Some(e.name);
      SortedNumbering(cards, d, t);
      assert t[cardIndex].key == cardIndex;
      SortSpec(d);
      assert t[cardIndex] in multiset(d);
      var k :| 0 <= k < |d| && d[k] == t[cardIndex];
      assert e == cards[k];
      assert cards[k] in cards;
    }
  }

  /** After sorting numbered card files, position i holds the file numbered i. */
  lemma SortedNumbering(cards: seq<Entry>, d: seq<Keyed>, t: seq<Keyed>)
    requires Numbered(cards) && d == Decorate(cards) && t == Sort(d)
    ensures forall i :: 0 <= i < |t| ==> t[i].key == i
  {
    SortDistinct(d);
    SortSpec(d);
    forall i | 0 <= i < |t| ensures t[i].key < |t| {
      assert t[i] in multiset(d);
      var k :| 0 <= k < |d| && d[k] == t[i];
    }
    forall i | 0 <= i < |t| ensures t[i].key == i {
      KeyAtLeast(t, i);
      KeyAtMost(t, i);
    }
  }

  /** Sorting elements with distinct keys makes the keys strictly increase. */
  lemma {:induction false} SortDistinct(s: seq<Keyed>)
    requires forall i, j :: 0 <= i < j < |s| ==> s[i].key != s[j].key
    ensures Strictly(Sort(s))
  {
    if s != [] {
      var init := s[..|s| - 1];
      var x := s[|s| - 1];
      SortDistinct(init);
      var sorted := Sort(init);
      SortSpec(init);
      forall i | 0 <= i < |sorted| ensures sorted[i].key != x.key {
        assert sorted[i] in multiset(init);
        var k :| 0 <= k < |init| && init[k] == sorted[i];
        assert s[k] == sorted[i];
      }
      InsertStrict(x, sorted);
    }
  }

  lemma {:induction false} KeyAtLeast(s: seq<Keyed>, i: nat)
    requires i < |s| && Strictly(s)
    ensures s[i].key >= i
  {
    if i > 0 {
      KeyAtLeast(s, i - 1);
    }
  }

  lemma {:induction false} KeyAtMost(s: seq<Keyed>, i: nat)
    requires i < |s| && Strictly(s)
    requires forall j :: 0 <= j < |s| ==> s[j].key < |s|
    ensures s[i].key <= i
    decreases |s| - i
  {
    if i < |s| - 1 {
      KeyAtMost(s, i + 1);
    }
  }

  /** A folder of regular files, one per name, in the given order. */
  function FilesOf(names: seq<string>): (r: seq<Entry>)
    ensures |r| == |names| && forall i :: 0 <= i < |names| ==> r[i] == Entry(names[i], true)
  {
    seq(|names|, i requires 0 <= i < |names| => Entry(names[i], true))
  }

  /** Elements that pass followed by elements that fail: the filter keeps the first part. */
  lemma {:induction false} FilterPrefix<T(!new)>(p: T -> bool, a: seq<T>, b: seq<T>)
    requires forall i :: 0 <= i < |a| ==> p(a[i])
    requires forall i :: 0 <= i < |b| ==> !p(b[i])
    ensures Filter(p, a + b) == a
  {
    if a == [] {
      assert a + b == b;
      FilterNone(p, b);
    } else {
      assert (a + b)[1..] == a[1..] + b;
      FilterPrefix(p, a[1..], b);
    }
  }

  lemma {:induction false} FilterNone<T(!new)>(p: T -> bool, b: seq<T>)
    requires forall i :: 0 <= i < |b| ==> !p(b[i])
    ensures Filter(p, b) == []
  {
    if b != [] {
      assert !p(b[0]);
      FilterNone(p, b[1..]);
    }
  }

  /** The back image of a deck is not one of its cards. */
  lemma BackIsNotCard()
    ensures !IsCardFile(Entry("back.png", true))
  {
    var n := "back.png";
    assert n[..7] == "back.pn" && n[..7][..6] == "back.p" && n[..7][..6][..5] == "back.";
    assert RFind("back.", '.') == 4;
    assert RFind(n, '.') == 4;
    assert Stem(n) == "back";
  }

  /**
   * A folder whose card files, in order, carry the numbers 0 .. n-1, next to
   * files that are not cards (such as back.png): card i is the i-th of them,
   * and there is no card n or beyond.
   */
  lemma NumberedFolderLookup(names: seq<string>, extra: seq<Entry>, cardIndex: int)
    requires forall i :: 0 <= i < |names| ==> IsCardFile(Entry(names[i], true)) && Key(Entry(names[i], true)) == i
    requires forall i :: 0 <= i < |extra| ==> !IsCardFile(extra[i])
    ensures GetCardPath(Some(FilesOf(names) + extra), cardIndex) ==
      if 0 <= cardIndex < |names| then Some(names[cardIndex]) else None
  {
    var a := FilesOf(names);
    var files := a + extra;
    FilterPrefix(IsCardFile, a, extra);
    assert forall i :: 0 <= i < |a| ==> Key(a[i]) == i;
    assert Numbered(a);
    NumberedDeckLookup(files, cardIndex);
    if 0 <= cardIndex < |names| {
      var e :| e in files && IsCardFile(e) && Key(e) == cardIndex && GetCardPath(Some(files), cardIndex) == Some(e.name);
      assert e in a;
      NumberedMember(names, e);
    }
  }

  lemma NumberedMember(names: seq<string>, e: Entry)
    requires forall i :: 0 <= i < |names| ==> Key(Entry(names[i], true)) == i
    requires e in FilesOf(names)
    ensures Key(e) < |names| && e == Entry(names[Key(e)], true)
  {
    var a := FilesOf(names);
    var k :| 0 <= k < |a| && a[k] == e;
  }

  // ---------------------------------------------------------------------
  // get_available_decks / pick_random_deck / get_random_deck_path
  // ---------------------------------------------------------------------

  /** An entry of the tarot directory: a name, whether it is a directory, and what it holds. */
  datatype Folder = Folder(name: string, isDir: bool, files: seq<Entry>)

  predicate StartsWith(s: string, prefix: string) {
    |prefix| <= |s| && s[..|prefix|] == prefix
  }

  /** The names glob("*<ext>") yields. */
  function Globbed(files: seq<Entry>, ext: string): (r: seq<string>)
    ensures |r| <= |files|
  {
    if files == [] then []
    else
      var rest := Globbed(files[1..], ext);
      if EndsWith(files[0].name, ext) then [files[0].name] + rest else rest
  }

  /** The names whose stem is not exactly "back". */
  function NotBack(names: seq<string>): (r: seq<string>)
    ensures |r| <= |names|
    ensures forall x :: x in r <==> x in names && Stem(x) != "back"
  {
    if names == [] then []
    else
      var rest := NotBack(names[1..]);
      assert forall x :: x in names <==> x == names[0] || x in names[1..];
      if Stem(names[0]) != "back" then [names[0]] + rest else rest
  }

  /** The .png and .jpg images of a folder other than the back (case-sensitive, as glob is). */
  function DeckImages(files: seq<Entry>): seq<string> {
    NotBack(Globbed(files, ".png") + Globbed(files, ".jpg"))
  }

  predicate HasBack(files: seq<Entry>) {
    exists i :: 0 <= i < |files| && files[i].name == "back.png"
  }

  /** A `deck_*` directory with at least 78 card images and a back.png. */
  predicate Usable(f: Folder) {
    f.isDir && StartsWith(f.name, "deck_") && |DeckImages(f.files)| >= 78 && HasBack(f.files)
  }

  /** The names of the usable folders, in listing order. */
  function UsableNames(folders: seq<Folder>): (r: seq<string>)
    ensures |r| <= |folders|
  {
    if folders == [] then []
    else
      var last := folders[|folders| - 1];
      UsableNames(folders[..|folders| - 1]) + (if Usable(last) then [last.name] else [])
  }

  /** get_available_decks, over the folders of the tarot directory in sorted order. */
  method GetAvailableDecks(folders: seq<Folder>) returns (available: seq<string>)
    ensures available == UsableNames(folders)
  {
    available := [];
    var k := 0;
    while k < |folders|
      invariant 0 <= k <= |folders|
      invariant available == UsableNames(folders[..k])
    {
      var folder := folders[k];
      assert folders[..k + 1][..k] == folders[..k];
      if Usable(folder) {
        available := available + [folder.name];
      }
      k := k + 1;
    }
    assert folders[..k] == folders;
  }

  /** A name is offered exactly when some folder of that name is usable. */
  lemma {:induction false} UsableNamesMembers(folders: seq<Folder>, x: string)
    ensures x in UsableNames(folders) <==> exists i :: 0 <= i < |folders| && Usable(folders[i]) && folders[i].name == x
  {
    if folders != [] {
      var init := folders[..|folders| - 1];
      UsableNamesMembers(init, x);
      if x in UsableNames(init) {
        var i :| 0 <= i < |init| && Usable(init[i]) && init[i].name == x;
        assert folders[i] == init[i];
      }
      if exists i :: 0 <= i < |folders| && Usable(folders[i]) && folders[i].name == x {
        var i :| 0 <= i < |folders| && Usable(folders[i]) && folders[i].name == x;
        if i < |folders| - 1 {
          assert init[i] == folders[i];
        }
      }
    }
  }

  /** pick_random_deck: any usable deck, or None when there is none. */
  method PickRandomDeck(folders: seq<Folder>) returns (r: Option<string>)
    ensures r.None? <==> forall i :: 0 <= i < |folders| ==> !Usable(folders[i])
    ensures r.Some? ==> exists i :: 0 <= i < |folders| && Usable(folders[i]) && folders[i].name == r.value
  {
    var decks := GetAvailableDecks(folders);
    if decks == [] {
      forall i | 0 <= i < |folders| ensures !Usable(folders[i]) {
        UsableNamesMembers(folders, folders[i].name);
      }
      return None;
    }
    var d := decks[0];
    assert d in decks;
    var choice :| choice in decks;
    UsableNamesMembers(folders, choice);
    return Some(choice);
  }

  /** get_random_deck_path: the chosen deck's folder under the tarot directory. */
  method GetRandomDeckPath(tarotDir: string, folders: seq<Folder>) returns (r: Option<string>)
    ensures r.None? <==> forall i :: 0 <= i < |folders| ==> !Usable(folders[i])
    ensures r.Some? ==>
      exists i :: 0 <= i < |folders| && Usable(folders[i]) && r.value == tarotDir + "/" + folders[i].name
  {
    var deckId := PickRandomDeck(folders);
    if deckId.Some? && deckId.value != "" {
      return Some(tarotDir + "/" + deckId.value);
    }
    if deckId.Some? {
      // a usable name starts with "deck_", so it is never empty
      assert false;
    }
    return None;
  }
}
