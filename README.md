# FortuneShorts core, modelled in Dafny

FortuneShorts makes short Korean tarot and fortune videos for YouTube. It
deals and shuffles cards, lays them out on a 1080×1920 frame, flips them
over, writes the meanings, picks background music, writes titles,
descriptions and hashtags, and answers viewer comments.

This project models the decisions behind all of that, with pictures,
fonts, audio, files, SQLite and the network replaced by plain values.
The decisions are:

- **Text engine.** Highlighted segments, word wrapping by characters and
  by measured width, Korean counter words, hex colours and ease curves.
  The modules are `Highlight`, `Wrap`, `VideoHelpers` and `Text`.
- **Grid geometry.** `Grid` covers the cell-size formula and proves the
  cells are disjoint and inside the frame.
- **Timeline.** `Timeline` covers:
  - frame counts and per-frame progress;
  - the staggered flip schedule and the segment transition;
  - fly-in positions, clamping and music looping.
- **Video plan.** `VideoPlan` covers the 3-card / 6-card choice, the card
  permutations, the two meaning segments and the clip sections.
- **Card catalogue and decks.**
  - `TarotMeanings` and `ShuffleStyles` hold the card table, card pools
    and shuffle styles.
  - `TarotDeck` and `FilePaths` cover the digit-prefix sort key and the
    folder lookup.
  - `DeckDownload` and `ZipDeck` cover how downloaded decks are named and
    checked for completeness.
- **Rotation state.**
  - `ThemePhrasesDb` models the phrase, viral-phrase and hook-title tables
    in memory.
  - `ThumbnailPhrases` covers the round-robin thumbnail phrase and the
    morning hook.
  - `CommentReplies` covers the replied-comments table.
- **Parsers and formatters.**
  - `CommentReplies` parses the "95년/2월/운세" comment form.
  - `Metadata` builds titles, descriptions and hashtags.
  - `Thumbnails` splits thumbnail text into lines, places it and samples
    frames.
  - `Config` resolves the font and picks random asset files.

Randomness is nondeterministic choice (`:|`) inside methods, or an
explicit input. An operation that asks a language model or the YouTube
API for something receives that reply as a parameter. A directory
listing is a sequence of entries, and a database table is a sequence or
map that the class methods reassign.

## Model

| member | source | states |
|---|---|---|
| VideoHelpers.NumToKorean | modules/tarot_video_generator.py:104-117 | The word is never empty, is "영" for n <= 0 and is the decimal digits of n from 100 up. |
| VideoHelpers.KoreanRoundTrip | modules/tarot_video_generator.py:104-117 | Every non-negative number's counter word reads back as that number, so distinct numbers get distinct words. |
| VideoHelpers.KoreanRoundTripTwoDigits | modules/tarot_video_generator.py:111-116 | The two-digit case: tens word plus unit word reads back as the number. |
| VideoHelpers.ParseHex2 | modules/tarot_video_generator.py:85 | Python's `int(x, 16)` on at most two characters yields a value in -15..255 when it parses. |
| VideoHelpers.HexRoundTrip | modules/tarot_video_generator.py:83-85 | Any colour with channels in 0..255, written as "#rrggbb", is parsed back to the same colour. |
| VideoHelpers.HexDefault | modules/tarot_video_generator.py:84 | An empty colour string means "#1a0a2e", which is (26, 10, 46). |
| VideoHelpers.HexBareHash | modules/tarot_video_generator.py:84-85 | "#" strips to the empty string, and `int("", 16)` raises: no colour. |
| VideoHelpers.EaseInOutEnds | modules/tarot_video_generator.py:77-80 | The ease curve maps 0, 0.5 and 1 to themselves. |
| VideoHelpers.EaseInOutSymmetric | modules/tarot_video_generator.py:77-80 | The curve is point-symmetric about (0.5, 0.5). |
| VideoHelpers.EaseInOutMonotone | modules/tarot_video_generator.py:77-80 | On [0, 1] the curve is non-decreasing and stays in [0, 1]. |
| VideoHelpers.EaseOutQuadMonotone | modules/tarot_video_generator.py:1304-1306 | `1 - (1 - p)^2` is non-decreasing on [0, 1], stays in [0, 1] and fixes 0 and 1. |
| VideoHelpers.Trunc | modules/tarot_video_generator.py:1262-1263 | `int()` on a float truncates toward zero: the result lies within 1 of x, on the side toward 0. |
| Highlight.CollectMatches | modules/tarot_video_generator.py:135-146 | Every collected span is an occurrence of a keyword of length >= 2, and every such occurrence is collected. |
| Highlight.SortSpans | modules/tarot_video_generator.py:150 | The spans come out sorted by (start, longest first) and are a permutation of the input. |
| Highlight.MergeSpans | modules/tarot_video_generator.py:151-156 | The merged spans are separated by at least one character and cover exactly the characters the sorted spans cover. Each merged span ends where some input span ends. |
| Highlight.BuildSegments | modules/tarot_video_generator.py:158-171 | The segments spell the line and are non-empty. Plain and highlighted segments alternate, and a character is highlighted exactly when a merged span covers it. |
| Highlight.FlagsAreCover | modules/tarot_video_generator.py:135-171 | Chaining the stages: a character's highlight flag holds exactly when some keyword of length >= 2 occurs over it. |
| Highlight.SplitLineWithHighlights | modules/tarot_video_generator.py:129-171 | The result is [] exactly for the empty line. Otherwise the segments concatenate to the line, none is empty, no two highlighted segments are adjacent, and the highlighted characters are exactly the union of keyword occurrences. |
| Wrap.BreakCut | modules/tarot_video_generator.py:185-188 | With a break character at some index in 1..top, the cut is one past the last such index. Otherwise the cut keeps its default. |
| Wrap.LastBreakCut | modules/tarot_video_generator.py:185-188 | The backwards `for` loop computes `BreakCut`. |
| Wrap.SkipSpaces | modules/tarot_video_generator.py:197-198 | The skip loop stops at the first non-space at or after the cut. |
| Wrap.OrphanCutAsWritten | modules/tarot_video_generator.py:196-198 | The cut as the source computes it, counting `next_space` from `cut` rather than from where the stripped rest begins. |
| Wrap.OrphanCutAsWrittenRereads | modules/tarot_video_generator.py:191-203 | On "ab  cd ef" with 2 characters per line, the as-written cut lands inside "cd" at index 5, so the next line re-reads "d". The corrected cut lands at index 7. |
| Wrap.OrphanCut | modules/tarot_video_generator.py:192-198 | The corrected cut counts from where the stripped rest begins, and lies past the merged word. |
| Wrap.OrphanCutsAgree | modules/tarot_video_generator.py:192-198 | With at most one whitespace character after the cut, the as-written and corrected cuts coincide. |
| Wrap.OrphanCutConsumesWord | modules/tarot_video_generator.py:192-198 | Up to the corrected cut, the text holds exactly the orphan line's characters and the next word's. |
| Wrap.MergeOrphan | modules/tarot_video_generator.py:191-201 | An orphan line of at most two characters takes the next word, or the whole rest. The cut advances, and the merged line is non-empty, stripped and has the orphan shape ("x y…" or "xy y…"). Its characters are those of the text up to the new cut. |
| Wrap.WrapByChars | modules/tarot_video_generator.py:174-204 | With the corrected orphan cut of the Findings row: [] for empty text and [text] when chars_per_line <= 0. Otherwise: at most max_lines lines, each non-empty and stripped. A line longer than chars_per_line only where an orphan was merged. The lines spell a prefix of the text's non-space characters, and all of them when fewer than max_lines lines were produced. |
| Wrap.OrphanStepAsWritten | modules/tarot_video_generator.py:191-201 | The orphan merge as written moves the cut forward and keeps it inside the remainder. |
| Wrap.LineStepAsWritten | modules/tarot_video_generator.py:183-201 | One pass of the loop as written moves the cut at least one character forward and keeps it inside the remainder. |
| Wrap.WrapAsWritten | modules/tarot_video_generator.py:179-204 | The loop as written, orphan cut included: at most max_lines lines. |
| Wrap.WrapAsWrittenDuplicates | modules/tarot_video_generator.py:179-204 | As written, "ab  cd ef" with 2 characters per line wraps to ["ab cd", "d ef"]: the "d" appears on both lines. |
| Wrap.WrapAsWrittenGainsContent | modules/tarot_video_generator.py:179-204 | Those two lines hold 7 non-space characters while the text holds 6, so the as-written wrap breaks the content property `Wrap.WrapByChars` states. |
| Wrap.LongestFittingPrefix | modules/tarot_video_generator.py:245-255 | The binary search returns a length in [1, min(len, 50)] that fits, or 1. For a monotone measure it is the largest length that fits. |
| Wrap.FitCutBounds | modules/tarot_video_generator.py:257-263 | The break search leaves the cut in [1, len] and at most one past `best`. |
| Wrap.WholeFits | modules/tarot_video_generator.py:240-243 | Under a monotone measure, a remainder that fits whole also fits without its last character. |
| Wrap.WrapTextToFit | modules/tarot_video_generator.py:227-266 | [] for empty text and [text] when the width is <= 0. Otherwise: at most max_lines stripped, non-empty lines, every line but the last at most 51 characters, and the lines spell a prefix of the text's non-space characters (all of them below max_lines). Under a monotone measure each line without its last character fits the width. |
| Grid.LayoutValues | modules/tarot_video_generator.py:559-571 | The grid constants worked out, for each layout: cell size, gap and centred origin. The 3×1 and 3×2 flip grids; the 3×3 nine-card grid; the unshrunk 3-card layout; the 3-card viral row. |
| Grid.CellInFrame | modules/tarot_video_generator.py:584-586 | In a block of at most three columns and three rows that fits the frame, every cell, placed at column i mod 3 and row i div 3, lies inside 1080×1920. |
| Grid.CellsApart | modules/tarot_video_generator.py:584-586 | Two different card indices get disjoint cells, separated by the gap. |
| Grid.FrameGridSound | modules/tarot_video_generator.py:810-817 | For 3 cards (3×1, height cut to 70%) and 6 cards (3×2), every card's cell is inside the frame and any two cards' cells are disjoint. |
| Grid.NumberedGridSound | modules/tarot_video_generator.py:551-588 | The numbered layout (3×1 shrunk, 3×2, or 3×3) and the plain layout: every cell is inside the frame and cells are pairwise disjoint. |
| Grid.ViralRowSound | modules/tarot_video_generator.py:754-760 | The three face-down cards of the viral layout lie inside the frame and do not overlap. |
| Grid.BadgeInsideCard | modules/tarot_video_generator.py:646-655 | The number badge, centred horizontally at the top of each card, lies within the card's width and height. |
| Timeline.FrameCount | modules/tarot_video_generator.py:1208 | `max(1, int(30 * seconds))`: at least one frame, and the product truncated, not rounded. |
| Timeline.SectionFrameCounts | modules/tarot_video_generator.py:1534-1561 | The frame counts of the section durations; 0.99 s gives 29 frames, showing truncation. |
| Timeline.ProgressEnds | modules/tarot_video_generator.py:1562-1563 | Frame i of n > 1 gets progress i/(n-1): the first frame 0, the last 1, strictly increasing between them. |
| Timeline.ProgressSingle | modules/tarot_video_generator.py:1563 | A single frame gets progress 1. |
| Timeline.SampleProgress | modules/tarot_video_generator.py:1612-1614 | The frame loop produces one progress value per frame, starting at 0 (n >= 2), ending at 1 and strictly increasing. |
| Timeline.CaptionBlink | modules/tarot_video_generator.py:1556 | The caption shows on frame 0 and toggles every 15 frames, with period 30. |
| Timeline.CommentBlink | modules/tarot_video_generator.py:1666-1669 | The closing comment highlight is on at frame 0 and toggles every 12 frames, with period 24. |
| Timeline.Clamp01 | modules/tarot_video_generator.py:911 | `max(0, min(1, p))` lies in [0, 1] and leaves values inside it unchanged. |
| Timeline.SqueezeBounds | modules/tarot_video_generator.py:923-932 | A drawn card is between 2 pixels and the cell width wide, centred inside its cell, with the face chosen by the phase. |
| Timeline.SqueezeFull | modules/tarot_video_generator.py:923-925 | The card is drawn at full cell width exactly when the scale is 1. |
| Timeline.StaggeredFlipStart | modules/tarot_video_generator.py:908-933 | At progress 0 every card is a full-width back. |
| Timeline.StaggeredFlipEnd | modules/tarot_video_generator.py:908-933 | At progress 1 card i is a full-width front exactly when i <= 5, so all six cards of a 6-card grid are face-up. |
| Timeline.StaggerOrder | modules/tarot_video_generator.py:909-911 | A later card's own progress never exceeds an earlier card's, and a card's progress never decreases as the overall progress grows. |
| Timeline.StaggeredFlipInCell | modules/tarot_video_generator.py:912-933 | Whatever the progress, a drawn card stays within its cell. |
| Timeline.FrontToBackEnds | modules/tarot_video_generator.py:833-849 | The front-to-back flip starts as a full-width front, skips the card at the midpoint, and ends as a full-width back. |
| Timeline.TransitionStart | modules/tarot_video_generator.py:1070-1160 | At progress 0 the outgoing cards show their fronts at full width, numbered from the outgoing offset. The outgoing text is opaque and unshifted, and no incoming text is drawn. |
| Timeline.TransitionEnd | modules/tarot_video_generator.py:1070-1160 | At progress 1 the incoming cards show their fronts at full width with badges 4..6. The incoming text is opaque and unshifted, and the outgoing text is gone. |
| Timeline.CaptionsExclusive | modules/tarot_video_generator.py:1148-1160 | Outgoing and incoming text are never drawn in the same frame. |
| Timeline.CaptionBounds | modules/tarot_video_generator.py:1148-1160 | Outgoing text slides 0..450 px left and incoming text 0..450 px right. Any drawn text has alpha in (0.02, 1]. |
| Timeline.TransitionBadge | modules/tarot_video_generator.py:1100-1104 | A drawn card's number comes from the incoming offset only when the incoming card is shown; otherwise it comes from the outgoing offset. |
| Timeline.FadeChannelBounds | modules/tarot_video_generator.py:1123-1129 | A faded colour channel lies between the text and background channels, and equals each at alpha 1 and 0. |
| Timeline.RowsInFrame | modules/tarot_video_generator.py:974-995 | The three rows of the meaning and transition screens have card heights 523 and 445, follow each other without overlap, and stay inside the frame. |
| Timeline.ShortMeaning | modules/tarot_video_generator.py:992-993 | A meaning of at most 18 characters is kept; a longer one becomes its first 18 characters and "…". |
| Timeline.FlyProgressRange | modules/tarot_video_generator.py:1223-1224 | Once a card has started, its eased flight progress lies in [0, 1]. |
| Timeline.FlyBetween | modules/tarot_video_generator.py:1216-1227 | Every position of a flying card lies between its start and its target, on each axis. |
| Timeline.FlyEnds | modules/tarot_video_generator.py:1217-1221 | At time 0 a card is at its start, and once its slot time has passed it is at its target. |
| Timeline.FlightsComplete | modules/tarot_video_generator.py:1208-1210 | In the fly-to-centre (1.0 s, 0.12 s steps) and fly-to-grid (1.2 s, 0.14 s steps) clips, all six cards have arrived by the last frame. |
| Timeline.SpiralChaosFallsThrough | modules/tarot_video_generator.py:1265-1300 | "spiral_chaos" has no branch of its own and takes the final branch. |
| Timeline.ClampCoord | modules/tarot_video_generator.py:1262-1263 | A clamped coordinate keeps the card inside the frame and leaves an in-frame coordinate unchanged. |
| Timeline.ShuffleInFrame | modules/tarot_video_generator.py:1262-1263 | Whatever the trajectory offset, a shuffled card is drawn entirely inside the frame. |
| Timeline.MusicFits | modules/tarot_video_generator.py:1691-1705 | An offset at or past the track's end resets to 0. A clip that fits is a direct slice of the needed length. Otherwise the tail plus n = int((need - remaining)/duration) + 1 whole repeats: more than needed, and n - 1 repeats would not have been enough. |
| VideoPlan.CardCount | modules/tarot_video_generator.py:1485 | Three cards exactly when the hook override is non-blank after stripping; otherwise NUM_CARDS (6). |
| VideoPlan.EffectivePool | modules/tarot_video_generator.py:1486-1488 | A pool with at least k cards is kept; a smaller one is replaced by the 22 major arcana. |
| VideoPlan.CataloguePoolKept | modules/tarot_video_generator.py:1486-1488 | Every catalogue pool is large enough for either card count, so the fallback never fires, and all its cards are below 78. |
| VideoPlan.PickPermutation | modules/tarot_video_generator.py:1548 | Reordering a list by a permutation of its positions keeps its multiset of elements. |
| VideoPlan.SegmentMeanings | modules/tarot_video_generator.py:1629-1643 | The meanings of a segment are indexed by the same shuffled order as its cards, so each shown card is paired with its own meaning. |
| VideoPlan.DealCards | modules/tarot_video_generator.py:1489-1491 | The dealt cards come from the pool and are distinct when the pool is. The 10-second order and the post-shuffle order are permutations of the dealt cards. Segment 1 is the first min(3, k) shuffled cards, and segment 2 is cards 3..5 when k > 3 and empty otherwise. Every segment card carries its own meaning. |
| VideoPlan.Opening | modules/tarot_video_generator.py:1518-1571 | Empathy mode adds the empathy screen (3.5 s). Otherwise it adds the hook screen and the face-up cards: 5.0 s of clips, but only 4.5 s on the running clock `t`. |
| VideoPlan.Gathering | modules/tarot_video_generator.py:1573-1597 | Gathering, shuffling and moving to the grid add 3.7 s. |
| VideoPlan.Revealing | modules/tarot_video_generator.py:1599-1626 | Face-down, face-up flip and hold add 6.8 s. |
| VideoPlan.Reading | modules/tarot_video_generator.py:1628-1661 | Three cards: segment 1 for 4.0 s. Six cards: segment 1, the transition and segment 2, for 8.2 s. |
| VideoPlan.CloseVideo | modules/tarot_video_generator.py:1663-1672 | The closing clip adds 4.0 s and is the last section. |
| VideoPlan.ShapeOf | modules/tarot_video_generator.py:1518-1672 | The video starts with the empathy or hook screen and ends with the closing. The face-up cards, the transition and segment 2 appear exactly in 6-card mode. |
| VideoPlan.PlanClips | modules/tarot_video_generator.py:1514-1672 | The clips have that shape. Their total length is 22.0 s (empathy) or 27.7 s (six cards), while `t` ends at 18.0 or 23.2. |
| VideoPlan.PlanVideo | modules/tarot_video_generator.py:1485-1705 | The whole plan: the card count, the dealt cards and segments, the clip shape and timing, and music fitted to the total clip length, or none when there is no track. |
| TarotMeanings.CardKeys | modules/tarot_meanings.py:15-99 | The card table has exactly the keys 0..77. |
| TarotMeanings.GetCardInfo | modules/tarot_meanings.py:135-137 | The table entry for 0..77, and {"?", "?"} for any other index. |
| TarotMeanings.Span | modules/tarot_meanings.py:106-132 | `list(range(lo, hi))`: hi - lo consecutive numbers starting at lo. |
| TarotMeanings.MinorPoolChoice | modules/tarot_meanings.py:104-111 | Minor pools: 건강운 → Wands 22..35, 애정운 → Cups 36..49, 금전운 → Pentacles 64..77, 의사결정 → Swords 50..63; any other type → Wands. |
| TarotMeanings.MajorPoolChoice | modules/tarot_meanings.py:112-132 | Non-minor pools: 애정운, 금전운 and 건강운 get their suit ranges; every other type, listed or not, gets the 22 major arcana. |
| TarotMeanings.PoolValues | modules/tarot_meanings.py:105-131 | Every table entry is one of the four suit ranges or the major arcana. |
| TarotMeanings.PoolShape | modules/tarot_meanings.py:102-132 | Every pool is a contiguous, duplicate-free range of 14 or 22 numbers inside 0..77, so at least 6 cards. |
| ShuffleStyles.StylesWellFormed | modules/shuffle_styles.py:18-23 | The four styles have distinct ids, and each style's card movement equals its id. |
| ShuffleStyles.FindById | modules/shuffle_styles.py:31-36 | None exactly when no style has the id; otherwise the first style with that id. |
| ShuffleStyles.LookupById | modules/shuffle_styles.py:31-36 | Lookup succeeds exactly for the four ids, and each style is found by its own id. |
| ShuffleStyles.PickRandomShuffle | modules/shuffle_styles.py:26-28 | The chosen style is one of the four. |
| ShuffleStyles.StylesSelectDistinctBranches | modules/shuffle_styles.py:18-23 | The four styles' movements select four different branches of the shuffle frame. |
| FilePaths.Suffix | modules/tarot_deck.py:41 | `Path.suffix`: empty, or a dot followed by at least one character and no further dot. |
| FilePaths.Stem | modules/tarot_deck.py:42 | `Path.stem`: the name with its suffix removed, so stem + suffix is the name. |
| FilePaths.SplitWritten | modules/tarot_deck.py:41-42 | A name written as a dotless base plus an extension has that extension as its suffix and that base as its stem. |
| TarotDeck.LeadingDigits | modules/tarot_deck.py:47-51 | The longest run of digits at the start of the string: it is a prefix, all digits, and is followed by a non-digit or the end. |
| TarotDeck.SortKey | modules/tarot_deck.py:44-52 | The character loop computes `KeyOf`: the value of the first maximal run of digits in the stem, or 999. |
| TarotDeck.KeyOfPadded | modules/tarot_deck.py:44-52 | A stem that starts with a two-digit index followed by a non-digit ("00_fool", "07") has that index as its key. |
| TarotDeck.KeyOfNoDigits | modules/tarot_deck.py:52 | A stem without digits has key 999. |
| TarotDeck.CardFiles | modules/tarot_deck.py:41-42 | The card files are exactly the folder's regular files with a .png, .jpg or .jpeg suffix (any case) whose stem is not "back" (any case). |
| TarotDeck.BackIsNotCard | modules/tarot_deck.py:42 | back.png is never a card file. |
| TarotDeck.SortSpec | modules/tarot_deck.py:53 | The insertion sort yields a permutation of its input in non-decreasing key order. |
| TarotDeck.SortByKeySpec | modules/tarot_deck.py:53 | `cards.sort(key=sort_key)`: a permutation of the cards in non-decreasing key order. |
| TarotDeck.SortDistinct | modules/tarot_deck.py:53 | With distinct keys the sorted keys strictly increase. |
| TarotDeck.GetCardPath | modules/tarot_deck.py:37-56 | None exactly when the deck folder is missing or the index is outside [0, number of card files). |
| TarotDeck.CardPathIsCardFile | modules/tarot_deck.py:41-55 | Any returned name is the name of one of the folder's card files. |
| TarotDeck.NumberedDeckLookup | modules/tarot_deck.py:41-56 | In a folder whose card files carry the keys 0..n-1, each once, card i is the file with key i, whatever order the folder lists them in. Outside 0..n-1 the result is None. |
| TarotDeck.SortedNumbering | modules/tarot_deck.py:53 | After sorting card files numbered 0..n-1, position i holds the file numbered i. |
| TarotDeck.NumberedFolderLookup | modules/tarot_deck.py:37-56 | A folder holding files numbered 0..n-1 plus non-card files (such as back.png) returns the i-th numbered file for i in range, and None otherwise. |
| TarotDeck.NotBack | modules/tarot_deck.py:17 | Keeps exactly the names whose stem is not exactly "back". |
| TarotDeck.GetAvailableDecks | modules/tarot_deck.py:11-20 | The loop keeps, in listing order, the usable folders: `deck_*` directories with at least 78 non-back .png/.jpg images and a back.png. |
| TarotDeck.UsableNamesMembers | modules/tarot_deck.py:11-20 | A name is available exactly when some listed folder with that name is usable. |
| TarotDeck.PickRandomDeck | modules/tarot_deck.py:23-26 | None exactly when no folder is usable; otherwise the name of a usable folder. |
| TarotDeck.GetRandomDeckPath | modules/tarot_deck.py:29-34 | None exactly when no folder is usable; otherwise the tarot directory joined with a usable folder's name. |
| DeckDownload.MinorIndexBijection | scripts/download_tarot_decks.py:87-99 | Suit s and rank r get index 22 + 14s + r. Over 4 suits and 14 ranks this is one-to-one onto 22..77, and every index there comes from one pair. |
| DeckDownload.SuitOrderMatchesTable | scripts/download_tarot_decks.py:33-34 | The suit order wands, cups, swords, pentacles gives the same indices as the card table's Wands, Cups, Swords and Pentacles ranges. |
| DeckDownload.MajorNaming | scripts/download_tarot_decks.py:78-80 | Major card i is fetched from `<archive>/<name>.png` and saved as `{i:02d}_<name without "major_arcana_">.png`. |
| DeckDownload.MinorNaming | scripts/download_tarot_decks.py:87-92 | Minor card (suit, rank) is fetched from `<archive>/minor_arcana_<suit>_<rank>.png` and saved as `{idx:02d}_<suit>_<rank>.png`, with idx < 78. |
| DeckDownload.SavedNameKey | scripts/download_tarot_decks.py:80-92 | Every saved name's digit-prefix key is its index. |
| DeckDownload.DownloadRiderWaite | scripts/download_tarot_decks.py:74-100 | The files saved are those whose fetch succeeded, in index order. The returned count equals their number and is at most 78. |
| DeckDownload.DownloadMajors | scripts/download_tarot_decks.py:78-86 | The major-card loop saves the successful fetches among indices 0..21 and counts them. |
| DeckDownload.DownloadSuit | scripts/download_tarot_decks.py:89-99 | One suit's loop advances the index by 14 and adds that suit's successful fetches. |
| DeckDownload.SavedAll | scripts/download_tarot_decks.py:74-100 | When every fetch succeeds, the saved list is exactly the 78 names in index order. |
| DeckDownload.SavedNameIsCard | scripts/download_tarot_decks.py:80-92 | Every saved name is a card file for the deck reader, and its key is its index. |
| DeckDownload.RiderWaiteReadBack | scripts/download_tarot_decks.py:74-100 | A fully downloaded Rider-Waite folder with its back.png, read by the deck reader, yields for card i the name saved for index i, and None outside 0..77. |
| DeckDownload.GetNextDeckToDownload | scripts/download_tarot_decks.py:133-145 | None exactly when every deck is finished, where finished means the folder exists, has at least 78 non-back images and a back.png. Otherwise the first unfinished deck in list order. |
| DeckDownload.GetAvailableDeckIds | scripts/download_tarot_decks.py:148-158 | The ids, in list order, of the decks whose folder exists with at least 78 non-back images. |
| DeckDownload.OfferedIdsMembers | scripts/download_tarot_decks.py:148-158 | An id is offered exactly when its deck's folder passes that test. |
| DeckDownload.OfferedIgnoresBack | scripts/download_tarot_decks.py:148-158 | Every finished deck is offered, but an offered deck without back.png is not usable by modules/tarot_deck.py:18. |
| DeckDownload.PickRandomDeckId | scripts/download_tarot_decks.py:161-164 | None exactly when no deck is offered; otherwise an offered deck's id. |
| DeckDownload.IndexOf | scripts/download_tarot_decks.py:184 | `DECKS.index(deck)`: the position of the deck in the list. |
| DeckDownload.BackColors | scripts/download_tarot_decks.py:52-53 | The back's red channel is min(255, 30 + 15 × position), which is at most 90, so different decks get different back colours. |
| ZipDeck.ImageNames | scripts/download_tarot_decks.py:113 | Keeps exactly the member names ending in .jpg, .jpeg or .png, in any case. |
| ZipDeck.LexTotal | scripts/download_tarot_decks.py:114 | Python's string order is total. |
| ZipDeck.LexAntisymmetric | scripts/download_tarot_decks.py:114 | Python's string order is antisymmetric. |
| ZipDeck.LexTransitive | scripts/download_tarot_decks.py:114 | Python's string order is transitive. |
| ZipDeck.SortNamesSpec | scripts/download_tarot_decks.py:114 | Sorting yields a permutation of the names in Python string order. |
| ZipDeck.SortedUnique | scripts/download_tarot_decks.py:114 | Two sorted lists with the same elements are equal, so `list.sort` has one result. |
| ZipDeck.SortNamesIsTheSort | scripts/download_tarot_decks.py:114 | Any sorted permutation of the names is the model's sort. |
| ZipDeck.ExtOfImage | scripts/download_tarot_decks.py:121 | An image member's saved extension is its own lower-cased .jpg, .jpeg or .png. |
| ZipDeck.DownloadZipDeck | scripts/download_tarot_decks.py:103-130 | A failed download returns 0 and saves nothing. Otherwise the sorted image names are taken, and of the first min(78, count) those whose write succeeds are saved under their position. The count is the number saved, at most 78. |
| ZipDeck.ZipAllWritten | scripts/download_tarot_decks.py:118-128 | When every write succeeds, entry i saved is member i of the sorted list. |
| ZipDeck.ZipSavedIsCard | scripts/download_tarot_decks.py:121-122 | `{i:02d}{ext}` is a card file for the deck reader with key i. |
| ZipDeck.ZipDeckReadBack | scripts/download_tarot_decks.py:103-130 | A fully written zip deck with its back.png, read by the deck reader, yields for card i the file `{i:02d}` plus the extension of the i-th sorted image name, and None outside the saved range. |
| Config.SectionTime | modules/tarot_video_generator.py:1574 | `times.get(key, default)`: the table value when the key is present, else the default. |
| Config.SectionTimeValues | config.py:74-87 | The twelve section durations of the table. |
| Config.SectionTimesPositive | config.py:74-87 | Every section duration is positive. |
| Config.GetKoreanFont | config.py:110-126 | An explicit font path that exists and loads wins. Otherwise the first fallback, in list order, that exists and loads. None, standing for the FileNotFoundError, exactly when no candidate succeeds. |
| Config.Candidates | config.py:132-133 | The candidates are exactly the regular files whose names end in one of the listed extensions. |
| Config.PickRandomFile | config.py:129-150 | The random font, background and music helpers: None exactly when no file has a listed extension; otherwise one of those files. |
| ThemePhrasesDb.FindTheme | modules/theme_phrases_db.py:193 | `SELECT id FROM theme WHERE name = ?`: None exactly when no theme has the name; otherwise the id of a theme with that name. |
| ThemePhrasesDb.NewPhrases | modules/theme_phrases_db.py:186-189 | The phrase rows of a new theme get consecutive ids, its theme id and the seed texts in order. |
| ThemePhrasesDb.InsertHooksSpec | modules/theme_phrases_db.py:214-217 | Inserting titles keeps every existing row and the other tables. It appends unused rows carrying seed titles, with increasing fresh ids. |
| ThemePhrasesDb.InsertHooksTexts | modules/theme_phrases_db.py:215-216 | One appended row per title, in order, after the old rows. |
| ThemePhrasesDb.AddMissingSpec | modules/theme_phrases_db.py:219-222 | On a non-empty table, rows are appended only for titles whose exact text was absent, and afterwards every title is present. |
| ThemePhrasesDb.AddMissingNone | modules/theme_phrases_db.py:219-222 | When every title is already present, nothing is inserted. |
| ThemePhrasesDb.SeedHooksSpec | modules/theme_phrases_db.py:212-223 | An empty hook table receives every title, in order, unused. Otherwise only absent titles are added. Either way the old rows stay and every seed title is present. |
| ThemePhrasesDb.SeedHooksIdempotent | modules/theme_phrases_db.py:212-223 | Hook seeding twice equals seeding once, so a repeated init creates no duplicate seed title. |
| ThemePhrasesDb.SyncedThemeRows | modules/theme_phrases_db.py:199-210 | For an existing theme, its i-th stored phrase in id order takes seed text i when both exist. Extra seed texts are not inserted, and extra stored phrases keep their text. |
| ThemePhrasesDb.SyncedKeeps | modules/theme_phrases_db.py:205-210 | The sync changes only texts of the theme's own rows: ids, theme ids and other themes' rows stay. |
| ThemePhrasesDb.SyncedNone | modules/theme_phrases_db.py:205-210 | A theme without seed texts is left unchanged. |
| ThemePhrasesDb.SyncStep | modules/theme_phrases_db.py:205-210 | One turn of the sync loop: row i is updated exactly when it exists and its text differs from seed text i. |
| ThemePhrasesDb.NewThemePhrases | modules/theme_phrases_db.py:194-198 | A seed theme whose name is new gets the next theme id and exactly its seed texts. |
| ThemePhrasesDb.SyncStepPhrases | modules/theme_phrases_db.py:199-210 | An existing seed theme keeps its id, and its phrase list becomes the stored list with its first texts replaced by the seed's. |
| ThemePhrasesDb.StepFrame | modules/theme_phrases_db.py:192-210 | Seeding one theme leaves what every other name finds and lists unchanged. |
| ThemePhrasesDb.SeedEachPhrases | modules/theme_phrases_db.py:192-210 | With distinct seed names, each seed theme ends up with its seed texts if it was new, or its synced list otherwise. |
| ThemePhrasesDb.InsertAllIsSeedEach | modules/theme_phrases_db.py:184-210 | When no seed name is stored, the empty-table branch and the theme-by-theme branch produce the same tables. |
| ThemePhrasesDb.InitWellFormed | modules/theme_phrases_db.py:154-225 | init_db keeps every table's ids increasing and below the next id, and every phrase's theme id assigned. |
| ThemePhrasesDb.InitHasSeedThemes | modules/theme_phrases_db.py:183-211 | After init_db the old themes are still there, in front, and every seed theme is present. |
| ThemePhrasesDb.InitHasHooks | modules/theme_phrases_db.py:212-223 | After init_db every seed hook title is present. |
| ThemePhrasesDb.InitPhrases | modules/theme_phrases_db.py:154-238 | get_phrases after init_db, for a seed theme: its seed texts when it was not stored before, otherwise its synced stored list. |
| ThemePhrasesDb.SeedNames | modules/theme_phrases_db.py:19-145 | The seed themes are the five THEME_DB_NAMES, in order, and so are distinct. |
| ThemePhrasesDb.FreshPhrases | modules/theme_phrases_db.py:184-190 | On a new database, get_phrases of a seed theme returns exactly its seed texts. |
| ThemePhrasesDb.ThemeNameOf | modules/theme_phrases_db.py:274 | The join of a phrase with its theme yields the name of the theme carrying its id, or None when there is none. |
| ThemePhrasesDb.ViralPickOk | modules/theme_phrases_db.py:270-283 | A viral pick belongs to one of the four viral themes, never "테스트", and is not in the used set. |
| ThemePhrasesDb.MarkViralSpec | modules/theme_phrases_db.py:289-300 | Marking takes exactly that phrase out of the viral candidates. Marking twice equals marking once, with the later time. The tables stay well formed. |
| ThemePhrasesDb.SetUsedSpec | modules/theme_phrases_db.py:340-343 | Setting used_at on one id removes exactly that id from the unused ones. Setting it twice equals once, and ids and texts are unchanged. |
| ThemePhrasesDb.ClearUsedSpec | modules/theme_phrases_db.py:319 | Clearing makes every title unused, keeping ids and texts. |
| ThemePhrasesDb.PhraseStore.constructor | modules/theme_phrases_db.py:24 | A database file that does not exist yet: empty tables and the source's seed data. |
| ThemePhrasesDb.PhraseStore.InsertTheme | modules/theme_phrases_db.py:186-189 | One theme insert and its phrase inserts. |
| ThemePhrasesDb.PhraseStore.SyncTheme | modules/theme_phrases_db.py:201-210 | The sync loop for one existing theme. |
| ThemePhrasesDb.PhraseStore.SeedThemeTables | modules/theme_phrases_db.py:183-211 | The theme part of init_db, which keeps the tables well formed. |
| ThemePhrasesDb.PhraseStore.InsertThemes | modules/theme_phrases_db.py:184-190 | An empty theme table receives every seed theme. |
| ThemePhrasesDb.PhraseStore.SeedEachTheme | modules/theme_phrases_db.py:191-211 | A non-empty theme table inserts each new seed theme and syncs the others. |
| ThemePhrasesDb.PhraseStore.SeedHookTitles | modules/theme_phrases_db.py:212-223 | The hook part of init_db. |
| ThemePhrasesDb.PhraseStore.InitDb | modules/theme_phrases_db.py:154-225 | init_db: the themes seeded or synced, then the hook titles seeded, keeping the tables well formed. |
| ThemePhrasesDb.PhraseStore.GetPhrases | modules/theme_phrases_db.py:228-240 | After init_db: the texts of the named theme's phrases in id order, or [] for an unknown name. |
| ThemePhrasesDb.PhraseStore.GetRandomPhrase | modules/theme_phrases_db.py:243-246 | One of the theme's phrases, or "" when it has none. |
| ThemePhrasesDb.PhraseStore.ListThemeNames | modules/theme_phrases_db.py:249-257 | The theme names in id order, with every seed theme among them. |
| ThemePhrasesDb.PhraseStore.GetRandomUnusedViralPhrase | modules/theme_phrases_db.py:260-286 | None exactly when no phrase of a viral theme is unused. Otherwise such a phrase, never of "테스트", with the tables otherwise unchanged after init_db. |
| ThemePhrasesDb.PhraseStore.MarkViralPhraseUsed | modules/theme_phrases_db.py:289-300 | After init_db, the upsert into the used table. |
| ThemePhrasesDb.PhraseStore.GetRandomUnusedHookTitle | modules/theme_phrases_db.py:303-330 | Some unused title when one exists, with the table unchanged. Otherwise every used_at is cleared and any title is returned. An empty table yields (HOOK_TITLES[0], 0). |
| ThemePhrasesDb.PhraseStore.MarkHookTitleUsed | modules/theme_phrases_db.py:333-346 | An id <= 0 changes nothing, without even running init_db. Otherwise, after init_db, used_at is set on that row only. |
| ThemePhrasesDb.PhraseStore.AddHookTitle | modules/theme_phrases_db.py:349-359 | Empty or whitespace-only text changes nothing. Otherwise, after init_db, the stripped text is appended as a new unused row. |
| ThumbnailPhrases.PhraseCounts | modules/tarot_thumbnail_phrases.py:9-58 | 21 curious phrases and 20 calls to action, so the rotation has 41 phrases. |
| ThumbnailPhrases.StartIndex | modules/tarot_thumbnail_phrases.py:69-75 | The position a call uses is always an index into the 41 phrases. |
| ThumbnailPhrases.IterateIndex | modules/tarot_thumbnail_phrases.py:66-80 | After n calls the stored position has advanced by n, modulo 41. |
| ThumbnailPhrases.Period | modules/tarot_thumbnail_phrases.py:66-80 | The next position comes back exactly when the number of calls is a multiple of 41. From a missing or unreadable index file, the j-th call uses phrase j mod 41. |
| ThumbnailPhrases.PhraseRotation.constructor | modules/tarot_thumbnail_phrases.py:61-63 | The rotation over whatever index file is present. |
| ThumbnailPhrases.PhraseRotation.GetNext | modules/tarot_thumbnail_phrases.py:66-80 | Returns the phrase at the stored index (0 if the file is missing or unreadable) modulo 41, and stores the next index. |
| ThumbnailPhrases.LStripQuotes | modules/tarot_thumbnail_phrases.py:145 | After left-stripping, the text does not start with a quote character. |
| ThumbnailPhrases.RStripQuotes | modules/tarot_thumbnail_phrases.py:145 | After right-stripping, the text does not end with a quote character. |
| ThumbnailPhrases.BreakAt14 | modules/tarot_thumbnail_phrases.py:150-152 | A line longer than 14 characters gets one '\n' at index 14, and removing it gives the line back. Shorter lines stay unchanged. |
| ThumbnailPhrases.AcceptedHookSpec | modules/tarot_thumbnail_phrases.py:100-155 | A hook is accepted exactly when the key is usable and present, the call answered, and the cleaned text has at least 5 characters. A text with a line break, or of at most 14 characters, is returned as is. Otherwise it is broken after the 14th character. |
| ThumbnailPhrases.GetMorningHook | modules/tarot_thumbnail_phrases.py:93-163 | The accepted hook when there is one, otherwise one of the five morning defaults. |
| Metadata.DateText | modules/metadata_generator.py:55-56 | Today's date as "MM월 DD일": at least six characters, ending in '일'. |
| Metadata.FallbackTitles | modules/metadata_generator.py:80-84 | Three fallback titles. Each has the date right after its emoji and a space, and the fortune type after the date. |
| Metadata.GenerateTitles | modules/metadata_generator.py:41-105 | The model's "titles" field when the call answered with one. The three fallback titles when there is no client or key, the call failed, or the field is missing. |
| Metadata.FortuneText | modules/metadata_generator.py:222-264 | The model's "fortune" field when present. "<type>: 좋은 일이 생길 거예요!" when the answer lacks it. "<type>: 행운이 함께해요!" with no client or on failure. |
| Metadata.ShownKeywords | modules/metadata_generator.py:127-141 | The five defaults when no keywords are given, otherwise the first min(5, n) keywords in order. |
| Metadata.DescriptionKeywords | modules/metadata_generator.py:130-141 | The keyword line, joined by ", ", sits in the description right after the fixed heading. |
| Metadata.DefaultKeywordLine | modules/metadata_generator.py:127-141 | Without keywords the line is "행운, 성공, 기회, 만남, 돈". |
| Metadata.TypeTags | modules/metadata_generator.py:192-213 | A fortune type other than the four named ones contributes no tags. |
| Metadata.Dedup | modules/metadata_generator.py:217 | dict.fromkeys: the result has no repeats, has exactly the elements of the input, and is no longer than it. |
| Metadata.PyTake | modules/metadata_generator.py:217 | Python's `[:count]`: a prefix of length min(count, n), or n + count (at least 0) for a negative count. |
| Metadata.DedupIsFirstOccurrences | modules/metadata_generator.py:217 | Dedup keeps each element at its first occurrence, in input order, matching an independent definition. |
| Metadata.DedupPrefix | modules/metadata_generator.py:211-217 | Deduplicating a longer list starts with the deduplicated prefix. |
| Metadata.DedupDistinct | modules/metadata_generator.py:217 | A list without repeats is left unchanged. |
| Metadata.BaseTagsDistinct | modules/metadata_generator.py:188-190 | The five base tags are distinct. |
| Metadata.TakeDedupSpec | modules/metadata_generator.py:211-217 | Deduplicating then taking count yields distinct tags, all from the input, at most count of them. A count at least the input's length keeps every tag. The distinct leading part is kept first. |
| Metadata.HashtagsSpec | modules/metadata_generator.py:177-219 | generate_hashtags holds distinct tags drawn from base, type, date and general tags, at most count of them, starting with the first min(count, 5) base tags. A large enough count keeps every tag. |
| Metadata.UnknownTypeHashtags | modules/metadata_generator.py:213 | An unknown fortune type gives the tags of base, date and general tags only. |
| CommentReplies.DigitRun | modules/comment_responder.py:56 | The digit run starting at i stays within the text. |
| CommentReplies.DigitRunSpec | modules/comment_responder.py:56 | The run is maximal: every character in it is a digit, and the next one, if any, is not. |
| CommentReplies.SkipSpaces | modules/comment_responder.py:56 | `\s*` ends inside the text. |
| CommentReplies.SkipSpacesSpec | modules/comment_responder.py:56 | `\s*` is greedy: it stops at the first non-space character. |
| CommentReplies.MonthPart | modules/comment_responder.py:56 | The `(?P<month>\d{1,2})\s*월\s*/` part: 1 or 2 digits, inside the text. |
| CommentReplies.MatchAt | modules/comment_responder.py:55-58 | A match at a position has 2 to 4 year digits and 1 or 2 month digits. |
| CommentReplies.FirstMatch | modules/comment_responder.py:65 | `search`: -1 when no position matches, otherwise a matching position with no match before it. |
| CommentReplies.AdjustYear | modules/comment_responder.py:69-72 | Two-digit years above 30 become 19xx. Years up to 30 become 20xx. Years of 100 or more stay unchanged. |
| CommentReplies.ParseComment | modules/comment_responder.py:61-78 | A parse result has a month in 1..12 and comes from a non-empty text that contains a match; `CommentReplies.ParseLaidOut` and `CommentReplies.ParseWritten` state which result. |
| CommentReplies.NoEarlierMatch | modules/comment_responder.py:65 | No match can start inside a digit-free prefix. |
| CommentReplies.AfterYear | modules/comment_responder.py:56 | The part of the pattern after `년`: a result captures the given year digits and 1 or 2 month digits. |
| CommentReplies.MatchLaidOut | modules/comment_responder.py:55-58 | When 2 to 4 digits, `년`, `/`, 1 or 2 digits, `월`, `/` and `운세` lie at given positions with only whitespace between them, the pattern matches at the first digit and captures the two digit runs. |
| CommentReplies.ParseLaidOut | modules/comment_responder.py:61-78 | For such a layout with no match starting before it, the comment parses to the adjusted year and the month when the month is in 1..12, and to None otherwise. |
| CommentReplies.NumberNotYear | modules/comment_responder.py:56 | A run of digits followed by whitespace and a character other than `년` starts no match. |
| CommentReplies.WrittenLaidOut | modules/comment_responder.py:56 | "<year>년/<month>월/운세" with any whitespace runs between its tokens, placed after any text, has its tokens laid out as the pattern reads them. |
| CommentReplies.WrittenCaptures | modules/comment_responder.py:56 | There the two digit runs are the year and month digits that were written. |
| CommentReplies.ParseWritten | modules/comment_responder.py:61-78 | A comment holding "<year>년/<month>월/운세", with any whitespace between the tokens, after a text in which no match starts, parses to the adjusted year and the month when the month is in 1..12, and to None otherwise, whatever follows. |
| CommentReplies.ParseWrittenAfterText | modules/comment_responder.py:61-78 | The same after a text without digits. |
| CommentReplies.ParseSpacedExample | modules/comment_responder.py:61-78 | "나는 95 년 / 2월/운세 부탁해요" parses to February 1995. |
| CommentReplies.ParseAfterNumberExample | modules/comment_responder.py:61-78 | "2024 95년/2월/운세" parses to February 1995: the number in front starts no match. |
| CommentReplies.Mark | modules/comment_responder.py:43-51 | INSERT OR IGNORE: the id is added with its entry when new. An existing entry and every other row stay unchanged. |
| CommentReplies.MarkIdempotent | modules/comment_responder.py:47 | Marking twice is marking once; the first entry wins. |
| CommentReplies.ReplyLog.constructor | modules/comment_responder.py:17-31 | A new, empty reply table. |
| CommentReplies.ReplyLog.MarkReplied | modules/comment_responder.py:43-51 | _mark_replied updates the table as Mark does; afterwards _has_replied holds for the id. |
| CommentReplies.Candidates | modules/comment_responder.py:194-202 | The candidates are at most the comments, and each has an id not yet replied to and a text that parses. |
| CommentReplies.CandidatesMembers | modules/comment_responder.py:194-202 | A comment is a candidate exactly when it is among the comments and passes both tests. |
| CommentReplies.CandidatesStep | modules/comment_responder.py:194-202 | One turn of the candidate loop. |
| CommentReplies.CollectCandidates | modules/comment_responder.py:193-202 | The loop keeps exactly the candidate comments, in order, each with its parsed year and month and one of the three fortune types. |
| CommentReplies.SampleStep | modules/comment_responder.py:209 | Moving one element from the rest to the chosen list keeps chosen plus rest a permutation of the pool. |
| CommentReplies.RemoveKeeps | modules/comment_responder.py:209 | Removing an element keeps the rest drawn from the pool. |
| CommentReplies.Sample | modules/comment_responder.py:209 | random.sample: k elements drawn from the pool without replacement, as a sub-multiset. |
| CommentReplies.MarkAllSpec | modules/comment_responder.py:211-224 | After the reply loop, exactly the posted candidates are added to the table with this video and time, and older rows are kept. |
| CommentReplies.PostReplies | modules/comment_responder.py:211-224 | The reply loop: a reply that posts is marked, a failure is skipped. |
| CommentReplies.ReplyToComments | modules/comment_responder.py:183-224 | Nothing happens without candidates. A negative max_replies when sampling is needed raises, changing nothing. Otherwise every candidate is chosen when there are at most max_replies, else exactly max_replies of them. The table gains exactly the posted ones. |
| Thumbnails.Lines | modules/thumbnail_creator.py:35-43 | The title becomes one or two lines. |
| Thumbnails.ShortTitle | modules/thumbnail_creator.py:35-43 | A title of at most 25 characters is one unchanged line. |
| Thumbnails.LongTitle | modules/thumbnail_creator.py:36-41 | A longer title is split at half its words. The two lines split back into those halves, which rejoin to the title's words. |
| Thumbnails.HalvesRejoin | modules/thumbnail_creator.py:38-40 | Joining each half of a word list with spaces and splitting it again returns that half. |
| Thumbnails.LongSingleWord | modules/thumbnail_creator.py:36-41 | A long title without spaces gives an empty first line and the whole title as the second. |
| Thumbnails.DrawLine | modules/thumbnail_creator.py:50-71 | A line is centred with floor division. The rectangle extends 20 pixels around the text box, and the shadow is offset by 3 pixels. |
| Thumbnails.LayoutSpec | modules/thumbnail_creator.py:45-76 | The first line's top is height - 200. Each next top adds the previous line's height plus 10. |
| Thumbnails.AddTextOverlay | modules/thumbnail_creator.py:14-78 | The drawing loop produces exactly the layout of the title's lines from height - 200. |
| Thumbnails.FrameAt | modules/thumbnail_creator.py:101-104 | int(total * p): the truncated frame index, within a tenth of the exact position. |
| Thumbnails.ReadPositions | modules/thumbnail_creator.py:101-111 | The kept positions are in increasing order, and each names a frame that was read. |
| Thumbnails.ReadPositionsComplete | modules/thumbnail_creator.py:106-111 | Every position whose frame was read is kept. |
| Thumbnails.Paths | modules/thumbnail_creator.py:120-122 | The i-th position is saved as thumb_{i+1}.jpg in the directory. |
| Thumbnails.GenerateThumbnails | modules/thumbnail_creator.py:81-127 | The returned paths name exactly the saved frames, in order. |
| Thumbnails.ThumbnailsSpec | modules/thumbnail_creator.py:81-127 | At most three thumbnails, with positions in increasing order. Position i is saved exactly when its frame was read. |
| Text.LStrip | modules/tarot_thumbnail_phrases.py:144 | str.lstrip(): never longer, and starts with no whitespace. |
| Text.LStripIsSuffix | modules/tarot_thumbnail_phrases.py:144 | lstrip removes only a prefix. |
| Text.RStrip | modules/tarot_thumbnail_phrases.py:144 | str.rstrip(): never longer, and ends with no whitespace. |
| Text.RStripIsPrefix | modules/tarot_thumbnail_phrases.py:144 | rstrip removes only a suffix. |
| Text.Strip | modules/theme_phrases_db.py:351-356 | str.strip(): the result has no whitespace at either end. |
| Text.StripKeepsNonWs | modules/theme_phrases_db.py:356 | Stripping removes whitespace only. |
| Text.Find | modules/tarot_video_generator.py:193 | str.find(sub, start): -1 exactly when there is no occurrence from start on, otherwise the first one. |
| Text.Split | modules/thumbnail_creator.py:36 | str.split() yields non-empty words without whitespace. |
| Text.SplitJoin | modules/thumbnail_creator.py:36-39 | Joining words with single spaces and splitting again gives the words back. |
| Text.SplitKeepsNonWs | modules/thumbnail_creator.py:36 | str.split() drops exactly the whitespace. |
| Text.NatToStringValue | modules/tarot_video_generator.py:104-117 | str(n) reads back as n. |
| Text.Pad2Value | scripts/download_tarot_decks.py:80 | `{i:02d}` reads back as i. |

## Left out

- Pixels are not modelled: image decoding, resizing, drawing, MoviePy clip composition and video encoding. Only the numbers that decide them are: sizes, positions, colours, durations and the order of sections.
- The sparkle overlay and the trigonometric parts of the shuffle trajectories need sine and cosine on floats. The shuffle is modelled only through its clamping to the frame (`Timeline.ClampCoord`) and its phase boundaries (`Timeline.SpiralChaosFallsThrough`).
- `_detect_music_highlight_start` is out: it analyses audio samples, so its result (the music offset) is an input to `VideoPlan.PlanVideo`. `prepend_thumbnail_to_video` is out too: it only concatenates clips again.
- Floating-point arithmetic is written in exact reals. Python's `int()` truncation is written out (`VideoHelpers.Trunc`, `Thumbnails.FrameAt`). The frame positions 0.1, 0.5 and 0.9 become exact tenths.
- Calls to the OpenAI API become parameters carrying their outcome. The prompts, model names and temperatures are left out. The same goes for the API-key globals of `_get_client`.
- YouTube API calls and OAuth are out. The comments of a video are an input, and whether posting a reply succeeded is the `posted` parameter. The reply text from `generate_personal_fortune`, and `get_latest_fortune_video_id` / `_list_recent_top_level_comments`, are not part of this model.
- SQLite tables are sequences or maps held by a class. Only the statements the code executes are modelled. The UNIQUE constraint on theme names is not, because init_db never inserts a name it has found.
- Timestamps and today's date come from the clock in the program; here they are parameters (`now`, `Metadata.Today`).
- The index file of the thumbnail rotation is an `IndexFile` value: missing, unreadable, or holding an index. JSON parsing is left out.
- CommentReplies.MatchAt: `\d` is taken as the ASCII digits 0-9, and `\s` as the whitespace listed in `Text.IsSpace`. Python's Unicode digits other than ASCII are not modelled.
- TarotDeck.CardFiles: the suffix and stem tests lower-case ASCII letters only. Python's `.lower()` (modules/tarot_deck.py:41-42) folds other characters too, for instance the Kelvin sign U+212A to "k".
- TarotDeck.SortKey: `str.isdigit` is taken as the ASCII digits 0-9. Python also accepts other Unicode digits, and for digits such as "²" that `int()` does not read, `int(num)` raises ValueError; neither is modelled.
- ZipDeck.ExtOfImage: lower-casing covers ASCII letters only.
- ZipDeck.DownloadZipDeck: a downloaded payload that is not a zip archive makes `zipfile.ZipFile` raise BadZipFile (scripts/download_tarot_decks.py:112), which the code does not catch. The model has no such case: the archive is either a failed download or a list of member names.
- Wrap.WrapByChars: uses the corrected orphan cut of the Findings row, so it does not re-read characters as the code does. The code as written is the function `Wrap.WrapAsWritten`, stated as a recursion over the remainder rather than a loop; `Wrap.WrapAsWrittenDuplicates` and `Wrap.WrapAsWrittenGainsContent` show where the two differ.
- The width measure of a text line and a font's bounding box are function parameters. Font files are not read.
- Config.PickRandomFile returns the chosen file's name rather than the directory-joined path.
- Timeline.FadeChannelBounds: the `min(255, …)` cap on the gold fade is not modelled as a separate step. The lemma shows that for background channels of at most 255 the interpolated value already stays at or below 255.
- The `main` of the deck download script is out, apart from the decision to create a card back and its colour (`DeckDownload.BackColors`). Drawing the back image is out too.
- `_video_font_path` and other module-level caches are left out; the font is resolved by `Config.GetKoreanFont` each time.
- app.py, video_generator, puzzle_creator, image_generator, youtube_uploader, hook_ments, the other scripts, generate_tarot_interpretations and generate_empathy_ment are not part of this model.

Where the description of the system and the code differ, the model follows the code:
- There are 21 curious thumbnail phrases, so the rotation period is 41 (`ThumbnailPhrases.Period`).
- The frame count of a clip is `max(1, int(rate * duration))`, truncated rather than rounded (`Timeline.FrameCount`).
- `_wrap_by_chars` cuts inside a word when a line has no space or break character (`Wrap.WrapAsWritten`, and `Wrap.WrapByChars`, which differs from it only in the orphan cut of the Findings row).
- `WrapTextToFit` appends a remainder that fits whole without a length check. Only lines before the last are bounded.
- The two-digit year correction tests the parsed value, so "095" counts as the two-digit year 95 (`CommentReplies.AdjustYear`).
- In generate_tarot_video the running time `t` is 23.2 s (18.0 s for the three-card plan). The clips add up to 27.7 s (22.0 s), because `t` leaves out the closing and counts 3.5 s for the 4 s face clip (`VideoPlan.PlanClips` and `VideoPlan.Timed`).

## Findings

| source | as written | input that shows it | evidently intended | confidence | as-written member | corrected member |
|---|---|---|---|---|---|---|
| modules/tarot_video_generator.py:194-198 | When the orphan merge looks past the cut for the next space, it advances the cut by `next_space + 1` counted in the stripped rest. The cut itself is a position in the unstripped remainder. | `_wrap_by_chars("ab  cd ef", 2)`: the second line starts inside the word it already merged, giving ["ab cd", "d ef"] | advance the cut past the merged word, counting from where the stripped rest starts, giving ["ab cd", "ef"] | not executed | Wrap.OrphanCutAsWritten, Wrap.OrphanCutAsWrittenRereads, Wrap.WrapAsWritten, Wrap.WrapAsWrittenDuplicates, Wrap.WrapAsWrittenGainsContent | Wrap.OrphanCut, Wrap.OrphanCutConsumesWord, Wrap.MergeOrphan, Wrap.WrapByChars |
