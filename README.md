# prevalent-colors: the top-three colour ranker

This project models, in Dafny, the deterministic core of prevalent-colors,
a script that downloads images by URL and writes each image's three most
frequent colours to a CSV file. The model covers:

- the colour key `'#%02x%02x%02x'` that both rankers count by (`ColorKey`);
- `rank_top_colors`: one pass over the pixels, a dictionary of counts per
  key and a three-slot leaderboard of `(colour, count)` tuples (`TopColors`);
- `get_three_most_prevalent`, the older ranker, whose slots are
  `(count, hex)` tuples and which never moves `first` down (`LegacyRanker`);
- the chunking loop of `import_urls_from_file`, which right-strips every
  URL line and hands chunks of 1000 to `fetch_images` (`Batching`);
- the CSV record `url, c1, c2, c3` written for every ranked image
  (`CsvRecord`).

The reference the rankers are proved against lives in `Frequency`: the
number of pixels with a given key (`Occurrences`), the position of its last
pixel (`LastIndex`) and the ranking order `Outranks`: more pixels first,
and at equal counts, the colour whose last pixel comes earlier, that is,
the colour that reached that count first. `TopColors.Ranked` says that a
board holds the top three colours in that order, each with its exact
count, and the sentinel `("", 0)` only in slots no colour can fill.
`RankTopColors` returns such a board for every image, and
`RankedUnique` shows there is only one. `LegacyRanker.LegacyRank` is the
older loop as a function. What it guarantees is proved
(`LegacyRankInvariant`, `FirstSlotAgrees`), and so is where it goes wrong
(`StaleRunnerUp`).

Pixels are triples of channels in 0..255. Strings are sequences of
characters. `fetch_images` is represented by the sequence of chunks
handed to it.

The tie rule follows the code. At equal counts the slot goes to the colour
that reached the count first, which need not be the colour seen first.
On pixels A, B, B, A the result is `(B, 2), (A, 2)`, although A was seen
first (`TopColors.TieGoesToFirstToReach`).

## Model

| member | source | states |
|---|---|---|
| ColorKey.RgbToHex | Source/application.py:22-23 | the key is `#` followed by exactly six lower-case hexadecimal digits |
| ColorKey.Hex2 | source/application.py:28 | `%02x` of a channel is two lower-case hex digits whose value, high digit first, is the channel |
| ColorKey.ParseKey | source/application.py:28 | a string reads back as a pixel exactly when it has the key format |
| ColorKey.ParseKeyRoundTrip | source/application.py:28 | reading back the key of a pixel gives that pixel |
| ColorKey.KeyOfParseKey | source/application.py:28 | every string of the key format is the key of the pixel it reads back as, so keys are exactly the strings of that format |
| ColorKey.KeyOfInjective | Source/application.py:22-23 | two pixels have the same key if and only if their three channels are equal |
| Frequency.CountMapStep | source/application.py:30-34 | if the map holds exactly the keys seen so far, each with its pixel count, then the increment-or-insert step keeps that true one pixel further |
| Frequency.AppendPixel | source/application.py:27-34 | one more pixel raises its own key's count by one and moves that key's last position to the end; every other key is unchanged |
| Frequency.CountedKeysAreKeys | source/application.py:28 | every key with a positive count has the key format, so the sentinel `""` is never counted |
| Frequency.OutranksStrict | source/application.py:36-46 | the ranking order is irreflexive, asymmetric and transitive |
| Frequency.OutranksTotal | source/application.py:36-46 | of two different counted colours, one always ranks above the other, so ties are always broken |
| TopColors.Promote | source/application.py:36-47 | a count equal to a slot's count never displaces that slot's colour; a count above the third slot always lands the colour on the board |
| TopColors.UpdateSlots | source/application.py:36-47 | the imperative slot reassignments compute exactly `Promote` |
| TopColors.EmptyBoardRanked | source/application.py:25 | before any pixel, three sentinels are the correct top three |
| TopColors.PromoteKeepsRanked | source/application.py:36-47 | if the board is the correct top three of a prefix, one update with the new pixel's count keeps it correct for the longer prefix |
| TopColors.RankStep | source/application.py:27-47 | one loop iteration keeps both the count-map invariant and the correct-top-three invariant |
| TopColors.RankTopColors | source/application.py:23-49 | the returned slots are the correct top three of the whole image, in ranking order, each with its exact count |
| TopColors.RankedSlots | source/application.py:36-47 | on a correct board the counts are non-increasing, no colour sits in two slots, every filled slot's count equals its colour's count, every colour off the board counts at most the third slot, and equal counts are ordered by which colour reached the count first |
| TopColors.RankedFirstLeads | source/application.py:36-41 | the first slot ranks above every other colour of the image |
| TopColors.FilledSlots | source/application.py:25 | exactly min(3, number of distinct colours) slots are filled, sentinels only at the end, and the first slot is the sentinel exactly for an empty image |
| TopColors.SentinelUncounted | source/application.py:37-38 | the sentinel colour `""` never has a positive count, so the guards never mistake it for a real colour |
| TopColors.RankedUnique | source/application.py:23-49 | two correct boards for the same image are equal, so the result is determined by the image |
| TopColors.TieExample | source/application.py:23-49 | for 5 × (0,0,0), 3 × (1,1,1), 3 × (2,2,2), 1 × (3,3,3) the only correct board is `(#000000, 5), (#010101, 3), (#020202, 3)` |
| TopColors.TieGoesToFirstToReach | source/application.py:36-46 | on A, B, B, A the only correct board is `(B, 2), (A, 2)`, followed by the sentinel |
| LegacyRanker.Advance | Source/application.py:45-50 | slot counts never decrease; `first` ends at least at the new count; `second` and `third` are only written by a count strictly below every slot above them |
| LegacyRanker.AdvanceSlots | Source/application.py:45-50 | the imperative tuple reassignments compute exactly `Advance` |
| LegacyRanker.LegacyStep | Source/application.py:39-50 | one loop iteration keeps `pix_prev` equal to the counts of the prefix and the tuples equal to `LegacyRank` of the prefix |
| LegacyRanker.GetThreeMostPrevalent | Source/application.py:36-51 | the loop returns `LegacyRank` of the image |
| LegacyRanker.LegacyRankInvariant | Source/application.py:45-50 | after every prefix, `first` holds the highest count and the colour that reached it first, `second` is strictly below `first`, `third` is strictly below `second`, written lower slots never claim more than their colour's count, and zero-count slots are the sentinel |
| LegacyRanker.AdvanceKeepsFirst | Source/application.py:45-46 | one update keeps `first` at the maximum and ahead of every other colour, with `second` below it |
| LegacyRanker.AdvanceKeepsLower | Source/application.py:47-50 | one update keeps `third` strictly below `second`, and keeps the lower slots from overstating or leaving a non-sentinel at count 0 |
| LegacyRanker.EmptyImage | Source/application.py:38 | with no pixels all three slots are `(0, "")` |
| LegacyRanker.FirstSlotAgrees | Source/application.py:45-46 | the old ranker's `first` equals the first slot of the correct top three |
| LegacyRanker.StaleRunnerUp | Source/application.py:45-50 | on X, X, A, A, A the old ranker returns `(3, A), (1, A), (0, "")`, while the only correct board is `(A, 3), (X, 2)` and the sentinel, so its `second` disagrees |
| Batching.RStrip | source/application.py:88 | `rstrip()` keeps a prefix of the line, removes only whitespace, and leaves no trailing whitespace |
| Batching.RStripUnique | source/application.py:88 | any prefix with those three properties is the result of `rstrip()` |
| Batching.RStripIdempotent | source/application.py:88 | stripping a stripped line changes nothing |
| Batching.RStripNewline | source/application.py:87-88 | a line read with its trailing newline gives the same URL as the line without it |
| Batching.ImportUrls | source/application.py:84-91 | the chunks handed to `fetch_images` are exactly the full chunks of 1000 stripped lines, in order; the chunk still held at the end is the stripped tail after the last full chunk |
| Batching.FlattenChunks | source/application.py:87-91 | full chunks concatenated are the stripped lines they cover, in input order, with no overlap |
| Batching.FullBatchesShape | source/application.py:89-91 | there are `L div 1000` chunks, each of exactly 1000 lines, together the stripped first `L - L mod 1000` lines; the last `L mod 1000` lines are never handed over |
| Batching.ShortFileDropped | source/application.py:89-91 | a non-empty file of fewer than 1000 lines hands nothing to `fetch_images` |
| Batching.ImportUrlsFlushed | source/application.py:84-91 | the loop followed by a flush of the leftover chunk hands over `Batches` of the lines |
| Batching.BatchesShape | source/application.py:84-91 | with the flush the chunks together are all the stripped lines, there are `ceil(L / 1000)` of them, each non-empty and at most 1000 long, and only the last may be short |
| CsvRecord.Parse | source/application.py:76 | a line that reads back as a record is exactly the line written for that record |
| CsvRecord.ParseFormat | source/application.py:76 | a record whose three colour fields hold no comma reads back from its line unchanged, whatever the URL holds |
| CsvRecord.RankedFieldsPlain | source/application.py:76 | every slot colour of a correct board is a key or, for a sentinel slot, empty |
| CsvRecord.CsvLineRoundTrip | source/application.py:75-76 | the line written for a ranked image reads back as its URL and its three slot colours, with a sentinel slot as an empty field |

## Left out

- `load_url` (both files): the HTTP download and the image decoding and
  thumbnailing are calls into libraries. The image reaches the model as a
  sequence of pixels. Its `timeout` parameter is unused in the source.
- Pixels with an alpha or other extra channel are modelled by their first
  three channels, which are all the source reads. Pixels with fewer than
  three channels (single values of modes 1, L, P, I, F, and pairs of modes
  LA, PA), on which the source raises, are not modelled. In
  `fetch_images` the ranking runs in the `else:` branch, outside the `try`
  (source/application.py:73-76), so that error leaves `fetch_images` and
  ends at the `except` of `process_urls`, which prompts for the file again;
  in the older script it ends the script (Source/application.py:66-67).
- The thread pools of `fetch_images` and of the older script, and the
  completion order of `as_completed`: concurrency. Which URLs succeed is
  decided there, so `CsvRecord` models one record, not a file.
- File I/O. This covers reading the URL file, opening and closing
  `processed_images.csv`, and the fact that `fetch_images` reopens that
  file in write mode for every chunk, so each chunk overwrites the records
  of the one before.
- `Batching.ImportUrls` takes the URL lines as a sequence. The source reads
  them lazily from the file, which is I/O.
- `process_urls`: the interactive `input()` prompt and its retry loop.
- The module-level code of both files, the older script's global
  `img_urls` list and its `import_urls_from_file`, which reads a file.
- `print` calls and exception logging: console output only.
- `LegacyRanker.LegacyRankInvariant` states only what the older ranker
  keeps. It deliberately does not claim the older result is a correct top
  three, because it is not one (`StaleRunnerUp`).

## Findings

| source | as written | input that shows it | evidently intended | confidence | as-written member | corrected member |
|---|---|---|---|---|---|---|
| Source/application.py:45-50 | `first` is replaced without moving the old leader down, and a colour whose count ties a higher slot is not refreshed, so `second` can hold a stale count of the leader's colour | pixels X, X, A, A, A: result `(3, A), (1, A), (0, "")` | the top three colours by count: `(A, 3), (X, 2)` and an empty slot | not executed | LegacyRanker.StaleRunnerUp | TopColors.RankTopColors |
| source/application.py:84-91 | chunks are only handed to `fetch_images` when they reach 1000 lines, and nothing is done with the chunk left after the loop | a file of 999 URLs: no URL is fetched (and in general the last L mod 1000 lines are skipped) | every URL is processed, the last chunk possibly short | not executed | Batching.ShortFileDropped | Batching.ImportUrlsFlushed |
