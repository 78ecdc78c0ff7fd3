# Interactive merge sort of the song picker

The song picker ranks a list of songs using the user's own judgments. It runs a top-down
merge sort (`interactiveMergeSort`). Each comparison of that sort is a question to the user:
two songs are shown with a "Choose" button each, and the sort resumes when one is pressed
(`mergeUser` and its inner `nextComparison`). A bound `topLimit` (default `Infinity`) lets
every merge stop once it holds `topLimit` songs, so only the top of the ranking is computed.
The session counter `comparisons` counts the judgments and is reset when a ranking starts.

This project models that engine in Dafny and proves what the merges and the sort deliver.

- `limits.dfy` (module `Limits`): the bound, either `Infinity` or an integer, and the
  test `merged.length >= limit`.
- `order.dfy` (module `Order`): a user's preference as a total preorder, runs sorted by
  it, interleavings of two runs, and "the first k songs lead the pool".
- `merge.dfy` (module `Merging`): `Merge`, a function, is what one `mergeUser` call
  hands to its callback. `MergeUser`, a class, is the pending call's state: `left`, `right`,
  `merged`, the counter and whether the callback has fired. Its `NextComparison` mirrors
  lines 101-120 and its `Choose` mirrors the button handler. `RunMerge` drives that state
  machine to the end and is proved to produce `Merge`'s result. Lemmas about `Merge`
  follow.
- `sort.dfy` (module `Sorting`): `Sort`, the recursive merge sort as a function.
  `InteractiveMergeSort` runs the same recursion with `RunMerge`. `Session` holds the
  page's ranking state, and `Start` is `startInteractiveMergeSort`. Lemmas about `Sort`
  and three worked scenarios follow.

The user is a parameter `choose: (nat, T, T) -> bool`. Its first argument is the number
of the judgment, meaning the value of `comparisons` when the question is shown. Its other
two arguments are the songs offered. It answers `true` for the button of `left[0]`. Any
sequence of answers a person could give can be written this way. The ordering results
assume a user who follows a fixed preference. `Consistent(choose, pref)` states that
assumption. Songs are an opaque type `T`.

Some behaviour of the code is worth knowing:
- A full ranking of n songs asks at least n − 1 judgments (`SortJudgments`). In general
  it asks more. Ranking A, B, C, D, with the alphabetically earlier song always chosen,
  asks 4 judgments, not 3 (`FourSongs`).
- A list of one song is returned as it is, whatever the bound, even a bound of 0
  (`SingleSongIgnoresLimit`). From two songs upward, the ranking has exactly
  `min(topLimit, n)` songs (`Sort`).
- The sort is top-down and recursive. It splits at `floor(n / 2)`, ranks the left half,
  then the right half, then merges the two. There is no bottom-up round scheduler and no
  "discard" answer: each question has exactly two outcomes.

## Model

| member | source | states |
|---|---|---|
| `Merging.SliceToLimit` | script.js:110-119 | The tail taken from the side that is left is a prefix of that side. It brings the merged length up to exactly `min(limit, merged + side)`. |
| `Merging.Merge` | script.js:98-156 | The songs already collected stay at the front. The result has `min(limit, all songs)` songs, or just the collected ones if the limit was already reached. Each judgment adds exactly one song. At most one judgment fewer than the number of songs on both sides is asked, and none when either side is empty. |
| `Merging.MergeUser.constructor` | script.js:98-155 | A new call starts with an empty `merged` and the given runs and counter. It then runs the first `nextComparison`: it finishes at once when the limit is already reached or a side is empty, and otherwise waits for a choice. |
| `Merging.MergeUser.NextComparison` | script.js:101-120 | Nothing changes except `merged` and `finished`. It finishes exactly when the limit is reached or a side is empty. It then appends the capped rest of the other side and asks no judgment. Otherwise it leaves both fronts on offer. |
| `Merging.MergeUser.Choose` | script.js:140-145 | Pressing a button moves the chosen front onto `merged` and drops it from its own side. The other side is untouched. The counter goes up by exactly one. Then the next comparison runs. |
| `Merging.RunMerge` | script.js:101-155 | Answering every question of the state machine by `choose` yields exactly the run and final counter that `Merge` describes. |
| `Merging.MergeAsks` | script.js:104-120 | A judgment is asked if and only if both sides are non-empty and the limit is not reached. So none is asked when the limit is zero or less. |
| `Merging.MergeInterleaves` | script.js:110-143 | The new songs interleave a prefix of `left` with a prefix of `right`. Each side keeps its own order. |
| `Merging.MergeSelects` | script.js:110-143 | No song is invented or duplicated: the result is a sub-multiset of the inputs. When the limit admits all songs, it is a permutation of them. |
| `Merging.MergeSorted` | script.js:101-155 | Suppose both runs are sorted by a preference and every answer follows it. Then the merged run is sorted. |
| `Merging.MergeTrim` | script.js:103-120 | Suppose answers depend only on the songs shown. Then a merge bounded by `k` yields the first `k` songs of the unbounded merge. It reads only the first `k` songs of each side. |
| `Merging.MergeTop` | script.js:103-104 | For sorted runs and a user who follows a preference, the result is made of the best `min(limit, n)` songs of `left + right`, where n is their total length. They come most preferred first, and each ranks at least as high as every song left out. |
| `Sorting.Sort` | script.js:81-95 | A list of at most one song is returned as it is, whatever the bound, and no judgment is asked. A longer list's ranking has exactly `min(topLimit, n)` songs. The counter never decreases. |
| `Sorting.InteractiveMergeSort` | script.js:81-95 | The recursion driven through `RunMerge` yields exactly `Sort`'s ranking and counter. |
| `Sorting.Session.constructor` | script.js:1-4 | Before any ranking, the ranking is empty, the counter is zero and `topLimit` is the configured bound. |
| `Sorting.Session.Start` | script.js:72-79 | The counter restarts at zero. The stored ranking and count are `Sort`'s result for the songs under `topLimit`. |
| `Sorting.SortSelects` | script.js:81-95 | The ranking holds only input songs, none more often than in the input. |
| `Sorting.SortPermutes` | script.js:81-95 | When the bound admits every song, the ranking is a permutation of the input. |
| `Sorting.SortSorted` | script.js:81-95 | When every answer follows a preference, the ranking is sorted by it, under any bound. |
| `Sorting.SortTrim` | script.js:87-92 | Suppose answers depend only on the songs shown. Then for two or more songs, ranking under bound `k` yields the first `k` songs of the unbounded ranking. |
| `Sorting.SortTop` | script.js:87-92 | When every answer follows a preference, the ranking holds the best `min(topLimit, n)` songs of the input once n >= 2, and the whole input for at most one song. They come most preferred first, and each ranks at least as high as every song left out. |
| `Sorting.SortJudgments` | script.js:81-95 | A ranking that the bound does not cut asks at least `n - 1` judgments for `n >= 1` songs. |
| `Sorting.FourSongs` | script.js:81-95 | Ranking A, B, C, D without a bound, always choosing the alphabetically earlier song, yields A, B, C, D after 4 judgments. |
| `Sorting.FiveSongsTopTwo` | script.js:81-95 | Ranking A to E under bound 2 yields A, B after 5 judgments. |
| `Sorting.SingleSongIgnoresLimit` | script.js:82-85 | A single song is returned unchanged, with no judgment, even under bound 0. |

## Left out

- Rendering the two choice buttons, the media players and the result list
  (script.js:123-152, 159-176): presentation only. The questions map to `Choose`, and the
  final list is `Session.sortedSongs`.
- `getMediaElement`, the region selector and the media cache (script.js:5-14, 41-68):
  presentation glue that depends on the browser.
- Loading `config.json` and `songList.json` (script.js:17-36). Network I/O and JSON parsing
  are not modelled. The configured bound is the `Session` constructor's parameter, and
  the song list is `Start`'s parameter.
- Only an integer `topLimit` or `Infinity` is modelled. A fractional, string or `null`
  value that passes the `isNaN` test is not.
- The default `limit = 10` of `mergeUser` is not modelled: the only call passes
  `topLimit` (script.js:92).
- The code reads `topLimit` afresh at every merge, while the configuration may still be
  loading. The model fixes the bound for the whole session.
- Callback nesting and waiting for a button press become the chooser parameter and the
  `MergeUser` state machine. No real waiting is modelled.
- Sharing of arrays between a caller and `shift()` is not modelled. Runs are values, so
  `Choose` never changes a run the caller still holds.
- SortJudgments: gives only the lower bound `n - 1` on the judgments of a full ranking.
  The code promises no upper bound, and none is proved beyond the per-merge bound in
  `Merge`.
- MergeSorted, MergeTop, SortSorted, SortTop: the ordering results hold for a user who
  follows a fixed total preference. For an inconsistent user, only the length, selection
  and interleaving results apply.
