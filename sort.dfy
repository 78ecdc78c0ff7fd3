/** `interactiveMergeSort` and `startInteractiveMergeSort` (script.js:72-95): a top-down
    merge sort whose merges are the user-judged, limit-bounded `mergeUser`. */
module Sorting {
  import opened Limits
  import opened Order
  import opened Merging

  /** The ranking `interactiveMergeSort(arr, callback)` hands to its callback, and the
      counter afterwards, when the user answers by `choose` and the counter starts at
      `count`. A run of at most one song comes back as it is; a longer one is split at
      `floor(n / 2)`, the left half is ranked first, then the right half, and the two results
      are merged under `topLimit`. So the ranking has `min(topLimit, n)` songs once `n >= 2`,
      and the counter never goes down. */
  function Sort<T>(arr: seq<T>, limit: Limit, choose: Chooser<T>, count: nat): (r: Merged<T>)
    ensures |arr| <= 1 ==> r == Merged(arr, count)
    ensures |r.items| == if |arr| <= 1 then |arr| else Cap(limit, |arr|)
    ensures count <= r.comparisons
    decreases |arr|
  {
    if |arr| <= 1 then Merged(arr, count)
    else
      var mid := |arr| / 2;
      var left := Sort(arr[..mid], limit, choose, count);
      var right := Sort(arr[mid..], limit, choose, left.comparisons);
      Merge(left.items, right.items, [], limit, choose, right.comparisons)
  }

  /** `interactiveMergeSort` with its callbacks unrolled: rank each half, then drive the
      merge of the two rankings to its end (script.js:81-95). */
  method InteractiveMergeSort<T>(arr: seq<T>, limit: Limit, choose: Chooser<T>, count: nat)
    returns (sorted: seq<T>, comparisons: nat)
    ensures Merged(sorted, comparisons) == Sort(arr, limit, choose, count)
    decreases |arr|
  {
    if |arr| <= 1 {
      return arr, count;
    }
    var mid := |arr| / 2;
    var left, afterLeft := InteractiveMergeSort(arr[..mid], limit, choose, count);
    var right, afterRight := InteractiveMergeSort(arr[mid..], limit, choose, afterLeft);
    sorted, comparisons := RunMerge(left, right, limit, choose, afterRight);
  }

  /** The page's ranking state (script.js:2-4): the last ranking shown, the judgment
      counter, and the bound in force. */
  class Session<T> {
    var sortedSongs: seq<T>
    var comparisons: nat
    const topLimit: Limit

    /** Nothing ranked yet; `topLimit` is `Infinity` unless the configuration gave a number. */
    constructor (topLimit: Limit)
      ensures sortedSongs == [] && comparisons == 0 && this.topLimit == topLimit
    {
      sortedSongs := [];
      comparisons := 0;
      this.topLimit := topLimit;
    }

    /** `startInteractiveMergeSort(songs)` (script.js:72-79): reset the counter to zero,
        rank the songs, and keep the ranking and the final count. */
    method Start(songs: seq<T>, choose: Chooser<T>)
      modifies this
      ensures Merged(sortedSongs, comparisons) == Sort(songs, topLimit, choose, 0)
    {
      comparisons := 0;
      var sorted, count := InteractiveMergeSort(songs, topLimit, choose, comparisons);
      sortedSongs, comparisons := sorted, count;
    }
  }

  /** The ranking holds only songs of the input, none more often than it occurs there. */
  lemma {:induction false} SortSelects<T>(arr: seq<T>, limit: Limit, choose: Chooser<T>, count: nat)
    ensures multiset(Sort(arr, limit, choose, count).items) <= multiset(arr)
    decreases |arr|
  {
    if |arr| > 1 {
      var mid := |arr| / 2;
      var front, back := arr[..mid], arr[mid..];
      var left := Sort(front, limit, choose, count);
      var right := Sort(back, limit, choose, left.comparisons);
      assert multiset(arr) == multiset(front) + multiset(back) by {
        assert arr == front + back;
      }
      assert multiset(left.items) + multiset(right.items) <= multiset(arr) by {
        SortSelects(front, limit, choose, count);
        SortSelects(back, limit, choose, left.comparisons);
        MultisetAddMono(multiset(left.items), multiset(right.items), multiset(front), multiset(back));
      }
      MergeSelects(left.items, right.items, [], limit, choose, right.comparisons);
    }
  }

  /** When the limit admits every song, the ranking is a permutation of the input. */
  lemma {:induction false} SortPermutes<T>(arr: seq<T>, limit: Limit, choose: Chooser<T>, count: nat)
    requires Admits(limit, |arr|)
    ensures multiset(Sort(arr, limit, choose, count).items) == multiset(arr)
    decreases |arr|
  {
    if |arr| > 1 {
      var mid := |arr| / 2;
      var front, back := arr[..mid], arr[mid..];
      var left := Sort(front, limit, choose, count);
      var right := Sort(back, limit, choose, left.comparisons);
      assert multiset(arr) == multiset(front) + multiset(back) by {
        assert arr == front + back;
      }
      assert multiset(left.items) == multiset(front) by {
        assert Admits(limit, |front|);
        SortPermutes(front, limit, choose, count);
      }
      assert multiset(right.items) == multiset(back) by {
        assert Admits(limit, |back|);
        SortPermutes(back, limit, choose, left.comparisons);
      }
      assert Admits(limit, |left.items| + |right.items|) by {
        assert |left.items| + |right.items| == |arr|;
      }
      MergeSelects(left.items, right.items, [], limit, choose, right.comparisons);
    }
  }

  /** When every answer follows a preference, the ranking is sorted by it, whatever the limit. */
  lemma {:induction false} SortSorted<T(!new)>(arr: seq<T>, limit: Limit, choose: Chooser<T>, count: nat,
                                               pref: (T, T) -> bool)
    requires TotalPreorder(pref) && Consistent(choose, pref)
    ensures Sorted(pref, Sort(arr, limit, choose, count).items)
    decreases |arr|
  {
    if |arr| > 1 {
      var mid := |arr| / 2;
      var left := Sort(arr[..mid], limit, choose, count);
      var right := Sort(arr[mid..], limit, choose, left.comparisons);
      SortSorted(arr[..mid], limit, choose, count, pref);
      SortSorted(arr[mid..], limit, choose, left.comparisons, pref);
      MergeSorted(left.items, right.items, [], limit, choose, right.comparisons, pref);
    }
  }

  /** With answers that depend only on the songs shown, ranking under a limit `k` yields the
      first `k` songs of the unlimited ranking, for any run of at least two songs. */
  lemma {:induction false} SortTrim<T(!new)>(arr: seq<T>, k: int, choose: Chooser<T>, count: nat, count': nat)
    requires IndexFree(choose)
    ensures Take(Sort(arr, Finite(k), choose, count).items, k) == Take(Sort(arr, Infinity, choose, count').items, k)
    ensures |arr| >= 2 ==> Sort(arr, Finite(k), choose, count).items == Take(Sort(arr, Infinity, choose, count').items, k)
    decreases |arr|
  {
    if |arr| >= 2 {
      var full := Sort(arr, Infinity, choose, count').items;
      assert Sort(arr, Finite(k), choose, count).items == Take(full, k) by {
        if k >= 0 {
          var mid := |arr| / 2;
          var left := Sort(arr[..mid], Finite(k), choose, count);
          var right := Sort(arr[mid..], Finite(k), choose, left.comparisons);
          var left' := Sort(arr[..mid], Infinity, choose, count');
          var right' := Sort(arr[mid..], Infinity, choose, left'.comparisons);
          assert Take(left.items, k) == Take(left'.items, k) by {
            SortTrim(arr[..mid], k, choose, count, count');
          }
          assert Take(right.items, k) == Take(right'.items, k) by {
            SortTrim(arr[mid..], k, choose, left.comparisons, left'.comparisons);
          }
          var none: seq<T> := [];
          assert k - |none| == k;
          MergeTrim(left'.items, right'.items, left.items, right.items, none, k, choose,
                    right.comparisons, right'.comparisons);
        }
      }
      TakeTwice(full, k);
    }
  }

  /** The ranking is the top of the input: when every answer follows a preference, it
      holds the `min(topLimit, n)` best songs (all of a run of at most one song), most
      preferred first, and each of them ranks at least as high as every song left out. */
  lemma SortTop<T(!new)>(arr: seq<T>, limit: Limit, choose: Chooser<T>, count: nat, pref: (T, T) -> bool)
    requires TotalPreorder(pref) && Consistent(choose, pref)
    ensures Leads(pref, Sort(arr, limit, choose, count).items, arr)
  {
    var items := Sort(arr, limit, choose, count).items;
    var full := Sort(arr, Infinity, choose, count).items;
    assert multiset(full) == multiset(arr) by {
      SortPermutes(arr, Infinity, choose, count);
    }
    assert Sorted(pref, full) by {
      SortSorted(arr, Infinity, choose, count, pref);
    }
    assert items == full[..|items|] by {
      if limit.Finite? {
        ConsistentIsIndexFree(choose, pref);
        SortTrim(arr, limit.n, choose, count, count);
      }
    }
    PrefixLeads(pref, full, arr, |items|);
  }

  /** A complete ranking (one the limit does not cut) of `n >= 1` songs asks at least
      `n - 1` judgments: every merge of two non-empty runs asks at least one. */
  lemma {:induction false} SortJudgments<T>(arr: seq<T>, limit: Limit, choose: Chooser<T>, count: nat)
    requires Admits(limit, |arr|) && |arr| >= 1
    ensures Sort(arr, limit, choose, count).comparisons >= count + |arr| - 1
    decreases |arr|
  {
    if |arr| > 1 {
      var mid := |arr| / 2;
      var left := Sort(arr[..mid], limit, choose, count);
      var right := Sort(arr[mid..], limit, choose, left.comparisons);
      SortJudgments(arr[..mid], limit, choose, count);
      SortJudgments(arr[mid..], limit, choose, left.comparisons);
      MergeAsks(left.items, right.items, [], limit, choose, right.comparisons);
    }
  }

  /** The judge in the scenarios below: the alphabetically earlier song wins. */
  function Alphabetical(i: nat, a: char, b: char): bool {
    a <= b
  }

  /** Two songs already in alphabetical order take one judgment, under any limit of
      at least two. */
  lemma SortPair(a: char, b: char, limit: Limit, count: nat)
    requires a <= b && Admits(limit, 2)
    ensures Sort([a, b], limit, Alphabetical, count) == Merged([a, b], count + 1)
  {
    assert [a, b][..1] == [a] && [a, b][1..] == [b] && [a][1..] == [];
    assert Merge([], [b], [a], limit, Alphabetical, count + 1) == Merged([a, b], count + 1) by {
      assert SliceToLimit([b], limit, 1) == [b];
    }
    assert Merge([a], [b], [], limit, Alphabetical, count) == Merged([a, b], count + 1) by {
      assert [] + [a] == [a];
    }
  }

  /** Ranking A, B, C, D without a limit, the alphabetically earlier song always chosen,
      yields A, B, C, D after four judgments: one for each pair, two for the final merge. */
  lemma FourSongs()
    ensures Sort("ABCD", Infinity, Alphabetical, 0) == Merged("ABCD", 4)
  {
    SortPair('A', 'B', Infinity, 0);
    SortPair('C', 'D', Infinity, 1);
    assert "ABCD"[..2] == "AB" && "ABCD"[2..] == "CD";
    assert "AB"[1..] == "B" && "B"[1..] == [];
    assert Merge("AB", "CD", [], Infinity, Alphabetical, 2) == Merged("ABCD", 4) by {
      assert Merge("", "CD", "AB", Infinity, Alphabetical, 4) == Merged("ABCD", 4);
    }
  }

  /** Ranking A to E under a limit of two yields A, B after five judgments: the left
      pair, the right pair D, E, one judgment C against D before the tail D fills the
      second place, and two for the final merge, which stops once A and B are in. */
  lemma FiveSongsTopTwo()
    ensures Sort("ABCDE", Finite(2), Alphabetical, 0) == Merged("AB", 5)
  {
    SortPair('A', 'B', Finite(2), 0);
    LastThreeTopTwo();
    assert "ABCDE"[..2] == "AB" && "ABCDE"[2..] == "CDE";
    assert "AB"[1..] == "B" && "B"[1..] == [];
    assert Merge("AB", "CD", [], Finite(2), Alphabetical, 3) == Merged("AB", 5) by {
      assert Merge("", "CD", "AB", Finite(2), Alphabetical, 5) == Merged("AB", 5);
    }
  }

  /** The right half of the five-song scenario: C, D, E under a limit of two, the
      counter starting at one, yields C, D after two more judgments. */
  lemma LastThreeTopTwo()
    ensures Sort("CDE", Finite(2), Alphabetical, 1) == Merged("CD", 3)
  {
    SortPair('D', 'E', Finite(2), 1);
    assert Sort("CDE", Finite(2), Alphabetical, 1) == Merged("CD", 3) by {
      assert "CDE"[..1] == "C" && "CDE"[1..] == "DE" && "C"[1..] == [];
      assert Merge("", "DE", "C", Finite(2), Alphabetical, 3) == Merged("CD", 3);
    }
  }

  /** A single song comes back as it is even when the limit is zero (script.js:82-85). */
  lemma SingleSongIgnoresLimit()
    ensures Sort("A", Finite(0), Alphabetical, 0) == Merged("A", 0)
  {
  }
}
