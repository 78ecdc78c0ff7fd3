/** `mergeUser` (script.js:98-156): a merge of two runs whose every comparison is a
    judgment made by the user, cut short once `limit` songs have been collected. */
module Merging {
  import opened Limits
  import opened Order

  /** The user's answer to the judgment numbered `i` (the value of the session counter
      `comparisons` when it is asked) between the fronts `a` of `left` and `b` of `right`:
      `true` when the first button, the one for `left[0]`, is pressed (script.js:141). */
  type Chooser<!T> = (nat, T, T) -> bool

  /** A merged run, with the value of the judgment counter once it is complete. */
  datatype Merged<T> = Merged(items: seq<T>, comparisons: nat)

  /** The user answers as a preference would, whatever the judgment's number. */
  ghost predicate Consistent<T(!new)>(choose: Chooser<T>, pref: (T, T) -> bool) {
    forall i, a, b :: choose(i, a, b) == pref(a, b)
  }

  /** The user's answer depends on the two songs shown, not on how many judgments came before. */
  ghost predicate IndexFree<T(!new)>(choose: Chooser<T>) {
    forall i, j, a, b :: choose(i, a, b) == choose(j, a, b)
  }

  /** A user who follows a preference answers the same whatever the judgment's number. */
  lemma ConsistentIsIndexFree<T(!new)>(choose: Chooser<T>, pref: (T, T) -> bool)
    requires Consistent(choose, pref)
    ensures IndexFree(choose)
  {
    forall i, j, a, b ensures choose(i, a, b) == choose(j, a, b) {
      assert choose(i, a, b) == pref(a, b) == choose(j, a, b);
    }
  }

  /** `nextComparison` returns without asking (script.js:104, 110, 116): the limit is
      reached or one side is exhausted. */
  predicate Stops<T>(left: seq<T>, right: seq<T>, len: nat, limit: Limit) {
    Reached(limit, len) || |left| == 0 || |right| == 0
  }

  /** `s.slice(0, limit - merged.length)` (script.js:111, 117), taken only once the limit
      test has failed, so the end is positive or `Infinity`. */
  function SliceToLimit<T>(s: seq<T>, limit: Limit, len: nat): (r: seq<T>)
    requires !Reached(limit, len)
    ensures |r| <= |s| && r == s[..|r|]
    ensures len + |r| == Cap(limit, len + |s|)
  {
    match limit
    case Infinity => s
    case Finite(k) => Take(s, k - len)
  }

  /** What `merged` holds when `nextComparison` returns without asking (script.js:104-120). */
  function Finish<T>(left: seq<T>, right: seq<T>, merged: seq<T>, limit: Limit): seq<T>
    requires Stops(left, right, |merged|, limit)
  {
    if Reached(limit, |merged|) then merged
    else if |left| == 0 then merged + SliceToLimit(right, limit, |merged|)
    else merged + SliceToLimit(left, limit, |merged|)
  }

  /** The run `mergeUser(left, right, callback, limit)` hands to its callback when the
      user answers by `choose`, starting from the collected `merged` and the counter `count`.
      The collected songs stay at the front; the length is `min(limit, all songs)`, or
      what was already collected once the limit was reached; each judgment adds exactly one
      song, and a judgment is only asked while both sides have a song, so at most
      `|left| + |right| - 1` are asked. */
  function Merge<T>(left: seq<T>, right: seq<T>, merged: seq<T>, limit: Limit,
                    choose: Chooser<T>, count: nat): (r: Merged<T>)
    ensures |merged| <= |r.items| && r.items[..|merged|] == merged
    ensures |r.items| == if Reached(limit, |merged|) then |merged|
                         else Cap(limit, |merged| + |left| + |right|)
    ensures count <= r.comparisons <= count + (|r.items| - |merged|)
    ensures r.comparisons - count <= if |left| == 0 || |right| == 0 then 0 else |left| + |right| - 1
    decreases |left| + |right|
  {
    if Stops(left, right, |merged|, limit) then
      Merged(Finish(left, right, merged, limit), count)
    else if choose(count, left[0], right[0]) then
      Merge(left[1..], right, merged + [left[0]], limit, choose, count + 1)
    else
      Merge(left, right[1..], merged + [right[0]], limit, choose, count + 1)
  }

  /** The state of one pending `mergeUser` call: the two runs it shifts from, the `merged`
      array it pushes onto, the session counter, and whether its callback has been called. */
  class MergeUser<T> {
    var left: seq<T>
    var right: seq<T>
    var merged: seq<T>
    var comparisons: nat
    var finished: bool
    const limit: Limit

    /** While the callback is pending, two songs are on offer and the limit is not reached. */
    ghost predicate Valid()
      reads this
    {
      !finished ==> !Stops(left, right, |merged|, limit)
    }

    /** `mergeUser(left, right, callback, limit)`: start from an empty `merged` and run
        the first `nextComparison` (script.js:99, 155). */
    constructor (left: seq<T>, right: seq<T>, limit: Limit, comparisons: nat)
      ensures Valid()
      ensures this.left == left && this.right == right
      ensures this.limit == limit && this.comparisons == comparisons
      ensures finished == Stops(left, right, 0, limit)
      ensures merged == if finished then Finish(left, right, [], limit) else []
    {
      this.left := left;
      this.right := right;
      this.limit := limit;
      this.comparisons := comparisons;
      merged := [];
      finished := false;
      new;
      NextComparison();
    }

    /** `nextComparison` (script.js:101-120): stop at the limit, or append the capped rest
        of the other side when one side is exhausted; otherwise leave both fronts on offer. */
    method NextComparison()
      requires !finished
      modifies this
      ensures Valid()
      ensures left == old(left) && right == old(right) && comparisons == old(comparisons)
      ensures finished == Stops(left, right, |old(merged)|, limit)
      ensures merged == if finished then Finish(left, right, old(merged), limit) else old(merged)
    {
      if Reached(limit, |merged|) {
        finished := true;
        return;
      }
      if |left| == 0 {
        merged := merged + SliceToLimit(right, limit, |merged|);
        finished := true;
        return;
      }
      if |right| == 0 {
        merged := merged + SliceToLimit(left, limit, |merged|);
        finished := true;
        return;
      }
    }

    /** A press of one of the two buttons (script.js:140-145): move the chosen front onto
        `merged`, leave the other side alone, count one judgment, and go on. */
    method Choose(pickLeft: bool)
      requires Valid() && !finished
      modifies this
      ensures Valid()
      ensures comparisons == old(comparisons) + 1
      ensures left == if pickLeft then old(left)[1..] else old(left)
      ensures right == if pickLeft then old(right) else old(right)[1..]
      ensures var taken := old(merged) + [if pickLeft then old(left)[0] else old(right)[0]];
              && finished == Stops(left, right, |taken|, limit)
              && merged == if finished then Finish(left, right, taken, limit) else taken
    {
      if pickLeft {
        merged := merged + [left[0]];
        left := left[1..];
      } else {
        merged := merged + [right[0]];
        right := right[1..];
      }
      comparisons := comparisons + 1;
      NextComparison();
    }
  }

  /** Drives one `mergeUser` call to its callback, answering every judgment by `choose`:
      the run handed back and the counter afterwards are those `Merge` describes. */
  method RunMerge<T>(left: seq<T>, right: seq<T>, limit: Limit, choose: Chooser<T>, count: nat)
    returns (merged: seq<T>, comparisons: nat)
    ensures Merged(merged, comparisons) == Merge(left, right, [], limit, choose, count)
  {
    var m := new MergeUser(left, right, limit, count);
    while !m.finished
      invariant m.Valid() && m.limit == limit
      invariant if m.finished then Merged(m.merged, m.comparisons) == Merge(left, right, [], limit, choose, count)
                else Merge(m.left, m.right, m.merged, limit, choose, m.comparisons) == Merge(left, right, [], limit, choose, count)
      decreases |m.left| + |m.right|
    {
      m.Choose(choose(m.comparisons, m.left[0], m.right[0]));
    }
    merged, comparisons := m.merged, m.comparisons;
  }

  /** A judgment is asked exactly when both sides have a song and the limit is not reached;
      in particular none when the limit is zero or negative, or when a side is empty. */
  lemma MergeAsks<T>(left: seq<T>, right: seq<T>, merged: seq<T>, limit: Limit, choose: Chooser<T>, count: nat)
    ensures Merge(left, right, merged, limit, choose, count).comparisons > count
            <==> !Stops(left, right, |merged|, limit)
  {
  }

  /** What a finished merge appends is a prefix of one side, so it interleaves a prefix of
      `left` with a prefix of `right`. */
  lemma FinishInterleaves<T>(left: seq<T>, right: seq<T>, merged: seq<T>, limit: Limit)
    requires Stops(left, right, |merged|, limit)
    ensures var items := Finish(left, right, merged, limit);
            |merged| <= |items| && InterleavesPrefixes(items[|merged|..], left, right)
  {
    var items := Finish(left, right, merged, limit);
    var tail := items[|merged|..];
    if Reached(limit, |merged|) {
      assert tail == [] && left[..0] == [] && right[..0] == [];
      assert IsInterleaving(tail, left[..0], right[..0]);
    } else if |left| == 0 {
      assert tail == SliceToLimit(right, limit, |merged|) == right[..|tail|];
      InterleavingAlone(tail);
      assert left[..0] == [];
      assert IsInterleaving(tail, left[..0], right[..|tail|]);
    } else {
      assert tail == SliceToLimit(left, limit, |merged|) == left[..|tail|];
      InterleavingAlone(tail);
      assert right[..0] == [];
      assert IsInterleaving(tail, left[..|tail|], right[..0]);
    }
  }

  /** The new part of the merged run interleaves a prefix of `left` with a prefix of
      `right`: each side keeps its order, and nothing is duplicated or invented. */
  lemma {:induction false} MergeInterleaves<T>(left: seq<T>, right: seq<T>, merged: seq<T>, limit: Limit,
                                               choose: Chooser<T>, count: nat)
    ensures var items := Merge(left, right, merged, limit, choose, count).items;
            InterleavesPrefixes(items[|merged|..], left, right)
    decreases |left| + |right|
  {
    var items := Merge(left, right, merged, limit, choose, count).items;
    if Stops(left, right, |merged|, limit) {
      FinishInterleaves(left, right, merged, limit);
    } else if choose(count, left[0], right[0]) {
      var m := merged + [left[0]];
      MergeInterleaves(left[1..], right, m, limit, choose, count + 1);
      var tail := items[|merged|..];
      assert tail[0] == left[0] && tail[1..] == items[|m|..] by {
        assert items[..|m|] == m;
      }
      InterleavesPrefixesLeft(tail, left, right);
    } else {
      var m := merged + [right[0]];
      MergeInterleaves(left, right[1..], m, limit, choose, count + 1);
      var tail := items[|merged|..];
      assert tail[0] == right[0] && tail[1..] == items[|m|..] by {
        assert items[..|m|] == m;
      }
      InterleavesPrefixesRight(tail, left, right);
    }
  }

  /** Every merged song comes from the collected ones or the two sides, no more often than
      it occurs there; when the limit admits all songs, the merge is a permutation of them. */
  lemma MergeSelects<T>(left: seq<T>, right: seq<T>, merged: seq<T>, limit: Limit, choose: Chooser<T>, count: nat)
    ensures multiset(Merge(left, right, merged, limit, choose, count).items)
            <= multiset(merged) + multiset(left) + multiset(right)
    ensures Admits(limit, |merged| + |left| + |right|)
            ==> multiset(Merge(left, right, merged, limit, choose, count).items)
                == multiset(merged) + multiset(left) + multiset(right)
  {
    var items := Merge(left, right, merged, limit, choose, count).items;
    MergeInterleaves(left, right, merged, limit, choose, count);
    var i, j :| 0 <= i <= |left| && 0 <= j <= |right|
                && IsInterleaving(items[|merged|..], left[..i], right[..j]);
    var tail := items[|merged|..];
    InterleavingMultiset(tail, left[..i], right[..j]);
    assert items == merged + tail;
    assert multiset(items) == multiset(merged) + multiset(left[..i]) + multiset(right[..j]);
    PrefixMultiset(left, i);
    PrefixMultiset(right, j);
    if Admits(limit, |merged| + |left| + |right|) {
      assert i == |left| && j == |right|;
      assert left[..i] == left && right[..j] == right;
    }
  }

  /** When both sides are sorted by the user's preference and every answer follows it, the
      merged run is sorted, provided the collected songs are sorted and rank at least as
      high as both fronts. */
  lemma {:induction false} MergeSorted<T(!new)>(left: seq<T>, right: seq<T>, merged: seq<T>, limit: Limit,
                                                choose: Chooser<T>, count: nat, pref: (T, T) -> bool)
    requires TotalPreorder(pref) && Consistent(choose, pref)
    requires Sorted(pref, left) && Sorted(pref, right) && Sorted(pref, merged)
    requires |merged| > 0 && |left| > 0 ==> pref(merged[|merged| - 1], left[0])
    requires |merged| > 0 && |right| > 0 ==> pref(merged[|merged| - 1], right[0])
    ensures Sorted(pref, Merge(left, right, merged, limit, choose, count).items)
    decreases |left| + |right|
  {
    if Stops(left, right, |merged|, limit) {
      if !Reached(limit, |merged|) {
        var rest := if |left| == 0 then right else left;
        var tail := SliceToLimit(rest, limit, |merged|);
        SortedPrefix(pref, rest, |tail|);
        SortedAppend(pref, merged, tail);
      }
    } else if choose(count, left[0], right[0]) {
      assert pref(left[0], right[0]);
      SortedAppend(pref, merged, [left[0]]);
      SortedPrefix(pref, left[1..], |left| - 1);
      assert |left| > 1 ==> pref(left[0], left[1..][0]);
      MergeSorted(left[1..], right, merged + [left[0]], limit, choose, count + 1, pref);
    } else {
      assert pref(right[0], left[0]) by { assert !pref(left[0], right[0]); }
      SortedAppend(pref, merged, [right[0]]);
      assert Sorted(pref, right[1..]);
      assert |right| > 1 ==> pref(right[0], right[1..][0]);
      MergeSorted(left, right[1..], merged + [right[0]], limit, choose, count + 1, pref);
    }
  }

  /** With answers that depend only on the songs shown, a merge cut at `k` collects the
      first `k` songs of the uncut merge, and it only looks at the first `k - |merged|`
      songs of each side. */
  lemma {:induction false} MergeTrim<T(!new)>(left: seq<T>, right: seq<T>, left': seq<T>, right': seq<T>,
                                              merged: seq<T>, k: int, choose: Chooser<T>, count: nat, count': nat)
    requires IndexFree(choose)
    requires |merged| <= k
    requires Take(left', k - |merged|) == Take(left, k - |merged|)
    requires Take(right', k - |merged|) == Take(right, k - |merged|)
    ensures Merge(left', right', merged, Finite(k), choose, count).items
            == Take(Merge(left, right, merged, Infinity, choose, count').items, k)
    decreases |left| + |right|
  {
    var room := k - |merged|;
    if room == 0 || |left| == 0 || |right| == 0 {
      StoppedTrim(left, right, left', right', merged, k, choose, count, count');
    } else {
      TakeTail(left, left', room);
      TakeTail(right, right', room);
      assert choose(count, left[0], right[0]) == choose(count', left[0], right[0]);
      if choose(count', left[0], right[0]) {
        var m := merged + [left[0]];
        assert k - |m| == room - 1;
        TakeFewer(right', right, room, room - 1);
        MergeTrim(left[1..], right, left'[1..], right', m, k, choose, count + 1, count' + 1);
        assert Merge(left', right', merged, Finite(k), choose, count)
               == Merge(left'[1..], right', m, Finite(k), choose, count + 1);
      } else {
        var m := merged + [right[0]];
        assert k - |m| == room - 1;
        TakeFewer(left', left, room, room - 1);
        MergeTrim(left, right[1..], left', right'[1..], m, k, choose, count + 1, count' + 1);
        assert Merge(left', right', merged, Finite(k), choose, count)
               == Merge(left', right'[1..], m, Finite(k), choose, count + 1);
      }
    }
  }

  /** `MergeTrim` where the cut merge stops at once: no room is left, or a side of the
      uncut merge is empty, so the cut merge's side is empty too. */
  lemma StoppedTrim<T>(left: seq<T>, right: seq<T>, left': seq<T>, right': seq<T>,
                       merged: seq<T>, k: int, choose: Chooser<T>, count: nat, count': nat)
    requires |merged| <= k && (k == |merged| || |left| == 0 || |right| == 0)
    requires Take(left', k - |merged|) == Take(left, k - |merged|)
    requires Take(right', k - |merged|) == Take(right, k - |merged|)
    ensures Merge(left', right', merged, Finite(k), choose, count).items
            == Take(Merge(left, right, merged, Infinity, choose, count').items, k)
  {
    var room := k - |merged|;
    var full := Merge(left, right, merged, Infinity, choose, count').items;
    if room == 0 {
      assert Take(full, k) == full[..|merged|];
    } else {
      assert Take(left', room) == [] <==> left' == [];
      assert Take(right', room) == [] <==> right' == [];
      if |left| == 0 {
        assert full == merged + right;
        assert Take(full, k) == merged + Take(right, room);
      } else {
        assert full == merged + left;
        assert Take(full, k) == merged + Take(left, room);
      }
    }
  }

  /** The merge keeps the top of the two runs: if both are sorted by the user's
      preference and every answer follows it, the result holds the `min(limit, |left| +
      |right|)` best songs of `left + right`, most preferred first (script.js:103-104). */
  lemma MergeTop<T(!new)>(left: seq<T>, right: seq<T>, limit: Limit, choose: Chooser<T>, count: nat,
                          pref: (T, T) -> bool)
    requires TotalPreorder(pref) && Consistent(choose, pref)
    requires Sorted(pref, left) && Sorted(pref, right)
    ensures |Merge(left, right, [], limit, choose, count).items| == Cap(limit, |left| + |right|)
    ensures Leads(pref, Merge(left, right, [], limit, choose, count).items, left + right)
  {
    var full := Merge(left, right, [], Infinity, choose, count).items;
    var items := Merge(left, right, [], limit, choose, count).items;
    MergeSelects(left, right, [], Infinity, choose, count);
    MergeSorted(left, right, [], Infinity, choose, count, pref);
    ConsistentIsIndexFree(choose, pref);
    MergeCutIsPrefix(left, right, limit, choose, count);
    PrefixLeads(pref, full, left + right, |items|);
  }

  /** `MergeTrim` for a fresh call on the same runs: the bounded merge is a prefix of the
      unbounded one. */
  lemma MergeCutIsPrefix<T(!new)>(left: seq<T>, right: seq<T>, limit: Limit, choose: Chooser<T>, count: nat)
    requires IndexFree(choose)
    ensures var items := Merge(left, right, [], limit, choose, count).items;
            items == Merge(left, right, [], Infinity, choose, count).items[..|items|]
  {
    if limit.Finite? && 0 <= limit.n {
      MergeTrim(left, right, left, right, [], limit.n, choose, count, count);
    }
  }
}
