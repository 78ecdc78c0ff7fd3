/** Preferences between songs, runs ordered by preference, and interleavings of runs. */
module Order {

  /** `pref(a, b)`: the judge ranks `a` at least as high as `b`. A total preorder: any
      two songs are comparable (a song is comparable with itself), and ranking is transitive. */
  ghost predicate TotalPreorder<T(!new)>(pref: (T, T) -> bool) {
    && (forall a, b :: pref(a, b) || pref(b, a))
    && (forall a, b, c :: pref(a, b) && pref(b, c) ==> pref(a, c))
  }

  /** Most preferred first: every song ranks at least as high as every later one. */
  ghost predicate Sorted<T>(pref: (T, T) -> bool, s: seq<T>) {
    forall i, j :: 0 <= i < j < |s| ==> pref(s[i], s[j])
  }

  /** `s` is made of all of `a` and all of `b`, each kept in its own order. */
  ghost predicate IsInterleaving<T>(s: seq<T>, a: seq<T>, b: seq<T>)
    decreases |s|
  {
    if |s| == 0 then |a| == 0 && |b| == 0
    else
      || (|a| > 0 && s[0] == a[0] && IsInterleaving(s[1..], a[1..], b))
      || (|b| > 0 && s[0] == b[0] && IsInterleaving(s[1..], a, b[1..]))
  }

  /** `s` interleaves some prefix of `a` with some prefix of `b`. */
  ghost predicate InterleavesPrefixes<T>(s: seq<T>, a: seq<T>, b: seq<T>) {
    exists i, j :: 0 <= i <= |a| && 0 <= j <= |b| && IsInterleaving(s, a[..i], b[..j])
  }

  /** `top` holds the |top| best songs of `pool`, most preferred first: it is sorted, it
      is drawn from `pool`, and each song in it ranks at least as high as each song left out. */
  ghost predicate Leads<T>(pref: (T, T) -> bool, top: seq<T>, pool: seq<T>) {
    && Sorted(pref, top)
    && multiset(top) <= multiset(pool)
    && forall x, y :: x in multiset(top) && y in multiset(pool) - multiset(top) ==> pref(x, y)
  }

  /** Totality makes a preference reflexive. */
  lemma Reflexive<T(!new)>(pref: (T, T) -> bool, x: T)
    requires TotalPreorder(pref)
    ensures pref(x, x)
  {
    assert pref(x, x) || pref(x, x);
  }

  /** Two sorted runs whose junction is in order form a sorted run. */
  lemma SortedAppend<T(!new)>(pref: (T, T) -> bool, a: seq<T>, b: seq<T>)
    requires TotalPreorder(pref) && Sorted(pref, a) && Sorted(pref, b)
    requires |a| > 0 && |b| > 0 ==> pref(a[|a| - 1], b[0])
    ensures Sorted(pref, a + b)
  {
    var s := a + b;
    forall i, j | 0 <= i < j < |s| ensures pref(s[i], s[j]) {
      if j < |a| {
        assert s[i] == a[i] && s[j] == a[j];
      } else if |a| <= i {
        assert s[i] == b[i - |a|] && s[j] == b[j - |a|];
      } else {
        var last, k := a[|a| - 1], j - |a|;
        assert s[i] == a[i] && s[j] == b[k];
        assert pref(a[i], last) by { Reflexive(pref, last); }
        assert pref(b[0], b[k]) by { Reflexive(pref, b[0]); }
      }
    }
  }

  /** Any prefix of a sorted run is sorted. */
  lemma SortedPrefix<T>(pref: (T, T) -> bool, s: seq<T>, n: nat)
    requires Sorted(pref, s) && n <= |s|
    ensures Sorted(pref, s[..n])
  {
    assert forall i :: 0 <= i < n ==> s[..n][i] == s[i];
  }

  /** A prefix holds no song more often than the whole. */
  lemma PrefixMultiset<T>(s: seq<T>, i: nat)
    requires i <= |s|
    ensures multiset(s[..i]) <= multiset(s)
  {
    assert s == s[..i] + s[i..];
  }

  /** Adding songs on both sides keeps a sub-multiset below its bound. */
  lemma MultisetAddMono<T>(a: multiset<T>, b: multiset<T>, c: multiset<T>, d: multiset<T>)
    requires a <= c && b <= d
    ensures a + b <= c + d
  {
  }

  /** An interleaving consists of exactly the songs of its two runs. */
  lemma {:induction false} InterleavingMultiset<T>(s: seq<T>, a: seq<T>, b: seq<T>)
    requires IsInterleaving(s, a, b)
    ensures |s| == |a| + |b|
    ensures multiset(s) == multiset(a) + multiset(b)
  {
    if |s| > 0 {
      assert s == [s[0]] + s[1..];
      if |a| > 0 && s[0] == a[0] && IsInterleaving(s[1..], a[1..], b) {
        InterleavingMultiset(s[1..], a[1..], b);
        assert a == [a[0]] + a[1..];
      } else {
        InterleavingMultiset(s[1..], a, b[1..]);
        assert b == [b[0]] + b[1..];
      }
    }
  }

  /** Putting the front of `a` before `s`, where `s` interleaves prefixes of the rest of `a`
      and of `b`, interleaves prefixes of `a` and `b`. */
  lemma InterleavesPrefixesLeft<T>(s: seq<T>, a: seq<T>, b: seq<T>)
    requires 0 < |s| && 0 < |a| && s[0] == a[0]
    requires InterleavesPrefixes(s[1..], a[1..], b)
    ensures InterleavesPrefixes(s, a, b)
  {
    var i, j :| 0 <= i <= |a| - 1 && 0 <= j <= |b| && IsInterleaving(s[1..], a[1..][..i], b[..j]);
    assert a[..i + 1][0] == a[0] && a[..i + 1][1..] == a[1..][..i];
    assert IsInterleaving(s, a[..i + 1], b[..j]);
  }

  /** The same with the front of `b`. */
  lemma InterleavesPrefixesRight<T>(s: seq<T>, a: seq<T>, b: seq<T>)
    requires 0 < |s| && 0 < |b| && s[0] == b[0]
    requires InterleavesPrefixes(s[1..], a, b[1..])
    ensures InterleavesPrefixes(s, a, b)
  {
    var i, j :| 0 <= i <= |a| && 0 <= j <= |b| - 1 && IsInterleaving(s[1..], a[..i], b[1..][..j]);
    assert b[..j + 1][0] == b[0] && b[..j + 1][1..] == b[1..][..j];
    assert IsInterleaving(s, a[..i], b[..j + 1]);
  }

  /** A run is an interleaving of itself with nothing, on either side. */
  lemma {:induction false} InterleavingAlone<T>(s: seq<T>)
    ensures IsInterleaving(s, s, []) && IsInterleaving(s, [], s)
  {
    if |s| > 0 {
      InterleavingAlone(s[1..]);
    }
  }

  /** The first `n` songs of a sorted arrangement of `pool` lead `pool`. */
  lemma PrefixLeads<T>(pref: (T, T) -> bool, full: seq<T>, pool: seq<T>, n: nat)
    requires Sorted(pref, full) && multiset(full) == multiset(pool)
    requires n <= |full|
    ensures Leads(pref, full[..n], pool)
  {
    var top, rest := full[..n], full[n..];
    assert full == top + rest;
    assert multiset(pool) - multiset(top) == multiset(rest);
    SortedPrefix(pref, full, n);
    forall x, y | x in multiset(top) && y in multiset(pool) - multiset(top) ensures pref(x, y) {
      assert x in top;
      var i :| 0 <= i < n && top[i] == x;
      assert y in rest;
      var j :| 0 <= j < |rest| && rest[j] == y;
      assert full[i] == x && full[n + j] == y;
    }
  }
}
