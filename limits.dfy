/** The ranking bound `topLimit` and the truncations it causes. */
module Limits {

  /** `topLimit` (script.js:4): `Infinity` unless the configuration names a number. */
  datatype Limit = Infinity | Finite(n: int)

  /** The early-stop test `merged.length >= limit` (script.js:104). */
  predicate Reached(limit: Limit, len: nat) {
    limit.Finite? && len >= limit.n
  }

  /** A limit that never cuts a collection of `n` songs short. */
  predicate Admits(limit: Limit, n: nat) {
    n == 0 || limit.Infinity? || n <= limit.n
  }

  /** How many of `n` songs survive the limit: `min(limit, n)`, never below zero. */
  function Cap(limit: Limit, n: nat): (c: nat)
    ensures c <= n
    ensures Admits(limit, n) <==> c == n
    ensures limit.Finite? && !Admits(limit, n) ==> c == if limit.n < 0 then 0 else limit.n
  {
    match limit
    case Infinity => n
    case Finite(k) => if k <= 0 then 0 else if k < n then k else n
  }

  /** The first `n` elements of `s` (all of them when `n >= |s|`, none when `n <= 0`). */
  function Take<T>(s: seq<T>, n: int): (r: seq<T>)
    ensures |r| == if n <= 0 then 0 else if n < |s| then n else |s|
    ensures r == s[..|r|]
  {
    if n <= 0 then [] else if n < |s| then s[..n] else s
  }

  /** Taking from sequences that agree on their first `n` elements agrees on fewer. */
  lemma TakeFewer<T>(s: seq<T>, t: seq<T>, n: int, m: int)
    requires Take(s, n) == Take(t, n)
    requires m <= n
    ensures Take(s, m) == Take(t, m)
  {
    if 0 < m {
      assert Take(s, m) == Take(s, n)[..|Take(s, m)|] by {
        assert |Take(s, m)| <= |Take(s, n)|;
      }
      assert Take(t, m) == Take(t, n)[..|Take(t, m)|];
    }
  }

  /** Agreement on the first `n` elements, after dropping the common first element. */
  lemma TakeTail<T>(s: seq<T>, t: seq<T>, n: int)
    requires Take(s, n) == Take(t, n)
    requires 0 < n && 0 < |s|
    ensures 0 < |t| && s[0] == t[0]
    ensures Take(s[1..], n - 1) == Take(t[1..], n - 1)
  {
    assert Take(s, n)[0] == s[0];
    assert |Take(t, n)| > 0;
    assert Take(s[1..], n - 1) == Take(s, n)[1..];
    assert Take(t[1..], n - 1) == Take(t, n)[1..];
  }

  /** Keeping `n` elements, then `n` again, keeps the same elements. */
  lemma TakeTwice<T>(s: seq<T>, n: int)
    ensures Take(Take(s, n), n) == Take(s, n)
  {
  }
}
