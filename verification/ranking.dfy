/** Ordering rows by a numeric key, largest first, and keeping the first k: the
    `ORDER BY ... DESC LIMIT k` of the dashboard queries.  Ties keep their input
    order, one of the orders the database may produce. */
module Ranking {

  predicate SortedDesc<T>(s: seq<T>, key: T -> int) {
    forall i, j :: 0 <= i < j < |s| ==> key(s[i]) >= key(s[j])
  }

  function Min(a: nat, b: nat): nat {
    if a <= b then a else b
  }

  /** A rearrangement of `u` plus `x` stays below a bound that `u` and `x` stay below. */
  lemma BoundedRearrangement<T>(t: seq<T>, u: seq<T>, x: T, key: T -> int, b: int)
    requires multiset(t) == multiset(u) + multiset{x}
    requires key(x) <= b
    requires forall j :: 0 <= j < |u| ==> key(u[j]) <= b
    ensures forall j :: 0 <= j < |t| ==> key(t[j]) <= b
  {
    forall j | 0 <= j < |t|
      ensures key(t[j]) <= b
    {
      assert t[j] in multiset(t);
      if t[j] != x {
        assert t[j] in multiset(u);
        var i :| 0 <= i < |u| && u[i] == t[j];
      }
    }
  }

  lemma SortedTail<T>(s: seq<T>, key: T -> int)
    requires SortedDesc(s, key) && |s| > 0
    ensures SortedDesc(s[1..], key)
    ensures forall j :: 0 <= j < |s[1..]| ==> key(s[1..][j]) <= key(s[0])
  {
  }

  lemma SortedCons<T>(h: T, t: seq<T>, key: T -> int)
    requires SortedDesc(t, key)
    requires forall j :: 0 <= j < |t| ==> key(t[j]) <= key(h)
    ensures SortedDesc([h] + t, key)
  {
    forall i, j | 0 <= i < j < |[h] + t|
      ensures key(([h] + t)[i]) >= key(([h] + t)[j])
    {
      assert ([h] + t)[j] == t[j - 1];
    }
  }

  /** Puts `x` into a descending sequence, ahead of the rows whose key it equals. */
  function Insert<T>(x: T, s: seq<T>, key: T -> int): (r: seq<T>)
    requires SortedDesc(s, key)
    ensures SortedDesc(r, key)
    ensures multiset(r) == multiset(s) + multiset{x}
    ensures |r| == |s| + 1
  {
    if |s| == 0 || key(x) >= key(s[0]) then
      [x] + s
    else
      SortedTail(s, key);
      var rest := Insert(x, s[1..], key);
      assert s == [s[0]] + s[1..];
      BoundedRearrangement(rest, s[1..], x, key, key(s[0]));
      SortedCons(s[0], rest, key);
      assert multiset([s[0]] + rest) == multiset{s[0]} + multiset(rest);
      [s[0]] + rest
  }

  /** A descending rearrangement of `s`. */
  function SortDesc<T>(s: seq<T>, key: T -> int): (r: seq<T>)
    ensures SortedDesc(r, key)
    ensures multiset(r) == multiset(s)
    ensures |r| == |s|
  {
    if |s| == 0 then []
    else
      assert s == [s[0]] + s[1..];
      Insert(s[0], SortDesc(s[1..], key), key)
  }

  lemma SubMultisetMembers<T>(a: seq<T>, b: seq<T>)
    requires multiset(a) <= multiset(b)
    ensures forall x :: x in a ==> x in b
  {
    forall x | x in a
      ensures x in b
    {
      assert x in multiset(a);
    }
  }

  /** The first `n` rows of a descending rearrangement of `s`: drawn from `s`, and
      no row of `s` left out has a larger key than a row kept. */
  lemma PrefixDominates<T>(s: seq<T>, sorted: seq<T>, key: T -> int, n: nat)
    requires SortedDesc(sorted, key) && multiset(sorted) == multiset(s) && n <= |sorted|
    ensures multiset(sorted[..n]) <= multiset(s)
    ensures forall x :: x in sorted[..n] ==> x in s
    ensures forall x, y :: x in multiset(s) - multiset(sorted[..n]) && y in sorted[..n] ==> key(y) >= key(x)
  {
    var kept, rest := sorted[..n], sorted[n..];
    assert sorted == kept + rest;
    assert multiset(s) == multiset(kept) + multiset(rest);
    assert multiset(s) - multiset(kept) == multiset(rest);
    SubMultisetMembers(kept, s);
    forall x, y | x in multiset(rest) && y in kept
      ensures key(y) >= key(x)
    {
      var i :| 0 <= i < |rest| && rest[i] == x;
      var j :| 0 <= j < n && kept[j] == y;
      assert sorted[n + i] == x && sorted[j] == y;
    }
  }

  /** The `k` rows of largest key: exactly min(k, |s|) of them, drawn from `s`, in
      descending order, and no row left out has a larger key than a row kept. */
  function Top<T>(s: seq<T>, key: T -> int, k: nat): (r: seq<T>)
    ensures |r| == Min(k, |s|)
    ensures SortedDesc(r, key)
    ensures multiset(r) <= multiset(s)
    ensures forall x :: x in r ==> x in s
    ensures forall x, y :: x in multiset(s) - multiset(r) && y in r ==> key(y) >= key(x)
  {
    var sorted := SortDesc(s, key);
    var n := Min(k, |sorted|);
    PrefixDominates(s, sorted, key, n);
    sorted[..n]
  }
}
