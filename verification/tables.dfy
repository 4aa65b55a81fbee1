/** Row filtering as a `WHERE` clause does it, and the primary-key property it keeps. */
module Tables {

  /** The rows of `s` that satisfy `keep`, in table order. */
  function Filter<T(!new)>(s: seq<T>, keep: T -> bool): (r: seq<T>)
    ensures forall x :: x in r <==> x in s && keep(x)
    ensures multiset(r) <= multiset(s)
    ensures |r| <= |s|
  {
    if |s| == 0 then []
    else
      var rest := Filter(s[1..], keep);
      assert s == [s[0]] + s[1..];
      if keep(s[0]) then [s[0]] + rest else rest
  }

  predicate KeysUnique<T(!new)>(s: seq<T>, key: T -> int) {
    forall i, j :: 0 <= i < j < |s| ==> key(s[i]) != key(s[j])
  }

  lemma KeysUniqueTail<T(!new)>(s: seq<T>, key: T -> int)
    requires |s| > 0 && KeysUnique(s, key)
    ensures KeysUnique(s[1..], key)
    ensures forall y :: y in s[1..] ==> key(y) != key(s[0])
  {
    forall y | y in s[1..]
      ensures key(y) != key(s[0])
    {
      var k :| 0 <= k < |s[1..]| && s[1..][k] == y;
      assert s[k + 1] == y;
    }
  }

  lemma KeysUniqueCons<T(!new)>(x: T, s: seq<T>, key: T -> int)
    requires KeysUnique(s, key)
    requires forall y :: y in s ==> key(y) != key(x)
    ensures KeysUnique([x] + s, key)
  {
    forall i, j | 0 <= i < j < |[x] + s|
      ensures key(([x] + s)[i]) != key(([x] + s)[j])
    {
      assert ([x] + s)[j] == s[j - 1];
      if i == 0 {
        assert s[j - 1] in s;
      }
    }
  }

  /** Deleting rows never breaks a primary key. */
  lemma {:induction false} FilterKeysUnique<T(!new)>(s: seq<T>, keep: T -> bool, key: T -> int)
    requires KeysUnique(s, key)
    ensures KeysUnique(Filter(s, keep), key)
  {
    if |s| > 0 {
      KeysUniqueTail(s, key);
      FilterKeysUnique(s[1..], keep, key);
      if keep(s[0]) {
        KeysUniqueCons(s[0], Filter(s[1..], keep), key);
      }
    }
  }

  /** A condition every row meets deletes nothing. */
  lemma {:induction false} FilterAll<T(!new)>(s: seq<T>, keep: T -> bool)
    requires forall x :: x in s ==> keep(x)
    ensures Filter(s, keep) == s
  {
    if |s| > 0 {
      assert forall x :: x in s[1..] ==> x in s;
      FilterAll(s[1..], keep);
      assert s == [s[0]] + s[1..];
    }
  }

  /** Filtering a table with one more row at its end. */
  lemma {:induction false} FilterSnoc<T(!new)>(s: seq<T>, x: T, keep: T -> bool)
    ensures Filter(s + [x], keep) == if keep(x) then Filter(s, keep) + [x] else Filter(s, keep)
  {
    if |s| == 0 {
      assert [x][1..] == [];
    } else {
      assert (s + [x])[1..] == s[1..] + [x];
      FilterSnoc(s[1..], x, keep);
    }
  }

  lemma {:induction false} FilterDropsHead<T(!new)>(s: seq<T>, keep: T -> bool)
    requires |s| > 0 && !keep(s[0])
    requires forall y :: y in s[1..] ==> keep(y)
    ensures Filter(s, keep) == s[1..]
  {
    FilterAll(s[1..], keep);
  }

  lemma FilterKeepsHead<T(!new)>(s: seq<T>, keep: T -> bool)
    requires |s| > 0 && keep(s[0])
    ensures Filter(s, keep) == [s[0]] + Filter(s[1..], keep)
  {
  }

  /** When the condition singles out the one row with `x`'s key, exactly that row goes. */
  lemma {:induction false} FilterRemovesOne<T(!new)>(s: seq<T>, x: T, keep: T -> bool, key: T -> int)
    requires KeysUnique(s, key) && x in s
    requires forall y :: y in s ==> (keep(y) <==> key(y) != key(x))
    ensures multiset(Filter(s, keep)) == multiset(s) - multiset{x}
  {
    KeysUniqueTail(s, key);
    var head, tail := s[0], s[1..];
    assert s == [head] + tail;
    assert multiset(s) == multiset{head} + multiset(tail);
    if head == x {
      forall y | y in tail
        ensures keep(y)
      {
        assert y in s;
      }
      FilterDropsHead(s, keep);
    } else {
      assert x in tail;
      assert keep(head);
      forall y | y in tail
        ensures keep(y) <==> key(y) != key(x)
      {
        assert y in s;
      }
      FilterRemovesOne(tail, x, keep, key);
      FilterKeepsHead(s, keep);
    }
  }
}
