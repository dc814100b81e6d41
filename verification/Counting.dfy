/** Counting the occurrences of elements in sequences. */
module Counting {
  lemma UpdateCount<T>(s: seq<T>, i: nat, v: T, x: T)
    requires i < |s|
    ensures multiset(s[i := v])[x] == multiset(s)[x] - (if s[i] == x then 1 else 0) + (if v == x then 1 else 0)
  {
    assert s == s[..i] + [s[i]] + s[i + 1..];
    assert s[i := v] == s[..i] + [v] + s[i + 1..];
  }

  lemma SnocCount<T>(s: seq<T>, v: T, x: T)
    ensures multiset(s + [v])[x] == multiset(s)[x] + if v == x then 1 else 0
  {
  }

  lemma AppendCount<T>(s: seq<T>, t: seq<T>, x: T)
    ensures multiset(s + t)[x] == multiset(s)[x] + multiset(t)[x]
  {
  }

  /** Two sequences with the same elements still have them when one element is taken out of both. */
  lemma SameWithout<T>(s: seq<T>, x: T, a: seq<T>, b: seq<T>)
    requires multiset(s + [x]) == multiset(a + [x] + b)
    ensures multiset(s) == multiset(a + b)
  {
    forall y ensures multiset(s)[y] == multiset(a + b)[y] {
      SnocCount(s, x, y);
      AppendCount(a + [x], b, y);
      SnocCount(a, x, y);
      AppendCount(a, b, y);
    }
  }

  lemma {:induction false} SmallNumbers(s: set<nat>, n: nat)
    requires forall x | x in s :: x < n
    ensures |s| <= n
  {
    if n > 0 {
      SmallNumbers(s - {n - 1}, n - 1);
    } else {
      assert s == {};
    }
  }

  ghost function Elements(s: seq<nat>): set<nat> { set x | x in s }

  /** A sequence of small numbers without repetition is short. */
  lemma {:induction false} ShortIfDistinct(s: seq<nat>, n: nat)
    requires forall x: nat :: multiset(s)[x] <= if x < n then 1 else 0
    ensures |s| <= n
  {
    DistinctSize(s);
    forall x | x in Elements(s) ensures x < n {
      assert x in multiset(s);
    }
    SmallNumbers(Elements(s), n);
  }

  lemma {:induction false} DistinctSize(s: seq<nat>)
    requires forall x: nat :: multiset(s)[x] <= 1
    ensures |Elements(s)| == |s|
  {
    if s != [] {
      var front: seq<nat>, last: nat := s[..|s| - 1], s[|s| - 1];
      assert s == front + [last];
      forall x: nat ensures multiset(front)[x] <= 1 {
        SnocCount(front, last, x);
        assert multiset(s)[x] <= 1;
      }
      SnocCount(front, last, last);
      assert multiset(s)[last] <= 1;
      assert last !in multiset(front);
      DistinctSize(front);
      assert Elements(s) == Elements(front) + {last};
    }
  }
}
