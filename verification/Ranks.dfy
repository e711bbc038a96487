/** Order statistics of a list of numbers: what an index into its sorted form means without sorting. */
module Ranks {

  predicate Ascending(s: seq<int>) {
    |s| < 2 || (s[0] <= s[1] && Ascending(s[1..]))
  }

  function Insert(x: int, s: seq<int>): (r: seq<int>)
    requires Ascending(s)
    ensures Ascending(r) && multiset(r) == multiset(s) + multiset{x}
    ensures r != [] && r[0] == if s != [] && s[0] < x then s[0] else x
  {
    if s == [] || x <= s[0] then
      assert ([x] + s)[1..] == s;
      [x] + s
    else
      assert s == [s[0]] + s[1..];
      var r := [s[0]] + Insert(x, s[1..]);
      assert r[1..] == Insert(x, s[1..]);
      r
  }

  function Sort(s: seq<int>): (r: seq<int>)
    ensures Ascending(r) && multiset(r) == multiset(s) && |r| == |s|
  {
    if s == [] then []
    else
      assert s == [s[0]] + s[1..];
      var r := Insert(s[0], Sort(s[1..]));
      assert |r| == |multiset(r)| == |multiset(s)| == |s|;
      r
  }

  lemma {:induction false} FirstIsLeast(s: seq<int>, k: nat)
    requires Ascending(s) && k < |s|
    ensures s[0] <= s[k]
  {
    if k > 0 {
      FirstIsLeast(s[1..], k - 1);
    }
  }

  /** How many elements are below, and how many are at most, a value. */
  function Below(s: seq<int>, x: int): nat {
    if s == [] then 0 else (if s[0] < x then 1 else 0) + Below(s[1..], x)
  }

  function UpTo(s: seq<int>, x: int): nat {
    if s == [] then 0 else (if s[0] <= x then 1 else 0) + UpTo(s[1..], x)
  }

  /** `x` is what stands at index `k` once `s` is sorted. */
  predicate HasRank(s: seq<int>, k: nat, x: int) {
    x in s && Below(s, x) <= k < UpTo(s, x)
  }

  lemma {:induction false} BelowConcat(a: seq<int>, b: seq<int>, x: int)
    ensures Below(a + b, x) == Below(a, x) + Below(b, x) && UpTo(a + b, x) == UpTo(a, x) + UpTo(b, x)
  {
    if a == [] {
      assert a + b == b;
    } else {
      assert (a + b)[1..] == a[1..] + b;
      BelowConcat(a[1..], b, x);
    }
  }

  lemma Remove(s: seq<int>, i: nat, x: int)
    requires i < |s|
    ensures var t := s[..i] + s[i + 1..];
      && multiset(t) == multiset(s) - multiset{s[i]}
      && Below(s, x) == Below(t, x) + (if s[i] < x then 1 else 0)
      && UpTo(s, x) == UpTo(t, x) + (if s[i] <= x then 1 else 0)
  {
    assert s == s[..i] + ([s[i]] + s[i + 1..]);
    assert multiset(s) == multiset(s[..i]) + multiset{s[i]} + multiset(s[i + 1..]);
    BelowConcat(s[..i], [s[i]] + s[i + 1..], x);
    BelowConcat([s[i]], s[i + 1..], x);
    BelowConcat(s[..i], s[i + 1..], x);
  }

  lemma Find<T>(t: seq<T>, x: T) returns (i: nat)
    requires x in multiset(t)
    ensures i < |t| && t[i] == x
  {
    i :| 0 <= i < |t| && t[i] == x;
  }

  /** The counts, and so the rank, do not depend on the order. */
  lemma {:induction false} CountsPermute(s: seq<int>, t: seq<int>, x: int)
    requires multiset(s) == multiset(t)
    ensures Below(s, x) == Below(t, x) && UpTo(s, x) == UpTo(t, x)
    decreases |s|
  {
    if s == [] {
      assert |multiset(t)| == 0;
    } else {
      var i := Find(t, s[0]);
      Remove(s, 0, x);
      Remove(t, i, x);
      assert s[..0] + s[1..] == s[1..];
      CountsPermute(s[1..], t[..i] + t[i + 1..], x);
    }
  }

  lemma {:induction false} SortedCounts(s: seq<int>, k: nat)
    requires Ascending(s) && k < |s|
    ensures Below(s, s[k]) <= k < UpTo(s, s[k])
    decreases |s|
  {
    FirstIsLeast(s, k);
    if k > 0 {
      SortedCounts(s[1..], k - 1);
    } else {
      NoneBelow(s, s[0]);
    }
  }

  lemma {:induction false} NoneBelow(s: seq<int>, x: int)
    requires Ascending(s) && (s != [] ==> x <= s[0])
    ensures Below(s, x) == 0
  {
    if s != [] {
      NoneBelow(s[1..], x);
    }
  }

  lemma {:induction false} Counts(s: seq<int>, x: int, y: int)
    requires x < y
    ensures UpTo(s, x) <= Below(s, y)
  {
    if s != [] {
      Counts(s[1..], x, y);
    }
  }

  lemma SortedHasRank(s: seq<int>, k: nat)
    requires k < |s|
    ensures HasRank(s, k, Sort(s)[k])
  {
    SortedCounts(Sort(s), k);
    CountsPermute(s, Sort(s), Sort(s)[k]);
    assert Sort(s)[k] in multiset(Sort(s));
  }

  /** A rank is had by one value only. */
  lemma RankIsUnique(s: seq<int>, k: nat, x: int, y: int)
    requires Below(s, x) <= k < UpTo(s, x) && Below(s, y) <= k < UpTo(s, y)
    ensures x == y
  {
    if x < y {
      Counts(s, x, y);
    } else if y < x {
      Counts(s, y, x);
    }
  }

  /** A lower rank is had by a value that is no larger. */
  lemma RanksAreOrdered(s: seq<int>, k: nat, l: nat, x: int, y: int)
    requires k <= l && HasRank(s, k, x) && HasRank(s, l, y)
    ensures x <= y
  {
    if y < x {
      Counts(s, y, x);
    }
  }

  lemma {:induction false} CountsBound(s: seq<int>, x: int)
    ensures Below(s, x) <= UpTo(s, x) <= |s|
    ensures Below(s, x) == 0 ==> forall y <- s :: x <= y
    ensures UpTo(s, x) == |s| ==> forall y <- s :: y <= x
  {
    if s != [] {
      CountsBound(s[1..], x);
      assert s == [s[0]] + s[1..];
    }
  }

  /** The first rank is the least value's, the last the largest's. */
  lemma EndRanks(s: seq<int>, x: int)
    ensures HasRank(s, 0, x) ==> forall y <- s :: x <= y
    ensures |s| > 0 && HasRank(s, |s| - 1, x) ==> forall y <- s :: y <= x
  {
    CountsBound(s, x);
  }
}
