/** Sequence helpers shared by the tables, the logs and the rolling windows. */
module Seqs {

  /** Python's list comprehension `[x for x in s if p(x)]`. */
  function Filter<T>(s: seq<T>, p: T -> bool): (r: seq<T>)
    ensures |r| <= |s|
    ensures forall i :: 0 <= i < |r| ==> r[i] in s && p(r[i])
    ensures forall i :: 0 <= i < |s| && p(s[i]) ==> s[i] in r
    decreases |s|
  {
    if |s| == 0 then []
    else (if p(s[0]) then [s[0]] else []) + Filter(s[1..], p)
  }

  lemma {:induction false} FilterAppend<T>(a: seq<T>, b: seq<T>, p: T -> bool)
    ensures Filter(a + b, p) == Filter(a, p) + Filter(b, p)
    decreases |a|
  {
    if |a| == 0 {
      assert a + b == b;
    } else {
      assert (a + b)[1..] == a[1..] + b;
      FilterAppend(a[1..], b, p);
    }
  }

  /** Nothing survives a filter no element passes. */
  lemma {:induction false} FilterNone<T>(s: seq<T>, p: T -> bool)
    requires forall i :: 0 <= i < |s| ==> !p(s[i])
    ensures Filter(s, p) == []
    decreases |s|
  {
    if |s| > 0 {
      assert forall i :: 0 <= i < |s[1..]| ==> s[1..][i] == s[i + 1];
      FilterNone(s[1..], p);
    }
  }

  lemma AppendAssoc<T>(a: seq<T>, b: seq<T>, c: seq<T>)
    ensures (a + b) + c == a + (b + c)
  {
  }

  /** A non-empty list is its prefix followed by its last element. */
  lemma SplitLast<T>(s: seq<T>)
    requires |s| > 0
    ensures s == s[..|s| - 1] + [s[|s| - 1]]
  {
  }

  /** Filtering a list that grew by one element. */
  lemma FilterSnoc<T>(s: seq<T>, x: T, p: T -> bool)
    ensures Filter(s + [x], p) == Filter(s, p) + (if p(x) then [x] else [])
  {
    FilterAppend(s, [x], p);
    assert [x][1..] == [];
  }

  /** `key` strictly increases along `s`. */
  ghost predicate IncreasingBy<T>(s: seq<T>, key: T -> int)
  {
    forall i, j :: 0 <= i < j < |s| ==> key(s[i]) < key(s[j])
  }

  /** Filtering keeps the survivors in their original relative order. */
  lemma {:induction false} FilterKeepsIncreasing<T>(s: seq<T>, p: T -> bool, key: T -> int)
    requires IncreasingBy(s, key)
    ensures IncreasingBy(Filter(s, p), key)
    decreases |s|
  {
    if |s| > 0 {
      var tail := s[1..];
      TailIncreasing(s, key);
      FilterKeepsIncreasing(tail, p, key);
      var rest := Filter(tail, p);
      HeadBelowSurvivors(s, p, key);
      if p(s[0]) {
        ConsIncreasing(s[0], rest, key);
        assert Filter(s, p) == [s[0]] + rest;
      } else {
        assert Filter(s, p) == rest;
      }
    }
  }

  lemma TailIncreasing<T>(s: seq<T>, key: T -> int)
    requires |s| > 0 && IncreasingBy(s, key)
    ensures IncreasingBy(s[1..], key)
  {
    var tail := s[1..];
    forall i, j | 0 <= i < j < |tail|
      ensures key(tail[i]) < key(tail[j])
    {
      assert tail[i] == s[i + 1] && tail[j] == s[j + 1];
    }
  }

  lemma HeadBelowSurvivors<T>(s: seq<T>, p: T -> bool, key: T -> int)
    requires |s| > 0 && IncreasingBy(s, key)
    ensures forall k :: 0 <= k < |Filter(s[1..], p)| ==> key(s[0]) < key(Filter(s[1..], p)[k])
  {
    var tail := s[1..];
    var rest := Filter(tail, p);
    forall k | 0 <= k < |rest|
      ensures key(s[0]) < key(rest[k])
    {
      var m :| 0 <= m < |tail| && tail[m] == rest[k];
      assert tail[m] == s[m + 1];
    }
  }

  lemma ConsIncreasing<T>(x: T, rest: seq<T>, key: T -> int)
    requires IncreasingBy(rest, key)
    requires forall k :: 0 <= k < |rest| ==> key(x) < key(rest[k])
    ensures IncreasingBy([x] + rest, key)
  {
    var r := [x] + rest;
    forall i, j | 0 <= i < j < |r|
      ensures key(r[i]) < key(r[j])
    {
      assert r[j] == rest[j - 1];
      if i > 0 {
        assert r[i] == rest[i - 1];
      }
    }
  }

  /** Python's slice `s[-cap:]` for a positive `cap`: the newest `cap` elements. */
  function Newest<T>(s: seq<T>, cap: nat): (r: seq<T>)
    ensures |r| == if |s| <= cap then |s| else cap
  {
    if |s| <= cap then s else s[|s| - cap..]
  }

  /** Trimming to a positive cap keeps the last element. */
  lemma NewestKeepsLast<T>(s: seq<T>, x: T, cap: nat)
    requires cap > 0
    ensures var r := Newest(s + [x], cap); 0 < |r| <= cap && r[|r| - 1] == x
  {
    var all := s + [x];
    var r := Newest(all, cap);
    assert r[|r| - 1] == all[|all| - 1];
  }

  /** Python's slice `s[:n]`: the first `n` elements. */
  function Take<T>(s: seq<T>, n: nat): (r: seq<T>)
    ensures |r| == if |s| <= n then |s| else n
    ensures r == s[..|r|]
  {
    if |s| <= n then s else s[..n]
  }

  /** Appending elements one by one to a window trimmed to `cap` after each append. */
  function AppendEachTrimmed<T>(log: seq<T>, items: seq<T>, cap: nat): seq<T>
    decreases |items|
  {
    if |items| == 0 then log
    else AppendEachTrimmed(Newest(log + [items[0]], cap), items[1..], cap)
  }

  /**
    Trimming after every append keeps exactly the newest `cap` elements of everything
    appended, in insertion order, as if the whole history had been trimmed once.
   */
  lemma {:induction false} AppendEachTrimmedIsNewest<T>(log: seq<T>, items: seq<T>, cap: nat)
    requires cap > 0 && |log| <= cap
    ensures AppendEachTrimmed(log, items, cap) == Newest(log + items, cap)
    decreases |items|
  {
    if |items| == 0 {
      assert log + items == log;
    } else {
      var next := Newest(log + [items[0]], cap);
      AppendEachTrimmedIsNewest(next, items[1..], cap);
      NewestOfNewest(log + [items[0]], items[1..], cap);
      assert (log + [items[0]]) + items[1..] == log + items;
    }
  }

  /** Trimming a prefix before appending does not change the trimmed result. */
  lemma NewestOfNewest<T>(a: seq<T>, b: seq<T>, cap: nat)
    ensures Newest(Newest(a, cap) + b, cap) == Newest(a + b, cap)
  {
    var na := Newest(a, cap);
    assert na == a[|a| - |na|..];
    var k := |a| - |na|;
    assert a + b == a[..k] + (na + b);
  }

  function SumReals(s: seq<real>): real
    decreases |s|
  {
    if |s| == 0 then 0.0 else s[0] + SumReals(s[1..])
  }

  /** The arithmetic mean of a non-empty sample list. */
  function Mean(s: seq<real>): real
    requires |s| > 0
  {
    SumReals(s) / (|s| as real)
  }
}
