/** ORDER BY and Array.prototype.sort: a stable insertion sort by a comparison, and
    what makes its result unique. */
module Ordering {
  import opened Collections

  function Insert<T>(x: T, s: seq<T>, less: (T, T) -> bool): (r: seq<T>)
    ensures |r| == |s| + 1
  {
    if |s| == 0 || !less(s[0], x) then [x] + s
    else [s[0]] + Insert(x, s[1..], less)
  }

  function Sort<T>(s: seq<T>, less: (T, T) -> bool): (r: seq<T>)
    ensures |r| == |s|
  {
    if |s| == 0 then [] else Insert(s[0], Sort(s[1..], less), less)
  }

  /** Strictly increasing: in particular no two equal entries. */
  ghost predicate Increasing<T>(s: seq<T>, less: (T, T) -> bool) {
    forall i, j | 0 <= i < j < |s| :: less(s[i], s[j])
  }

  /** A strict order that decides between any two different entries of s. */
  ghost predicate Decides<T>(s: seq<T>, less: (T, T) -> bool) {
    && (forall x | x in s :: !less(x, x))
    && (forall x, y | x in s && y in s && x != y :: less(x, y) || less(y, x))
    && (forall x, y, z | x in s && y in s && z in s && less(x, y) && less(y, z) :: less(x, z))
  }

  ghost predicate SameMembers<T>(s: seq<T>, t: seq<T>) {
    && (forall x | x in s :: x in t)
    && (forall x | x in t :: x in s)
  }

  lemma DecidesSome<T>(s: seq<T>, t: seq<T>, less: (T, T) -> bool)
    requires Decides(s, less)
    requires forall x | x in t :: x in s
    ensures Decides(t, less)
  {}

  lemma {:induction false} InsertMembers<T>(x: T, s: seq<T>, less: (T, T) -> bool)
    ensures SameMembers(Insert(x, s, less), [x] + s)
    ensures multiset(Insert(x, s, less)) == multiset([x] + s)
  {
    if |s| != 0 && less(s[0], x) {
      InsertMembers(x, s[1..], less);
      assert [x] + s == [x] + [s[0]] + s[1..];
    }
  }

  lemma {:induction false} SortMembers<T>(s: seq<T>, less: (T, T) -> bool)
    ensures SameMembers(Sort(s, less), s)
    ensures multiset(Sort(s, less)) == multiset(s)
  {
    if |s| != 0 {
      SortMembers(s[1..], less);
      InsertMembers(s[0], Sort(s[1..], less), less);
      assert s == [s[0]] + s[1..];
    }
  }

  lemma {:induction false} InsertIncreasing<T>(x: T, s: seq<T>, less: (T, T) -> bool)
    requires Decides([x] + s, less)
    requires x !in s
    requires Increasing(s, less)
    ensures Increasing(Insert(x, s, less), less)
  {
    if |s| == 0 || !less(s[0], x) {
      forall j | 0 <= j < |s| ensures less(x, s[j]) {
        assert x in [x] + s && s[0] in [x] + s && s[j] in [x] + s;
      }
    } else {
      DecidesSome([x] + s, [x] + s[1..], less);
      InsertIncreasing(x, s[1..], less);
      InsertMembers(x, s[1..], less);
      var r := Insert(x, s[1..], less);
      forall j | 0 <= j < |r| ensures less(s[0], r[j]) {
        assert r[j] in r;
        assert r[j] in [x] + s[1..];
      }
    }
  }

  lemma {:induction false} SortIncreasing<T>(s: seq<T>, less: (T, T) -> bool)
    requires Distinct(s)
    requires Decides(s, less)
    ensures Increasing(Sort(s, less), less)
  {
    if |s| != 0 {
      var r := Sort(s[1..], less);
      DecidesSome(s, s[1..], less);
      SortIncreasing(s[1..], less);
      SortMembers(s[1..], less);
      DecidesSome(s, [s[0]] + r, less);
      assert s[0] !in s[1..];
      InsertIncreasing(s[0], r, less);
    }
  }

  lemma {:induction false} FilterIncreasing<T>(s: seq<T>, p: T -> bool, less: (T, T) -> bool)
    requires Increasing(s, less)
    ensures Increasing(Filter(s, p), less)
  {
    if |s| != 0 {
      var front := s[..|s| - 1];
      FilterIncreasing(front, p, less);
      FilterMembers(front, p);
      var r := Filter(front, p);
      forall i | 0 <= i < |r| ensures less(r[i], s[|s| - 1]) {
        assert r[i] in front;
      }
    }
  }

  lemma FirstAgrees<T>(s: seq<T>, t: seq<T>, less: (T, T) -> bool)
    requires |s| != 0 && |t| != 0
    requires Increasing(s, less) && Increasing(t, less)
    requires Decides(s, less)
    requires SameMembers(s, t)
    ensures s[0] == t[0]
  {
    assert s[0] in s && t[0] in t;
    var k :| 0 <= k < |t| && t[k] == s[0];
    var j :| 0 <= j < |s| && s[j] == t[0];
  }

  lemma TailMember<T>(s: seq<T>, less: (T, T) -> bool, x: T)
    requires |s| != 0
    requires Increasing(s, less)
    requires !less(s[0], s[0])
    ensures x in s[1..] <==> x in s && x != s[0]
  {
    assert s == [s[0]] + s[1..];
    if x in s[1..] {
      var j :| 0 <= j < |s[1..]| && s[1..][j] == x;
      assert less(s[0], s[j + 1]);
    }
  }

  lemma TailsAgree<T>(s: seq<T>, t: seq<T>, less: (T, T) -> bool)
    requires |s| != 0 && |t| != 0 && s[0] == t[0] && !less(s[0], s[0])
    requires Increasing(s, less) && Increasing(t, less)
    requires SameMembers(s, t)
    ensures SameMembers(s[1..], t[1..])
  {
    forall x | x in s[1..] ensures x in t[1..] {
      TailMember(s, less, x);
      TailMember(t, less, x);
    }
    forall x | x in t[1..] ensures x in s[1..] {
      TailMember(s, less, x);
      TailMember(t, less, x);
    }
  }

  /** There is only one way to write a set of rows in increasing order. */
  lemma {:induction false} IncreasingUnique<T>(s: seq<T>, t: seq<T>, less: (T, T) -> bool)
    requires Increasing(s, less) && Increasing(t, less)
    requires Decides(s, less)
    requires SameMembers(s, t)
    ensures s == t
  {
    assert |t| != 0 ==> t[0] in t;
    assert |s| != 0 ==> s[0] in s;
    if |s| != 0 {
      FirstAgrees(s, t, less);
      TailsAgree(s, t, less);
      DecidesSome(s, s[1..], less);
      IncreasingUnique(s[1..], t[1..], less);
      assert s == [s[0]] + s[1..] && t == [t[0]] + t[1..];
    }
  }

  lemma SortUnique<T>(s: seq<T>, t: seq<T>, less: (T, T) -> bool)
    requires Distinct(s) && Decides(s, less)
    requires Increasing(t, less)
    requires SameMembers(s, t)
    ensures Sort(s, less) == t
  {
    var r := Sort(s, less);
    SortIncreasing(s, less);
    SortMembers(s, less);
    DecidesSome(s, r, less);
    assert SameMembers(r, t);
    IncreasingUnique(r, t, less);
  }

  lemma {:induction false} SumInsert<T>(x: T, s: seq<T>, less: (T, T) -> bool, f: T -> int)
    ensures Sum(Insert(x, s, less), f) == f(x) + Sum(s, f)
  {
    SumConcat([x], s, f);
    assert Sum([x], f) == f(x);
    if |s| != 0 && less(s[0], x) {
      SumInsert(x, s[1..], less, f);
      SumConcat([s[0]], Insert(x, s[1..], less), f);
      SumConcat([s[0]], s[1..], f);
      assert s == [s[0]] + s[1..];
    }
  }

  /** Sorting does not change a sum. */
  lemma {:induction false} SumSort<T>(s: seq<T>, less: (T, T) -> bool, f: T -> int)
    ensures Sum(Sort(s, less), f) == Sum(s, f)
  {
    if |s| != 0 {
      SumSort(s[1..], less, f);
      SumInsert(s[0], Sort(s[1..], less), less, f);
      SumConcat([s[0]], s[1..], f);
      assert s == [s[0]] + s[1..];
    }
  }

  lemma {:induction false} FilterKeepsDistinct<T>(s: seq<T>, p: T -> bool)
    requires Distinct(s)
    ensures Distinct(Filter(s, p))
  {
    if |s| != 0 {
      var front := s[..|s| - 1];
      FilterKeepsDistinct(front, p);
      FilterMembers(front, p);
      var r := Filter(front, p);
      forall i | 0 <= i < |r| ensures r[i] != s[|s| - 1] { assert r[i] in front; }
    }
  }

  /** Filtering a sorted list is sorting the filtered one. */
  lemma FilterOfSort<T>(s: seq<T>, p: T -> bool, less: (T, T) -> bool)
    requires Distinct(s) && Decides(s, less)
    ensures Filter(Sort(s, less), p) == Sort(Filter(s, p), less)
  {
    var sorted, kept := Sort(s, less), Filter(s, p);
    SortIncreasing(s, less);
    SortMembers(s, less);
    FilterIncreasing(sorted, p, less);
    FilterMembers(s, p);
    FilterMembers(sorted, p);
    FilterKeepsDistinct(s, p);
    DecidesSome(s, kept, less);
    SortUnique(kept, Filter(sorted, p), less);
  }
}
