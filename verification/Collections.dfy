/** Sums, searches, filters and sorts over tables, each row set being a `seq`. */
module Collections {

  datatype Option<+T> = None | Some(value: T)

  /** The SQL aggregate SUM with COALESCE(.., 0). */
  function Sum<T>(s: seq<T>, f: T -> int): int {
    if |s| == 0 then 0 else Sum(s[..|s| - 1], f) + f(s[|s| - 1])
  }

  lemma SumSnoc<T>(s: seq<T>, x: T, f: T -> int)
    ensures Sum(s + [x], f) == Sum(s, f) + f(x)
  {
    assert (s + [x])[..|s|] == s;
  }

  lemma {:induction false} SumConcat<T>(s: seq<T>, t: seq<T>, f: T -> int)
    ensures Sum(s + t, f) == Sum(s, f) + Sum(t, f)
  {
    if |t| == 0 {
      assert s + t == s;
    } else {
      var front, x := t[..|t| - 1], t[|t| - 1];
      assert s + t == (s + front) + [x];
      SumSnoc(s + front, x, f);
      SumConcat(s, front, f);
    }
  }

  lemma {:induction false} SumSame<T>(s: seq<T>, f: T -> int, g: T -> int)
    requires forall x | x in s :: f(x) == g(x)
    ensures Sum(s, f) == Sum(s, g)
  {
    if |s| != 0 {
      SumSame(s[..|s| - 1], f, g);
    }
  }

  lemma {:induction false} SumLess<T>(s: seq<T>, f: T -> int, g: T -> int)
    requires forall x | x in s :: f(x) <= g(x)
    ensures Sum(s, f) <= Sum(s, g)
  {
    if |s| != 0 {
      SumLess(s[..|s| - 1], f, g);
    }
  }

  lemma {:induction false} SumZero<T>(s: seq<T>, f: T -> int)
    requires forall x | x in s :: f(x) == 0
    ensures Sum(s, f) == 0
  {
    if |s| != 0 {
      SumZero(s[..|s| - 1], f);
    }
  }

  lemma {:induction false} SumNonNegative<T>(s: seq<T>, f: T -> int)
    requires forall x | x in s :: 0 <= f(x)
    ensures 0 <= Sum(s, f)
    ensures forall x | x in s :: f(x) <= Sum(s, f)
  {
    if |s| != 0 {
      SumNonNegative(s[..|s| - 1], f);
      assert forall x | x in s :: x in s[..|s| - 1] || x == s[|s| - 1];
    }
  }

  lemma {:induction false} SumAdds<T>(s: seq<T>, f: T -> int, g: T -> int, h: T -> int)
    requires forall x | x in s :: h(x) == f(x) + g(x)
    ensures Sum(s, h) == Sum(s, f) + Sum(s, g)
  {
    if |s| != 0 {
      SumAdds(s[..|s| - 1], f, g, h);
    }
  }

  ghost predicate Distinct<T>(s: seq<T>) {
    forall i, j | 0 <= i < j < |s| :: s[i] != s[j]
  }

  /** One key carries the whole weight: the sum over distinct keys of "w if it is this key". */
  lemma {:induction false} SumSingle<K>(keys: seq<K>, k: K, w: int, f: K -> int)
    requires Distinct(keys)
    requires k in keys
    requires forall x | x in keys :: f(x) == if x == k then w else 0
    ensures Sum(keys, f) == w
  {
    var last := keys[|keys| - 1];
    var front := keys[..|keys| - 1];
    if last == k {
      SumZero(front, f);
    } else {
      SumSingle(front, k, w, f);
    }
  }

  /** Fubini: adding up a table by rows is adding it up by columns. */
  lemma {:induction false} SumExchange<K, T>(keys: seq<K>, rows: seq<T>, across: K -> T -> int, down: T -> K -> int,
                                             group: K -> int, w: T -> int)
    requires forall k, x | k in keys && x in rows :: across(k)(x) == down(x)(k)
    requires forall k | k in keys :: group(k) == Sum(rows, across(k))
    requires forall x | x in rows :: Sum(keys, down(x)) == w(x)
    ensures Sum(keys, group) == Sum(rows, w)
  {
    if |rows| == 0 {
      SumZero(keys, group);
    } else {
      var front, last := rows[..|rows| - 1], rows[|rows| - 1];
      var group' := (k: K) => Sum(front, across(k));
      SumExchange(keys, front, across, down, group', w);
      SumAdds(keys, group', down(last), group);
    }
  }

  /** First row satisfying p. */
  function Find<T>(s: seq<T>, p: T -> bool): (r: Option<T>)
    ensures r.Some? ==> r.value in s && p(r.value)
    ensures r.None? ==> forall x | x in s :: !p(x)
  {
    if |s| == 0 then None
    else if p(s[0]) then Some(s[0])
    else
      var r := Find(s[1..], p);
      assert r.None? ==> forall x | x in s :: x == s[0] || x in s[1..];
      r
  }

  lemma {:induction false} FindSnoc<T>(s: seq<T>, x: T, p: T -> bool)
    ensures Find(s + [x], p) == if Find(s, p).Some? then Find(s, p) else if p(x) then Some(x) else None
  {
    if |s| != 0 && !p(s[0]) {
      FindSnoc(s[1..], x, p);
      assert (s + [x])[1..] == s[1..] + [x];
    }
  }

  function Exists<T>(s: seq<T>, p: T -> bool): (r: bool)
    ensures r <==> exists x | x in s :: p(x)
  {
    Find(s, p).Some?
  }

  /** The SQL WHERE clause. */
  function Filter<T>(s: seq<T>, p: T -> bool): seq<T> {
    if |s| == 0 then []
    else if p(s[|s| - 1]) then Filter(s[..|s| - 1], p) + [s[|s| - 1]]
    else Filter(s[..|s| - 1], p)
  }

  lemma {:induction false} FilterMembers<T>(s: seq<T>, p: T -> bool)
    ensures forall x | x in Filter(s, p) :: x in s && p(x)
    ensures forall x | x in s && p(x) :: x in Filter(s, p)
  {
    if |s| != 0 {
      FilterMembers(s[..|s| - 1], p);
      assert s == s[..|s| - 1] + [s[|s| - 1]];
    }
  }

  lemma FilterSnoc<T>(s: seq<T>, x: T, p: T -> bool)
    ensures Filter(s + [x], p) == if p(x) then Filter(s, p) + [x] else Filter(s, p)
  {
    assert (s + [x])[..|s|] == s;
  }

  lemma {:induction false} FilterAll<T>(s: seq<T>, p: T -> bool)
    requires forall x | x in s :: p(x)
    ensures Filter(s, p) == s
  {
    if |s| != 0 {
      assert s[|s| - 1] in s;
      FilterAll(s[..|s| - 1], p);
      assert s == s[..|s| - 1] + [s[|s| - 1]];
    }
  }

  lemma {:induction false} FilterNone<T>(s: seq<T>, p: T -> bool)
    requires forall x | x in s :: !p(x)
    ensures Filter(s, p) == []
  {
    if |s| != 0 { FilterNone(s[..|s| - 1], p); }
  }

  lemma {:induction false} FilterSame<T>(s: seq<T>, p: T -> bool, q: T -> bool)
    requires forall x | x in s :: p(x) == q(x)
    ensures Filter(s, p) == Filter(s, q)
  {
    if |s| != 0 {
      FilterSame(s[..|s| - 1], p, q);
    }
  }

  lemma {:induction false} SumFilter<T>(s: seq<T>, p: T -> bool, f: T -> int, g: T -> int)
    requires forall x | x in s :: g(x) == if p(x) then f(x) else 0
    ensures Sum(Filter(s, p), f) == Sum(s, g)
  {
    if |s| != 0 {
      var front, last := s[..|s| - 1], s[|s| - 1];
      SumFilter(front, p, f, g);
      if p(last) {
        SumSnoc(Filter(front, p), last, f);
      } else {
        assert Filter(s, p) == Filter(front, p);
      }
    }
  }

  function Map<A, B>(s: seq<A>, f: A -> B): (r: seq<B>)
    ensures |r| == |s|
    ensures forall i | 0 <= i < |s| :: r[i] == f(s[i])
  {
    seq(|s|, i requires 0 <= i < |s| => f(s[i]))
  }

  lemma {:induction false} SumMap<A, B>(s: seq<A>, f: A -> B, g: B -> int, h: A -> int)
    requires forall x | x in s :: h(x) == g(f(x))
    ensures Sum(Map(s, f), g) == Sum(s, h)
  {
    if |s| != 0 {
      var front := s[..|s| - 1];
      SumMap(front, f, g, h);
      assert Map(s, f)[..|s| - 1] == Map(front, f);
    }
  }
}
