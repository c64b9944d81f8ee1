/** The order in which an object's properties come back: from jsonb, and from a JavaScript object. */
module JsonbOrder {
  import opened Collections
  import opened Ordering

  // ---------- text as bytes ----------

  /** The UTF-8 encoding of one character. */
  function Utf8(c: char): (r: seq<nat>)
    ensures |r| != 0
  {
    var n := c as nat;
    if n < 0x80 then [n]
    else if n < 0x800 then [0xC0 + n / 0x40, 0x80 + n % 0x40]
    else if n < 0x1_0000 then [0xE0 + n / 0x1000, 0x80 + n / 0x40 % 0x40, 0x80 + n % 0x40]
    else [0xF0 + n / 0x4_0000, 0x80 + n / 0x1000 % 0x40, 0x80 + n / 0x40 % 0x40, 0x80 + n % 0x40]
  }

  function Bytes(s: string): seq<nat> {
    if |s| == 0 then [] else Utf8(s[0]) + Bytes(s[1..])
  }

  /** No character's encoding starts another's, so that bytes can be read back in one way only. */
  lemma Utf8Apart(a: char, b: char, x: seq<nat>, y: seq<nat>)
    requires Utf8(a) + x == Utf8(b) + y
    ensures a == b && x == y
  {
    var u, v := Utf8(a), Utf8(b);
    assert (u + x)[0] == u[0] && (v + y)[0] == v[0];
    SameLength(a, b);
    assert u == (u + x)[..|u|] == (v + y)[..|v|] == v;
    SameChar(a, b);
    assert x == (u + x)[|u|..] == (v + y)[|v|..] == y;
  }

  lemma SameLength(a: char, b: char)
    requires Utf8(a)[0] == Utf8(b)[0]
    ensures |Utf8(a)| == |Utf8(b)|
  {
  }

  lemma SameChar(a: char, b: char)
    requires Utf8(a) == Utf8(b)
    ensures a == b
  {
    var m, n := a as nat, b as nat;
    Digits(m);
    Digits(n);
    assert m == n;
  }

  /** A number is its base-64 digits. */
  lemma Digits(n: nat)
    ensures n == n / 0x40 * 0x40 + n % 0x40
    ensures n / 0x40 == n / 0x1000 * 0x40 + n / 0x40 % 0x40
    ensures n / 0x1000 == n / 0x4_0000 * 0x40 + n / 0x1000 % 0x40
  {
    assert n / 0x1000 == n / 0x40 / 0x40;
    assert n / 0x4_0000 == n / 0x1000 / 0x40;
  }

  lemma {:induction false} BytesApart(s: string, t: string)
    requires Bytes(s) == Bytes(t)
    ensures s == t
  {
    if |s| != 0 && |t| != 0 {
      Utf8Apart(s[0], t[0], Bytes(s[1..]), Bytes(t[1..]));
      BytesApart(s[1..], t[1..]);
      assert s == [s[0]] + s[1..] && t == [t[0]] + t[1..];
    }
  }

  // ---------- jsonb's order of keys ----------

  /** memcmp */
  predicate BytesBefore(a: seq<nat>, b: seq<nat>) {
    if |b| == 0 then false
    else if |a| == 0 then true
    else a[0] < b[0] || (a[0] == b[0] && BytesBefore(a[1..], b[1..]))
  }

  lemma {:induction false} BytesIrreflexive(a: seq<nat>)
    ensures !BytesBefore(a, a)
  {
    if |a| != 0 { BytesIrreflexive(a[1..]); }
  }

  lemma {:induction false} BytesTotal(a: seq<nat>, b: seq<nat>)
    requires a != b
    ensures BytesBefore(a, b) || BytesBefore(b, a)
  {
    if |a| != 0 && |b| != 0 && a[0] == b[0] {
      assert a == [a[0]] + a[1..] && b == [b[0]] + b[1..];
      BytesTotal(a[1..], b[1..]);
    }
  }

  lemma {:induction false} BytesTransitive(a: seq<nat>, b: seq<nat>, c: seq<nat>)
    requires BytesBefore(a, b) && BytesBefore(b, c)
    ensures BytesBefore(a, c)
  {
    if |a| != 0 && a[0] == b[0] == c[0] { BytesTransitive(a[1..], b[1..], c[1..]); }
  }

  /** Shorter keys first, keys of one length by their bytes. */
  predicate JsonbBefore(s: string, t: string) {
    |Bytes(s)| < |Bytes(t)| || (|Bytes(s)| == |Bytes(t)| && BytesBefore(Bytes(s), Bytes(t)))
  }

  lemma JsonbTotal(s: string, t: string)
    ensures !JsonbBefore(s, s)
    ensures s != t ==> JsonbBefore(s, t) || JsonbBefore(t, s)
  {
    BytesIrreflexive(Bytes(s));
    if s != t {
      if Bytes(s) == Bytes(t) { BytesApart(s, t); }
      BytesTotal(Bytes(s), Bytes(t));
    }
  }

  lemma JsonbTransitive(s: string, t: string, u: string)
    requires JsonbBefore(s, t) && JsonbBefore(t, u)
    ensures JsonbBefore(s, u)
  {
    if |Bytes(s)| == |Bytes(t)| == |Bytes(u)| { BytesTransitive(Bytes(s), Bytes(t), Bytes(u)); }
  }

  lemma {:induction false} AsciiBytes(s: string)
    requires forall i | 0 <= i < |s| :: s[i] < '\U{80}'
    ensures |Bytes(s)| == |s|
  {
    if |s| != 0 { AsciiBytes(s[1..]); }
  }

  // ---------- a JavaScript object's order of properties ----------

  predicate Digit(c: char) { '0' <= c <= '9' }

  function Value(c: char): nat
    requires Digit(c)
  {
    c as int - '0' as int
  }

  function Numeral(s: string): nat
    requires forall c | c in s :: Digit(c)
  {
    if |s| == 0 then 0
    else
      assert s[|s| - 1] in s;
      10 * Numeral(s[..|s| - 1]) + Value(s[|s| - 1])
  }

  /** The decimal text of a number, without leading zeros. */
  predicate Canonical(s: string) {
    |s| != 0 && (forall c | c in s :: Digit(c)) && (|s| > 1 ==> s[0] != '0')
  }

  /** An array index: properties so named come first, in ascending order. */
  predicate IsIndex(s: string) {
    Canonical(s) && Numeral(s) < 0xFFFF_FFFF
  }

  predicate IndexBefore(s: string, t: string) {
    Canonical(s) && Canonical(t) && Numeral(s) < Numeral(t)
  }

  lemma {:induction false} NumeralPositive(s: string)
    requires Canonical(s) && |s| > 1
    ensures Numeral(s) >= 10
  {
    var front := s[..|s| - 1];
    assert front[0] == s[0] && forall c | c in front :: c in s;
    if |front| > 1 { NumeralPositive(front); } else { assert front[..0] == "" && Numeral("") == 0 && s[0] in s; }
    assert Numeral(front) >= 1;
  }

  lemma {:induction false} NumeralApart(s: string, t: string)
    requires Canonical(s) && Canonical(t) && Numeral(s) == Numeral(t)
    ensures s == t
    decreases |s|
  {
    assert s[|s| - 1] in s && t[|t| - 1] in t;
    if |s| == 1 || |t| == 1 {
      if |s| > 1 { NumeralPositive(s); }
      if |t| > 1 { NumeralPositive(t); }
      assert s[..0] == t[..0] == "";
      assert s == [s[0]] && t == [t[0]];
    } else {
      var f, g := s[..|s| - 1], t[..|t| - 1];
      assert f[0] == s[0] && g[0] == t[0];
      assert (forall c | c in f :: c in s) && (forall c | c in g :: c in t);
      NumeralApart(f, g);
      assert s == f + [s[|s| - 1]] && t == g + [t[|t| - 1]];
    }
  }

  // ---------- objects written to jsonb and read back ----------

  type Entry<V> = (string, V)

  function IndexEntry<V>(): Entry<V> -> bool { (e: Entry<V>) => IsIndex(e.0) }
  function NamedEntry<V>(): Entry<V> -> bool { (e: Entry<V>) => !IsIndex(e.0) }

  predicate JsonbLess<V>(a: Entry<V>, b: Entry<V>) { JsonbBefore(a.0, b.0) }
  predicate IndexLess<V>(a: Entry<V>, b: Entry<V>) { IndexBefore(a.0, b.0) }

  /** The own properties of an object that was given its entries in this order: what JSON.stringify
      writes, one after the other. */
  function Properties<V>(entries: seq<Entry<V>>): seq<Entry<V>> {
    Sort(Filter(entries, IndexEntry()), IndexLess) + Filter(entries, NamedEntry())
  }

  /** The entries as jsonb keeps them. */
  function Stored<V>(entries: seq<Entry<V>>): seq<Entry<V>> {
    Sort(entries, JsonbLess)
  }

  ghost predicate DistinctKeys<V>(entries: seq<Entry<V>>) {
    forall i, j | 0 <= i < j < |entries| :: entries[i].0 != entries[j].0
  }

  /** Apart from array indices, the keys stand in jsonb's order. */
  predicate InJsonbOrder<V>(entries: seq<Entry<V>>) {
    forall i, j | 0 <= i < j < |entries| && !IsIndex(entries[i].0) && !IsIndex(entries[j].0) ::
      JsonbBefore(entries[i].0, entries[j].0)
  }

  lemma KeysTell<V>(entries: seq<Entry<V>>, x: Entry<V>, y: Entry<V>)
    requires DistinctKeys(entries) && x in entries && y in entries && x.0 == y.0
    ensures x == y
  {
    var i :| 0 <= i < |entries| && entries[i] == x;
    var j :| 0 <= j < |entries| && entries[j] == y;
  }

  lemma JsonbDecides<V>(entries: seq<Entry<V>>)
    requires DistinctKeys(entries)
    ensures Distinct(entries) && Decides(entries, JsonbLess)
  {
    forall x | x in entries ensures !JsonbLess(x, x) { JsonbTotal(x.0, x.0); }
    forall x, y | x in entries && y in entries && x != y ensures JsonbLess(x, y) || JsonbLess(y, x) {
      if x.0 == y.0 { KeysTell(entries, x, y); }
      JsonbTotal(x.0, y.0);
    }
    forall x, y, z | x in entries && y in entries && z in entries && JsonbLess(x, y) && JsonbLess(y, z)
      ensures JsonbLess(x, z)
    {
      JsonbTransitive(x.0, y.0, z.0);
    }
  }

  lemma IndexDecides<V>(entries: seq<Entry<V>>, indices: seq<Entry<V>>)
    requires DistinctKeys(entries) && forall x | x in indices :: x in entries && IsIndex(x.0)
    ensures Decides(indices, IndexLess)
  {
    forall x, y | x in indices && y in indices && x != y ensures IndexLess(x, y) || IndexLess(y, x) {
      if Numeral(x.0) == Numeral(y.0) {
        NumeralApart(x.0, y.0);
        KeysTell(entries, x, y);
      }
    }
  }

  /** Coming back from jsonb does not change the order of array indices. */
  lemma IndicesSame<V>(entries: seq<Entry<V>>)
    requires DistinctKeys(entries)
    ensures Sort(Filter(Stored(entries), IndexEntry()), IndexLess) == Sort(Filter(entries, IndexEntry()), IndexLess)
  {
    var given, back := Filter(entries, IndexEntry()), Filter(Stored(entries), IndexEntry());
    JsonbDecides(entries);
    SortMembers(entries, JsonbLess);
    SortIncreasing(entries, JsonbLess);
    IncreasingDistinct(entries, Stored(entries));
    FilterMembers(entries, IndexEntry());
    FilterMembers(Stored(entries), IndexEntry());
    FilterKeepsDistinct(entries, IndexEntry());
    FilterKeepsDistinct(Stored(entries), IndexEntry());
    IndexDecides(entries, given);
    IndexDecides(entries, back);
    SortIncreasing(given, IndexLess);
    SortMembers(given, IndexLess);
    SortUnique(back, Sort(given, IndexLess), IndexLess);
  }

  lemma IncreasingDistinct<V>(entries: seq<Entry<V>>, sorted: seq<Entry<V>>)
    requires Decides(entries, JsonbLess) && Increasing(sorted, JsonbLess) && forall x | x in sorted :: x in entries
    ensures Distinct(sorted)
  {
    forall i, j | 0 <= i < j < |sorted| ensures sorted[i] != sorted[j] {
      assert sorted[i] in sorted && JsonbLess(sorted[i], sorted[j]);
    }
  }

  lemma {:induction false} OrderOfNamed<V>(entries: seq<Entry<V>>)
    ensures Increasing(Filter(entries, NamedEntry()), JsonbLess) <==> InJsonbOrder(entries)
  {
    if |entries| != 0 {
      var front, last := entries[..|entries| - 1], entries[|entries| - 1];
      OrderOfNamed(front);
      FilterMembers(front, NamedEntry());
      assert entries == front + [last];
      OrderSnoc(front, last);
      if !IsIndex(last.0) { IncreasingSnoc(Filter(front, NamedEntry()), last); }
    }
  }

  lemma IncreasingSnoc<V>(s: seq<Entry<V>>, x: Entry<V>)
    ensures Increasing(s + [x], JsonbLess) <==> Increasing(s, JsonbLess) && forall y | y in s :: JsonbLess(y, x)
  {
    var t := s + [x];
    if Increasing(t, JsonbLess) {
      forall i, j | 0 <= i < j < |s| ensures JsonbLess(s[i], s[j]) { assert s[i] == t[i] && s[j] == t[j]; }
      forall y | y in s ensures JsonbLess(y, x) {
        var i :| 0 <= i < |s| && s[i] == y;
        assert t[i] == y && t[|s|] == x;
      }
    }
  }

  ghost predicate AllBefore<V>(s: seq<Entry<V>>, x: Entry<V>) {
    forall y | y in s :: !IsIndex(y.0) ==> JsonbBefore(y.0, x.0)
  }

  lemma OrderSnoc<V>(front: seq<Entry<V>>, last: Entry<V>)
    ensures InJsonbOrder(front + [last]) <==> InJsonbOrder(front) && (!IsIndex(last.0) ==> AllBefore(front, last))
  {
    var s := front + [last];
    if InJsonbOrder(s) {
      forall i, j | 0 <= i < j < |front| && !IsIndex(front[i].0) && !IsIndex(front[j].0)
        ensures JsonbBefore(front[i].0, front[j].0)
      {
        assert s[i] == front[i] && s[j] == front[j];
      }
      forall y | y in front && !IsIndex(y.0) && !IsIndex(last.0) ensures JsonbBefore(y.0, last.0) {
        var i :| 0 <= i < |front| && front[i] == y;
        assert s[i] == y && s[|front|] == last;
      }
    }
  }

  /** The text of an object equals the text it has once read back from jsonb if and only if its keys
      already stand in jsonb's order. */
  lemma SameTextBack<V>(entries: seq<Entry<V>>)
    requires DistinctKeys(entries)
    ensures Properties(entries) == Properties(Stored(entries)) <==> InJsonbOrder(entries)
  {
    var named := Filter(entries, NamedEntry());
    JsonbDecides(entries);
    IndicesSame(entries);
    FilterOfSort(entries, NamedEntry(), JsonbLess);
    FilterMembers(entries, NamedEntry());
    FilterKeepsDistinct(entries, NamedEntry());
    DecidesSome(entries, named, JsonbLess);
    OrderOfNamed(entries);
    SortIncreasing(named, JsonbLess);
    if InJsonbOrder(entries) { SortUnique(named, named, JsonbLess); }
    var indices := Sort(Filter(entries, IndexEntry()), IndexLess);
    assert Properties(entries)[|indices|..] == named;
    assert Properties(Stored(entries))[|indices|..] == Sort(named, JsonbLess);
  }

  lemma PropertyMembers<V>(entries: seq<Entry<V>>)
    ensures forall x :: x in Properties(entries) <==> x in entries
    ensures forall x :: x in Properties(Stored(entries)) <==> x in entries
  {
    SortMembers(entries, JsonbLess);
    EachPropertyOnce(entries);
    EachPropertyOnce(Stored(entries));
  }

  lemma EachPropertyOnce<V>(entries: seq<Entry<V>>)
    ensures forall x :: x in Properties(entries) <==> x in entries
  {
    FilterMembers(entries, IndexEntry());
    FilterMembers(entries, NamedEntry());
    SortMembers(Filter(entries, IndexEntry()), IndexLess);
  }

  /** Two keys in the wrong order come back swapped. */
  lemma TwoSwapped<V>(x: Entry<V>, y: Entry<V>)
    requires JsonbBefore(y.0, x.0) && !IsIndex(x.0) && !IsIndex(y.0)
    ensures DistinctKeys([x, y]) && Stored([x, y]) == [y, x] && !InJsonbOrder([x, y])
  {
    var s := [x, y];
    JsonbTotal(x.0, y.0);
    JsonbTotal(y.0, x.0);
    assert s[1..] == [y] && [y][1..] == [] && Sort([y], JsonbLess) == [y];
    assert JsonbLess(y, x) && Insert(x, [], JsonbLess) == [x];
    assert Insert(x, [y], JsonbLess) == [y, x];
    if JsonbBefore(x.0, y.0) { JsonbTransitive(x.0, y.0, x.0); }
    assert s[0] == x && s[1] == y && !JsonbBefore(s[0].0, s[1].0);
  }

  /** Objects with the same keys and the same text have the same values. */
  lemma TextTells<V>(a: seq<Entry<V>>, b: seq<Entry<V>>)
    requires DistinctKeys(b) && |a| == |b| && forall i | 0 <= i < |a| :: a[i].0 == b[i].0
    requires Properties(a) == Properties(Stored(b))
    ensures a == b
  {
    PropertyMembers(a);
    PropertyMembers(b);
    forall i | 0 <= i < |a| ensures a[i] == b[i] {
      assert a[i] in a;
      assert a[i] in b && b[i] in b;
      KeysTell(b, a[i], b[i]);
    }
  }
}
