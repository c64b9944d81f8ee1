/** Generation refines the canonical recheck: the loop's choice of agreement is SQL's, and the rows
    it writes are the rows the recheck recomputes, exactly when the times and dates allow. */
module CompensationRecheck {
  import opened Collections
  import opened Ordering
  import opened Compensation

  // ---------- first match in a sorted list is the least match ----------

  function Head<T>(s: seq<T>): Option<T> {
    if |s| == 0 then None else Some(s[0])
  }

  lemma {:induction false} FindIsHead<T>(s: seq<T>, p: T -> bool)
    ensures Find(s, p) == Head(Filter(s, p))
  {
    if |s| != 0 {
      var front, x := s[..|s| - 1], s[|s| - 1];
      assert s == front + [x];
      FindIsHead(front, p);
      FindSnoc(front, x, p);
    }
  }

  lemma {:induction false} FilterTwice<T>(s: seq<T>, p: T -> bool, q: T -> bool)
    requires forall x | x in s && q(x) :: p(x)
    ensures Filter(Filter(s, p), q) == Filter(s, q)
  {
    if |s| != 0 {
      var front, x := s[..|s| - 1], s[|s| - 1];
      FilterTwice(front, p, q);
      assert x in s;
      if p(x) { FilterSnoc(Filter(front, p), x, q); }
    }
  }

  // ---------- the two orders ----------

  lemma ListDecides(s: seq<Agreement>)
    requires forall i, j | 0 <= i < j < |s| :: s[i].id != s[j].id
    ensures Distinct(s) && Decides(s, ListOrder)
  {
    forall x, y | x in s && y in s && x != y ensures ListOrder(x, y) || ListOrder(y, x) {
      var i :| 0 <= i < |s| && s[i] == x;
      var j :| 0 <= j < |s| && s[j] == y;
    }
  }

  /** Among the agreements that apply to one session, the list's order is the lateral query's. */
  lemma OrdersAgree(s: seq<Agreement>, w: Session)
    requires Distinct(s) && Decides(s, ListOrder) && forall a | a in s :: Applies(a, w)
    ensures Sort(s, ListOrder) == Sort(s, LateralOrder)
  {
    var sorted := Sort(s, ListOrder);
    SortIncreasing(s, ListOrder);
    SortMembers(s, ListOrder);
    forall i, j | 0 <= i < j < |sorted| ensures LateralOrder(sorted[i], sorted[j]) {
      assert sorted[i] in sorted && sorted[j] in sorted && ListOrder(sorted[i], sorted[j]);
    }
    LateralDecides(s, w);
    SortUnique(s, sorted, LateralOrder);
  }

  lemma LateralDecides(s: seq<Agreement>, w: Session)
    requires Decides(s, ListOrder) && forall a | a in s :: Applies(a, w)
    ensures Decides(s, LateralOrder)
  {
    forall x, y | x in s && y in s && x != y ensures LateralOrder(x, y) || LateralOrder(y, x) {
      assert ListOrder(x, y) || ListOrder(y, x);
    }
  }

  /** The first match in the sorted list is the lateral query's LIMIT 1. */
  lemma SameAgreement(src: Sources, p: Dates, w: Session)
    requires Tables(src) && p.start <= w.date <= p.end
    ensures AgreementFor(src, p, w) == LateralAgreement(src, w)
  {
    var all, offered, applicable := src.agreements, Filter(src.agreements, Overlapping(p)),
      Filter(src.agreements, Applicable(w));
    ListDecides(all);
    FilterMembers(all, Overlapping(p));
    FilterMembers(all, Applicable(w));
    FilterKeepsDistinct(all, Overlapping(p));
    FilterKeepsDistinct(all, Applicable(w));
    DecidesSome(all, offered, ListOrder);
    DecidesSome(all, applicable, ListOrder);
    FindIsHead(Sort(offered, ListOrder), Applicable(w));
    FilterOfSort(offered, Applicable(w), ListOrder);
    FilterTwice(all, Overlapping(p), Applicable(w));
    OrdersAgree(applicable, w);
  }

  // ---------- collected rows ----------

  lemma {:induction false} CollectMember<T(!new)>(s: seq<Session>, f: Session -> Option<T>)
    ensures forall x :: x in Collect(s, f) <==> exists w | w in s :: f(w) == Some(x)
  {
    if |s| != 0 {
      var front, last := s[..|s| - 1], s[|s| - 1];
      CollectMember(front, f);
      assert s == front + [last];
    }
  }

  lemma {:induction false} CollectSame<T>(s: seq<Session>, f: Session -> Option<T>, g: Session -> Option<T>)
    requires forall w | w in s :: f(w) == g(w)
    ensures Collect(s, f) == Collect(s, g)
  {
    if |s| != 0 {
      assert s[|s| - 1] in s;
      CollectSame(s[..|s| - 1], f, g);
    }
  }

  function Row<T>(f: Session -> Option<T>, w: Session): multiset<T> {
    if f(w).Some? then multiset{f(w).value} else multiset{}
  }

  lemma {:induction false} CollectConcat<T>(s: seq<Session>, t: seq<Session>, f: Session -> Option<T>)
    ensures multiset(Collect(s + t, f)) == multiset(Collect(s, f)) + multiset(Collect(t, f))
  {
    if |t| == 0 {
      assert s + t == s;
    } else {
      var front, x := t[..|t| - 1], t[|t| - 1];
      assert (s + t)[..|s + t| - 1] == s + front;
      CollectConcat(s, front, f);
    }
  }

  lemma CollectOne<T>(w: Session, s: seq<Session>, f: Session -> Option<T>)
    ensures multiset(Collect([w] + s, f)) == Row(f, w) + multiset(Collect(s, f))
  {
    CollectConcat([w], s, f);
    assert Collect([w][..0], f) == [];
  }

  lemma {:induction false} CollectInsert<T>(w: Session, s: seq<Session>, less: (Session, Session) -> bool,
                                            f: Session -> Option<T>)
    ensures multiset(Collect(Insert(w, s, less), f)) == Row(f, w) + multiset(Collect(s, f))
  {
    CollectOne(w, s, f);
    if |s| != 0 && less(s[0], w) {
      CollectInsert(w, s[1..], less, f);
      CollectOne(s[0], Insert(w, s[1..], less), f);
      CollectOne(s[0], s[1..], f);
      assert s == [s[0]] + s[1..];
    }
  }

  /** The order sessions are read in does not matter to the rows. */
  lemma {:induction false} CollectSort<T>(s: seq<Session>, less: (Session, Session) -> bool, f: Session -> Option<T>)
    ensures multiset(Collect(Sort(s, less), f)) == multiset(Collect(s, f))
  {
    if |s| != 0 {
      CollectSort(s[1..], less, f);
      CollectInsert(s[0], Sort(s[1..], less), less, f);
      CollectOne(s[0], s[1..], f);
      assert s == [s[0]] + s[1..];
    }
  }

  // ---------- minutes ----------

  /** Cutting the seconds off both times and rounding the exact duration give the same minutes if
      and only if the seconds of end and start differ by less than half a minute, either way. */
  lemma MinutesAgree(w: Session)
    ensures CutMinutes(w) == RoundedMinutes(w) <==> -30 <= w.end % 60 - w.start % 60 < 30
  {
    var cut, skew := CutMinutes(w), w.end % 60 - w.start % 60;
    assert w.end as int - w.start as int == 60 * cut + skew;
    if -30 <= skew < 30 {
      assert 60 * cut <= w.end as int - w.start as int + 30 < 60 * (cut + 1);
    }
  }

  predicate Aligned(w: Session) {
    -30 <= w.end % 60 - w.start % 60 < 30
  }

  /** The hourly amount is the exact one rounded to the nearest dong, halves up. */
  lemma AmountRounds(rate: Rate, minutes: int)
    requires 0 < minutes
    ensures var a := Amount(rate, PerHour, minutes); 60 * a - 30 <= rate * minutes < 60 * a + 30
    ensures Amount(rate, PerHour, minutes + 60) == Amount(rate, PerHour, minutes) + rate
    ensures Amount(rate, PerSession, minutes) == rate
  {
    assert rate * (minutes + 60) + 30 == (rate * minutes + 30) + rate * 60;
  }

  // ---------- the rows agree ----------

  lemma InPeriodRows(src: Sources, p: Dates)
    ensures forall w | w in Filter(src.sessions, InPeriod(p)) :: w in src.sessions && Payable(p, w)
    ensures forall w | w in src.sessions && Payable(p, w) :: w in Filter(src.sessions, InPeriod(p))
  {
    FilterMembers(src.sessions, InPeriod(p));
  }

  /** What generation pays for, session by session. */
  predicate Paid(src: Sources, p: Dates, w: Session) {
    PaidItem(src, p)(w).Some?
  }

  ghost predicate AllAligned(src: Sources, p: Dates) {
    forall w | w in src.sessions && Payable(p, w) && Paid(src, p, w) :: Aligned(w)
  }

  lemma SameUnresolved(src: Sources, p: Dates)
    requires Tables(src)
    ensures multiset(UnresolvedRows(src, p)) == multiset(ExpectedUnresolved(src, p))
  {
    var s := Filter(src.sessions, InPeriod(p));
    InPeriodRows(src, p);
    CollectSort(s, ByDate, UnpaidRow(src, p));
    forall w | w in s ensures UnpaidRow(src, p)(w) == ExpectedUnpaid(src)(w) { SameAgreement(src, p, w); }
    CollectSame(s, UnpaidRow(src, p), ExpectedUnpaid(src));
  }

  lemma AlignedSameItem(src: Sources, p: Dates, w: Session)
    requires Tables(src) && Payable(p, w)
    ensures Paid(src, p, w) ==> (PaidItem(src, p)(w) == ExpectedItem(src)(w) <==> Aligned(w))
    ensures !Paid(src, p, w) ==> ExpectedItem(src)(w).None?
  {
    SameAgreement(src, p, w);
    MinutesAgree(w);
  }

  lemma OneSession(src: Sources, v: Session, w: Session)
    requires Tables(src) && v in src.sessions && w in src.sessions && v.id == w.id
    ensures v == w
  {
    var i :| 0 <= i < |src.sessions| && src.sessions[i] == v;
    var j :| 0 <= j < |src.sessions| && src.sessions[j] == w;
  }

  lemma MisalignedDiffers(src: Sources, p: Dates, w: Session)
    requires Tables(src) && w in src.sessions && Payable(p, w) && Paid(src, p, w) && !Aligned(w)
    ensures PaidItem(src, p)(w).value in Collect(Filter(src.sessions, InPeriod(p)), PaidItem(src, p))
    ensures forall y | y in ExpectedSessions(src, p) :: Compared(y) != Compared(PaidItem(src, p)(w).value)
  {
    var s, x := Filter(src.sessions, InPeriod(p)), PaidItem(src, p)(w).value;
    InPeriodRows(src, p);
    CollectMember(s, PaidItem(src, p));
    CollectMember(s, ExpectedItem(src));
    MinutesAgree(w);
    forall y | y in ExpectedSessions(src, p) ensures Compared(y) != Compared(x) {
      var v :| v in s && ExpectedItem(src)(v) == Some(y);
      if v.id == w.id { OneSession(src, v, w); }
    }
  }

  lemma WithoutOne<T>(t: seq<T>, k: nat)
    requires k < |t|
    ensures multiset(t[..k] + t[k + 1..]) == multiset(t) - multiset{t[k]}
  {
    assert t == t[..k] + [t[k]] + t[k + 1..];
  }

  lemma MapWithoutOne<A, B>(t: seq<A>, k: nat, f: A -> B)
    requires k < |t|
    ensures multiset(Map(t, f)) == multiset(Map(t[..k] + t[k + 1..], f)) + multiset{f(t[k])}
  {
    WithoutOne(Map(t, f), k);
    assert Map(t[..k] + t[k + 1..], f) == Map(t, f)[..k] + Map(t, f)[k + 1..];
    assert Map(t, f)[k] in multiset(Map(t, f));
  }

  lemma {:induction false} MapMultiset<A, B>(s: seq<A>, t: seq<A>, f: A -> B)
    requires multiset(s) == multiset(t)
    ensures multiset(Map(s, f)) == multiset(Map(t, f))
  {
    if |s| == 0 {
      assert |multiset(t)| == |t|;
    } else {
      var n, x := |s| - 1, s[|s| - 1];
      assert x in multiset(t);
      var k :| 0 <= k < |t| && t[k] == x;
      WithoutOne(s, n);
      WithoutOne(t, k);
      MapMultiset(s[..n] + s[n + 1..], t[..k] + t[k + 1..], f);
      MapWithoutOne(s, n, f);
      MapWithoutOne(t, k, f);
    }
  }

  /** What the recheck compares. */
  function ComparedRows(s: seq<Item>): multiset<Item> {
    multiset(Map(s, AsCompared()))
  }

  lemma ComparedMember(s: seq<Item>, x: Item)
    requires x in s
    ensures Compared(x) in ComparedRows(s)
  {
    var i :| 0 <= i < |s| && s[i] == x;
    assert Map(s, AsCompared())[i] == Compared(x);
  }

  lemma ComparedFrom(s: seq<Item>, k: Item)
    requires k in ComparedRows(s)
    ensures exists y | y in s :: Compared(y) == k
  {
    var i :| 0 <= i < |s| && Map(s, AsCompared())[i] == k;
    assert s[i] in s;
  }

  /** The session items generation writes are those the recheck expects, as it compares them, if and
      only if every paid session's times agree in their seconds to within half a minute. */
  lemma SessionsCanonical(src: Sources, p: Dates)
    requires Tables(src)
    ensures ComparedRows(SessionItems(src, p)) == ComparedRows(ExpectedSessions(src, p)) <==> AllAligned(src, p)
  {
    var s := Filter(src.sessions, InPeriod(p));
    InPeriodRows(src, p);
    CollectSort(s, ByDate, PaidItem(src, p));
    if AllAligned(src, p) {
      forall w | w in s ensures PaidItem(src, p)(w) == ExpectedItem(src)(w) { AlignedSameItem(src, p, w); }
      CollectSame(s, PaidItem(src, p), ExpectedItem(src));
      MapMultiset(SessionItems(src, p), ExpectedSessions(src, p), AsCompared());
    } else {
      var w :| w in src.sessions && Payable(p, w) && Paid(src, p, w) && !Aligned(w);
      var x := PaidItem(src, p)(w).value;
      MisalignedDiffers(src, p, w);
      assert x in multiset(SessionItems(src, p));
      ComparedMember(SessionItems(src, p), x);
      if Compared(x) in ComparedRows(ExpectedSessions(src, p)) { ComparedFrom(ExpectedSessions(src, p), Compared(x)); }
    }
  }

  /** Times that the services accept: hours and minutes. */
  predicate WholeMinutes(w: Session) {
    w.start % 60 == 0 && w.end % 60 == 0
  }

  lemma WholeIsAligned(src: Sources, p: Dates)
    requires forall w | w in src.sessions :: WholeMinutes(w)
    ensures AllAligned(src, p)
  {}

  // ---------- fixed-class items ----------

  ghost predicate AllCovered(src: Sources, p: Dates, agreements: seq<Agreement>) {
    forall a | a in agreements && FixedDue(src, p, a) :: Covers(src, a)
  }

  lemma {:induction false} FixedCounts(src: Sources, p: Dates, agreements: seq<Agreement>)
    ensures |ExpectedFixed(src, p, agreements)| <= |FixedItems(src, p, agreements)|
    ensures AllCovered(src, p, agreements) ==> ExpectedFixed(src, p, agreements) == FixedItems(src, p, agreements)
    ensures !AllCovered(src, p, agreements) ==> |ExpectedFixed(src, p, agreements)| < |FixedItems(src, p, agreements)|
  {
    if |agreements| != 0 {
      var front, last := agreements[..|agreements| - 1], agreements[|agreements| - 1];
      FixedCounts(src, p, front);
      assert agreements == front + [last];
    }
  }

  /** The fixed-class items agree if and only if every agreement that was paid for is in force on the
      day its class completed. */
  lemma FixedCanonical(src: Sources, p: Dates)
    ensures ComparedRows(FixedItems(src, p, src.agreements)) == ComparedRows(ExpectedFixed(src, p, src.agreements))
            <==> AllCovered(src, p, src.agreements)
  {
    FixedCounts(src, p, src.agreements);
    assert |ComparedRows(FixedItems(src, p, src.agreements))| == |FixedItems(src, p, src.agreements)|;
    assert |ComparedRows(ExpectedFixed(src, p, src.agreements))| == |ExpectedFixed(src, p, src.agreements)|;
  }

  // ---------- every session is counted once ----------

  predicate SkippedAsFixed(src: Sources, p: Dates, w: Session) {
    w.teacher.Some? && AgreementFor(src, p, w).Some? && AgreementFor(src, p, w).value.basis == FixedClass
  }

  lemma {:induction false} CollectCounts<A, B>(s: seq<Session>, f: Session -> Option<A>, g: Session -> Option<B>,
                                               h: Session -> bool)
    requires forall w | w in s ::
      (if f(w).Some? then 1 else 0) + (if g(w).Some? then 1 else 0) + (if h(w) then 1 else 0) == 1
    ensures |Collect(s, f)| + |Collect(s, g)| + |Filter(s, h)| == |s|
  {
    if |s| != 0 {
      assert s[|s| - 1] in s;
      CollectCounts(s[..|s| - 1], f, g, h);
    }
  }

  /** Nothing is lost or doubled: items, unresolved rows and sessions left to a fixed-class agreement
      add up to the completed sessions between the period's first and last day. */
  lemma SessionsAddUp(src: Sources, p: Dates)
    ensures |SessionItems(src, p)| + |UnresolvedRows(src, p)|
            + |Filter(Worked(src, p), (w: Session) => SkippedAsFixed(src, p, w))|
            == |Filter(src.sessions, (w: Session) => w.completed && p.start <= w.date <= p.end)|
  {
    FilterSame(src.sessions, InPeriod(p), (w: Session) => w.completed && p.start <= w.date <= p.end);
    CollectCounts(Worked(src, p), PaidItem(src, p), UnpaidRow(src, p), (w: Session) => SkippedAsFixed(src, p, w));
  }
}
